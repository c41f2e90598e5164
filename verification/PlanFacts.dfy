/** What each part of a sweep plan holds, entry by entry. */
module PlanFacts {
  import opened Text
  import opened Schema
  import opened SweepPlan
  import opened SweepState
  import opened SweepApply
  import opened SweepFrame

  lemma {:induction false} InsertsSpec(rows: seq<Row>, st: DbState)
    requires DistinctCrns(rows)
    ensures forall i | i in Inserts(rows, st) ::
      i.row in rows && !Known(i.row, st) && i.row.Key() in st.courseIds && i.courseId == st.courseIds[i.row.Key()]
    ensures forall r | r in rows && !Known(r, st) && r.Key() in st.courseIds ::
      SectionInsert(r, st.courseIds[r.Key()]) in Inserts(rows, st)
    ensures forall i, j | 0 <= i < j < |Inserts(rows, st)| ::
      Inserts(rows, st)[i].row.crn != Inserts(rows, st)[j].row.crn
  {
    if rows != [] {
      var n := |rows| - 1;
      InsertsSpec(rows[..n], st);
      assert rows == rows[..n] + [rows[n]];
      forall i | i in Inserts(rows[..n], st) ensures i.row.crn != rows[n].crn {
        var k :| 0 <= k < n && rows[k] == i.row;
      }
    }
  }

  lemma {:induction false} AppendsSpec(rows: seq<Row>, st: DbState)
    requires DistinctCrns(rows) && ViewOk(st.view)
    ensures forall a | a in InstructorAppends(rows, st) ::
      exists r :: r in rows && Appends(r, st) && a == (ExistingId(r, st), r.instructorRaw)
    ensures forall r | r in rows && Appends(r, st) ::
      (ExistingId(r, st), r.instructorRaw) in InstructorAppends(rows, st)
    ensures forall i, j | 0 <= i < j < |InstructorAppends(rows, st)| ::
      InstructorAppends(rows, st)[i].0 != InstructorAppends(rows, st)[j].0
  {
    hide InstructorChanged;
    if rows != [] {
      var n := |rows| - 1;
      AppendsSpec(rows[..n], st);
      assert rows == rows[..n] + [rows[n]];
      forall a | a in InstructorAppends(rows[..n], st) && Known(rows[n], st) ensures a.0 != ExistingId(rows[n], st) {
        var r :| r in rows[..n] && Appends(r, st) && a == (ExistingId(r, st), r.instructorRaw);
        var k :| 0 <= k < n && rows[k] == r;
      }
    }
  }

  lemma {:induction false} SnapshotsSpec(rows: seq<Row>, st: DbState)
    requires DistinctCrns(rows) && ViewOk(st.view)
    ensures forall a | a in SnapshotAppends(rows, st) ::
      exists r :: r in rows && Snapshots(r, st) && a == (ExistingId(r, st), SeatsOf(r.values))
    ensures forall r | r in rows && Snapshots(r, st) ::
      (ExistingId(r, st), SeatsOf(r.values)) in SnapshotAppends(rows, st)
    ensures forall i, j | 0 <= i < j < |SnapshotAppends(rows, st)| ::
      SnapshotAppends(rows, st)[i].0 != SnapshotAppends(rows, st)[j].0
  {
    hide SeatsOf;
    if rows != [] {
      var n := |rows| - 1;
      SnapshotsSpec(rows[..n], st);
      assert rows == rows[..n] + [rows[n]];
      forall a | a in SnapshotAppends(rows[..n], st) && Known(rows[n], st) ensures a.0 != ExistingId(rows[n], st) {
        var r :| r in rows[..n] && Snapshots(r, st) && a == (ExistingId(r, st), SeatsOf(r.values));
        var k :| 0 <= k < n && rows[k] == r;
      }
    }
  }

  lemma {:induction false} RestoresSpec(rows: seq<Row>, st: DbState)
    ensures forall id ::
      id in RestoreIds(rows, st) <==> exists r :: r in rows && Restores(r, st) && id == ExistingId(r, st)
  {
    if rows != [] {
      var n := |rows| - 1;
      RestoresSpec(rows[..n], st);
      assert forall r :: r in rows <==> r in rows[..n] || r == rows[n];
    }
  }

  /** A row's update is recorded under its section, whole and alone. */
  predicate UpdateRecorded(updates: map<nat, Values>, row: Row, st: DbState)
    requires Known(row, st)
  {
    var id := ExistingId(row, st);
    if Updates(row, st) then id in updates && updates[id] == ChangedFields(st.view.sections[row.crn].values, row.values)
    else id !in updates
  }

  ghost predicate UpdatesComeFrom(updates: map<nat, Values>, rows: seq<Row>, st: DbState) {
    forall id | id in updates :: exists r :: r in rows && Updates(r, st) && id == ExistingId(r, st)
  }

  lemma UpdateNext(before: map<nat, Values>, last: Row, row: Row, st: DbState)
    requires Known(row, st) && UpdateRecorded(before, row, st)
    requires Known(last, st) ==> ExistingId(row, st) != ExistingId(last, st)
    ensures UpdateRecorded(
      if Updates(last, st)
      then before[ExistingId(last, st) := ChangedFields(st.view.sections[last.crn].values, last.values)]
      else before, row, st)
  {
    hide ChangedFields;
  }

  lemma {:induction false} UpdatesSpec(rows: seq<Row>, st: DbState)
    requires DistinctCrns(rows) && ViewOk(st.view)
    ensures UpdatesComeFrom(FieldUpdates(rows, st), rows, st)
    ensures forall r | r in rows && Known(r, st) :: UpdateRecorded(FieldUpdates(rows, st), r, st)
  {
    hide ChangedFields, Updates;
    if rows != [] {
      var n := |rows| - 1;
      UpdatesSpec(rows[..n], st);
      assert rows == rows[..n] + [rows[n]];
      UpdatesOnlyBy(rows, st);
      var before := FieldUpdates(rows[..n], st);
      forall r | r in rows && Known(r, st) ensures UpdateRecorded(FieldUpdates(rows, st), r, st) {
        if r in rows[..n] {
          OtherSection(rows, st, r);
          UpdateNext(before, rows[n], r, st);
        } else {
          LastUpdate(rows, st);
        }
      }
    }
  }

  lemma OtherSection(rows: seq<Row>, st: DbState, r: Row)
    requires DistinctCrns(rows) && ViewOk(st.view) && rows != [] && r in rows[..|rows| - 1] && Known(r, st)
    ensures var last := rows[|rows| - 1]; Known(last, st) ==> ExistingId(r, st) != ExistingId(last, st)
  {
    var k :| 0 <= k < |rows| - 1 && rows[k] == r;
  }

  lemma UpdatesOnlyBy(rows: seq<Row>, st: DbState)
    requires rows != [] && UpdatesComeFrom(FieldUpdates(rows[..|rows| - 1], st), rows[..|rows| - 1], st)
    ensures UpdatesComeFrom(FieldUpdates(rows, st), rows, st)
  {
    hide ChangedFields;
    var n := |rows| - 1;
    forall id | id in FieldUpdates(rows, st)
      ensures exists r :: r in rows && Updates(r, st) && id == ExistingId(r, st)
    {
      if id in FieldUpdates(rows[..n], st) {
        var r :| r in rows[..n] && Updates(r, st) && id == ExistingId(r, st);
        assert r in rows;
      } else {
        assert rows[n] in rows;
      }
    }
  }

  lemma LastUpdate(rows: seq<Row>, st: DbState)
    requires DistinctCrns(rows) && ViewOk(st.view) && rows != [] && Known(rows[|rows| - 1], st)
    requires UpdatesComeFrom(FieldUpdates(rows[..|rows| - 1], st), rows[..|rows| - 1], st)
    ensures UpdateRecorded(FieldUpdates(rows, st), rows[|rows| - 1], st)
  {
    hide ChangedFields, DistinctCrns, ViewOk, UpdatesComeFrom;
    NotRecordedYet(rows, st);
  }

  lemma NotRecordedYet(rows: seq<Row>, st: DbState)
    requires DistinctCrns(rows) && ViewOk(st.view) && rows != [] && Known(rows[|rows| - 1], st)
    requires UpdatesComeFrom(FieldUpdates(rows[..|rows| - 1], st), rows[..|rows| - 1], st)
    ensures ExistingId(rows[|rows| - 1], st) !in FieldUpdates(rows[..|rows| - 1], st)
  {
    hide ChangedFields, DistinctCrns, ViewOk;
    var n := |rows| - 1;
    forall r | r in rows[..n] && Known(r, st) ensures ExistingId(r, st) != ExistingId(rows[n], st) {
      OtherSection(rows, st, r);
    }
  }

  lemma {:induction false} UnknownSpec(rows: seq<Row>, st: DbState)
    ensures forall key :: key in Unknown(rows, st) <==> exists r :: r in rows && Unapplied(r, st) && r.Key() == key
  {
    if rows != [] {
      var n := |rows| - 1;
      UnknownSpec(rows[..n], st);
      assert forall r :: r in rows <==> r in rows[..n] || r == rows[n];
    }
  }

  /** The state the diff reads was loaded from this database. */
  ghost predicate LoadedFrom(st: DbState, db: Db, termId: nat)
    requires db.UniqueCrns()
  {
    st.view == ViewOf(db, termId) && forall k | k in st.courseIds :: st.courseIds[k] in db.courses
  }

  /** A known row stands for exactly one stored section of the term. */
  lemma KnownRow(row: Row, st: DbState, db: Db, termId: nat)
    requires db.UniqueCrns() && LoadedFrom(st, db, termId)
    ensures Known(row, st) ==>
      && ExistingId(row, st) in SectionIdsOf(db.sections, termId)
      && db.sections[ExistingId(row, st)].crn == row.crn
      && st.view.sections[row.crn] == ExistingOf(db.courses, ExistingId(row, st), db.sections[ExistingId(row, st)])
    ensures !Known(row, st) ==> forall id | id in SectionIdsOf(db.sections, termId) :: db.sections[id].crn != row.crn
  {
    hide ViewOfIds, ExistingOf;
    if Known(row, st) {
      ViewEntry(db, termId, row.crn);
    } else {
      forall id | id in SectionIdsOf(db.sections, termId) ensures db.sections[id].crn != row.crn {
        ViewHas(db, termId, id);
      }
    }
  }

  lemma RemovalsInTerm(rows: seq<Row>, db: Db, termId: nat)
    requires db.UniqueCrns()
    ensures Removals(rows, ViewOf(db, termId)) <= SectionIdsOf(db.sections, termId)
    ensures forall id | id in SectionIdsOf(db.sections, termId) ::
      id in Removals(rows, ViewOf(db, termId)) <==>
        ExistingOf(db.courses, id, db.sections[id]).inScope && db.sections[id].removedAt.None? &&
          db.sections[id].crn !in Crns(rows)
  {
    hide ViewOfIds, Crns;
    var view := ViewOf(db, termId);
    forall id | id in Removals(rows, view) ensures id in SectionIdsOf(db.sections, termId)
      && ExistingOf(db.courses, id, db.sections[id]).inScope && db.sections[id].removedAt.None?
      && db.sections[id].crn !in Crns(rows)
    {
      var c :| c in MissingCrns(rows, view) && view.sections[c].id == id;
      ViewEntry(db, termId, c);
    }
    forall id | id in SectionIdsOf(db.sections, termId)
      && ExistingOf(db.courses, id, db.sections[id]).inScope && db.sections[id].removedAt.None?
      && db.sections[id].crn !in Crns(rows)
      ensures id in Removals(rows, view)
    {
      ViewHas(db, termId, id);
      assert db.sections[id].crn in MissingCrns(rows, view);
    }
  }

  lemma WrittenIdsInTerm(rows: seq<Row>, st: DbState, db: Db, termId: nat)
    requires db.UniqueCrns() && LoadedFrom(st, db, termId) && DistinctCrns(rows)
    ensures FieldUpdates(rows, st).Keys <= SectionIdsOf(db.sections, termId)
    ensures AppendIds(InstructorAppends(rows, st)) <= SectionIdsOf(db.sections, termId)
    ensures AppendIds(SnapshotAppends(rows, st)) <= SectionIdsOf(db.sections, termId)
    ensures forall id | id in RestoreIds(rows, st) :: id in SectionIdsOf(db.sections, termId)
  {
    ViewIsOk(db, termId);
    AppendsSpec(rows, st);
    SnapshotsSpec(rows, st);
    RestoresSpec(rows, st);
    UpdatesSpec(rows, st);
    hide InstructorAppends, SnapshotAppends, RestoreIds, FieldUpdates, ViewOf, ViewOk, DistinctCrns,
      InstructorChanged, ChangedFields, SeatsOf, SectionIdsOf;
    forall row | row in rows && Known(row, st) ensures ExistingId(row, st) in SectionIdsOf(db.sections, termId) {
      KnownRow(row, st, db, termId);
    }
  }

  lemma InsertsAreNew(rows: seq<Row>, st: DbState, db: Db, termId: nat)
    requires db.UniqueCrns() && LoadedFrom(st, db, termId) && DistinctCrns(rows) && RowsOk(rows)
    ensures forall i | i in Inserts(rows, st) :: i.courseId in db.courses && Full(i.row.values)
    ensures forall i | i in Inserts(rows, st) ::
      forall id | id in SectionIdsOf(db.sections, termId) :: db.sections[id].crn != i.row.crn
  {
    InsertsSpec(rows, st);
    hide Inserts, ViewOf, DistinctCrns, SectionIdsOf, Full;
    forall i | i in Inserts(rows, st)
      ensures forall id | id in SectionIdsOf(db.sections, termId) :: db.sections[id].crn != i.row.crn
    {
      KnownRow(i.row, st, db, termId);
    }
  }

  /** Every plan the diff builds writes only sections of its term. */
  lemma PlanIsGood(rows: seq<Row>, st: DbState, db: Db, termId: nat)
    requires db.UniqueCrns() && LoadedFrom(st, db, termId)
    requires DistinctCrns(rows) && RowsOk(rows)
    ensures GoodPlan(db, termId, PlanOf(rows, st))
  {
    WrittenIdsInTerm(rows, st, db, termId);
    InsertsAreNew(rows, st, db, termId);
    InsertsSpec(rows, st);
    RemovalsInTerm(rows, db, termId);
    hide Inserts, InstructorAppends, SnapshotAppends, RestoreIds, FieldUpdates, Removals, Known, ViewOf,
      Full, DistinctCrns, SectionIdsOf, AppendIds, ExistingOf;
  }
}
