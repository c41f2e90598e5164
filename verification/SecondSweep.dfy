/** The same response swept twice: what the second plan still asks for. */
module SecondSweep {
  import opened Text
  import opened Instructors
  import opened Schema
  import opened SweepPlan
  import opened SweepState
  import opened SweepApply
  import opened SweepFrame
  import opened PlanFacts
  import opened StateReload
  import opened RankingCoherence
  import opened Convergence
  import opened Replan

  predicate HasNewerSnapshot(table: seq<SnapshotRow>, id: nat, at: int) {
    LatestSnapshot(table, id).Some? && LatestSnapshot(table, id).value.observedAt > at
  }

  lemma SameIdSameRow(rows: seq<Row>, st: DbState, x: Row, y: Row)
    requires DistinctCrns(rows) && ViewOk(st.view) && x in rows && y in rows && Known(x, st) && Known(y, st)
    requires ExistingId(x, st) == ExistingId(y, st)
    ensures x == y
  {
    SameRowByCrn(rows, x, y);
  }

  lemma AppendIndex(rows: seq<Row>, st: DbState, row: Row) returns (k: nat)
    requires DistinctCrns(rows) && ViewOk(st.view) && row in rows && Appends(row, st)
    ensures k < |PlanOf(rows, st).instructorAppends|
    ensures PlanOf(rows, st).instructorAppends[k] == (ExistingId(row, st), row.instructorRaw)
  {
    AppendsSpec(rows, st);
    hide InstructorAppends, InstructorChanged, DistinctCrns, ViewOk;
    k :| 0 <= k < |InstructorAppends(rows, st)| &&
      InstructorAppends(rows, st)[k] == (ExistingId(row, st), row.instructorRaw);
  }

  lemma NotAppended(rows: seq<Row>, st: DbState, row: Row)
    requires DistinctCrns(rows) && ViewOk(st.view) && row in rows && Known(row, st) && !Appends(row, st)
    ensures ExistingId(row, st) !in AppendIds(PlanOf(rows, st).instructorAppends)
  {
    AppendsSpec(rows, st);
    hide InstructorAppends, InstructorChanged, DistinctCrns, ViewOk;
    forall a | a in InstructorAppends(rows, st) ensures a.0 != ExistingId(row, st) {
      var r :| r in rows && Appends(r, st) && a == (ExistingId(r, st), r.instructorRaw);
      if a.0 == ExistingId(row, st) {
        SameIdSameRow(rows, st, r, row);
        assert false;
      }
    }
  }

  lemma SnapshotIndex(rows: seq<Row>, st: DbState, row: Row) returns (k: nat)
    requires DistinctCrns(rows) && ViewOk(st.view) && row in rows && Snapshots(row, st)
    ensures k < |PlanOf(rows, st).snapshotAppends|
    ensures PlanOf(rows, st).snapshotAppends[k] == (ExistingId(row, st), SeatsOf(row.values))
  {
    SnapshotsSpec(rows, st);
    hide SnapshotAppends, SeatsOf, DistinctCrns, ViewOk;
    k :| 0 <= k < |SnapshotAppends(rows, st)| &&
      SnapshotAppends(rows, st)[k] == (ExistingId(row, st), SeatsOf(row.values));
  }

  lemma NotSnapshotted(rows: seq<Row>, st: DbState, row: Row)
    requires DistinctCrns(rows) && ViewOk(st.view) && row in rows && Known(row, st) && !Snapshots(row, st)
    ensures ExistingId(row, st) !in AppendIds(PlanOf(rows, st).snapshotAppends)
  {
    SnapshotsSpec(rows, st);
    hide SnapshotAppends, SeatsOf, DistinctCrns, ViewOk;
    forall a | a in SnapshotAppends(rows, st) ensures a.0 != ExistingId(row, st) {
      var r :| r in rows && Snapshots(r, st) && a == (ExistingId(r, st), SeatsOf(r.values));
      if a.0 == ExistingId(row, st) {
        SameIdSameRow(rows, st, r, row);
        assert false;
      }
    }
  }

  lemma KnownIsOld(rows: seq<Row>, st: DbState, db: Db, termId: nat, row: Row)
    requires db.SectionsOk() && LoadedFrom(st, db, termId) && Known(row, st)
    ensures ViewOk(st.view) && ExistingId(row, st) !in NewIds(db, PlanOf(rows, st).inserts)
  {
    hide ViewOf, ViewOk, Inserts, Full;
    ViewIsOk(db, termId);
    KnownRow(row, st, db, termId);
    TermMember(db.sections, termId, ExistingId(row, st));
  }

  /** An instructor name is appended again exactly when the appended one did not become the latest. */
  lemma AppendsAgain(rows: seq<Row>, st: DbState, db: Db, termId: nat, at: int, w: Db, st2: DbState, row: Row)
    requires Swept(rows, st, db, termId, at, w, st2) && row in rows && Known(row, st)
    ensures Appends(row, st2) <==>
      Appends(row, st) && !Settles(ObservationsOf(db.instructors, ExistingId(row, st)), at)
  {
    hide ViewOf, Full, StateFrom, ObservationsOf, InstructorChanged, WrittenInstructors, WrittenSections,
      WrittenSnapshots, DistinctCrns, ViewOk, Settles, AppendIds, NewIds, LatestSnapshot, ChangedFields;
    hide Inserts, FieldUpdates, RestoreIds, Removals, InstructorAppends, SnapshotAppends, Unknown, Crns,
      SeatsOf;
    var id, plan := ExistingId(row, st), PlanOf(rows, st);
    KnownAgain(rows, st, db, termId, at, w, st2, row);
    KnownIsOld(rows, st, db, termId, row);
    if Appends(row, st) {
      var k := AppendIndex(rows, st, row);
      AppendsDistinct(rows, st);
      var o := ObservationsAfterAppend(db, plan, at, k);
      AppendSettles(ObservationsOf(db.instructors, id), o);
    } else {
      NotAppended(rows, st, row);
      StateKept(db, termId, plan, at, id);
    }
  }

  lemma AppendsDistinct(rows: seq<Row>, st: DbState)
    requires DistinctCrns(rows) && ViewOk(st.view)
    ensures var a := PlanOf(rows, st).instructorAppends; forall i, j | 0 <= i < j < |a| :: a[i].0 != a[j].0
    ensures var a := PlanOf(rows, st).snapshotAppends; forall i, j | 0 <= i < j < |a| :: a[i].0 != a[j].0
  {
    AppendsSpec(rows, st);
    SnapshotsSpec(rows, st);
  }

  /** Seats are recorded again exactly when a stored snapshot is newer than the sweep. */
  lemma SnapshotsAgain(rows: seq<Row>, st: DbState, db: Db, termId: nat, at: int, w: Db, st2: DbState, row: Row)
    requires Swept(rows, st, db, termId, at, w, st2) && row in rows && Known(row, st)
    ensures Snapshots(row, st2) <==>
      Snapshots(row, st) && HasNewerSnapshot(db.snapshots, ExistingId(row, st), at)
  {
    hide ViewOf, Full, StateFrom, ObservationsOf, InstructorChanged, WrittenInstructors, WrittenSections,
      WrittenSnapshots, DistinctCrns, ViewOk, AppendIds, NewIds, LatestSnapshot, ChangedFields, SeatsOf;
    hide Inserts, FieldUpdates, RestoreIds, Removals, InstructorAppends, SnapshotAppends, Unknown, Crns;
    var id, plan := ExistingId(row, st), PlanOf(rows, st);
    KnownAgain(rows, st, db, termId, at, w, st2, row);
    KnownIsOld(rows, st, db, termId, row);
    if Snapshots(row, st) {
      var k := SnapshotIndex(rows, st, row);
      AppendsDistinct(rows, st);
      SnapshotAfterAppend(db, plan, at, k);
    } else {
      NotSnapshotted(rows, st, row);
      SeatsKept(db, plan, at, id);
    }
  }

  // ---- Whole plans ----

  lemma {:induction false} NothingInserted(rows: seq<Row>, st: DbState)
    ensures Inserts(rows, st) == [] <==> forall r | r in rows :: !Insertable(r, st)
  {
    hide Known;
    if rows != [] {
      var n := |rows| - 1;
      NothingInserted(rows[..n], st);
      assert rows == rows[..n] + [rows[n]];
      assert rows[n] in rows;
    }
  }

  lemma {:induction false} NothingUpdated(rows: seq<Row>, st: DbState)
    ensures FieldUpdates(rows, st) == map[] <==> forall r | r in rows :: !Updates(r, st)
  {
    hide Updates, ChangedFields;
    if rows != [] {
      var n := |rows| - 1;
      NothingUpdated(rows[..n], st);
      assert rows == rows[..n] + [rows[n]];
      assert rows[n] in rows;
      if Updates(rows[n], st) {
        UpdateAdds(FieldUpdates(rows[..n], st), rows[n], st);
      }
    }
  }

  lemma {:induction false} NothingRestored(rows: seq<Row>, st: DbState)
    ensures RestoreIds(rows, st) == [] <==> forall r | r in rows :: !Restores(r, st)
  {
    hide Restores;
    if rows != [] {
      var n := |rows| - 1;
      NothingRestored(rows[..n], st);
      assert rows == rows[..n] + [rows[n]];
      assert rows[n] in rows;
    }
  }

  lemma {:induction false} NothingAppended(rows: seq<Row>, st: DbState)
    ensures InstructorAppends(rows, st) == [] <==> forall r | r in rows :: !Appends(r, st)
  {
    hide Appends;
    if rows != [] {
      var n := |rows| - 1;
      NothingAppended(rows[..n], st);
      assert rows == rows[..n] + [rows[n]];
      assert rows[n] in rows;
    }
  }

  lemma {:induction false} NothingSnapshotted(rows: seq<Row>, st: DbState)
    ensures SnapshotAppends(rows, st) == [] <==> forall r | r in rows :: !Snapshots(r, st)
  {
    hide Snapshots;
    if rows != [] {
      var n := |rows| - 1;
      NothingSnapshotted(rows[..n], st);
      assert rows == rows[..n] + [rows[n]];
      assert rows[n] in rows;
    }
  }

  lemma UpdateAdds(m: map<nat, Values>, row: Row, st: DbState)
    requires Updates(row, st)
    ensures m[ExistingId(row, st) := ChangedFields(st.view.sections[row.crn].values, row.values)] != map[]
  {
    hide ChangedFields;
    assert ExistingId(row, st) in m[ExistingId(row, st) := ChangedFields(st.view.sections[row.crn].values, row.values)];
  }

  lemma {:induction false} UnknownSame(rows: seq<Row>, st: DbState, st2: DbState)
    requires forall r | r in rows :: Unapplied(r, st) <==> Unapplied(r, st2)
    ensures Unknown(rows, st) == Unknown(rows, st2)
  {
    if rows != [] {
      var n := |rows| - 1;
      UnknownSame(rows[..n], st, st2);
      assert rows[n] in rows;
    }
  }

  /** A section the response does not list is not removed twice, and no other section is. */
  lemma NothingToRemove(rows: seq<Row>, st: DbState, db: Db, termId: nat, at: int, w: Db, st2: DbState)
    requires Swept(rows, st, db, termId, at, w, st2)
    ensures Removals(rows, st2.view) == {}
  {
    hide ViewOf, Full, WrittenSections, WrittenInstructors, WrittenSnapshots, Removals, Crns, GoodPlan,
      ExistingOf, SectionIdsOf;
    SweptPlan(rows, st, db, termId, at, w, st2);
    RemovalsInTerm(rows, w, termId);
    forall id | id in Removals(rows, st2.view) ensures false {
      TermMember(w.sections, termId, id);
      if id in db.sections {
        SameTerm(db, termId, PlanOf(rows, st), at, id);
        OldStays(rows, st, db, termId, at, id);
      } else {
        NewIsListed(rows, st, db, termId, at, id);
      }
    }
  }

  lemma NewIsListed(rows: seq<Row>, st: DbState, db: Db, termId: nat, at: int, id: nat)
    requires DistinctCrns(rows)
    requires var w := WrittenSections(db, termId, PlanOf(rows, st), at); id in w && id !in db.sections
    ensures WrittenSections(db, termId, PlanOf(rows, st), at)[id].crn in Crns(rows)
  {
    hide WrittenSections, Inserts, AfterSection, Full;
    NewCrn(db, termId, PlanOf(rows, st), at, id);
    InsertsSpec(rows, st);
  }

  lemma OldStays(rows: seq<Row>, st: DbState, db: Db, termId: nat, at: int, id: nat)
    requires db.SectionsOk() && LoadedFrom(st, db, termId) && DistinctCrns(rows) && id in db.sections
    requires db.sections[id].termId == termId
    ensures id in WrittenSections(db, termId, PlanOf(rows, st), at)
    ensures var s := WrittenSections(db, termId, PlanOf(rows, st), at)[id];
      !(ExistingOf(db.courses, id, s).inScope && s.removedAt.None? && s.crn !in Crns(rows))
  {
    hide ViewOf, Full, WrittenSections, Removals, Crns, SectionIdsOf, RestoreIds, FieldUpdates, Inserts,
      InstructorAppends, SnapshotAppends, Unknown, ExistingOf;
    var plan := PlanOf(rows, st);
    OldSection(db, termId, plan, at, id);
    TermMember(db.sections, termId, id);
    RemovalsInTerm(rows, db, termId);
    if db.sections[id].crn !in Crns(rows) {
      UnlistedUnplanned(rows, st, db, termId, id);
      ScopeByValues(db.courses, id, db.sections[id], AfterSection(db.sections[id], id, termId, plan, at));
    }
  }

  lemma ScopeByValues(courses: map<nat, Course>, id: nat, a: Section, b: Section)
    requires a.values == b.values && a.courseId == b.courseId
    ensures ExistingOf(courses, id, a).inScope == ExistingOf(courses, id, b).inScope
  {
  }

  lemma UnlistedUnplanned(rows: seq<Row>, st: DbState, db: Db, termId: nat, id: nat)
    requires db.SectionsOk() && LoadedFrom(st, db, termId) && DistinctCrns(rows) && id in db.sections
    requires db.sections[id].crn !in Crns(rows)
    ensures id !in RestoreIds(rows, st) && id !in FieldUpdates(rows, st)
  {
    hide ViewOf, Full, RestoreIds, FieldUpdates, SectionIdsOf, ViewOk;
    ViewIsOk(db, termId);
    RestoresSpec(rows, st);
    UpdatesSpec(rows, st);
    forall r | r in rows && Known(r, st) ensures ExistingId(r, st) != id {
      KnownRow(r, st, db, termId);
    }
  }

  lemma RowAgain(rows: seq<Row>, st: DbState, db: Db, termId: nat, at: int, w: Db, st2: DbState, row: Row)
    requires Swept(rows, st, db, termId, at, w, st2) && row in rows
    ensures !Insertable(row, st2) && !Updates(row, st2) && !Restores(row, st2)
    ensures Unapplied(row, st2) <==> Unapplied(row, st)
    ensures Appends(row, st2) <==> Appends(row, st) && !Settles(ObservationsOf(db.instructors, ExistingId(row, st)), at)
    ensures Snapshots(row, st2) <==> Snapshots(row, st) && HasNewerSnapshot(db.snapshots, ExistingId(row, st), at)
  {
    hide Swept, InstructorChanged, ChangedFields, SeatsOf, Settles, HasNewerSnapshot, ObservationsOf;
    if Known(row, st) {
      KnownAgain(rows, st, db, termId, at, w, st2, row);
      AppendsAgain(rows, st, db, termId, at, w, st2, row);
      SnapshotsAgain(rows, st, db, termId, at, w, st2, row);
    } else if row.Key() in st.courseIds {
      InsertedKnown(rows, st, db, termId, at, w, st2, row);
    } else {
      UnappliedStays(rows, st, db, termId, at, w, st2, row);
    }
  }

  /** Main result: planned again on the same rows, nothing is inserted, updated, restored or
      removed and the same courses stay unknown, whatever the time. A history grows again exactly
      where the first sweep's entry did not become the latest one. */
  lemma SecondSweepIsQuiet(rows: seq<Row>, st: DbState, db: Db, termId: nat, at: int, w: Db, st2: DbState)
    requires Swept(rows, st, db, termId, at, w, st2)
    ensures var again := PlanOf(rows, st2);
      && again.inserts == [] && again.fieldUpdates == map[] && again.restores == [] && again.removals == {}
      && again.unknown == PlanOf(rows, st).unknown
      && (again.instructorAppends == [] <==>
            forall r | r in rows && Appends(r, st) :: Settles(ObservationsOf(db.instructors, ExistingId(r, st)), at))
      && (again.snapshotAppends == [] <==>
            forall r | r in rows && Snapshots(r, st) :: !HasNewerSnapshot(db.snapshots, ExistingId(r, st), at))
  {
    hide Swept, InstructorChanged, SeatsOf, Updates, Restores, Insertable, Unapplied, Settles,
      HasNewerSnapshot, ObservationsOf, Inserts, FieldUpdates, RestoreIds, InstructorAppends,
      SnapshotAppends, Unknown, Removals, Crns;
    forall r | r in rows
      ensures !Insertable(r, st2) && !Updates(r, st2) && !Restores(r, st2)
      ensures Unapplied(r, st2) <==> Unapplied(r, st)
      ensures Appends(r, st2) <==> Appends(r, st) && !Settles(ObservationsOf(db.instructors, ExistingId(r, st)), at)
      ensures Snapshots(r, st2) <==> Snapshots(r, st) && HasNewerSnapshot(db.snapshots, ExistingId(r, st), at)
    {
      RowAgain(rows, st, db, termId, at, w, st2, r);
    }
    NothingInserted(rows, st2);
    NothingUpdated(rows, st2);
    NothingRestored(rows, st2);
    NothingAppended(rows, st2);
    NothingSnapshotted(rows, st2);
    UnknownSame(rows, st, st2);
    NothingToRemove(rows, st, db, termId, at, w, st2);
  }

  /** Every stored observation is older than the sweep. */
  ghost predicate LaterThanStored(db: Db, at: int) {
    && (forall o | o in db.instructors :: o.observedAt < at)
    && (forall s | s in db.snapshots :: s.observedAt <= at)
  }

  lemma {:induction false} ObservationsAmong(table: seq<InstructorRow>, id: nat)
    ensures forall o | o in ObservationsOf(table, id) :: o in table
  {
    if table != [] {
      ObservationsAmong(table[..|table| - 1], id);
    }
  }

  /** At a new time the whole second plan is empty. */
  lemma LaterSweepConverges(rows: seq<Row>, st: DbState, db: Db, termId: nat, at: int, w: Db, st2: DbState)
    requires Swept(rows, st, db, termId, at, w, st2) && LaterThanStored(db, at)
    ensures PlanOf(rows, st2) == Plan(|rows|, [], map[], [], [], {}, [], Crns(rows), PlanOf(rows, st).unknown)
  {
    hide Swept, InstructorChanged, SeatsOf, ObservationsOf, LatestSnapshot, StateFrom, Inserts,
      FieldUpdates, RestoreIds, InstructorAppends, SnapshotAppends, Unknown, Removals, Crns;
    SecondSweepIsQuiet(rows, st, db, termId, at, w, st2);
    forall r | r in rows && Appends(r, st) ensures Settles(ObservationsOf(db.instructors, ExistingId(r, st)), at) {
      ObservationsAmong(db.instructors, ExistingId(r, st));
    }
    forall r | r in rows && Snapshots(r, st) ensures !HasNewerSnapshot(db.snapshots, ExistingId(r, st), at) {
      LatestIsStored(db.snapshots, ExistingId(r, st));
    }
  }
}
