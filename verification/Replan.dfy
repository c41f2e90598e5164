/** Planning again on the same rows after the plan was applied. */
module Replan {
  import opened Text
  import opened Instructors
  import opened Schema
  import opened SweepPlan
  import opened SweepState
  import opened SweepApply
  import opened SweepFrame
  import opened PlanFacts
  import opened StateReload
  import opened Convergence

  /** Two sweeps of the same distinct rows: the state the second one reads was written by the first. */
  ghost predicate Swept(rows: seq<Row>, st: DbState, db: Db, termId: nat, at: int, w: Db, st2: DbState) {
    && db.SectionsOk() && db.HistoryOk() && LoadedFrom(st, db, termId)
    && DistinctCrns(rows) && RowsOk(rows)
    && w == Written(db, termId, PlanOf(rows, st), at) && w.UniqueCrns()
    && st2 == st.(view := ViewOf(w, termId))
  }

  lemma SweptPlan(rows: seq<Row>, st: DbState, db: Db, termId: nat, at: int, w: Db, st2: DbState)
    requires Swept(rows, st, db, termId, at, w, st2)
    ensures GoodPlan(db, termId, PlanOf(rows, st))
  {
    PlanIsGood(rows, st, db, termId);
  }

  lemma NothingLeftToUpdate(stored: Values, fetched: Values)
    requires Full(stored) && Full(fetched)
    ensures ChangedFields(stored + ChangedFields(stored, fetched), fetched) == map[]
  {
  }

  /** The section of a known row after the writes. */
  lemma KnownSection(rows: seq<Row>, st: DbState, db: Db, termId: nat, at: int, w: Db, st2: DbState, row: Row)
    requires Swept(rows, st, db, termId, at, w, st2) && row in rows && Known(row, st)
    ensures var id := ExistingId(row, st);
      && id in SectionIdsOf(db.sections, termId) && id in SectionIdsOf(w.sections, termId)
      && w.sections[id].crn == row.crn && w.sections[id].removedAt.None?
      && ChangedFields(w.sections[id].values, row.values) == map[]
  {
    hide ViewOf, Full, ExistingOf, ChangedFields, Crns, FieldUpdates, RestoreIds, Removals,
      InstructorAppends, SnapshotAppends, Inserts, Unknown, WrittenSections, WrittenInstructors,
      WrittenSnapshots, DistinctCrns;
    var id, plan := ExistingId(row, st), PlanOf(rows, st);
    KnownRow(row, st, db, termId);
    OldSection(db, termId, plan, at, id);
    KnownFields(rows, st, db, termId, row);
    KnownMarks(rows, st, db, termId, row);
  }

  lemma KnownFields(rows: seq<Row>, st: DbState, db: Db, termId: nat, row: Row)
    requires db.SectionsOk() && LoadedFrom(st, db, termId) && DistinctCrns(rows) && RowsOk(rows)
    requires row in rows && Known(row, st)
    ensures var id := ExistingId(row, st);
      id in db.sections && ChangedFields(UpdatedValues(db.sections[id].values, FieldUpdates(rows, st), id),
        row.values) == map[]
  {
    hide ViewOf, Full, ChangedFields, FieldUpdates, DistinctCrns;
    var id := ExistingId(row, st);
    KnownRow(row, st, db, termId);
    ValuesKept(db.courses, id, db.sections[id]);
    ViewIsOk(db, termId);
    UpdatesSpec(rows, st);
    NothingLeftToUpdate(db.sections[id].values, row.values);
  }

  lemma ValuesKept(courses: map<nat, Course>, id: nat, s: Section)
    ensures ExistingOf(courses, id, s).values == s.values && ExistingOf(courses, id, s).removedAt == s.removedAt
  {
  }

  lemma KnownMarks(rows: seq<Row>, st: DbState, db: Db, termId: nat, row: Row)
    requires db.SectionsOk() && LoadedFrom(st, db, termId) && row in rows && Known(row, st)
    ensures var id := ExistingId(row, st);
      && id in db.sections && id !in Removals(rows, st.view)
      && (db.sections[id].removedAt.Some? ==> id in RestoreIds(rows, st))
  {
    hide ViewOf, Full, RestoreIds, Removals;
    var id := ExistingId(row, st);
    KnownRow(row, st, db, termId);
    ValuesKept(db.courses, id, db.sections[id]);
    RestoresSpec(rows, st);
    RemovalsInTerm(rows, db, termId);
  }

  /** Known before, known after, and nothing but an unsettled history is asked for again. */
  lemma KnownAgain(rows: seq<Row>, st: DbState, db: Db, termId: nat, at: int, w: Db, st2: DbState, row: Row)
    requires Swept(rows, st, db, termId, at, w, st2) && row in rows && Known(row, st)
    ensures Known(row, st2) && ExistingId(row, st2) == ExistingId(row, st)
    ensures !Updates(row, st2) && !Restores(row, st2)
    ensures StateIn(st2.view, ExistingId(row, st)) == Some(CurrentState(w.instructors, ExistingId(row, st)))
    ensures SeatsIn(st2.view, ExistingId(row, st)) == SeatsFrom(LatestSnapshot(w.snapshots, ExistingId(row, st)))
    ensures StateIn(st.view, ExistingId(row, st)) == Some(CurrentState(db.instructors, ExistingId(row, st)))
    ensures SeatsIn(st.view, ExistingId(row, st)) == SeatsFrom(LatestSnapshot(db.snapshots, ExistingId(row, st)))
  {
    hide ViewOf, Full, ChangedFields, Written, PlanOf, CurrentState, LatestSnapshot, SectionIdsOf;
    var id := ExistingId(row, st);
    KnownSection(rows, st, db, termId, at, w, st2, row);
    TermMember(w.sections, termId, id);
    TermMember(db.sections, termId, id);
    ViewHas(w, termId, id);
    ViewHas(db, termId, id);
    ValuesKept(w.courses, id, w.sections[id]);
    CrnKept(w.courses, id, w.sections[id]);
  }

  function SeatsFrom(s: Option<SnapshotRow>): Option<SeatValues> {
    if s.Some? then Some(s.value.seats) else None
  }

  /** A section as the schedule shows it. */
  predicate StoredAs(sections: map<nat, Section>, id: nat, termId: nat, row: Row) {
    && id in sections && sections[id].termId == termId && sections[id].crn == row.crn
    && sections[id].values == row.values && sections[id].removedAt.None?
  }

  /** A row the plan could insert. */
  predicate Insertable(row: Row, st: DbState) {
    !Known(row, st) && row.Key() in st.courseIds
  }

  lemma InsertIndex(rows: seq<Row>, st: DbState, row: Row) returns (k: nat)
    requires DistinctCrns(rows) && row in rows && Insertable(row, st)
    ensures k < |PlanOf(rows, st).inserts| && PlanOf(rows, st).inserts[k].row == row
  {
    InsertsSpec(rows, st);
    hide Inserts, DistinctCrns;
    k :| 0 <= k < |Inserts(rows, st)| && Inserts(rows, st)[k] == SectionInsert(row, st.courseIds[row.Key()]);
  }

  /** Such a row is stored afterwards, as fetched. */
  lemma InsertedKnown(rows: seq<Row>, st: DbState, db: Db, termId: nat, at: int, w: Db, st2: DbState, row: Row)
    requires Swept(rows, st, db, termId, at, w, st2) && row in rows && Insertable(row, st)
    ensures Known(row, st2)
    ensures !Updates(row, st2) && !Restores(row, st2) && !Appends(row, st2) && !Snapshots(row, st2)
  {
    hide ViewOf, Full, ChangedFields, PlanOf, Written, DistinctCrns, GoodPlan, InstructorChanged,
      CurrentState, LatestSnapshot, SeatsOf, SectionIdsOf;
    var k := InsertIndex(rows, st, row);
    var id := db.nextSection + k;
    SweptPlan(rows, st, db, termId, at, w, st2);
    assert db.SectionsOk() && db.HistoryOk() && w == Written(db, termId, PlanOf(rows, st), at);
    SweptInsert(db, termId, PlanOf(rows, st), at, k, row, w);
    TermMember(w.sections, termId, id);
    ViewHas(w, termId, id);
    ValuesKept(w.courses, id, w.sections[id]);
    CrnKept(w.courses, id, w.sections[id]);
    NothingChanged(row.values);
  }

  lemma SweptInsert(db: Db, termId: nat, plan: Plan, at: int, k: nat, row: Row, w: Db)
    requires db.SectionsOk() && db.HistoryOk() && GoodPlan(db, termId, plan) && w == Written(db, termId, plan, at)
    requires k < |plan.inserts| && plan.inserts[k].row == row
    ensures StoredAs(w.sections, db.nextSection + k, termId, row)
    ensures !InstructorChanged(Some(CurrentState(w.instructors, db.nextSection + k)), row.instructorRaw)
    ensures SeatsFrom(LatestSnapshot(w.snapshots, db.nextSection + k)) == Some(SeatsOf(row.values))
  {
    hide Full, GoodPlan, InstructorChanged, StateFrom, ObservationsOf, LatestSnapshot, SeatsOf,
      WrittenInstructors, WrittenSnapshots, WrittenSections, SectionIdsOf;
    InsertedSection(db, termId, plan, at, k);
    var o := ObservationsAfterInsert(db, termId, plan, at, k);
    SingleState(o);
    SnapshotAfterInsert(db, termId, plan, at, k);
  }

  lemma NothingChanged(values: Values)
    ensures ChangedFields(values, values) == map[]
  {
  }

  lemma SingleState(o: InstructorRow)
    ensures !InstructorChanged(Some(StateFrom([o])), o.name)
  {
    assert [] + [o] == [o];
    StateAfterLater([], o);
    SingleNameState(o.observedAt, o.name);
  }

  lemma InsertedSection(db: Db, termId: nat, plan: Plan, at: int, k: nat)
    requires db.SectionsOk() && GoodPlan(db, termId, plan) && k < |plan.inserts|
    ensures StoredAs(WrittenSections(db, termId, plan, at), db.nextSection + k, termId, plan.inserts[k].row)
  {
    hide Full, WrittenSections, AfterSection, SectionIdsOf, GoodPlan, NewIds;
    var id := db.nextSection + k;
    var w := WrittenSections(db, termId, plan, at);
    NewIdAt(db, plan, k);
    NewIdWritten(db, termId, plan, at, id);
    NewCrn(db, termId, plan, at, id);
    NewIdUnplanned(db, termId, plan, id);
    InsertedAsFetched(termId, plan, plan.inserts[k], at, id);
  }

  lemma NewIdAt(db: Db, plan: Plan, k: nat)
    requires k < |plan.inserts|
    ensures db.nextSection + k in NewIds(db, plan.inserts)
  {
    assert InRange(db.nextSection + k, db.nextSection, |plan.inserts|);
  }

  lemma NewIdUnplanned(db: Db, termId: nat, plan: Plan, id: nat)
    requires GoodPlan(db, termId, plan) && id !in db.sections
    ensures id !in plan.fieldUpdates && id !in plan.restores && id !in plan.removals
  {
    hide Full;
    TermMember(db.sections, termId, id);
    assert id in plan.restores ==> id in RestoreSet(plan);
  }

  lemma InsertedAsFetched(termId: nat, plan: Plan, insert: SectionInsert, at: int, id: nat)
    requires id !in plan.fieldUpdates && id !in plan.restores && id !in plan.removals
    ensures var s := AfterSection(NewSection(termId, insert, at), id, termId, plan, at);
      s.values == insert.row.values && s.removedAt.None?
  {
  }

  /** A row of an unknown course stays unknown. */
  lemma UnappliedStays(rows: seq<Row>, st: DbState, db: Db, termId: nat, at: int, w: Db, st2: DbState, row: Row)
    requires Swept(rows, st, db, termId, at, w, st2) && row in rows && Unapplied(row, st)
    ensures Unapplied(row, st2)
  {
    var plan := PlanOf(rows, st);
    hide ViewOf, Full, ChangedFields, FieldUpdates, RestoreIds, Removals, InstructorAppends,
      SnapshotAppends, Unknown, Crns, WrittenInstructors, WrittenSnapshots, WrittenSections, Inserts,
      GoodPlan;
    SweptPlan(rows, st, db, termId, at, w, st2);
    InsertsSpec(rows, st);
    KnownRow(row, st, db, termId);
    if Known(row, st2) {
      ViewEntry(w, termId, row.crn);
      var id := st2.view.sections[row.crn].id;
      NoSuchCrn(rows, st, db, termId, at, row, id);
    }
  }

  lemma NoSuchCrn(rows: seq<Row>, st: DbState, db: Db, termId: nat, at: int, row: Row, id: nat)
    requires db.SectionsOk() && LoadedFrom(st, db, termId) && DistinctCrns(rows)
    requires GoodPlan(db, termId, PlanOf(rows, st))
    requires row in rows && Unapplied(row, st)
    requires id in SectionIdsOf(WrittenSections(db, termId, PlanOf(rows, st), at), termId)
    ensures WrittenSections(db, termId, PlanOf(rows, st), at)[id].crn != row.crn
  {
    var plan := PlanOf(rows, st);
    hide ViewOf, Full, WrittenSections, Inserts, GoodPlan, FieldUpdates, RestoreIds, Removals,
      InstructorAppends, SnapshotAppends, Unknown, Crns;
    if id in db.sections {
      KnownRow(row, st, db, termId);
      OldSection(db, termId, plan, at, id);
      OtherTermUntouched(db, termId, plan, at, id);
    } else {
      NewCrn(db, termId, plan, at, id);
      InsertsSpec(rows, st);
      SameRowByCrn(rows, row, plan.inserts[id - db.nextSection].row);
    }
  }

  lemma SameRowByCrn(rows: seq<Row>, x: Row, y: Row)
    requires DistinctCrns(rows) && x in rows && y in rows
    ensures x.crn == y.crn ==> x == y
  {
    var i :| 0 <= i < |rows| && rows[i] == x;
    var j :| 0 <= j < |rows| && rows[j] == y;
    assert i < j ==> rows[i].crn != rows[j].crn;
    assert j < i ==> rows[j].crn != rows[i].crn;
  }
}
