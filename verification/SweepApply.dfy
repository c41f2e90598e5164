/** The database side of a sweep: the writes a plan lists, in order, and their net effect. */
module SweepApply {
  import opened Text
  import opened Instructors
  import opened Schema
  import opened Rankings
  import opened SweepPlan

  const SCHEDULE_SOURCE := "usf_staff_schedule"

  function NewSection(termId: nat, insert: SectionInsert, at: int): Section {
    Section(termId, insert.row.crn, insert.courseId, insert.row.values, at, at, None)
  }

  predicate InRange(id: nat, first: nat, count: nat) {
    first <= id < first + count
  }

  function NewIds(db: Db, inserts: seq<SectionInsert>): set<nat> {
    set id | db.nextSection <= id < db.nextSection + |inserts| && InRange(id, db.nextSection, |inserts|)
  }

  function NewSections(db: Db, termId: nat, inserts: seq<SectionInsert>, at: int): map<nat, Section> {
    map id | id in NewIds(db, inserts) :: NewSection(termId, inserts[id - db.nextSection], at)
  }

  function NewObservations(db: Db, inserts: seq<SectionInsert>, at: int): seq<InstructorRow> {
    seq(|inserts|, i requires 0 <= i < |inserts| =>
      InstructorRow(db.nextInstructor + i, db.nextSection + i, inserts[i].row.instructorRaw, SCHEDULE_SOURCE, at))
  }

  function NewSnapshots(db: Db, inserts: seq<SectionInsert>, at: int): seq<SnapshotRow> {
    seq(|inserts|, i requires 0 <= i < |inserts| =>
      SnapshotRow(db.nextSnapshot + i, db.nextSection + i, at, SeatsOf(inserts[i].row.values)))
  }

  function AppendedObservations(first: nat, appends: seq<(nat, string)>, at: int): seq<InstructorRow> {
    seq(|appends|, i requires 0 <= i < |appends| =>
      InstructorRow(first + i, appends[i].0, appends[i].1, SCHEDULE_SOURCE, at))
  }

  function AppendedSnapshots(first: nat, appends: seq<(nat, SeatValues)>, at: int): seq<SnapshotRow> {
    seq(|appends|, i requires 0 <= i < |appends| => SnapshotRow(first + i, appends[i].0, at, appends[i].1))
  }

  function UpdatedValues(values: Values, updates: map<nat, Values>, id: nat): Values {
    if id in updates then values + updates[id] else values
  }

  function AfterSection(s: Section, id: nat, termId: nat, plan: Plan, at: int): Section {
    s.(values := UpdatedValues(s.values, plan.fieldUpdates, id),
       removedAt := if id in plan.restores then None else if id in plan.removals then Some(at) else s.removedAt,
       lastSeenAt := if s.termId == termId && s.crn in plan.seenCrns then at else s.lastSeenAt)
  }

  function WrittenSections(db: Db, termId: nat, plan: Plan, at: int): map<nat, Section> {
    var base := db.sections + NewSections(db, termId, plan.inserts, at);
    map id | id in base :: AfterSection(base[id], id, termId, plan, at)
  }

  function WrittenInstructors(db: Db, plan: Plan, at: int): seq<InstructorRow> {
    db.instructors + NewObservations(db, plan.inserts, at)
    + AppendedObservations(db.nextInstructor + |plan.inserts|, plan.instructorAppends, at)
  }

  function WrittenSnapshots(db: Db, plan: Plan, at: int): seq<SnapshotRow> {
    db.snapshots + NewSnapshots(db, plan.inserts, at)
    + AppendedSnapshots(db.nextSnapshot + |plan.inserts|, plan.snapshotAppends, at)
  }

  /** The tables after the writes of a plan, before any ranking is rebuilt. */
  function Written(db: Db, termId: nat, plan: Plan, at: int): Db {
    db.(sections := WrittenSections(db, termId, plan, at),
        instructors := WrittenInstructors(db, plan, at),
        snapshots := WrittenSnapshots(db, plan, at),
        rankings := db.rankings - plan.removals,
        nextSection := db.nextSection + |plan.inserts|,
        nextInstructor := db.nextInstructor + |plan.inserts| + |plan.instructorAppends|,
        nextSnapshot := db.nextSnapshot + |plan.inserts| + |plan.snapshotAppends|)
  }

  function AppendIds<T(==)>(appends: seq<(nat, T)>): set<nat> {
    set x | x in appends :: x.0
  }

  function RestoreSet(plan: Plan): set<nat> {
    set id | id in plan.restores
  }

  /** Sections whose cached ranking can have changed. */
  function ChangedIds(db: Db, plan: Plan): set<nat> {
    NewIds(db, plan.inserts) + plan.removals + RestoreSet(plan) + AppendIds(plan.instructorAppends)
    + set id | id in plan.fieldUpdates && StructuralUpdate(plan.fieldUpdates[id])
  }

  /** Every section a plan writes. */
  function TouchedIds(db: Db, plan: Plan): set<nat> {
    NewIds(db, plan.inserts) + plan.fieldUpdates.Keys + AppendIds(plan.instructorAppends)
    + AppendIds(plan.snapshotAppends) + plan.removals + RestoreSet(plan)
  }

  function ChangedKeys(db: Db, written: Db, plan: Plan): set<CourseKey> {
    set id | id in ChangedIds(db, plan) && id in written.sections && written.sections[id].courseId in written.courses ::
      written.courses[written.sections[id].courseId].Key()
  }

  ghost function Applied(env: RankingEnv, db: Db, termId: nat, code: nat, plan: Plan, at: int): Db
    requires CoursesKnown(Written(db, termId, plan, at))
  {
    var w := Written(db, termId, plan, at);
    if plan.StructuralChange()
    then w.(rankings := Refreshed(env, w, termId, code, NormalizedSet(Some(ChangedKeys(db, w, plan)))))
    else w
  }

  // ---- The ordered writes ----

  /** New sections first, so that their ids exist; then their first observation and snapshot. */
  method InsertSections(session: Session, termId: nat, inserts: seq<SectionInsert>, at: int)
    requires forall i | i in session.db.sections :: i < session.db.nextSection
    modifies session
    ensures var db := old(session.db);
      session.db == db.(
        sections := db.sections + NewSections(db, termId, inserts, at),
        instructors := db.instructors + NewObservations(db, inserts, at),
        snapshots := db.snapshots + NewSnapshots(db, inserts, at),
        nextSection := db.nextSection + |inserts|, nextInstructor := db.nextInstructor + |inserts|,
        nextSnapshot := db.nextSnapshot + |inserts|)
  {
    hide SeatsOf, NewSections, NewSection, NewObservations, NewSnapshots, NewIds;
    ghost var db := session.db;
    var firstId := session.db.nextSection;
    NoNewSections(db, termId, at);
    for k := 0 to |inserts|
      invariant session.db ==
        db.(sections := db.sections + NewSections(db, termId, inserts[..k], at), nextSection := db.nextSection + k)
    {
      var id := session.db.nextSection;
      NewSectionNext(db, termId, inserts, k, at);
      session.db := session.db.(sections := session.db.sections[id := NewSection(termId, inserts[k], at)],
        nextSection := id + 1);
    }
    assert inserts[..|inserts|] == inserts;
    InsertFirstRows(session, firstId, inserts, at);
    SameFirstRows(db, session.db.sections, firstId + |inserts|, firstId, inserts, at);
  }

  lemma NoNewSections(db: Db, termId: nat, at: int)
    ensures NewSections(db, termId, [], at) == map[]
  {
  }

  lemma NewSectionNext(db: Db, termId: nat, inserts: seq<SectionInsert>, k: nat, at: int)
    requires k < |inserts|
    ensures NewSections(db, termId, inserts[..k + 1], at) ==
            NewSections(db, termId, inserts[..k], at)[db.nextSection + k := NewSection(termId, inserts[k], at)]
  {
    hide NewSection;
    assert forall id :: InRange(id, db.nextSection, k + 1) <==>
      InRange(id, db.nextSection, k) || id == db.nextSection + k;
  }

  /** The first rows depend only on where the new ids start. */
  lemma SameFirstRows(
    db: Db, sections: map<nat, Section>, next: nat, firstId: nat, inserts: seq<SectionInsert>, at: int)
    requires firstId == db.nextSection
    ensures var later := db.(sections := sections, nextSection := next).(nextSection := firstId);
      NewObservations(later, inserts, at) == NewObservations(db, inserts, at) &&
        NewSnapshots(later, inserts, at) == NewSnapshots(db, inserts, at)
  {
    hide SeatsOf;
  }

  method InsertFirstRows(session: Session, firstId: nat, inserts: seq<SectionInsert>, at: int)
    modifies session
    ensures var db := old(session.db).(nextSection := firstId);
      session.db == old(session.db).(
        instructors := db.instructors + NewObservations(db, inserts, at),
        snapshots := db.snapshots + NewSnapshots(db, inserts, at),
        nextInstructor := db.nextInstructor + |inserts|, nextSnapshot := db.nextSnapshot + |inserts|)
  {
    hide SeatsOf;
    ghost var before := session.db;
    ghost var db := before.(nextSection := firstId);
    for k := 0 to |inserts|
      invariant session.db == before.(
        instructors := before.instructors + NewObservations(db, inserts[..k], at),
        snapshots := before.snapshots + NewSnapshots(db, inserts[..k], at),
        nextInstructor := before.nextInstructor + k, nextSnapshot := before.nextSnapshot + k)
    {
      var row := inserts[k].row;
      var observation := InstructorRow(session.db.nextInstructor, firstId + k, row.instructorRaw, SCHEDULE_SOURCE, at);
      var snapshot := SnapshotRow(session.db.nextSnapshot, firstId + k, at, SeatsOf(row.values));
      assert NewObservations(db, inserts[..k + 1], at) == NewObservations(db, inserts[..k], at) + [observation];
      assert NewSnapshots(db, inserts[..k + 1], at) == NewSnapshots(db, inserts[..k], at) + [snapshot];
      session.db := session.db.(
        instructors := session.db.instructors + [observation], nextInstructor := session.db.nextInstructor + 1,
        snapshots := session.db.snapshots + [snapshot], nextSnapshot := session.db.nextSnapshot + 1);
    }
    assert inserts[..|inserts|] == inserts;
  }

  method UpdateFields(session: Session, updates: map<nat, Values>)
    modifies session
    ensures session.db == old(session.db).(sections :=
      map id | id in old(session.db).sections ::
        old(session.db).sections[id].(values := UpdatedValues(old(session.db).sections[id].values, updates, id)))
  {
    ghost var before := session.db;
    var left, done: set<nat> := updates.Keys, {};
    while left != {}
      invariant left !! done && left + done == updates.Keys
      invariant session.db == before.(sections := session.db.sections)
      invariant session.db.sections.Keys == before.sections.Keys
      invariant forall id | id in session.db.sections ::
        session.db.sections[id] ==
          (if id in done then before.sections[id].(values := before.sections[id].values + updates[id])
            else before.sections[id])
    {
      var id :| id in left;
      left, done := left - {id}, done + {id};
      if id in session.db.sections {
        var s := session.db.sections[id];
        session.db := session.db.(sections := session.db.sections[id := s.(values := s.values + updates[id])]);
      }
    }
    assert done == updates.Keys;
  }

  method AppendHistory(session: Session, observations: seq<(nat, string)>, snapshots: seq<(nat, SeatValues)>, at: int)
    modifies session
    ensures var db := old(session.db);
      session.db == db.(
        instructors := db.instructors + AppendedObservations(db.nextInstructor, observations, at),
        snapshots := db.snapshots + AppendedSnapshots(db.nextSnapshot, snapshots, at),
        nextInstructor := db.nextInstructor + |observations|, nextSnapshot := db.nextSnapshot + |snapshots|)
  {
    ghost var db := session.db;
    for k := 0 to |observations|
      invariant session.db == db.(
        instructors := db.instructors + AppendedObservations(db.nextInstructor, observations[..k], at),
        nextInstructor := db.nextInstructor + k)
    {
      var row := InstructorRow(session.db.nextInstructor, observations[k].0, observations[k].1, SCHEDULE_SOURCE, at);
      assert AppendedObservations(db.nextInstructor, observations[..k + 1], at) ==
             AppendedObservations(db.nextInstructor, observations[..k], at) + [row];
      session.db := session.db.(instructors := session.db.instructors + [row],
        nextInstructor := session.db.nextInstructor + 1);
    }
    assert observations[..|observations|] == observations;
    ghost var mid := session.db;
    for k := 0 to |snapshots|
      invariant session.db == mid.(
        snapshots := db.snapshots + AppendedSnapshots(db.nextSnapshot, snapshots[..k], at),
        nextSnapshot := db.nextSnapshot + k)
    {
      var row := SnapshotRow(session.db.nextSnapshot, snapshots[k].0, at, snapshots[k].1);
      assert AppendedSnapshots(db.nextSnapshot, snapshots[..k + 1], at) ==
             AppendedSnapshots(db.nextSnapshot, snapshots[..k], at) + [row];
      session.db := session.db.(snapshots := session.db.snapshots + [row], nextSnapshot := session.db.nextSnapshot + 1);
    }
    assert snapshots[..|snapshots|] == snapshots;
  }

  method MarkRemoved(session: Session, ids: set<nat>, at: int)
    modifies session
    ensures session.db == old(session.db).(
      rankings := old(session.db).rankings - ids,
      sections := map id | id in old(session.db).sections ::
        if id in ids then old(session.db).sections[id].(removedAt := Some(at)) else old(session.db).sections[id])
  {
    session.db := session.db.(
      sections := map id | id in session.db.sections ::
        if id in ids then session.db.sections[id].(removedAt := Some(at)) else session.db.sections[id]);
    session.db := session.db.(rankings := session.db.rankings - ids);
  }

  method ClearRemoved(session: Session, ids: seq<nat>)
    modifies session
    ensures session.db == old(session.db).(sections := map id | id in old(session.db).sections ::
        if id in ids then old(session.db).sections[id].(removedAt := None) else old(session.db).sections[id])
  {
    session.db := session.db.(
      sections := map id | id in session.db.sections ::
        if id in ids then session.db.sections[id].(removedAt := None) else session.db.sections[id]);
  }

  method BumpLastSeen(session: Session, termId: nat, crns: set<string>, at: int)
    modifies session
    ensures session.db == old(session.db).(sections := map id | id in old(session.db).sections ::
        var s := old(session.db).sections[id];
        s.(lastSeenAt := if s.termId == termId && s.crn in crns then at else s.lastSeenAt))
  {
    session.db := session.db.(
      sections := map id | id in session.db.sections ::
        var s := session.db.sections[id];
        if s.termId == termId && s.crn in crns then s.(lastSeenAt := at) else s);
  }

  method MarkSections(session: Session, termId: nat, plan: Plan, at: int)
    modifies session
    ensures session.db == old(session.db).(
      rankings := old(session.db).rankings - plan.removals, sections := session.db.sections)
    ensures session.db.sections.Keys == old(session.db).sections.Keys
    ensures forall id | id in session.db.sections ::
      session.db.sections[id] ==
        AfterSection(old(session.db).sections[id], id, termId, plan, at).(values := old(session.db).sections[id].values)
  {
    hide UpdatedValues;
    MarkRemoved(session, plan.removals, at);
    ClearRemoved(session, plan.restores);
    BumpLastSeen(session, termId, plan.seenCrns, at);
  }

  method WritePlan(session: Session, termId: nat, plan: Plan, at: int)
    requires forall i | i in session.db.sections :: i < session.db.nextSection
    modifies session
    ensures session.db == Written(old(session.db), termId, plan, at)
  {
    hide NewSections, NewObservations, NewSnapshots, AppendedObservations, AppendedSnapshots, UpdatedValues,
      WrittenSections, AfterSection;
    ghost var db := session.db;
    InsertSections(session, termId, plan.inserts, at);
    ghost var base := session.db.sections;
    UpdateFields(session, plan.fieldUpdates);
    AppendHistory(session, plan.instructorAppends, plan.snapshotAppends, at);
    ghost var mid := session.db.sections;
    MarkSections(session, termId, plan, at);
    NetEffect(base, mid, session.db.sections, termId, plan, at);
    SectionsWritten(db, session.db.sections, termId, plan, at);
  }

  lemma NetEffect(
    base: map<nat, Section>, mid: map<nat, Section>, last: map<nat, Section>, termId: nat, plan: Plan, at: int)
    requires base.Keys == mid.Keys == last.Keys
    requires forall id | id in base ::
      mid[id] == base[id].(values := UpdatedValues(base[id].values, plan.fieldUpdates, id))
    requires forall id | id in base ::
      last[id] == AfterSection(mid[id], id, termId, plan, at).(values := mid[id].values)
    ensures forall id | id in base :: last[id] == AfterSection(base[id], id, termId, plan, at)
  {
    hide UpdatedValues;
  }

  lemma SectionsWritten(db: Db, last: map<nat, Section>, termId: nat, plan: Plan, at: int)
    requires var base := db.sections + NewSections(db, termId, plan.inserts, at);
      last.Keys == base.Keys && forall id | id in base :: last[id] == AfterSection(base[id], id, termId, plan, at)
    ensures last == WrittenSections(db, termId, plan, at)
  {
    hide AfterSection, NewSections;
  }
}
