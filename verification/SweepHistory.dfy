/** Whole runs of sweeps: what every one keeps, whatever mix of busy, failed and committed. */
module SweepHistory {
  import opened Text
  import opened Ordering
  import opened Instructors
  import opened Schema
  import opened Rankings
  import opened SweepPlan
  import opened Scope
  import opened SweepState
  import opened SweepApply
  import opened SweepFrame
  import opened RankingCoherence
  import opened ApplySweepPlan
  import opened Fingerprint
  import opened CourseAdding
  import opened SweepRun
  import opened EvidenceCache
  import opened EvidenceTrust
  import opened EvidenceWriters

  // ---- History tables stay in key order ----

  lemma AppendedInOrder(table: seq<InstructorRow>, extra: seq<InstructorRow>, next: nat)
    requires Increasing(EarlierRow, table) && forall r | r in table :: r.id < next
    requires forall i | 0 <= i < |extra| :: extra[i].id == next + i
    ensures Increasing(EarlierRow, table + extra) && forall r | r in table + extra :: r.id < next + |extra|
  {
    forall i | 0 <= i < |table| ensures table[i].id < next {
      assert table[i] in table;
    }
  }

  lemma SnapshotsInOrder(table: seq<SnapshotRow>, extra: seq<SnapshotRow>, next: nat)
    requires Increasing(EarlierSnapshot, table) && forall r | r in table :: r.id < next
    requires forall i | 0 <= i < |extra| :: extra[i].id == next + i
    ensures Increasing(EarlierSnapshot, table + extra) && forall r | r in table + extra :: r.id < next + |extra|
  {
    forall i | 0 <= i < |table| ensures table[i].id < next {
      assert table[i] in table;
    }
  }

  lemma WrittenKeysOrdered(db: Db, termId: nat, plan: Plan, at: int)
    requires db.HistoryOk() && KeysOrdered(db)
    ensures KeysOrdered(Written(db, termId, plan, at))
  {
    hide Increasing, WrittenSections, SeatsOf;
    var observations, more :=
      NewObservations(db, plan.inserts, at),
        AppendedObservations(db.nextInstructor + |plan.inserts|, plan.instructorAppends, at);
    AppendedInOrder(db.instructors, observations, db.nextInstructor);
    AppendedInOrder(db.instructors + observations, more, db.nextInstructor + |plan.inserts|);
    var snapshots, rest :=
      NewSnapshots(db, plan.inserts, at), AppendedSnapshots(db.nextSnapshot + |plan.inserts|, plan.snapshotAppends, at);
    SnapshotsInOrder(db.snapshots, snapshots, db.nextSnapshot);
    SnapshotsInOrder(db.snapshots + snapshots, rest, db.nextSnapshot + |plan.inserts|);
  }

  lemma AppliedTables(env: RankingEnv, db: Db, termId: nat, code: nat, plan: Plan, at: int)
    requires CoursesKnown(Written(db, termId, plan, at))
    ensures Applied(env, db, termId, code, plan, at) ==
            Written(db, termId, plan, at).(rankings := Applied(env, db, termId, code, plan, at).rankings)
  {
    hide Written, Refreshed, ChangedKeys, NormalizedSet;
  }

  lemma AppliedSound(env: RankingEnv, db: Db, termId: nat, code: nat, plan: Plan, at: int)
    requires Sound(db, termId, code) && GoodPlan(db, termId, plan)
    ensures CoursesKnown(Written(db, termId, plan, at))
    ensures Sound(Applied(env, db, termId, code, plan, at), termId, code)
  {
    hide Applied, GoodPlan, Full, NormalizeKey, WrittenSections, WrittenInstructors, WrittenSnapshots,
      Increasing;
    SweepKeepsValid(env, db, termId, code, plan, at);
    WrittenKeysOrdered(db, termId, plan, at);
    AppliedTables(env, db, termId, code, plan, at);
  }

  /** Every table invariant survives every outcome. */
  lemma AfterKeepsSound(env: RankingEnv, termId: nat, code: nat, world: World, input: SweepInput)
    requires Sound(world.db, termId, code) && InputOk(input)
    ensures Sound(After(env, termId, code, world, input).db, termId, code)
  {
    hide KeysOrdered, GoodPlan, PlanOf, Passes, FullState, Applied, Full, NormalizeKey, WithCourses,
      AddedBy, WithAdded, ViewOf, DistinctCrns, InScopeRows;
    if Decide(world, termId, input).Succeeded? {
      InScopeAmong(input.response.value);
      var rows := InScopeRows(input.response.value);
      AddedState(world, termId, code, rows, input.catalog);
      var added := AddedBy(world, termId, rows, input.catalog);
      AppliedSound(env, WithCourses(world.db, added), termId, code,
                   PlanOf(rows, WithAdded(FullState(world, termId, rows), world.db, added)), input.fetchedAt);
    }
  }

  /** So does the coherence of the ranking cache. */
  lemma AfterKeepsCoherent(env: RankingEnv, termId: nat, code: nat, world: World, input: SweepInput)
    requires Sound(world.db, termId, code) && InputOk(input) && Coherent(env, world.db, termId, code)
    ensures Sound(After(env, termId, code, world, input).db, termId, code)
    ensures CoursesKnown(After(env, termId, code, world, input).db)
    ensures Coherent(env, After(env, termId, code, world, input).db, termId, code)
  {
    hide Coherent, GoodPlan, PlanOf, Passes, FullState, Applied, Full, NormalizeKey, WithCourses, AddedBy,
      WithAdded, ViewOf, DistinctCrns, InScopeRows, KeysOrdered;
    AfterKeepsSound(env, termId, code, world, input);
    if Decide(world, termId, input).Succeeded? {
      InScopeAmong(input.response.value);
      var rows := InScopeRows(input.response.value);
      AddedState(world, termId, code, rows, input.catalog);
      var added := AddedBy(world, termId, rows, input.catalog);
      AddedKeepsCoherent(env, world.db, added, termId, code);
      SweepKeepsRankingsCoherent(env, WithCourses(world.db, added), termId, code,
                                 PlanOf(rows, WithAdded(FullState(world, termId, rows), world.db, added)),
                                   input.fetchedAt);
    }
  }

  /** A run of sweeps, one after the other. */
  ghost function RunOf(env: RankingEnv, termId: nat, code: nat, world: World, inputs: seq<SweepInput>): (end: World)
    requires Sound(world.db, termId, code) && forall i | i in inputs :: InputOk(i)
    ensures Sound(end.db, termId, code)
  {
    if inputs == [] then world
    else
      var before := RunOf(env, termId, code, world, inputs[..|inputs| - 1]);
      AfterKeepsSound(env, termId, code, before, inputs[|inputs| - 1]);
      After(env, termId, code, before, inputs[|inputs| - 1])
  }

  /** Main result: over any run of sweeps from a coherent start, every active section's cached row
      is the row a full rebuild would store and no removed section has one, although each sweep
      rebuilt only the courses it touched. */
  lemma {:induction false} RunKeepsRankingsCoherent(
    env: RankingEnv, termId: nat, code: nat, world: World, inputs: seq<SweepInput>)
    requires Sound(world.db, termId, code) && forall i | i in inputs :: InputOk(i)
    requires Coherent(env, world.db, termId, code)
    ensures CoursesKnown(RunOf(env, termId, code, world, inputs).db)
    ensures Coherent(env, RunOf(env, termId, code, world, inputs).db, termId, code)
    ensures Refreshed(env, RunOf(env, termId, code, world, inputs).db, termId, code, None) ==
      RunOf(env, termId, code, world, inputs).db.rankings
  {
    hide Coherent, After, KeysOrdered, Full, NormalizeKey, Refreshed;
    var end := RunOf(env, termId, code, world, inputs);
    if inputs != [] {
      var n := |inputs| - 1;
      RunKeepsRankingsCoherent(env, termId, code, world, inputs[..n]);
      AfterKeepsCoherent(env, termId, code, RunOf(env, termId, code, world, inputs[..n]), inputs[n]);
    }
    CoherentIsFullRebuild(env, end.db, termId, code);
  }

  /** Grade evidence is the same all along, so evidence read once serves the whole run. */
  lemma AfterKeepsEvidence(env: RankingEnv, termId: nat, code: nat, world: World, input: SweepInput)
    requires Sound(world.db, termId, code) && InputOk(input)
    ensures SameEvidence(world.db, After(env, termId, code, world, input).db, code)
    ensures EvidenceHistory(world.db, After(env, termId, code, world, input).db, code)
  {
    hide SameEvidence, EvidenceHistory, GoodPlan, PlanOf, Passes, FullState, Full, NormalizeKey, AddedBy, WithAdded,
      ViewOf;
    hide DistinctCrns, InScopeRows, KeysOrdered, Applied;
    if Decide(world, termId, input).Succeeded? {
      InScopeAmong(input.response.value);
      var rows := InScopeRows(input.response.value);
      AddedState(world, termId, code, rows, input.catalog);
      var db := WithCourses(world.db, AddedBy(world, termId, rows, input.catalog));
      OtherTablesUnseen(world.db, db, code);
      OnlyCoursesAdded(world.db, db, code);
      var plan := PlanOf(rows,
        WithAdded(FullState(world, termId, rows), world.db, AddedBy(world, termId, rows, input.catalog)));
      AppliedKeepsEvidence(env, db, termId, code, plan, input.fetchedAt);
      SameEvidenceComposes(world.db, db, Applied(env, db, termId, code, plan, input.fetchedAt), code);
      EvidenceHistoriesCompose(world.db, db, Applied(env, db, termId, code, plan, input.fetchedAt), code);
    } else {
      OtherTablesUnseen(world.db, world.db, code);
      OnlyCoursesAdded(world.db, world.db, code);
    }
  }

  lemma RankingsAreNoHistory(db: Db, w: Db, rankings: map<nat, Ranking>, code: nat)
    requires EvidenceHistory(db, w, code)
    ensures EvidenceHistory(db, w.(rankings := rankings), code)
  {
    assert EarlierSections(w.(rankings := rankings), code) == EarlierSections(w, code);
  }

  lemma OnlyCoursesAdded(db: Db, w: Db, code: nat)
    requires w == db.(courses := w.courses)
    ensures EvidenceHistory(db, w, code)
  {
  }

  /** Writing inside one term is no history of the earlier ones. */
  lemma WithinTermHistory(db: Db, w: Db, termId: nat, code: nat)
    requires termId in db.terms && db.terms[termId] == code && WithinTerm(db, w, termId)
    requires db.nextSection <= w.nextSection && db.nextInstructor <= w.nextInstructor && db.nextGrade <= w.nextGrade
    requires forall id | id in w.sections && id !in db.sections :: db.nextSection <= id
    ensures EvidenceHistory(db, w, code)
  {
    forall r | r in w.instructors && r.sectionId in EarlierSections(w, code) ensures r in db.instructors {
      var i :| 0 <= i < |w.instructors| && w.instructors[i] == r;
      assert i < |db.instructors| ==> db.instructors[i] == r;
    }
    forall id | id in w.sections && id in db.sections
      ensures w.sections[id].termId == db.sections[id].termId
      ensures Earlier(db.terms, db.sections[id].termId, code) ==> Remarked(db.sections[id], w.sections[id])
    {
      assert Kept(db.sections[id], w.sections[id], termId);
    }
  }

  lemma AppliedKeepsEvidence(env: RankingEnv, db: Db, termId: nat, code: nat, plan: Plan, at: int)
    requires Sound(db, termId, code) && GoodPlan(db, termId, plan)
    ensures CoursesKnown(Written(db, termId, plan, at))
    ensures SameEvidence(db, Applied(env, db, termId, code, plan, at), code)
    ensures EvidenceHistory(db, Applied(env, db, termId, code, plan, at), code)
  {
    hide SameEvidence, EvidenceHistory, GoodPlan, Applied, Full, NormalizeKey, WrittenSections, WrittenInstructors,
      WrittenSnapshots, WithinTerm, KeysOrdered;
    WrittenCourses(db, termId, plan, at);
    AppliedTables(env, db, termId, code, plan, at);
    WrittenUnique(db, termId, plan, at);
    WrittenWithinTerm(db, termId, plan, at);
    var w := Written(db, termId, plan, at);
    WithinTermSameEvidence(db, w, termId, code);
    forall id | id in w.sections && id !in db.sections ensures db.nextSection <= id {
      NewCrn(db, termId, plan, at, id);
    }
    WithinTermHistory(db, w, termId, code);
    RankingsAreNoHistory(db, w, Applied(env, db, termId, code, plan, at).rankings, code);
    OtherTablesUnseen(w, Applied(env, db, termId, code, plan, at), code);
    SameEvidenceComposes(db, w, Applied(env, db, termId, code, plan, at), code);
  }
}
