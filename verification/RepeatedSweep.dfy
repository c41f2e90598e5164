/** Two succeeded sweeps of one response, end to end. */
module RepeatedSweep {
  import opened Text
  import opened Schema
  import opened Analytics
  import opened Rankings
  import opened SweepPlan
  import opened Scope
  import opened SweepState
  import opened SweepApply
  import opened SweepFrame
  import opened PlanFacts
  import opened RankingCoherence
  import opened Fingerprint
  import opened Gate
  import opened CourseAdding
  import opened DbLoad
  import opened Replan
  import opened SecondSweep
  import opened SweepRun
  import opened SweepHistory
  import opened SweepTransaction

  /** The ids known after adding courses are those the next sweep reads. */
  lemma AddedIdsAreRead(world: World, termId: nat, rows: seq<Row>, added: map<nat, Course>)
    requires world.db.UniqueCrns() && added.Keys !! world.db.courses.Keys
    requires forall id | id in added :: added[id].Key() in NewCourseKeys(rows, FullState(world, termId, rows))
    ensures WithAdded(FullState(world, termId, rows), world.db, added).courseIds
         == ChosenMap(WithCourses(world.db, added).courses, SubjectsOf(rows))
  {
    hide ViewOf, Preferred, ActiveInScope, ActiveSubjects, ChosenMap, IsChosen, ChosenMapOf;
    var st := FullState(world, termId, rows);
    var courses, all, subjects := world.db.courses, world.db.courses + added, SubjectsOf(rows);
    var more := ChosenMapOf(all, AddedKeys(added));
    AddedMapKeys(all, AddedKeys(added));
    forall id | id in added
      ensures added[id].Key() in AddedKeys(added) && added[id].Key().0 in subjects && added[id].Key() !in st.courseIds
    {
      var r :| r in rows && Unapplied(r, st) && r.Key() == added[id].Key();
    }
    forall k | k in st.courseIds ensures IsChosen(all, k, st.courseIds[k]) {
      StillChosen(courses, added, k, st.courseIds[k]);
    }
    forall k: CourseKey
      ensures k in st.courseIds + more <==> k.0 in subjects && exists c :: c in all && all[c].Key() == k
    {
      KeyOfUnion(courses, added, k);
    }
    ChosenUnique(all, subjects, st.courseIds + more, ChosenMap(all, subjects));
  }

  lemma AddedMapKeys(courses: map<nat, Course>, keys: set<CourseKey>)
    ensures forall k ::
      k in ChosenMapOf(courses, keys) <==> k in keys && exists c :: c in courses && courses[c].Key() == k
    ensures forall k | k in ChosenMapOf(courses, keys) :: IsChosen(courses, k, ChosenMapOf(courses, keys)[k])
  {
    hide IsChosen;
    forall k ensures CourseIds(courses, k) != {} <==> exists c :: c in courses && courses[c].Key() == k {
      ChosenOfKey(courses, k);
    }
  }

  lemma StillChosen(courses: map<nat, Course>, added: map<nat, Course>, key: CourseKey, id: nat)
    requires IsChosen(courses, key, id) && added.Keys !! courses.Keys
    requires forall c | c in added :: added[c].Key() != key
    ensures IsChosen(courses + added, key, id)
  {
    hide Preferred;
  }

  lemma KeyOfUnion(courses: map<nat, Course>, added: map<nat, Course>, key: CourseKey)
    requires added.Keys !! courses.Keys
    ensures (exists c :: c in courses + added && (courses + added)[c].Key() == key) <==>
            (exists c :: c in courses && courses[c].Key() == key) || key in AddedKeys(added)
  {
    if c :| c in courses && courses[c].Key() == key {
      assert c in courses + added && (courses + added)[c].Key() == key;
    }
    if key in AddedKeys(added) {
      var c :| c in added && added[c].Key() == key;
      assert c in courses + added && (courses + added)[c].Key() == key;
    }
  }

  /** The diff reads only the view and the course ids. */
  lemma {:induction false} PlanByState(rows: seq<Row>, st: DbState, other: DbState)
    requires st.view == other.view && st.courseIds == other.courseIds
    ensures PlanOf(rows, st) == PlanOf(rows, other)
  {
    hide InstructorChanged, ChangedFields, SeatsOf;
    if rows != [] {
      PlanByState(rows[..|rows| - 1], st, other);
    }
  }

  // ---- The first of the two sweeps ----

  ghost function AddedTables(world: World, termId: nat, input: SweepInput): Db
    requires world.db.UniqueCrns() && input.response.Some?
  {
    WithCourses(world.db, AddedBy(world, termId, InScopeRows(input.response.value), input.catalog))
  }

  ghost function DiffState(world: World, termId: nat, input: SweepInput): DbState
    requires world.db.UniqueCrns() && input.response.Some?
  {
    var rows := InScopeRows(input.response.value);
    WithAdded(FullState(world, termId, rows), world.db, AddedBy(world, termId, rows, input.catalog))
  }

  ghost function WrittenTables(world: World, termId: nat, input: SweepInput): Db
    requires world.db.UniqueCrns() && input.response.Some?
  {
    Written(AddedTables(world, termId, input), termId,
            PlanOf(InScopeRows(input.response.value), DiffState(world, termId, input)), input.fetchedAt)
  }

  lemma FirstOfPair(env: RankingEnv, termId: nat, code: nat, world: World, input: SweepInput)
    requires Sound(world.db, termId, code) && InputOk(input) && Decide(world, termId, input).Succeeded?
    ensures WrittenTables(world, termId, input).UniqueCrns()
    ensures var w := WrittenTables(world, termId, input);
      Swept(InScopeRows(input.response.value), DiffState(world, termId, input), AddedTables(world, termId, input),
        termId,
            input.fetchedAt, w, DiffState(world, termId, input).(view := ViewOf(w, termId)))
  {
    hide ViewOf, Full, ChosenMap, ActiveInScope, ActiveSubjects, NormalizeKey, DistinctCrns, GoodPlan,
      PlanOf, IsChosen, NewCourseKeys, InScopeRows, Passes, WrittenSections, WrittenInstructors,
      WrittenSnapshots, KeysOrdered;
    var rows := InScopeRows(input.response.value);
    InScopeAmong(input.response.value);
    AddedState(world, termId, code, rows, input.catalog);
    WrittenUnique(AddedTables(world, termId, input), termId, PlanOf(rows, DiffState(world, termId, input)),
      input.fetchedAt);
    AddedIdsAreRead(world, termId, rows, AddedBy(world, termId, rows, input.catalog));
    ChosenAreCourses(AddedTables(world, termId, input).courses, SubjectsOf(rows));
  }

  lemma NextReads(env: RankingEnv, termId: nat, code: nat, world: World, input: SweepInput)
    requires Sound(world.db, termId, code) && InputOk(input) && Decide(world, termId, input).Succeeded?
    ensures var next, w := After(env, termId, code, world, input).db, WrittenTables(world, termId, input);
      w.UniqueCrns() && next.UniqueCrns() && ViewOf(next, termId) == ViewOf(w, termId) && next.courses == w.courses
      && next.sections == w.sections && next.instructors == w.instructors && next.snapshots == w.snapshots
  {
    hide ViewOf, Full, ChosenMap, ActiveInScope, ActiveSubjects, NormalizeKey, DistinctCrns, GoodPlan,
      PlanOf, IsChosen, NewCourseKeys, InScopeRows, Passes, WrittenSections, WrittenInstructors,
      WrittenSnapshots, Applied, KeysOrdered, Reloaded, FingerprintOf, FullState, AddedBy, WithAdded,
      WithCourses;
    var rows := InScopeRows(input.response.value);
    InScopeAmong(input.response.value);
    AddedState(world, termId, code, rows, input.catalog);
    var db, plan := AddedTables(world, termId, input), PlanOf(rows, DiffState(world, termId, input));
    WrittenCourses(db, termId, plan, input.fetchedAt);
    WrittenUnique(db, termId, plan, input.fetchedAt);
    AppliedTables(env, db, termId, code, plan, input.fetchedAt);
    RankingsUnseen(Written(db, termId, plan, input.fetchedAt),
      Applied(env, db, termId, code, plan, input.fetchedAt).rankings,
                   ViewOf(db, termId), {}, termId);
  }

  /** The catalog has no answer for any of these courses. */
  predicate AnswersNone(catalog: map<nat, Course>, keys: set<CourseKey>) {
    forall id | id in catalog :: catalog[id].Key() !in keys
  }

  /** Without catalog answers for the missing courses the diff reads just the full state. */
  lemma NoCatalog(world: World, termId: nat, input: SweepInput)
    requires world.db.UniqueCrns() && Decide(world, termId, input).Succeeded?
    requires AnswersNone(input.catalog,
      PlanOf(InScopeRows(input.response.value),
        FullState(world, termId, InScopeRows(input.response.value))).unknown.Keys)
    ensures var rows := InScopeRows(input.response.value);
      Decide(world, termId, input).plan == PlanOf(rows, FullState(world, termId, rows))
  {
    hide FullState, PlanOf, InScopeRows, Passes, DistinctCrns, WithAdded, Unapplied;
    var rows := InScopeRows(input.response.value);
    UnknownKeys(rows, FullState(world, termId, rows));
    assert AddedBy(world, termId, rows, input.catalog) == map[];
    NothingAdded(FullState(world, termId, rows), world.db);
  }

  lemma UnknownKeys(rows: seq<Row>, st: DbState)
    ensures PlanOf(rows, st).unknown.Keys == NewCourseKeys(rows, st)
  {
    hide Inserts, FieldUpdates, RestoreIds, InstructorAppends, SnapshotAppends, Unknown, Removals, Crns,
      Unapplied;
    UnknownSpec(rows, st);
  }

  /** The second sweep reads what the first one wrote, and the same course ids. */
  lemma SecondState(env: RankingEnv, termId: nat, code: nat, world: World, input: SweepInput)
    requires Sound(world.db, termId, code) && InputOk(input) && Decide(world, termId, input).Succeeded?
    ensures After(env, termId, code, world, input).db.UniqueCrns() && WrittenTables(world, termId, input).UniqueCrns()
    ensures var rows := InScopeRows(input.response.value);
      PlanOf(rows, FullState(After(env, termId, code, world, input), termId, rows)) ==
      PlanOf(rows, DiffState(world, termId, input).(view := ViewOf(WrittenTables(world, termId, input), termId)))
  {
    hide ViewOf, ChosenMap, ActiveInScope, ActiveSubjects, DistinctCrns, NewCourseKeys, InScopeRows, Passes,
      After, KeysOrdered, IsChosen, PlanOf, Full;
    var rows := InScopeRows(input.response.value);
    var next := After(env, termId, code, world, input);
    NextReads(env, termId, code, world, input);
    AddedIdsAreRead(world, termId, rows, AddedBy(world, termId, rows, input.catalog));
    PlanByState(rows, FullState(next, termId, rows),
      DiffState(world, termId, input).(view := ViewOf(WrittenTables(world, termId, input), termId)));
  }

  /** Main result: a later sweep of the same response, if it goes through, writes nothing at all and
      reports the same unknown courses, as long as the catalog still has no answer for them. */
  lemma RepeatedSweepConverges(
    env: RankingEnv, termId: nat, code: nat, world: World, input: SweepInput, again: SweepInput)
    requires Sound(world.db, termId, code) && InputOk(input) && Decide(world, termId, input).Succeeded?
    requires LaterThanStored(world.db, input.fetchedAt)
    requires var next := After(env, termId, code, world, input);
      next.db.UniqueCrns() && Decide(next, termId, again).Succeeded?
    requires again.response == input.response
    requires AnswersNone(again.catalog, Decide(world, termId, input).plan.unknown.Keys)
    ensures var plan := Decide(After(env, termId, code, world, input), termId, again).plan;
      plan == Plan(plan.recordsSeen, [], map[], [], [], {}, [], plan.seenCrns,
        Decide(world, termId, input).plan.unknown)
  {
    hide Decide, ViewOf, ChosenMap, ActiveInScope, ActiveSubjects, DistinctCrns, NewCourseKeys, InScopeRows,
      Passes, After, Swept, KeysOrdered, IsChosen, PlanOf, Full, FullState, DiffState, AddedTables,
      WrittenTables;
    FirstPlan(world, termId, input);
    var rows := InScopeRows(input.response.value);
    FirstOfPair(env, termId, code, world, input);
    SecondState(env, termId, code, world, input);
    var first, w := DiffState(world, termId, input), WrittenTables(world, termId, input);
    LaterThanStoredStays(world, termId, input);
    LaterSweepConverges(rows, first, AddedTables(world, termId, input), termId, input.fetchedAt, w,
      first.(view := ViewOf(w, termId)));
    SameResponse(After(env, termId, code, world, input), termId, again);
    NoCatalog(After(env, termId, code, world, input), termId, again);
  }

  lemma SameResponse(world: World, termId: nat, input: SweepInput)
    requires world.db.UniqueCrns() && Decide(world, termId, input).Succeeded?
    ensures input.response.Some?
  {
  }

  lemma LaterThanStoredStays(world: World, termId: nat, input: SweepInput)
    requires world.db.UniqueCrns() && input.response.Some? && LaterThanStored(world.db, input.fetchedAt)
    ensures LaterThanStored(AddedTables(world, termId, input), input.fetchedAt)
  {
    hide AddedBy, InScopeRows;
  }

  lemma FirstPlan(world: World, termId: nat, input: SweepInput)
    requires world.db.UniqueCrns() && Decide(world, termId, input).Succeeded?
    ensures input.response.Some?
    ensures Decide(world, termId, input).plan ==
      PlanOf(InScopeRows(input.response.value), DiffState(world, termId, input))
  {
    hide FullState, PlanOf, NewCourseKeys, InScopeRows, Passes, DistinctCrns, WithAdded;
  }

  // ---- Does the second sweep go through? ----

  /** The gate of the second sweep can only be tripped by subjects: nothing is missing any more and
      as many rows came as last time. */
  lemma OnlySubjectsCanTrip(rows: seq<Row>, st: DbState, t: GateThresholds)
    requires 0.0 <= t.maxMissing && t.minRowRatio <= 1.0
    requires rows != [] && |MissingCrns(rows, st.view)| == 0 && st.lastSuccess == Some(|rows|)
    ensures Accepts(GateInputOf(rows, st), t) <==> SubjectsOk(GateInputOf(rows, st), t)
  {
    hide SubjectsOk;
    assert t.maxMissing * st.activeInScope as real >= 0.0;
    assert (1.0 - t.minRowRatio) * |rows| as real >= 0.0;
  }

  lemma ThresholdsAreShares(override: Option<real>)
    ensures ThresholdsFor(override).Some? ==>
      0.0 <= ThresholdsFor(override).value.maxMissing && ThresholdsFor(override).value.minRowRatio <= 1.0
  {
  }

  /** Nothing is missing after a sweep that went through. */
  lemma NothingMissing(env: RankingEnv, termId: nat, code: nat, world: World, input: SweepInput)
    requires Sound(world.db, termId, code) && InputOk(input) && Decide(world, termId, input).Succeeded?
    ensures After(env, termId, code, world, input).db.UniqueCrns()
    ensures var rows := InScopeRows(input.response.value);
      |MissingCrns(rows, FullState(After(env, termId, code, world, input), termId, rows).view)| == 0
  {
    hide Decide, ViewOf, ChosenMap, ActiveInScope, ActiveSubjects, DistinctCrns, InScopeRows, After, Swept, KeysOrdered,
      Full, DiffState, AddedTables, WrittenTables, Removals, MissingCrns;
    FirstPlan(world, termId, input);
    var rows := InScopeRows(input.response.value);
    FirstOfPair(env, termId, code, world, input);
    NextReads(env, termId, code, world, input);
    var first, w := DiffState(world, termId, input), WrittenTables(world, termId, input);
    NothingToRemove(rows, first, AddedTables(world, termId, input), termId, input.fetchedAt, w,
      first.(view := ViewOf(w, termId)));
    ViewIsOk(After(env, termId, code, world, input).db, termId);
    RemovalsAreTheMissing(rows, ViewOf(w, termId));
  }

  lemma FirstPassed(env: RankingEnv, termId: nat, code: nat, world: World, input: SweepInput)
    requires Sound(world.db, termId, code) && InputOk(input) && Decide(world, termId, input).Succeeded?
    ensures input.response.Some? && InScopeRows(input.response.value) != []
    ensures DistinctCrns(InScopeRows(input.response.value))
    ensures After(env, termId, code, world, input).lastSuccess == Some(|InScopeRows(input.response.value)|)
  {
    hide Sound, InScopeRows, DistinctCrns, FullState, SubjectsOk, RowsFloorOk, MissingOk, PlanOf, WithAdded,
      SucceededDb;
  }

  /** A second sweep of the same response goes through exactly when its subjects do: no other rule
      of the gate can trip, whatever the override. */
  lemma RepeatedSweepGoesThrough(
    env: RankingEnv, termId: nat, code: nat, world: World, input: SweepInput, again: SweepInput)
    requires Sound(world.db, termId, code) && InputOk(input) && Decide(world, termId, input).Succeeded?
    requires again.response == input.response && again.lockFree && !again.fault && !again.dryRun
    requires ThresholdsFor(again.override).Some?
    ensures After(env, termId, code, world, input).db.UniqueCrns()
    ensures var next, rows := After(env, termId, code, world, input), InScopeRows(input.response.value);
      Decide(next, termId, again).Succeeded? <==>
        SubjectsOk(GateInputOf(rows, FullState(next, termId, rows)), ThresholdsFor(again.override).value)
  {
    FirstPassed(env, termId, code, world, input);
    NothingMissing(env, termId, code, world, input);
    ThresholdsAreShares(again.override);
    hide Sound, InScopeRows, After, ThresholdsFor, FullState, SubjectsOk, DistinctCrns, MissingCrns, Accepts,
      GateInputOf, Decide;
    var next, rows := After(env, termId, code, world, input), InScopeRows(input.response.value);
    UndisturbedSweep(next, termId, again);
    assert FullState(next, termId, rows).lastSuccess == Some(|rows|) by { LastSuccessRead(next, termId, rows); }
    OnlySubjectsCanTrip(rows, FullState(next, termId, rows), ThresholdsFor(again.override).value);
  }

  lemma LastSuccessRead(world: World, termId: nat, rows: seq<Row>)
    requires world.db.UniqueCrns()
    ensures FullState(world, termId, rows).lastSuccess == world.lastSuccess
  {
    hide ViewOf, ChosenMap, ActiveInScope, ActiveSubjects;
  }

  /** With the lock free, no fault and no rehearsal, the gate alone decides. */
  lemma UndisturbedSweep(world: World, termId: nat, input: SweepInput)
    requires world.db.UniqueCrns() && input.lockFree && !input.fault && !input.dryRun
    requires input.response.Some? && DistinctCrns(InScopeRows(input.response.value))
    requires ThresholdsFor(input.override).Some?
    ensures Decide(world, termId, input).Succeeded? <==>
      Accepts(GateInputOf(InScopeRows(input.response.value),
        FullState(world, termId, InScopeRows(input.response.value))),
              ThresholdsFor(input.override).value)
  {
    hide InScopeRows, ThresholdsFor, FullState, DistinctCrns, Accepts, GateInputOf, PlanOf, WithAdded, AddedBy;
  }
}
