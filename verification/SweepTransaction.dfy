/** The sweep itself: one transaction, with the worker's cache, committed or rolled back. */
module SweepTransaction {
  import opened Text
  import opened Ordering
  import opened Schema
  import opened Evidence
  import opened Analytics
  import opened Rankings
  import opened SweepPlan
  import opened Scope
  import opened SweepState
  import opened SweepApply
  import opened SweepFrame
  import opened ApplySweepPlan
  import opened StateReload
  import opened Fingerprint
  import opened StateCache
  import opened EvidenceCache
  import opened EvidenceTrust
  import opened Gate
  import opened CourseAdding
  import opened DbLoad
  import opened SweepRun
  import opened SweepHistory

  /** The catalog answers for the missing courses are stored, and the diff learns their ids. */
  method AddCourses(session: Session, rows: seq<Row>, st: DbState, catalog: map<nat, Course>) returns (more: DbState)
    modifies session
    ensures var added := Adopted(old(session.db), catalog, NewCourseKeys(rows, st));
      session.db == WithCourses(old(session.db), added) && more == WithAdded(st, old(session.db), added)
  {
    var added := Adopted(session.db, catalog, NewCourseKeys(rows, st));
    more := st;
    ghost var before := session.db;
    if added != map[] {
      session.db := WithCourses(session.db, added);
      var ids := ResolveAddedCourseIds(session.db.courses, AddedKeys(added));
      more := st.(courseIds := st.courseIds + ids);
    } else {
      NothingAdded(st, before);
    }
  }

  lemma NothingAdded(st: DbState, db: Db)
    ensures WithCourses(db, map[]) == db && WithAdded(st, db, map[]) == st
  {
    hide IsChosen;
    assert db.courses + map[] == db.courses;
    assert ChosenMapOf(db.courses, {}) == map[];
    assert AddedKeys(map[]) == {};
    assert st.courseIds + map[] == st.courseIds;
  }

  method ResolveAddedCourseIds(courses: map<nat, Course>, keys: set<CourseKey>) returns (ids: map<CourseKey, nat>)
    ensures ids == ChosenMapOf(courses, keys)
  {
    hide Preferred, IsChosen;
    var all := LoadCourseIds(courses, set k | k in keys :: k.0);
    ids := map k | k in all && k in keys :: all[k];
    forall k | k in keys
      ensures (k in all <==> CourseIds(courses, k) != {}) && (k in all ==> all[k] == ChosenId(courses, k))
    {
      ChosenOfKey(courses, k);
      if k in all {
        OneChosen(courses, k, all[k], ChosenId(courses, k));
      }
    }
  }

  lemma ChosenOfKey(courses: map<nat, Course>, key: CourseKey)
    ensures CourseIds(courses, key) != {} <==> exists c :: c in courses && courses[c].Key() == key
  {
    if c :| c in courses && courses[c].Key() == key {
      assert c in CourseIds(courses, key);
    } else {
      assert CourseIds(courses, key) == {};
    }
  }

  lemma RankingsUnseen(w: Db, rankings: map<nat, Ranking>, view: TermView, ids: set<nat>, termId: nat)
    requires UniqueIn(w.sections, ids)
    ensures Reloaded(w.(rankings := rankings), view, ids) == Reloaded(w, view, ids)
    ensures FingerprintOf(w.(rankings := rankings), termId) == FingerprintOf(w, termId)
    ensures w.UniqueCrns() ==>
      w.(rankings := rankings).UniqueCrns() && ViewOf(w.(rankings := rankings), termId) == ViewOf(w, termId)
  {
    hide MaxId, SectionsByCrnMap, SubjectsByCrnMap, StatesOf, SeatsMap;
    assert RemovedIn(w.(rankings := rankings), termId) == RemovedIn(w, termId);
    assert InstructorIdsIn(w.(rankings := rankings), termId) == InstructorIdsIn(w, termId);
    assert SnapshotIdsIn(w.(rankings := rankings), termId) == SnapshotIdsIn(w, termId);
  }

  /** What the cache stages after a plan is what a full read of the new tables would give. */
  lemma StagedIsLoaded(env: RankingEnv, db: Db, termId: nat, code: nat, plan: Plan, at: int)
    requires db.SectionsOk() && GoodPlan(db, termId, plan) && CoursesKnown(Written(db, termId, plan, at))
    ensures var after := Applied(env, db, termId, code, plan, at);
      && after.UniqueCrns() && UniqueIn(after.sections, TouchedIds(db, plan))
      && Reloaded(after, ViewOf(db, termId), TouchedIds(db, plan)) == ViewOf(after, termId)
  {
    hide WrittenSections, WrittenInstructors, WrittenSnapshots, ViewOf, UniqueIn, Reloaded, Applied,
      GoodPlan, Full, TouchedIds, FingerprintOf;
    ReloadIsFullLoad(db, termId, plan, at);
    AppliedTables(env, db, termId, code, plan, at);
    RankingsUnseen(Written(db, termId, plan, at), Applied(env, db, termId, code, plan, at).rankings,
      ViewOf(db, termId), TouchedIds(db, plan), termId);
  }

  /** The writes of a plan, then the re-read of what they touched. */
  method WriteAndStage(
    session: Session, cache: SweepStateCache?, evidence: GradeEvidenceCache?, env: RankingEnv, plan: Plan,
    termId: nat, code: nat, at: int, joined: seq<JoinedRow>)
    requires Sound(session.db, termId, code) && GoodPlan(session.db, termId, plan)
    requires multiset(joined) == multiset(JoinedRows(session.db, code))
    requires cache != null ==>
      cache.current.Some? && cache.current.value.termId == termId &&
        cache.current.value.view == ViewOf(session.db, termId)
    requires evidence != null ==> evidence.Trusted(session.db, code)
    modifies session, cache, evidence
    ensures evidence != null ==> evidence.Trusted(old(session.db), code)
    ensures evidence != null ==> unchanged(evidence) || evidence.key == Some(KeyFor(old(session.db), code))
    ensures CoursesKnown(Written(old(session.db), termId, plan, at))
    ensures session.db == Applied(env, old(session.db), termId, code, plan, at) && session.db.UniqueCrns()
    ensures cache != null ==>
      && cache.state == old(cache.state) && cache.pending.Some?
      && cache.pending.value == Loaded(session.db, termId, cache.pending.value.loadedAt)
  {
    hide Applied, GoodPlan, Full, NormalizeKey, TouchedIds, Reloaded, ViewOf, FingerprintOf, AnswersFor,
      KeyFor, JoinGrades, WrittenSections, WrittenInstructors, WrittenSnapshots, KeysOrdered, UniqueIn;
    ghost var db := session.db;
    var touched := Apply(session, env, plan, termId, code, at, evidence, joined);
    StagedIsLoaded(env, db, termId, code, plan, at);
    if cache != null {
      cache.Stage(session.db, touched);
    }
  }

  /** Load, gate, add courses, diff, write, stage. Any raised error is `Failed`. */
  method SweepInTransaction(
    session: Session, cache: SweepStateCache?, evidence: GradeEvidenceCache?, env: RankingEnv, termId: nat, code: nat,
    lastSuccess: Option<nat>, input: SweepInput, joined: seq<JoinedRow>, ghost base: Db)
    returns (outcome: Outcome)
    requires Sound(session.db, termId, code) && InputOk(input) && input.lockFree
    requires multiset(joined) == multiset(JoinedRows(session.db, code))
    requires cache != null ==> Trusted(cache.state, base, session.db)
    requires evidence != null ==> evidence.Trusted(session.db, code)
    modifies session, cache, evidence
    ensures evidence != null ==> evidence.Trusted(old(session.db), code)
    ensures evidence != null ==> unchanged(evidence) || evidence.key == Some(KeyFor(old(session.db), code))
    ensures outcome == Decide(World(old(session.db), lastSuccess), termId, input)
    ensures outcome.Succeeded? ==>
      World(session.db, Some(outcome.plan.recordsSeen)) ==
        After(env, termId, code, World(old(session.db), lastSuccess), input)
    ensures outcome.Succeeded? && cache != null ==>
      cache.pending.Some? && session.db.UniqueCrns() &&
        cache.pending.value == Loaded(session.db, termId, cache.pending.value.loadedAt)
  {
    hide ViewOf, FingerprintOf, GoodPlan, PlanOf, Applied, Full, NormalizeKey, DistinctCrns, InScopeRows,
      ChosenMap, ActiveInScope, ActiveSubjects, Accepts, GateInputOf, Written, History, ViewOk, WithCourses,
      WithAdded, Adopted, KeysOrdered, Trusted, JoinGrades;
    ghost var world := World(session.db, lastSuccess);
    if input.response.None? {
      return Failed;
    }
    var scoped := ApplyScope(input.response.value);
    InScopeAmong(input.response.value);
    if scoped.DuplicateCrns? {
      return Failed;
    }
    var rows := scoped.rows;
    var st := LoadDbState(session.db, termId, rows, lastSuccess, cache, input.now, input.readAt, base);
    var passed := JudgeSweep(rows, st, input.override);
    if !passed {
      return Failed;
    }
    ViewIsOk(session.db, termId);
    if input.dryRun {
      var plan := Rehearse(rows, st);
      return if input.fault then Failed else Rehearsed(plan);
    }
    AddedState(world, termId, code, rows, input.catalog);
    st := AddCourses(session, rows, st, input.catalog);
    ViewIsOk(session.db, termId);
    var plan := BuildSweepPlan(rows, st);
    AddedEvidence(world, termId, code, rows, input.catalog);
    ghost var added := session.db;
    if evidence != null {
      SameEvidenceSameTrust(evidence, world.db, added, code);
    }
    WriteAndStage(session, cache, evidence, env, plan, termId, code, input.fetchedAt, joined);
    if evidence != null {
      SameEvidenceSameTrust(evidence, world.db, added, code);
    }
    PlanCountsRows(rows, st);
    outcome := if input.fault then Failed else Succeeded(plan);
  }

  lemma PlanCountsRows(rows: seq<Row>, st: DbState)
    ensures PlanOf(rows, st).recordsSeen == |rows|
  {
  }

  lemma AddedEvidence(world: World, termId: nat, code: nat, rows: seq<Row>, catalog: map<nat, Course>)
    requires world.db.UniqueCrns()
    ensures SameEvidence(world.db, WithCourses(world.db, AddedBy(world, termId, rows, catalog)), code)
    ensures JoinedRows(WithCourses(world.db, AddedBy(world, termId, rows, catalog)), code) == JoinedRows(world.db, code)
  {
    hide JoinedRows, AddedBy, SameNames, KeyFor;
    OtherTablesUnseen(world.db, WithCourses(world.db, AddedBy(world, termId, rows, catalog)), code);
  }

  method JudgeSweep(rows: seq<Row>, st: DbState, override: Option<real>) returns (passed: bool)
    ensures passed == Passes(rows, st, override)
  {
    hide Accepts, GateInputOf;
    var thresholds := ThresholdsFor(override);
    if thresholds.None? {
      return false;
    }
    var reasons := EvaluateGate(GateInputOf(rows, st), thresholds.value);
    passed := reasons == [];
  }

  method Rehearse(rows: seq<Row>, st: DbState) returns (plan: Plan)
    requires ViewOk(st.view)
    ensures plan == PlanOf(rows, st)
  {
    plan := BuildSweepPlan(rows, st);
  }

  /** `run_sweep`. A busy lock leaves everything alone, cache included; a failure rolls the tables
      back and forgets the cache; a rehearsal uses no cache and writes nothing; a commit keeps the
      staged state. Whatever the cache answered, the outcome and the tables are those of a sweep
      that reads the whole term every time. */
  method RunSweep(
    session: Session, cache: SweepStateCache?, evidence: GradeEvidenceCache?, env: RankingEnv, termId: nat, code: nat,
    lastSuccess: Option<nat>, input: SweepInput, joined: seq<JoinedRow>, ghost base: Db)
    returns (outcome: Outcome, seen: Option<nat>, ghost trusted: Db)
    requires Sound(session.db, termId, code) && InputOk(input)
    requires multiset(joined) == multiset(JoinedRows(session.db, code))
    requires cache != null ==> Trusted(cache.state, base, session.db)
    requires evidence != null ==> evidence.Trusted(session.db, code)
    modifies session, cache, evidence
    ensures outcome == Decide(World(old(session.db), lastSuccess), termId, input)
    ensures World(session.db, seen) == After(env, termId, code, World(old(session.db), lastSuccess), input)
    ensures cache != null ==> Trusted(cache.state, trusted, session.db)
    ensures evidence != null ==> evidence.Trusted(session.db, code)
    ensures evidence != null ==> unchanged(evidence) || evidence.key == Some(KeyFor(old(session.db), code))
    ensures trusted == if outcome.Succeeded? then session.db else base
    ensures cache != null && (outcome.Busy? || outcome.Rehearsed? || input.dryRun) ==> unchanged(cache)
    ensures cache != null && outcome.Failed? && !input.dryRun ==> cache.state == None
    ensures cache != null && outcome.Succeeded? ==>
      session.db.UniqueCrns() && cache.state.Some? &&
        cache.state.value == Loaded(session.db, termId, cache.state.value.loadedAt)
  {
    hide ViewOf, FingerprintOf, After, Full, NormalizeKey, History, JoinGrades, InScopeRows, Passes,
      FullState, AddedBy, WithAdded, PlanOf, DistinctCrns;
    ghost var world := World(session.db, lastSuccess);
    seen := lastSuccess;
    trusted := base;
    if !input.lockFree {
      outcome := Busy;
      NotSucceeded(env, termId, code, world, input);
      return;
    }
    var used := if input.dryRun then null else cache;
    var before := session.db;
    outcome := SweepInTransaction(session, used, evidence, env, termId, code, lastSuccess, input, joined, base);
    if outcome.Succeeded? {
      AfterKeepsSound(env, termId, code, world, input);
      if evidence != null {
        AfterKeepsEvidence(env, termId, code, world, input);
        SameEvidenceSameTrust(evidence, world.db, session.db, code);
      }
      NoWriters(session.db);
      seen := Some(outcome.plan.recordsSeen);
      trusted := session.db;
      if used != null {
        used.Commit();
      }
    } else {
      session.db := before;
      NotSucceeded(env, termId, code, world, input);
      if used != null && outcome.Failed? {
        used.Invalidate();
      }
    }
  }

  lemma NotSucceeded(env: RankingEnv, termId: nat, code: nat, world: World, input: SweepInput)
    requires Sound(world.db, termId, code) && InputOk(input) && !Decide(world, termId, input).Succeeded?
    ensures After(env, termId, code, world, input) == world
  {
    hide Decide;
  }
}
