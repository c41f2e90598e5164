/** Whole runs of a worker, with other writers between its sweeps. */
module WorkerRun {
  import opened Text
  import opened Schema
  import opened Evidence
  import opened Rankings
  import opened Fingerprint
  import opened StateCache
  import opened EvidenceCache
  import opened EvidenceTrust
  import opened EvidenceWriters
  import opened SweepRun
  import opened SweepHistory
  import opened SweepTransaction

  /** What other writers make of the tables they find, between two sweeps: any history that keeps
      the tables sound. It may insert and delete rows of any term, grades included, and re-mark sections. */
  ghost predicate WriterOk(others: Db -> Db, termId: nat, code: nat) {
    forall db | Sound(db, termId, code) :: Sound(others(db), termId, code) && History(db, others(db))
  }

  /** The grade query returns the joined rows in whatever order. */
  ghost predicate ReaderOk(query: Db -> seq<JoinedRow>, code: nat) {
    forall db: Db :: multiset(query(db)) == multiset(JoinedRows(db, code))
  }

  ghost predicate RunOk(inputs: seq<SweepInput>, writers: seq<Db -> Db>, termId: nat, code: nat) {
    && |inputs| == |writers|
    && (forall i | i in inputs :: InputOk(i))
    && (forall k | 0 <= k < |writers| :: WriterOk(writers[k], termId, code))
  }

  /** What a sweep finds once the others have written. */
  ghost function Found(world: World, others: Db -> Db): World {
    World(others(world.db), world.lastSuccess)
  }

  /** One sweep, on whatever the others left, without any cache. */
  ghost function AfterAmong(
    env: RankingEnv, termId: nat, code: nat, world: World, input: SweepInput, others: Db -> Db): (end: World)
    requires Sound(world.db, termId, code) && InputOk(input) && WriterOk(others, termId, code)
    ensures Sound(end.db, termId, code)
  {
    AfterKeepsSound(env, termId, code, Found(world, others), input);
    After(env, termId, code, Found(world, others), input)
  }

  /** A run of them, one after the other. */
  ghost function RunAmong(
    env: RankingEnv, termId: nat, code: nat, world: World, inputs: seq<SweepInput>,
    writers: seq<Db -> Db>): (end: World)
    requires Sound(world.db, termId, code) && RunOk(inputs, writers, termId, code)
    ensures Sound(end.db, termId, code)
    decreases |inputs|
  {
    hide Sound, WriterOk, InputOk;
    if inputs == [] then world
    else
      var n := |inputs| - 1;
      AfterAmong(env, termId, code, RunAmong(env, termId, code, world, inputs[..n], writers[..n]), inputs[n],
        writers[n])
  }

  /** The tables that the kept state shows after a sweep: those it committed, none after a failure, else
      the earlier ones. */
  function KeptAfter(kept: Option<Db>, after: Db, outcome: Outcome, dryRun: bool): Option<Db> {
    if outcome.Succeeded? then Some(after) else if outcome.Failed? && !dryRun then None else kept
  }

  ghost function KeptAmong(
    env: RankingEnv, termId: nat, code: nat, world: World, kept: Option<Db>, input: SweepInput,
    others: Db -> Db): Option<Db>
    requires Sound(world.db, termId, code) && InputOk(input) && WriterOk(others, termId, code)
  {
    KeptAfter(kept, AfterAmong(env, termId, code, world, input, others).db,
              Decide(Found(world, others), termId, input), input.dryRun)
  }

  /** The tables that the kept state shows after a run. */
  ghost function LastKept(
    env: RankingEnv, termId: nat, code: nat, world: World, inputs: seq<SweepInput>, writers: seq<Db -> Db>): Option<Db>
    requires Sound(world.db, termId, code) && RunOk(inputs, writers, termId, code)
    decreases |inputs|
  {
    hide Sound, WriterOk, InputOk;
    if inputs == [] then None
    else
      var n := |inputs| - 1;
      KeptAmong(env, termId, code, RunAmong(env, termId, code, world, inputs[..n], writers[..n]),
                LastKept(env, termId, code, world, inputs[..n], writers[..n]), inputs[n], writers[n])
  }

  /** The changes of marks that others made since the kept state was read do not cancel out. */
  ghost predicate MarksShown(kept: Option<Db>, db: Db, termId: nat) {
    kept.Some? ==> MarksShow(kept.value, db, termId)
  }

  /** They never do, at the start of any sweep of the run. */
  ghost predicate MarksAlwaysShow(
    env: RankingEnv, termId: nat, code: nat, world: World, inputs: seq<SweepInput>, writers: seq<Db -> Db>)
    requires Sound(world.db, termId, code) && RunOk(inputs, writers, termId, code)
    decreases |inputs|
  {
    hide Sound, WriterOk, InputOk;
    inputs == [] ||
      var n := |inputs| - 1;
      && MarksAlwaysShow(env, termId, code, world, inputs[..n], writers[..n])
      && MarksShown(LastKept(env, termId, code, world, inputs[..n], writers[..n]),
                    Found(RunAmong(env, termId, code, world, inputs[..n], writers[..n]), writers[n]).db, termId)
  }

  ghost predicate StateKept(state: Option<TermSections>, kept: Option<Db>, db: Db, termId: nat) {
    state.Some? ==> kept.Some? && state.value.termId == termId && Trusted(state, kept.value, db)
  }

  lemma SoundIsKeyed(db: Db, termId: nat, code: nat)
    requires Sound(db, termId, code)
    ensures Keyed(db) && db.HistoryOk()
  {
    hide KeysOrdered, Full, NormalizeKey;
  }

  /** The kept state survives the others exactly while the marks show. */
  lemma StateSurvives(state: Option<TermSections>, kept: Option<Db>, db: Db, later: Db, termId: nat)
    requires StateKept(state, kept, db, termId) && History(db, later) && MarksShown(kept, later, termId)
    ensures StateKept(state, kept, later, termId)
  {
    hide Trusted, History, MarksShow;
    if state.Some? {
      TrustSurvivesWriters(state, kept.value, db, later);
    }
  }

  /** A reading made in the last sweep is one of the tables that sweep found; an older one lives on. */
  lemma ReadingMovesOn(
    evidence: GradeEvidenceCache, read: Db, found: Db, after: Db, code: nat, fresh_: bool)
    requires Keyed(found) && found.HistoryOk() && EvidenceHistory(found, after, code)
    requires SameEvidence(found, after, code)
    requires evidence.Trusted(after, code)
    requires if fresh_ then evidence.key == Some(KeyFor(found, code)) else ReadFrom(evidence, read, found, code)
    ensures ReadFrom(evidence, if fresh_ then found else read, after, code)
  {
    hide KeyFor, AnswersFor, EvidenceHistory, SameEvidence, Keyed;
    if fresh_ {
      SameEvidenceSameTrust(evidence, found, after, code);
    } else {
      ReadingSurvives(evidence, read, found, after, code);
    }
  }

  /** The worker sweeps the tables it finds. */
  method SweepFound(
    session: Session, cache: SweepStateCache, evidence: GradeEvidenceCache, env: RankingEnv, termId: nat, code: nat,
    lastSuccess: Option<nat>, input: SweepInput, joined: seq<JoinedRow>, ghost kept: Option<Db>, ghost read: Db)
    returns (seen: Option<nat>, ghost nowKept: Option<Db>, ghost nowRead: Db)
    requires Sound(session.db, termId, code) && InputOk(input)
    requires multiset(joined) == multiset(JoinedRows(session.db, code))
    requires StateKept(cache.state, kept, session.db, termId) && ReadFrom(evidence, read, session.db, code)
    modifies session, cache, evidence
    ensures World(session.db, seen) == After(env, termId, code, World(old(session.db), lastSuccess), input)
    ensures session.db.UniqueCrns()
    ensures nowKept ==
      KeptAfter(kept, session.db, Decide(World(old(session.db), lastSuccess), termId, input), input.dryRun)
    ensures StateKept(cache.state, nowKept, session.db, termId)
    ensures ReadFrom(evidence, nowRead, session.db, code)
  {
    hide After, Sound, SameEvidence, InputOk, EvidenceHistory, GradeEvidenceCache.Trusted, JoinedRows, Trusted,
      ReadFrom, Keyed, Decide, KeyFor;
    ghost var found := World(session.db, lastSuccess);
    SoundIsKeyed(found.db, termId, code);
    ReadingIsTrusted(evidence, read, found.db, code);
    AfterKeepsEvidence(env, termId, code, found, input);
    AfterKeepsSound(env, termId, code, found, input);
    ghost var base := if kept.Some? then kept.value else found.db;
    NothingKept(cache.state, base, found.db);
    var outcome;
    ghost var trusted;
    outcome, seen, trusted := RunSweep(session, cache, evidence, env, termId, code, lastSuccess, input, joined, base);
    nowKept := KeptAfter(kept, session.db, outcome, input.dryRun);
    nowRead := if evidence.key == Some(KeyFor(found.db, code)) then found.db else read;
    SoundIsReadable(session.db, termId, code);
    ReadingMovesOn(evidence, read, found.db, session.db, code, evidence.key == Some(KeyFor(found.db, code)));
  }

  /** Others write, then the worker sweeps. */
  method SweepAmong(
    session: Session, cache: SweepStateCache, evidence: GradeEvidenceCache, env: RankingEnv, termId: nat, code: nat,
    lastSuccess: Option<nat>, input: SweepInput, others: Db -> Db, query: Db -> seq<JoinedRow>,
    ghost kept: Option<Db>, ghost read: Db)
    returns (seen: Option<nat>, ghost nowKept: Option<Db>, ghost nowRead: Db)
    requires Sound(session.db, termId, code) && InputOk(input) && WriterOk(others, termId, code)
    requires ReaderOk(query, code)
    requires StateKept(cache.state, kept, session.db, termId) && MarksShown(kept, others(session.db), termId)
    requires ReadFrom(evidence, read, session.db, code)
    modifies session, cache, evidence
    ensures World(session.db, seen) == AfterAmong(env, termId, code, World(old(session.db), lastSuccess), input, others)
    ensures nowKept == KeptAmong(env, termId, code, World(old(session.db), lastSuccess), kept, input, others)
    ensures session.db.UniqueCrns() && StateKept(cache.state, nowKept, session.db, termId)
    ensures ReadFrom(evidence, nowRead, session.db, code)
  {
    hide After, Sound, InputOk, History, EvidenceHistory, JoinedRows, StateKept, MarksShown, ReadFrom, Keyed, Decide,
      KeptAfter;
    ghost var before := session.db;
    session.db := others(session.db);
    SoundIsKeyed(before, termId, code);
    StateSurvives(cache.state, kept, before, session.db, termId);
    HistoryIsEvidenceHistory(before, session.db, code);
    ReadingSurvives(evidence, read, before, session.db, code);
    seen, nowKept, nowRead := SweepFound(
      session, cache, evidence, env, termId, code, lastSuccess, input, query(session.db), kept, read);
  }

  lemma NothingKept(state: Option<TermSections>, base: Db, db: Db)
    ensures state.None? ==> Trusted(state, base, db)
  {
  }

  /** A worker's run among other writers: one state cache and one evidence cache serve all its
      sweeps, committed, refused, failed and rolled back, and every table ends as it would with every
      sweep reading everything, as long as no changes of marks cancel out unseen. */
  method RunSweepsAmong(
    session: Session, cache: SweepStateCache, evidence: GradeEvidenceCache, env: RankingEnv, termId: nat, code: nat,
    lastSuccess: Option<nat>, inputs: seq<SweepInput>, writers: seq<Db -> Db>, queries: seq<Db -> seq<JoinedRow>>)
    returns (seen: Option<nat>)
    requires Sound(session.db, termId, code) && RunOk(inputs, writers, termId, code)
    requires MarksAlwaysShow(env, termId, code, World(session.db, lastSuccess), inputs, writers)
    requires |queries| == |inputs| && forall q | q in queries :: ReaderOk(q, code)
    requires cache.state == None && evidence.key == None
    modifies session, cache, evidence
    ensures World(session.db, seen) == RunAmong(env, termId, code, World(old(session.db), lastSuccess), inputs, writers)
  {
    hide AfterAmong, KeptAmong, Sound, InputOk, WriterOk, ReaderOk, StateKept, MarksShown, ReadFrom;
    ghost var world := World(session.db, lastSuccess);
    ghost var kept: Option<Db>, read := None, session.db;
    seen := lastSuccess;
    NothingYet(cache, evidence, kept, session.db, termId, code);
    assert inputs[..|inputs|] == inputs && writers[..|writers|] == writers;
    for k := 0 to |inputs|
      invariant RunOk(inputs[..k], writers[..k], termId, code) && Sound(session.db, termId, code)
      invariant World(session.db, seen) == RunAmong(env, termId, code, world, inputs[..k], writers[..k])
      invariant kept == LastKept(env, termId, code, world, inputs[..k], writers[..k])
      invariant StateKept(cache.state, kept, session.db, termId) && ReadFrom(evidence, read, session.db, code)
    {
      assert inputs[..k + 1][..k] == inputs[..k] && writers[..k + 1][..k] == writers[..k];
      assert inputs[k] in inputs && queries[k] in queries;
      MarksShowAt(env, termId, code, world, inputs, writers, k);
      seen, kept, read := SweepAmong(
        session, cache, evidence, env, termId, code, seen, inputs[k], writers[k], queries[k], kept, read);
    }
  }

  lemma NothingYet(
    cache: SweepStateCache, evidence: GradeEvidenceCache, kept: Option<Db>, db: Db, termId: nat, code: nat)
    requires cache.state == None && evidence.key == None
    ensures StateKept(cache.state, kept, db, termId) && ReadFrom(evidence, db, db, code)
  {
  }

  lemma {:induction false} MarksShowAt(
    env: RankingEnv, termId: nat, code: nat, world: World, inputs: seq<SweepInput>, writers: seq<Db -> Db>, k: nat)
    requires Sound(world.db, termId, code) && RunOk(inputs, writers, termId, code) && k < |inputs|
    requires MarksAlwaysShow(env, termId, code, world, inputs, writers)
    ensures RunOk(inputs[..k], writers[..k], termId, code)
    ensures MarksShown(LastKept(env, termId, code, world, inputs[..k], writers[..k]),
                       Found(RunAmong(env, termId, code, world, inputs[..k], writers[..k]), writers[k]).db, termId)
    decreases |inputs|
  {
    hide Sound, WriterOk, InputOk, MarksShown, RunAmong, LastKept;
    var n := |inputs| - 1;
    if k < n {
      MarksShowAt(env, termId, code, world, inputs[..n], writers[..n], k);
      assert inputs[..n][..k] == inputs[..k] && writers[..n][..k] == writers[..k];
    }
  }

  // ---- Writers that only mark, or only restore ----

  /** Every change of marks goes one way: sections are only marked, or only restored. */
  ghost predicate OneWay(a: Db, b: Db, termId: nat, restoring: bool) {
    && a.nextSection <= b.nextSection
    && (forall id | id in b.sections && id in a.sections :: b.sections[id].termId == a.sections[id].termId)
    && (forall id | id in b.sections && id !in a.sections :: a.nextSection <= id)
    && if restoring then OnlyMarked(b, a, termId) else OnlyMarked(a, b, termId)
  }

  lemma OneWayComposes(a: Db, b: Db, c: Db, termId: nat, restoring: bool)
    requires OneWay(a, b, termId, restoring) && OneWay(b, c, termId, restoring)
    requires forall id | id in a.sections :: id < a.nextSection
    ensures OneWay(a, c, termId, restoring)
  {
  }

  lemma NothingIsOneWay(db: Db, termId: nat, restoring: bool)
    ensures OneWay(db, db, termId, restoring)
  {
  }

  lemma NoSweepNoChange(env: RankingEnv, termId: nat, code: nat, world: World, input: SweepInput)
    requires Sound(world.db, termId, code) && InputOk(input) && !Decide(world, termId, input).Succeeded?
    ensures After(env, termId, code, world, input) == world
  {
    hide Decide;
  }

  ghost predicate KeptOneWay(kept: Option<Db>, db: Db, termId: nat, restoring: bool) {
    kept.Some? ==> OneWay(kept.value, db, termId, restoring) && forall id | id in kept.value.sections ::
      id < kept.value.nextSection
  }

  lemma OneWayStep(
    env: RankingEnv, termId: nat, code: nat, world: World, kept: Option<Db>, input: SweepInput, others: Db -> Db,
    restoring: bool)
    requires Sound(world.db, termId, code) && InputOk(input) && WriterOk(others, termId, code)
    requires KeptOneWay(kept, world.db, termId, restoring) && OneWay(world.db, others(world.db), termId, restoring)
    ensures MarksShown(kept, Found(world, others).db, termId)
    ensures KeptOneWay(KeptAmong(env, termId, code, world, kept, input, others),
                       AfterAmong(env, termId, code, world, input, others).db, termId, restoring)
  {
    hide Sound, InputOk, MarksShow, Decide, After, OneWay, KeptOneWay, WriterOk;
    var found := Found(world, others);
    FoundIsSound(world, others, termId, code);
    var after := AfterAmong(env, termId, code, world, input, others);
    KeptOneWayFound(kept, world.db, found.db, termId, restoring);
    KeptOneWayNow(after.db, termId, code, restoring);
    NothingKeptYet(after.db, termId, restoring);
    if !Decide(found, termId, input).Succeeded? {
      NoSweepNoChange(env, termId, code, found, input);
    }
  }

  lemma FoundIsSound(world: World, others: Db -> Db, termId: nat, code: nat)
    requires Sound(world.db, termId, code) && WriterOk(others, termId, code)
    ensures Sound(Found(world, others).db, termId, code) && Found(world, others).db.UniqueCrns()
  {
    hide Sound;
    SoundIsReadable(Found(world, others).db, termId, code);
  }

  lemma KeptOneWayFound(kept: Option<Db>, db: Db, found: Db, termId: nat, restoring: bool)
    requires KeptOneWay(kept, db, termId, restoring) && OneWay(db, found, termId, restoring)
    ensures KeptOneWay(kept, found, termId, restoring) && MarksShown(kept, found, termId)
  {
    hide OneWay, MarksShow;
    if kept.Some? {
      OneWayComposes(kept.value, db, found, termId, restoring);
      OneWayShows(kept.value, found, termId, restoring);
    }
  }

  lemma KeptOneWayNow(db: Db, termId: nat, code: nat, restoring: bool)
    requires Sound(db, termId, code)
    ensures KeptOneWay(Some(db), db, termId, restoring)
  {
    hide OneWay, Sound;
    SoundIsReadable(db, termId, code);
    NothingIsOneWay(db, termId, restoring);
  }

  /** Operators who only remove sections, or only restore them, are always seen. */
  lemma {:induction false} OneWayRunsShow(
    env: RankingEnv, termId: nat, code: nat, world: World, inputs: seq<SweepInput>, writers: seq<Db -> Db>,
    restoring: bool)
    requires Sound(world.db, termId, code) && RunOk(inputs, writers, termId, code)
    requires forall k, db | 0 <= k < |writers| && Sound(db, termId, code) ::
      OneWay(db, writers[k](db), termId, restoring)
    ensures MarksAlwaysShow(env, termId, code, world, inputs, writers)
    ensures KeptOneWay(LastKept(env, termId, code, world, inputs, writers),
                       RunAmong(env, termId, code, world, inputs, writers).db, termId, restoring)
    decreases |inputs|
  {
    hide Sound, InputOk, WriterOk, MarksShown, AfterAmong, KeptAmong, OneWay, KeptOneWay, Found;
    if inputs != [] {
      var n := |inputs| - 1;
      OneWayRunsShow(env, termId, code, world, inputs[..n], writers[..n], restoring);
      OneWayStep(env, termId, code, RunAmong(env, termId, code, world, inputs[..n], writers[..n]),
                 LastKept(env, termId, code, world, inputs[..n], writers[..n]), inputs[n], writers[n], restoring);
    } else {
      NothingKeptYet(world.db, termId, restoring);
    }
  }

  lemma NothingKeptYet(db: Db, termId: nat, restoring: bool)
    ensures KeptOneWay(None, db, termId, restoring)
  {
  }

  lemma OneWayShows(a: Db, b: Db, termId: nat, restoring: bool)
    requires OneWay(a, b, termId, restoring)
    ensures MarksShow(a, b, termId)
  {
    hide MarksShow, OnlyMarked;
    OneWayMarksShow(a, b, termId);
  }

  // ---- Nobody else ----

  lemma NobodyIsAWriter(termId: nat, code: nat)
    ensures WriterOk((db: Db) => db, termId, code)
  {
    hide Sound, History;
    forall db: Db ensures History(db, db) {
      NoWriters(db);
    }
  }

  /** When nobody else writes, the run is the plain run of sweeps, and no marks can cancel out. */
  lemma {:induction false} AmongNobody(
    env: RankingEnv, termId: nat, code: nat, world: World, inputs: seq<SweepInput>, writers: seq<Db -> Db>)
    requires Sound(world.db, termId, code) && RunOk(inputs, writers, termId, code)
    requires forall k, db | 0 <= k < |writers| :: writers[k](db) == db
    ensures RunAmong(env, termId, code, world, inputs, writers) == RunOf(env, termId, code, world, inputs)
    ensures var kept := LastKept(env, termId, code, world, inputs, writers);
      kept.Some? ==> kept.value == RunAmong(env, termId, code, world, inputs, writers).db
    ensures MarksAlwaysShow(env, termId, code, world, inputs, writers)
    decreases |inputs|
  {
    hide Sound, WriterOk, InputOk, MarksShow, Decide, SucceededDb;
    if inputs != [] {
      var n := |inputs| - 1;
      AmongNobody(env, termId, code, world, inputs[..n], writers[..n]);
      var before := RunAmong(env, termId, code, world, inputs[..n], writers[..n]);
      MarksShowOfNothing(before.db, termId);
    }
  }

  lemma MarksShowOfNothing(db: Db, termId: nat)
    ensures MarksShow(db, db, termId)
  {
  }

  /** So a worker alone ends where the run without caches ends. */
  method RunSweeps(
    session: Session, cache: SweepStateCache, evidence: GradeEvidenceCache, env: RankingEnv, termId: nat, code: nat,
    lastSuccess: Option<nat>, inputs: seq<SweepInput>, queries: seq<Db -> seq<JoinedRow>>)
    returns (seen: Option<nat>)
    requires Sound(session.db, termId, code) && forall i | i in inputs :: InputOk(i)
    requires |queries| == |inputs| && forall q | q in queries :: ReaderOk(q, code)
    requires cache.state == None && evidence.key == None
    modifies session, cache, evidence
    ensures World(session.db, seen) == RunOf(env, termId, code, World(old(session.db), lastSuccess), inputs)
  {
    hide Sound, InputOk, WriterOk, RunOf, RunAmong, MarksAlwaysShow, ReaderOk, LastKept;
    ghost var world := World(session.db, lastSuccess);
    var nobody := (db: Db) => db;
    var writers := seq(|inputs|, i => nobody);
    NobodyIsAWriter(termId, code);
    AmongNobody(env, termId, code, world, inputs, writers);
    seen := RunSweepsAmong(session, cache, evidence, env, termId, code, lastSuccess, inputs, writers, queries);
  }
}
