/** What a run of sweeps leaves to the next one. */
module RunResult {
  import opened Text
  import opened Rankings
  import opened SweepPlan
  import opened Scope
  import opened SweepRun
  import opened SweepHistory
  import opened GateMeaning

  ghost predicate SucceedsAt(
    env: RankingEnv, termId: nat, code: nat, world: World, inputs: seq<SweepInput>, k: nat)
    requires Sound(world.db, termId, code) && k < |inputs| && forall i | i in inputs :: InputOk(i)
  {
    Decide(RunOf(env, termId, code, world, inputs[..k]), termId, inputs[k]).Succeeded?
  }

  /** The k-th sweep succeeds and no later one does. */
  ghost predicate LastSucceeds(
    env: RankingEnv, termId: nat, code: nat, world: World, inputs: seq<SweepInput>, k: nat)
    requires Sound(world.db, termId, code) && k < |inputs| && forall i | i in inputs :: InputOk(i)
  {
    && SucceedsAt(env, termId, code, world, inputs, k)
    && forall j | k < j < |inputs| :: !SucceedsAt(env, termId, code, world, inputs, j)
  }

  /** Busy, failed and rehearsed sweeps, however many, leave everything as it was. */
  lemma {:induction false} OnlySuccessChanges(
    env: RankingEnv, termId: nat, code: nat, world: World, inputs: seq<SweepInput>, from: nat)
    requires Sound(world.db, termId, code) && from <= |inputs| && forall i | i in inputs :: InputOk(i)
    requires forall k | from <= k < |inputs| :: !SucceedsAt(env, termId, code, world, inputs, k)
    ensures RunOf(env, termId, code, world, inputs) == RunOf(env, termId, code, world, inputs[..from])
    decreases |inputs|
  {
    hide Sound, InputOk, Decide, After, RunOf, SucceedsAt;
    var n := |inputs|;
    if from == n {
      assert inputs[..from] == inputs;
    } else {
      var rest := inputs[..n - 1];
      assert !SucceedsAt(env, termId, code, world, inputs, n - 1);
      forall k | from <= k < |rest| ensures !SucceedsAt(env, termId, code, world, rest, k) {
        assert !SucceedsAt(env, termId, code, world, inputs, k);
        SamePrefix(env, termId, code, world, inputs, k);
      }
      OnlySuccessChanges(env, termId, code, world, rest, from);
      assert rest[..from] == inputs[..from];
      LastChangesNothing(env, termId, code, world, inputs);
    }
  }

  lemma SamePrefix(env: RankingEnv, termId: nat, code: nat, world: World, inputs: seq<SweepInput>, k: nat)
    requires Sound(world.db, termId, code) && k < |inputs| - 1 && forall i | i in inputs :: InputOk(i)
    ensures SucceedsAt(env, termId, code, world, inputs[..|inputs| - 1], k) ==
      SucceedsAt(env, termId, code, world, inputs, k)
  {
    hide Sound, InputOk, Decide, RunOf;
    assert inputs[..|inputs| - 1][..k] == inputs[..k];
  }

  lemma LastChangesNothing(env: RankingEnv, termId: nat, code: nat, world: World, inputs: seq<SweepInput>)
    requires Sound(world.db, termId, code) && inputs != [] && forall i | i in inputs :: InputOk(i)
    requires !SucceedsAt(env, termId, code, world, inputs, |inputs| - 1)
    ensures RunOf(env, termId, code, world, inputs) == RunOf(env, termId, code, world, inputs[..|inputs| - 1])
  {
    hide Sound, InputOk, Decide, SucceededDb;
  }

  /** The size the next sweep is measured against is that of the last succeeded one. */
  lemma LastSizeIsKept(env: RankingEnv, termId: nat, code: nat, world: World, inputs: seq<SweepInput>, k: nat)
    requires Sound(world.db, termId, code) && k < |inputs| && forall i | i in inputs :: InputOk(i)
    requires LastSucceeds(env, termId, code, world, inputs, k)
    ensures inputs[k].response.Some?
    ensures RunOf(env, termId, code, world, inputs).lastSuccess == Some(|InScopeRows(inputs[k].response.value)|)
  {
    hide Sound, InputOk, After, Decide, InScopeRows;
    OnlySuccessChanges(env, termId, code, world, inputs, k + 1);
    assert inputs[..k + 1][..k] == inputs[..k];
    SuccessSetsSize(env, termId, code, RunOf(env, termId, code, world, inputs[..k]), inputs[k]);
  }

  lemma SuccessSetsSize(env: RankingEnv, termId: nat, code: nat, world: World, input: SweepInput)
    requires Sound(world.db, termId, code) && InputOk(input) && Decide(world, termId, input).Succeeded?
    ensures input.response.Some?
    ensures After(env, termId, code, world, input).lastSuccess == Some(|InScopeRows(input.response.value)|)
  {
    hide Sound, InputOk, InScopeRows, SucceededDb, Passes, PlanOf, FullState, AddedBy, WithAdded, DistinctCrns;
  }

  /** Main result: after a run whose last succeeded sweep is the k-th, an undisturbed sweep without an
      override goes through only with nine tenths of that sweep's rows in scope, and exactly when the
      other three rules hold too over the tables as they then are. */
  lemma JudgedByLastSuccess(
    env: RankingEnv, termId: nat, code: nat, world: World, inputs: seq<SweepInput>, k: nat, input: SweepInput)
    requires Sound(world.db, termId, code) && k < |inputs| && forall i | i in inputs :: InputOk(i)
    requires LastSucceeds(env, termId, code, world, inputs, k)
    requires input.lockFree && !input.fault && !input.dryRun && input.override.None?
    requires input.response.Some? && DistinctCrns(InScopeRows(input.response.value))
    ensures inputs[k].response.Some?
    ensures var now := RunOf(env, termId, code, world, inputs);
      var db, rows := now.db, InScopeRows(input.response.value);
      Decide(now, termId, input).Succeeded? <==>
        && rows != []
        && 10 * |UnlistedIds(db, termId, rows)| <= |FollowedIds(db, termId)|
        && 10 * |rows| >= 9 * |InScopeRows(inputs[k].response.value)|
        && (|LostSubjects(db, termId, rows)| <= 2 ||
          50 * |LostSubjects(db, termId, rows)| <= |FollowedSubjects(db, termId)|)
  {
    hide Decide, RunOf, FollowedIds, UnlistedIds, LostSubjects, FollowedSubjects, InScopeRows, DistinctCrns, InputOk,
      LastSucceeds, Sound;
    LastSizeIsKept(env, termId, code, world, inputs, k);
    var now := RunOf(env, termId, code, world, inputs);
    SoundIsReadable(now.db, termId, code);
    DefaultGate(now, termId, input);
  }
}
