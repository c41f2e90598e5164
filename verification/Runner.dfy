/** The worker loop, over any finite observation of its environment: clock readings, jitters, stop
    signals and sweep results. */
module Runner {
  import opened Text
  import opened Windows
  import opened CadenceLaws

  /** What became of one sweep; `Crashed` is an exception that ends the process. */
  datatype Status = Succeeded | Failed | Busy | DryRun | Crashed

  /** One round of a wait: is the stop event set, what does the clock say, did the event wake the sleep. */
  datatype Tick = Tick(stopSet: bool, clock: real, woken: bool)

  /** One round of the loop. `recorded` says whether the sweep left its start in the database. */
  datatype Turn = Turn(
    stopAtTop: bool, now: real, jitter: real, ticks: seq<Tick>,
    stopBeforeSweep: bool, attemptAt: real, status: Status, startedAt: real, recorded: bool)

  /** One sweep the loop started, with what it was planned from. */
  datatype Attempt = Attempt(
    prev: Option<real>, failures: nat, now: real, jitter: real, target: real,
    attemptAt: real, startedAt: real, status: Status, recorded: bool)
  {
    /** A busy sweep recorded no start of its own. */
    function Start(): real {
      if status.Busy? then attemptAt else startedAt
    }
  }

  /** The wait ends on time at this tick. */
  predicate Arrives(target: real, ticks: seq<Tick>, i: int) {
    && 0 <= i < |ticks| && ticks[i].clock >= target
    && (forall j | 0 <= j <= i :: !ticks[j].stopSet)
    && (forall j | 0 <= j < i :: !ticks[j].woken && ticks[j].clock < target)
  }

  ghost predicate WaitEnds(target: real, ticks: seq<Tick>) {
    exists i :: Arrives(target, ticks, i)
  }

  /** Sleeps in slices; true when the stop event fired, or the observation ended, before the target. */
  method WaitUntil(target: real, ticks: seq<Tick>) returns (stopped: bool)
    ensures !stopped <==> WaitEnds(target, ticks)
  {
    for i := 0 to |ticks|
      invariant forall j | 0 <= j < i :: !ticks[j].stopSet && !ticks[j].woken && ticks[j].clock < target
    {
      if ticks[i].stopSet {
        return true;
      }
      if target - ticks[i].clock <= 0.0 {
        assert Arrives(target, ticks, i);
        return false;
      }
      if ticks[i].woken {
        return true;
      }
    }
    return true;
  }

  /** The clock never runs backwards within a round. A sweep that succeeded is recorded and a busy one
      is not; the record of a failed or crashed one may itself have failed. */
  ghost predicate TurnOk(turn: Turn) {
    && JitterOk(turn.jitter)
    && (forall t | t in turn.ticks :: turn.now <= t.clock <= turn.attemptAt)
    && turn.now <= turn.attemptAt <= turn.startedAt
    && (turn.status.Succeeded? ==> turn.recorded) && (turn.status.Busy? || turn.status.DryRun? ==> !turn.recorded)
  }

  ghost predicate ScriptOk(script: seq<Turn>) {
    && (forall t | t in script :: TurnOk(t))
    && (forall i, j | 0 <= i < j < |script| :: script[i].startedAt <= script[j].now)
  }

  function LastStart(log: seq<Attempt>, initial: Option<real>): Option<real> {
    if log == [] then initial else Some(log[|log| - 1].Start())
  }

  /** Consecutive failures: a busy sweep counts neither way. */
  function FailuresAfter(log: seq<Attempt>): nat {
    if log == [] then 0
    else
      match log[|log| - 1].status
      case Busy => FailuresAfter(log[..|log| - 1])
      case Failed => FailuresAfter(log[..|log| - 1]) + 1
      case _ => 0
  }

  /** The planned start: at once when nothing is recorded. */
  function Planned(c: Cadence, prev: Option<real>, now: real, jitter: real, failures: nat): real {
    if prev.None? then now else c.NextStart(prev.value, now, jitter, failures)
  }

  /** One start kept every rule of the cadence. */
  ghost predicate Kept(c: Cadence, a: Attempt) {
    && a.target <= a.attemptAt <= a.startedAt && JitterOk(a.jitter)
    && a.target == Planned(c, a.prev, a.now, a.jitter, a.failures)
    && match a.prev
       case None => a.target == a.now
       case Some(p) =>
         && a.target >= p + IN_WINDOW_INTERVAL
         && (!c.Contains(a.target) ==> a.target >= p + OUTSIDE_WINDOW_INTERVAL)
         && a.target <= Max(a.now, p + LONGEST_INTERVAL)
         && (forall i | 0 <= i < |c.windows| && c.Opening(i) > p ::
               a.target <= Max(c.Opening(i), Max(p + IN_WINDOW_INTERVAL, a.now)))
  }

  /** What the loop makes of one turn. */
  predicate IsAttempt(a: Attempt, turn: Turn) {
    a == Attempt(a.prev, a.failures, turn.now, turn.jitter, a.target, turn.attemptAt, turn.startedAt, turn.status,
      turn.recorded)
  }

  /** The process is still alive after these sweeps. */
  predicate Running(log: seq<Attempt>) {
    log != [] ==> !log[|log| - 1].status.Crashed?
  }

  /** Why no sweep followed the log: the last one crashed, a stop before, during or after the wait,
      or enough sweeps. */
  ghost predicate Halted(c: Cadence, log: seq<Attempt>, turn: Turn, initial: Option<real>, maxSweeps: Option<nat>) {
    || !Running(log)
    || turn.stopAtTop || maxSweeps == Some(|log|) || turn.stopBeforeSweep
    || !WaitEnds(Planned(c, LastStart(log, initial), turn.now, turn.jitter, FailuresAfter(log)), turn.ticks)
  }

  ghost predicate LogOk(c: Cadence, log: seq<Attempt>, initial: Option<real>) {
    forall k | 0 <= k < |log| ::
      && log[k].prev == LastStart(log[..k], initial) && log[k].failures == FailuresAfter(log[..k])
      && Kept(c, log[k]) && (log[k].recorded ==> !log[k].status.Busy?)
      && (log[k].status.Crashed? ==> k == |log| - 1)
  }

  /** `run_loop`: every planned start keeps the floors of its tier, is never put off beyond the
      longest interval and never sleeps through an opening, whatever the sweeps return; and the loop
      ends only for a reason. */
  method RunLoop(c: Cadence, script: seq<Turn>, initial: Option<real>, maxSweeps: Option<nat>)
    returns (log: seq<Attempt>)
    requires c.Valid() && ScriptOk(script)
    ensures LogOk(c, log, initial)
    ensures |log| <= |script| && (maxSweeps.Some? ==> |log| <= maxSweeps.value)
    ensures forall k | 0 <= k < |log| ::
      IsAttempt(log[k], script[k]) && !script[k].stopAtTop && !script[k].stopBeforeSweep
    ensures |log| < |script| ==> Halted(c, log, script[|log|], initial, maxSweeps)
  {
    hide Cadence.NextStart, Cadence.Valid, LogOk, Kept, LastStart, FailuresAfter, TurnOk, WaitEnds;
    EmptyLog(c, initial);
    log := [];
    var last, failures := initial, 0;
    for k := 0 to |script|
      invariant Running(log) && |log| == k && LogOk(c, log, initial) && last == LastStart(log, initial)
      invariant failures == FailuresAfter(log)
      invariant maxSweeps.Some? ==> k <= maxSweeps.value
      invariant forall j | 0 <= j < k ::
        IsAttempt(log[j], script[j]) && !script[j].stopAtTop && !script[j].stopBeforeSweep
    {
      var turn := script[k];
      assert turn in script;
      if turn.stopAtTop || (maxSweeps.Some? && k >= maxSweeps.value) {
        return;
      }
      var target := if last.None? then turn.now else c.NextStart(last.value, turn.now, turn.jitter, failures);
      var stopped := WaitUntil(target, turn.ticks);
      if stopped || turn.stopBeforeSweep {
        return;
      }
      var attempt := Attempt(last, failures, turn.now, turn.jitter, target, turn.attemptAt, turn.startedAt,
        turn.status, turn.recorded);
      AttemptKept(c, attempt, turn);
      ghost var before := log;
      log := log + [attempt];
      LogGrows(c, before, attempt, initial);
      match turn.status {
        case Crashed => return;
        case Busy => last := Some(turn.attemptAt);
        case Failed => last, failures := Some(turn.startedAt), failures + 1;
        case _ => last, failures := Some(turn.startedAt), 0;
      }
    }
  }

  lemma AttemptKept(c: Cadence, a: Attempt, turn: Turn)
    requires c.Valid() && TurnOk(turn) && WaitEnds(a.target, turn.ticks)
    requires IsAttempt(a, turn) && a.target == Planned(c, a.prev, turn.now, turn.jitter, a.failures)
    ensures Kept(c, a) && (a.recorded ==> !a.status.Busy?)
  {
    hide Cadence.NextStart, Cadence.Contains, Cadence.Opening;
    var i :| Arrives(a.target, turn.ticks, i);
    assert turn.ticks[i] in turn.ticks;
    if a.prev.Some? {
      StartsAreSpaced(c, a.prev.value, turn.now, turn.jitter, a.failures);
      StartsAreBounded(c, a.prev.value, turn.now, turn.jitter, a.failures);
      forall i | 0 <= i < |c.windows| && c.Opening(i) > a.prev.value
        ensures a.target <= Max(c.Opening(i), Max(a.prev.value + IN_WINDOW_INTERVAL, a.now))
      {
        OpeningsAreMet(c, a.prev.value, turn.now, turn.jitter, a.failures, i);
      }
    }
  }

  lemma EmptyLog(c: Cadence, initial: Option<real>)
    ensures LogOk(c, [], initial) && LastStart([], initial) == initial && FailuresAfter([]) == 0
  {
  }

  lemma LogGrows(c: Cadence, log: seq<Attempt>, a: Attempt, initial: Option<real>)
    requires LogOk(c, log, initial) && Running(log) && Kept(c, a) && (a.recorded ==> !a.status.Busy?)
    requires a.prev == LastStart(log, initial) && a.failures == FailuresAfter(log)
    ensures LogOk(c, log + [a], initial) && LastStart(log + [a], initial) == Some(a.Start())
    ensures FailuresAfter(log + [a]) ==
      match a.status case Busy => FailuresAfter(log) case Failed => FailuresAfter(log) + 1 case _ => 0
  {
    hide Kept;
    var more := log + [a];
    assert more[..|log|] == log;
    forall k | 0 <= k < |more|
      ensures more[k].prev == LastStart(more[..k], initial) && more[k].failures == FailuresAfter(more[..k])
      ensures Kept(c, more[k]) && (more[k].recorded ==> !more[k].status.Busy?)
    {
      assert more[..k] == log[..k];
    }
  }

  // ---- Actual starts ----

  /** Waking up late costs the hourly floor exactly when the window of the planned start does not
      outlast the hour: else the actual start, however late, keeps it. */
  lemma LateWakeUps(c: Cadence, log: seq<Attempt>, initial: Option<real>, k: int)
    requires c.Valid() && LogOk(c, log, initial) && 0 <= k < |log| && log[k].prev.Some?
    ensures KeepsTheHour(c, log[k].prev.value, log[k].target) <==>
      WindowOutlastsTheHour(c, log[k].prev.value, log[k].target)
    ensures WindowOutlastsTheHour(c, log[k].prev.value, log[k].target) ==>
      c.Contains(log[k].attemptAt) || log[k].attemptAt >= log[k].prev.value + OUTSIDE_WINDOW_INTERVAL
  {
    hide Cadence.NextStart, LastStart, FailuresAfter, WindowOutlastsTheHour;
    assert Kept(c, log[k]);
    LateStartsAndTheHour(c, log[k].prev.value, log[k].now, log[k].jitter, log[k].failures);
  }

  /** The last start was twenty minutes before the window closes, the next is planned within it, and
      the wait is noticed to be over at the closing. */
  function LateTurn(): Turn {
    Turn(false, 85300.0, 1.0, [Tick(false, 85400.0, false), Tick(false, 86400.0, false)], false, 86400.0, Succeeded,
      86400.0, true)
  }

  lemma LateWakeUpBreaksTheHour()
    ensures var c := OneDayWindow();
      && c.Valid() && ScriptOk([LateTurn()]) && Planned(c, Some(85200.0), 85300.0, 1.0, 0) == 85500.0
      && !Halted(c, [], LateTurn(), Some(85200.0), None)
      && !c.Contains(86400.0) && 86400.0 < 85200.0 + OUTSIDE_WINDOW_INTERVAL
  {
    var c := OneDayWindow();
    InOneDayWindow(85200.0, 85300.0, 0);
    hide Cadence.NextStart;
    assert Arrives(85500.0, LateTurn().ticks, 1);
  }

  /** Rate limit: any n further starts take at least n times 300 s, whatever mix of success,
      failure and busy occurs. */
  lemma {:induction false} StartsAreRateLimited(c: Cadence, log: seq<Attempt>, initial: Option<real>, i: int, j: int)
    requires LogOk(c, log, initial) && 0 <= i <= j < |log|
    ensures log[j].Start() >= log[i].Start() + IN_WINDOW_INTERVAL * (j - i) as real
    ensures i == 0 && initial.Some? ==> log[j].Start() >= initial.value + IN_WINDOW_INTERVAL * (j + 1) as real
    decreases j - i
  {
    hide FailuresAfter, LogOk;
    LogPrefix(c, log, j, initial);
    if i < j {
      StartsAreRateLimited(c, log, initial, i, j - 1);
      assert log[..j][j - 1] == log[j - 1];
    }
  }

  /** The starts the database keeps. */
  function Recorded(log: seq<Attempt>): seq<real> {
    if log == [] then []
    else
      var last := log[|log| - 1];
      Recorded(log[..|log| - 1]) + if last.recorded then [last.startedAt] else []
  }

  /** Each recorded start is at least 300 s after the one before it. */
  ghost predicate Gapped(starts: seq<real>, initial: Option<real>) {
    && (forall k | 0 <= k < |starts| - 1 :: starts[k + 1] >= starts[k] + IN_WINDOW_INTERVAL)
    && (starts != [] && initial.Some? ==> starts[0] >= initial.value + IN_WINDOW_INTERVAL)
  }

  function LatestRecorded(starts: seq<real>, initial: Option<real>): Option<real> {
    if starts == [] then initial else Some(starts[|starts| - 1])
  }

  lemma LogPrefix(c: Cadence, log: seq<Attempt>, n: nat, initial: Option<real>)
    requires LogOk(c, log, initial) && n < |log|
    ensures LogOk(c, log[..n], initial)
    ensures var a := log[n];
      && a.prev == LastStart(log[..n], initial) && a.attemptAt <= a.startedAt && (a.recorded ==> !a.status.Busy?)
      && (a.prev.Some? ==> a.attemptAt >= a.prev.value + IN_WINDOW_INTERVAL)
  {
    hide FailuresAfter, LastStart;
    assert Kept(c, log[n]);
    hide Kept;
    assert forall k | 0 <= k <= n :: log[..n][..k] == log[..k];
  }

  lemma {:induction false} RecordedAreGapped(c: Cadence, log: seq<Attempt>, initial: Option<real>)
    requires LogOk(c, log, initial)
    ensures Gapped(Recorded(log), initial)
    ensures var latest := LatestRecorded(Recorded(log), initial);
      var last := LastStart(log, initial);
      latest.Some? ==> last.Some? && (latest == last || last.value >= latest.value + IN_WINDOW_INTERVAL)
  {
    hide LogOk;
    if log != [] {
      var n := |log| - 1;
      LogPrefix(c, log, n, initial);
      RecordedAreGapped(c, log[..n], initial);
    }
  }

  // ---- Restarts ----

  lemma GapsJoin(before: seq<real>, after: seq<real>, initial: Option<real>)
    requires Gapped(before, initial) && Gapped(after, LatestRecorded(before, initial))
    ensures Gapped(before + after, initial)
    ensures LatestRecorded(before + after, initial) == LatestRecorded(after, LatestRecorded(before, initial))
  {
  }

  /** The recorded starts of one process after the other. */
  function AllRecorded(logs: seq<seq<Attempt>>): seq<real> {
    if logs == [] then [] else AllRecorded(logs[..|logs| - 1]) + Recorded(logs[|logs| - 1])
  }

  /** Every process keeps the rules of the cadence, planned from the latest recorded start. */
  ghost predicate ProcessesOk(c: Cadence, logs: seq<seq<Attempt>>, initial: Option<real>) {
    forall k | 0 <= k < |logs| :: LogOk(c, logs[k], LatestRecorded(AllRecorded(logs[..k]), initial))
  }

  lemma OneMoreProcess(c: Cadence, logs: seq<seq<Attempt>>, log: seq<Attempt>, initial: Option<real>)
    requires ProcessesOk(c, logs, initial) && LogOk(c, log, LatestRecorded(AllRecorded(logs), initial))
    ensures ProcessesOk(c, logs + [log], initial) && AllRecorded(logs + [log]) == AllRecorded(logs) + Recorded(log)
  {
    hide LogOk, Recorded;
    var more := logs + [log];
    assert more[..|logs|] == logs;
    forall k | 0 <= k < |more| ensures LogOk(c, more[k], LatestRecorded(AllRecorded(more[..k]), initial)) {
      assert more[..k] == logs[..k];
    }
  }

  /** The last start of all, recorded or not. */
  function LastOfAll(logs: seq<seq<Attempt>>, initial: Option<real>): Option<real> {
    if logs == [] then initial else LastStart(logs[|logs| - 1], LastOfAll(logs[..|logs| - 1], initial))
  }

  lemma ProcessesPrefix(c: Cadence, logs: seq<seq<Attempt>>, initial: Option<real>)
    requires ProcessesOk(c, logs, initial) && logs != []
    ensures ProcessesOk(c, logs[..|logs| - 1], initial)
    ensures LogOk(c, logs[|logs| - 1], LatestRecorded(AllRecorded(logs[..|logs| - 1]), initial))
  {
    hide LogOk, AllRecorded, LatestRecorded;
    var n := |logs| - 1;
    forall k | 0 <= k < n ensures LogOk(c, logs[..n][k], LatestRecorded(AllRecorded(logs[..n][..k]), initial)) {
      assert logs[..n][..k] == logs[..k];
    }
  }

  /** The last start is the latest recorded one or comes 300 s and more after it. */
  lemma {:induction false} UnrecordedIsLater(c: Cadence, logs: seq<seq<Attempt>>, initial: Option<real>)
    requires ProcessesOk(c, logs, initial)
    ensures var latest, last := LatestRecorded(AllRecorded(logs), initial), LastOfAll(logs, initial);
      latest.Some? ==> last.Some? && (latest == last || last.value >= latest.value + IN_WINDOW_INTERVAL)
  {
    hide LogOk, ProcessesOk, Recorded, Gapped;
    if logs != [] {
      var n := |logs| - 1;
      ProcessesPrefix(c, logs, initial);
      UnrecordedIsLater(c, logs[..n], initial);
      var seed := LatestRecorded(AllRecorded(logs[..n]), initial);
      RecordedAreGapped(c, logs[n], seed);
      NothingRecorded(logs[n]);
    }
  }

  lemma NothingRecorded(log: seq<Attempt>)
    ensures log == [] ==> Recorded(log) == []
  {
  }

  /** A restart never sweeps within 300 s of the last start, crashed or not, exactly when that start
      left its record or the latest recorded one protects it. */
  lemma RestartsAndTheFloor(c: Cadence, logs: seq<seq<Attempt>>, initial: Option<real>)
    requires c.Valid() && ProcessesOk(c, logs, initial) && LastOfAll(logs, initial).Some?
    ensures var latest, last := LatestRecorded(AllRecorded(logs), initial), LastOfAll(logs, initial).value;
      (forall now, jitter | now >= last && JitterOk(jitter) ::
        Planned(c, latest, now, jitter, 0) >= last + IN_WINDOW_INTERVAL)
      <==> latest == Some(last) || (latest.Some? && RestartIsSafe(c, latest.value, last))
  {
    hide Cadence.NextStart, ProcessesOk;
    var latest, last := LatestRecorded(AllRecorded(logs), initial), LastOfAll(logs, initial).value;
    UnrecordedIsLater(c, logs, initial);
    if latest.None? {
      assert Planned(c, latest, last, 1.0, 0) == last;
    } else if latest == Some(last) {
      forall now, jitter | now >= last && JitterOk(jitter)
        ensures Planned(c, latest, now, jitter, 0) >= last + IN_WINDOW_INTERVAL
      {
        StartsAreSpaced(c, last, now, jitter, 0);
      }
    } else {
      UnrecordedStartAndTheFloor(c, latest.value, last);
      assert forall now, jitter :: Planned(c, latest, now, jitter, 0) == c.NextStart(latest.value, now, jitter, 0);
    }
  }

  /** A sweep at 310 s crashes without a record; the restart at 320 s plans from the recorded start at 10 s. */
  function CrashingTurn(): Turn {
    Turn(false, 30.0, 1.0, [Tick(false, 310.0, false)], false, 310.0, Crashed, 310.0, false)
  }

  function RestartedTurn(): Turn {
    Turn(false, 320.0, 1.0, [Tick(false, 320.0, false)], false, 320.0, Succeeded, 320.0, true)
  }

  lemma RestartCanSweepEarly()
    ensures var c, seed := OneDayWindow(), Some(10.0);
      && c.Valid() && ScriptOk([CrashingTurn()]) && ScriptOk([RestartedTurn()])
      && !Halted(c, [], CrashingTurn(), seed, None) && !Halted(c, [], RestartedTurn(), seed, None)
      && Planned(c, seed, 320.0, 1.0, 0) == 320.0 < CrashingTurn().startedAt + IN_WINDOW_INTERVAL
  {
    var c := OneDayWindow();
    InOneDayWindow(10.0, 30.0, 0);
    InOneDayWindow(10.0, 320.0, 0);
    hide Cadence.NextStart;
    assert Arrives(310.0, CrashingTurn().ticks, 0) && Arrives(320.0, RestartedTurn().ticks, 0);
  }

  /** One process after the other, each seeded with the latest recorded start: across restarts
      every planned start keeps the floors of its tier, and no two recorded sweeps come closer
      than 300 s. */
  method RunProcesses(c: Cadence, scripts: seq<seq<Turn>>, initial: Option<real>)
    returns (starts: seq<real>, logs: seq<seq<Attempt>>)
    requires c.Valid() && forall s | s in scripts :: ScriptOk(s)
    ensures |logs| == |scripts| && ProcessesOk(c, logs, initial)
    ensures starts == AllRecorded(logs) && Gapped(starts, initial)
  {
    hide LogOk, ScriptOk, Cadence.Valid, Recorded, ProcessesOk, Gapped;
    starts, logs := [], [];
    assert ProcessesOk(c, logs, initial) && Gapped(starts, initial) by { NoProcess(c, initial); }
    for k := 0 to |scripts|
      invariant |logs| == k && ProcessesOk(c, logs, initial)
      invariant starts == AllRecorded(logs) && Gapped(starts, initial)
    {
      assert scripts[k] in scripts;
      var seed := LatestRecorded(starts, initial);
      var log := RunLoop(c, scripts[k], seed, None);
      RecordedAreGapped(c, log, seed);
      GapsJoin(starts, Recorded(log), initial);
      OneMoreProcess(c, logs, log, initial);
      starts, logs := starts + Recorded(log), logs + [log];
    }
  }

  lemma NoProcess(c: Cadence, initial: Option<real>)
    ensures ProcessesOk(c, [], initial) && Gapped([], initial)
  {
  }
}
