/** What the planned start of a sweep guarantees, for every previous start, clock reading, jitter and
    number of failures. */
module CadenceLaws {
  import opened Text
  import opened Windows

  const LONGEST_INTERVAL: real := 4320.0

  lemma RequestedBounds(c: Cadence, prev: real, now: real, jitter: real, failures: nat)
    requires JitterOk(jitter)
    ensures Max(prev + IN_WINDOW_INTERVAL, now) <= c.Requested(prev, now, jitter, failures) <=
      Max(prev + LONGEST_INTERVAL, now)
  {
    hide Backoff;
    BackoffDoubles(failures);
    assert c.IntervalFor(prev) <= c.IntervalFor(prev) * jitter <= 3600.0 * 1.2;
  }

  lemma FlooredBounds(c: Cadence, prev: real, now: real, jitter: real, failures: nat)
    requires JitterOk(jitter)
    ensures c.Requested(prev, now, jitter, failures) <= c.Floored(prev, now, jitter, failures) <=
      Max(prev + LONGEST_INTERVAL, now)
    ensures !c.Contains(c.Floored(prev, now, jitter, failures)) ==>
      c.Floored(prev, now, jitter, failures) >= prev + OUTSIDE_WINDOW_INTERVAL
  {
    RequestedBounds(c, prev, now, jitter, failures);
  }

  /** The first opening after the previous start, when it lies before the floored target. */
  lemma PulledForward(c: Cadence, prev: real, now: real, jitter: real, failures: nat) returns (k: int)
    requires c.Valid()
    requires c.NextStart(prev, now, jitter, failures) != c.Floored(prev, now, jitter, failures)
    ensures 0 <= k < |c.windows| && prev < c.Opening(k) < c.Floored(prev, now, jitter, failures)
    ensures c.NextStart(prev, now, jitter, failures) == Max(c.Opening(k), Max(prev + IN_WINDOW_INTERVAL, now))
    ensures forall i | 0 <= i < |c.windows| && c.Opening(i) > prev :: c.Opening(k) <= c.Opening(i)
  {
    EarliestOpening(c, prev, 0);
    k :| 0 <= k < |c.windows| && c.NextWindowStartAfter(prev).value == c.Opening(k);
  }

  lemma JustOpened(c: Cadence, k: int, moment: real)
    requires c.Valid() && 0 <= k < |c.windows| && c.Opening(k) <= moment < c.Opening(k) + SHORTEST_DAY
    ensures c.Contains(moment)
  {
    WindowGaps(c, k, k);
    assert c.Inside(k, moment);
  }

  /** Safety: never two sweeps within 300 s, and never within the hour when the later one falls
      outside every window. */
  lemma StartsAreSpaced(c: Cadence, prev: real, now: real, jitter: real, failures: nat)
    requires c.Valid() && JitterOk(jitter)
    ensures var next := c.NextStart(prev, now, jitter, failures);
      && next >= now && next >= prev + IN_WINDOW_INTERVAL
      && (!c.Contains(next) ==> next >= prev + OUTSIDE_WINDOW_INTERVAL)
  {
    RequestedBounds(c, prev, now, jitter, failures);
    FlooredBounds(c, prev, now, jitter, failures);
    var next := c.NextStart(prev, now, jitter, failures);
    if next != c.Floored(prev, now, jitter, failures) {
      var k := PulledForward(c, prev, now, jitter, failures);
      if next < c.Opening(k) + SHORTEST_DAY {
        JustOpened(c, k, next);
      }
    }
  }

  /** A failed sweep is not repeated before its backoff, unless a window opens first. */
  lemma BackoffIsKept(c: Cadence, prev: real, now: real, jitter: real, failures: nat)
    requires c.Valid() && JitterOk(jitter) && failures > 0
    ensures var next := c.NextStart(prev, now, jitter, failures);
      next >= prev + Backoff(failures) || exists k :: 0 <= k < |c.windows| && prev < c.Opening(k) <= next
  {
    hide Backoff;
    FlooredBounds(c, prev, now, jitter, failures);
    if c.NextStart(prev, now, jitter, failures) != c.Floored(prev, now, jitter, failures) {
      var k := PulledForward(c, prev, now, jitter, failures);
    }
  }

  /** Liveness: the next sweep is never put off for longer than the jittered hour, whatever failed. */
  lemma StartsAreBounded(c: Cadence, prev: real, now: real, jitter: real, failures: nat)
    requires c.Valid() && JitterOk(jitter)
    ensures c.NextStart(prev, now, jitter, failures) <= Max(now, prev + LONGEST_INTERVAL)
  {
    FlooredBounds(c, prev, now, jitter, failures);
    if c.NextStart(prev, now, jitter, failures) != c.Floored(prev, now, jitter, failures) {
      var k := PulledForward(c, prev, now, jitter, failures);
    }
  }

  /** No opening is slept through. */
  lemma OpeningsAreMet(c: Cadence, prev: real, now: real, jitter: real, failures: nat, i: int)
    requires c.Valid() && JitterOk(jitter) && 0 <= i < |c.windows| && c.Opening(i) > prev
    ensures c.NextStart(prev, now, jitter, failures) <= Max(c.Opening(i), Max(prev + IN_WINDOW_INTERVAL, now))
  {
    EarliestOpening(c, prev, 0);
    if c.NextStart(prev, now, jitter, failures) != c.Floored(prev, now, jitter, failures) {
      var k := PulledForward(c, prev, now, jitter, failures);
    }
  }

  // ---- Freshness ----

  /** What was verified at `verified` is fresh at every instant from `from` to `next`. */
  ghost predicate FreshThroughout(c: Cadence, verified: real, from: real, next: real) {
    forall t | from <= t <= next :: t - verified <= c.FreshSeconds(verified, t)
  }

  /** The wait is within the outer limit; and when it starts in a window and outlasts the inner
      limit, that window closes in time and the wait ends outside. */
  predicate WaitIsFresh(c: Cadence, verified: real, from: real, next: real) {
    && next - verified <= 4500.0
    && (c.Contains(verified) && next - verified > 375.0 ==>
          !c.Contains(next) && forall i | 0 <= i < |c.windows| && c.Inside(i, from) :: c.Closing(i) <= verified + 375.0)
  }

  /** An opening during the wait ends the wait inside its window. */
  lemma OpeningEndsWait(c: Cadence, prev: real, now: real, jitter: real, failures: nat, from: real, i: int)
    requires c.Valid() && JitterOk(jitter) && prev <= from && 0 <= i < |c.windows|
    requires from < c.Opening(i) <= c.NextStart(prev, now, jitter, failures) < from + SHORTEST_DAY
    ensures c.Contains(c.NextStart(prev, now, jitter, failures))
  {
    OpeningsAreMet(c, prev, now, jitter, failures, i);
    JustOpened(c, i, c.NextStart(prev, now, jitter, failures));
  }

  /** Exactly when a wait for the next planned start is fresh throughout, whatever failed and
      however long the last sweep took. */
  lemma FreshExactly(c: Cadence, verified: real, from: real, prev: real, now: real, jitter: real, failures: nat)
    requires c.Valid() && JitterOk(jitter) && verified <= from
    requires prev <= from <= c.NextStart(prev, now, jitter, failures)
    ensures var next := c.NextStart(prev, now, jitter, failures);
      FreshThroughout(c, verified, from, next) <==> WaitIsFresh(c, verified, from, next)
  {
    var next := c.NextStart(prev, now, jitter, failures);
    hide Cadence.NextStart;
    if FreshThroughout(c, verified, from, next) {
      assert next - verified <= c.FreshSeconds(verified, next);
      if c.Contains(verified) && next - verified > 375.0 {
        forall i | 0 <= i < |c.windows| && c.Inside(i, from) ensures c.Closing(i) <= verified + 375.0 {
          var t := (Max(from, verified + 375.0) + c.Closing(i)) / 2.0;
          assert !c.Inside(i, next);
          assert c.Closing(i) > verified + 375.0 ==> c.Inside(i, t) && t - verified > c.FreshSeconds(verified, t);
        }
      }
    }
    if WaitIsFresh(c, verified, from, next) {
      forall t | from <= t <= next ensures t - verified <= c.FreshSeconds(verified, t) {
        if c.Contains(verified) && c.Contains(t) && t - verified > 375.0 {
          var i :| 0 <= i < |c.windows| && c.Inside(i, t);
          assert !c.Inside(i, from);
          OpeningEndsWait(c, prev, now, jitter, failures, from, i);
        }
      }
    }
  }

  /** Cadence implies freshness: while nothing fails and a sweep ends before the next one may start,
      what it verified is still fresh at every instant up to the next planned start, across
      openings, closings and touching windows. */
  lemma FreshUntilNextStart(c: Cadence, prev: real, verified: real, now: real, jitter: real)
    requires c.Valid() && JitterOk(jitter) && prev <= verified <= now <= prev + IN_WINDOW_INTERVAL
    ensures var next := c.NextStart(prev, now, jitter, 0);
      verified <= next && FreshThroughout(c, verified, verified, next)
  {
    var next := c.NextStart(prev, now, jitter, 0);
    StartsAreSpaced(c, prev, now, jitter, 0);
    StartsAreBounded(c, prev, now, jitter, 0);
    hide Cadence.NextStart, Cadence.Valid;
    if next - verified > 375.0 {
      forall i | 0 <= i < |c.windows| && c.Inside(i, verified)
        ensures !c.Contains(next) && c.Closing(i) <= verified + 375.0
      {
        LongWaitLeavesWindow(c, prev, verified, now, jitter, i);
      }
    }
    FreshExactly(c, verified, verified, prev, now, jitter, 0);
  }

  /** A wait of more than 375 s that starts in a window sees it close by then, and ends outside. */
  lemma LongWaitLeavesWindow(c: Cadence, prev: real, verified: real, now: real, jitter: real, i: int)
    requires c.Valid() && JitterOk(jitter) && prev <= verified <= now <= prev + IN_WINDOW_INTERVAL
    requires 0 <= i < |c.windows| && c.Inside(i, verified) && c.NextStart(prev, now, jitter, 0) > verified + 375.0
    ensures !c.Contains(c.NextStart(prev, now, jitter, 0)) && c.Closing(i) <= verified + 375.0
  {
    var next, wanted := c.NextStart(prev, now, jitter, 0), Max(prev + 300.0 * jitter, now);
    assert c.Inside(i, prev) by {
      if c.Opening(i) > prev {
        OpeningsAreMet(c, prev, now, jitter, 0, i);
      }
    }
    assert c.Requested(prev, now, jitter, 0) == wanted <= prev + 360.0;
    NotBeyondRequest(c, prev, now, jitter, 0);
    assert !c.Contains(wanted) && !c.Inside(i, wanted);
    StartsAreBounded(c, prev, now, jitter, 0);
    forall j | 0 <= j < |c.windows| ensures !c.Inside(j, next) {
      assert !c.Inside(j, wanted);
      WindowGaps(c, j, j);
      WindowGaps(c, if i < j then i else j, if i < j then j else i);
    }
  }

  /** A request that falls in a window is never put off. */
  lemma NotBeyondRequest(c: Cadence, prev: real, now: real, jitter: real, failures: nat)
    requires c.Valid() && JitterOk(jitter)
    ensures c.Contains(c.Requested(prev, now, jitter, failures)) ==>
      c.NextStart(prev, now, jitter, failures) <= c.Requested(prev, now, jitter, failures)
  {
    RequestedBounds(c, prev, now, jitter, failures);
    if c.NextStart(prev, now, jitter, failures) != c.Floored(prev, now, jitter, failures) {
      var k := PulledForward(c, prev, now, jitter, failures);
    }
  }

  /** After a failed sweep nothing newer was verified. Started in a window, the retry waits for 600 s
      or an opening, so seats stay fresh only when that window closes within 375 s of the
      verification and the retry falls outside, inside the outer limit. */
  lemma FreshAfterFailure(c: Cadence, verified: real, failedAt: real, now: real, jitter: real, failures: nat, i: int)
    requires c.Valid() && JitterOk(jitter) && verified <= failedAt && failures > 0
    requires 0 <= i < |c.windows| && c.Inside(i, verified) && c.Inside(i, failedAt)
    ensures var retry := c.NextStart(failedAt, now, jitter, failures);
      FreshThroughout(c, verified, failedAt, retry) <==>
        c.Closing(i) <= verified + 375.0 && retry <= verified + 4500.0
        && (retry <= verified + 375.0 || !c.Contains(retry))
  {
    var retry := c.NextStart(failedAt, now, jitter, failures);
    StartsAreSpaced(c, failedAt, now, jitter, failures);
    RetryWaits(c, failedAt, now, jitter, failures, i);
    FreshExactly(c, verified, failedAt, failedAt, now, jitter, failures);
    hide Cadence.NextStart;
    assert c.Contains(verified);
    forall k | 0 <= k < |c.windows| && c.Inside(k, failedAt) ensures k == i {
      WindowGaps(c, if i < k then i else k, if i < k then k else i);
    }
  }

  lemma RetryWaits(c: Cadence, failedAt: real, now: real, jitter: real, failures: nat, i: int)
    requires c.Valid() && JitterOk(jitter) && failures > 0 && 0 <= i < |c.windows| && c.Inside(i, failedAt)
    ensures var retry := c.NextStart(failedAt, now, jitter, failures);
      retry >= failedAt + 600.0 || retry >= c.Closing(i)
  {
    hide Backoff;
    BackoffAtLeast(failures);
    BackoffIsKept(c, failedAt, now, jitter, failures);
    forall k | 0 <= k < |c.windows| && failedAt < c.Opening(k) ensures c.Closing(i) <= c.Opening(k) {
      WindowGaps(c, if i < k then i else k, if i < k then k else i);
    }
  }

  lemma BackoffAtLeast(failures: nat)
    requires failures > 0
    ensures Backoff(failures) >= 600.0
  {
    BackoffDoubles(failures);
  }

  /** A calendar of days of 24 hours with one window, the first day. */
  function OneDayWindow(): Cadence {
    Cadence((d: int) => d as real * 86400.0, [Window(0, 0)])
  }

  lemma InOneDayWindow(prev: real, now: real, failures: nat)
    requires 0.0 <= prev <= now && (failures == 0 || failures == 1)
    requires now <= prev + 600.0 < 86400.0
    ensures var c := OneDayWindow();
      c.Valid() && c.NextStart(prev, now, 1.0, failures) == Max(prev + if failures == 0 then 300.0 else 600.0, now)
  {
    var c := OneDayWindow();
    BackoffDoubles(1);
    hide Backoff;
    assert c.Inside(0, prev) && c.Inside(0, prev + 300.0) && c.Inside(0, prev + 600.0) && c.Inside(0, now);
    assert c.NextOpening(prev, 1).None? && c.NextOpening(prev, 0).None?;
  }

  /** A sweep verified at 20 s, the next one failed at 320 s, its retry is due at 920 s: at 400 s the
      seats have aged. */
  lemma FailureOutlastsFresh()
    ensures var c := OneDayWindow();
      && c.Valid() && c.NextStart(10.0, 30.0, 1.0, 0) == 310.0 && c.NextStart(320.0, 330.0, 1.0, 1) == 920.0
      && !FreshThroughout(c, 20.0, 320.0, 920.0)
  {
    InOneDayWindow(10.0, 30.0, 0);
    InOneDayWindow(320.0, 330.0, 1);
    hide Cadence.NextStart, Cadence.Valid, OneDayWindow, FreshThroughout;
    AgedInOneDay();
  }

  lemma AgedInOneDay()
    ensures !FreshThroughout(OneDayWindow(), 20.0, 320.0, 920.0)
  {
    var c := OneDayWindow();
    assert c.Inside(0, 20.0) && c.Inside(0, 400.0);
    assert 400.0 - 20.0 > c.FreshSeconds(20.0, 400.0);
  }

  // ---- The hour, when a start is late ----

  /** Every start from `planned` on, however late, falls in a window or a full hour after `prev`. */
  ghost predicate KeepsTheHour(c: Cadence, prev: real, planned: real) {
    forall s | s >= planned :: c.Contains(s) || s >= prev + OUTSIDE_WINDOW_INTERVAL
  }

  /** The window of the planned start, if any, stays open to the end of the hour or touches the next. */
  predicate WindowOutlastsTheHour(c: Cadence, prev: real, planned: real) {
    forall i | 0 <= i < |c.windows| && c.Inside(i, planned) ::
      c.Closing(i) >= prev + OUTSIDE_WINDOW_INTERVAL || c.Contains(c.Closing(i))
  }

  /** The hourly floor holds of the planned start. It holds of every later start too exactly when
      the window of the planned start outlasts the hour. */
  lemma LateStartsAndTheHour(c: Cadence, prev: real, now: real, jitter: real, failures: nat)
    requires c.Valid() && JitterOk(jitter)
    ensures var planned := c.NextStart(prev, now, jitter, failures);
      KeepsTheHour(c, prev, planned) <==> WindowOutlastsTheHour(c, prev, planned)
  {
    var planned := c.NextStart(prev, now, jitter, failures);
    StartsAreSpaced(c, prev, now, jitter, failures);
    hide Cadence.NextStart;
    if WindowOutlastsTheHour(c, prev, planned) && c.Contains(planned) {
      var i :| 0 <= i < |c.windows| && c.Inside(i, planned);
      forall s | s >= planned ensures c.Contains(s) || s >= prev + OUTSIDE_WINDOW_INTERVAL {
        assert s < c.Closing(i) ==> c.Inside(i, s);
        if c.Closing(i) <= s < prev + OUTSIDE_WINDOW_INTERVAL {
          TouchingWindow(c, i, s);
        }
      }
    }
  }

  /** A window that touches the next one is followed by another day of window. */
  lemma TouchingWindow(c: Cadence, i: int, s: real)
    requires c.Valid() && 0 <= i < |c.windows| && c.Contains(c.Closing(i))
    requires c.Closing(i) <= s < c.Closing(i) + SHORTEST_DAY
    ensures c.Contains(s)
  {
    var j :| 0 <= j < |c.windows| && c.Inside(j, c.Closing(i));
    WindowGaps(c, i, i);
    WindowGaps(c, if i < j then i else j, if i < j then j else i);
    JustOpened(c, j, s);
  }

  // ---- What the planned start is ----

  /** The seconds asked for after a start: the interval of its tier, stretched, and after a failure at
      least the backoff. */
  function Wait(c: Cadence, prev: real, jitter: real, failures: nat): real {
    var interval := (if c.Contains(prev) then 300.0 else 3600.0) * jitter;
    var backoff :=
      if failures == 0 then 0.0 else if failures == 1 then 600.0 else if failures == 2 then 1200.0
      else if failures == 3 then 2400.0 else 3600.0;
    if interval < backoff then backoff else interval
  }

  /** An instant at which the next sweep may start: a window opened since the previous start, or the
      wait is over and ended in a window, or the stretched hour is over too. */
  predicate MayStart(c: Cadence, prev: real, now: real, jitter: real, failures: nat, t: real) {
    var over := Max(prev + Wait(c, prev, jitter, failures), now);
    && t >= now && t >= prev + 300.0
    && ((exists i :: 0 <= i < |c.windows| && prev < c.Opening(i) <= t)
        || (t >= over && (c.Contains(over) || t >= prev + 3600.0 * jitter)))
  }

  lemma RequestedIsWait(c: Cadence, prev: real, now: real, jitter: real, failures: nat)
    requires JitterOk(jitter)
    ensures c.Requested(prev, now, jitter, failures) == Max(prev + Wait(c, prev, jitter, failures), now)
  {
    BackoffDoubles(failures);
    hide Backoff;
    assert (if c.Contains(prev) then 300.0 else 3600.0) * jitter > 0.0;
  }

  /** Main result: the planned start is the least instant at which the next sweep may start. */
  lemma PlannedStartIsLeast(c: Cadence, prev: real, now: real, jitter: real, failures: nat)
    requires c.Valid() && JitterOk(jitter)
    ensures var next := c.NextStart(prev, now, jitter, failures);
      MayStart(c, prev, now, jitter, failures, next)
      && forall t | MayStart(c, prev, now, jitter, failures, t) :: next <= t
  {
    hide Backoff, Wait;
    var next := c.NextStart(prev, now, jitter, failures);
    RequestedIsWait(c, prev, now, jitter, failures);
    RequestedBounds(c, prev, now, jitter, failures);
    StartsAreSpaced(c, prev, now, jitter, failures);
    AtMostFloored(c, prev, now, jitter, failures);
    forall t | MayStart(c, prev, now, jitter, failures, t) ensures next <= t {
      if i :| 0 <= i < |c.windows| && prev < c.Opening(i) <= t {
        OpeningsAreMet(c, prev, now, jitter, failures, i);
      }
    }
    if next != c.Floored(prev, now, jitter, failures) {
      var k := PulledForward(c, prev, now, jitter, failures);
    }
  }

  /** With no opening in between, a start waits at least the stretched interval of its tier. */
  lemma JitteredIntervalIsKept(c: Cadence, prev: real, now: real, jitter: real, failures: nat)
    requires c.Valid() && JitterOk(jitter)
    ensures var next := c.NextStart(prev, now, jitter, failures);
      next >= prev + (if c.Contains(prev) then 300.0 else 3600.0) * jitter
      || exists i :: 0 <= i < |c.windows| && prev < c.Opening(i) <= next
  {
    hide Cadence.NextStart;
    PlannedStartIsLeast(c, prev, now, jitter, failures);
  }

  // ---- A start that left no record ----

  /** Every start planned from `recorded`, whenever asked for, is 300 s after the later start `last`. */
  ghost predicate KeepsFloorAfter(c: Cadence, recorded: real, last: real) {
    forall now, jitter | now >= last && JitterOk(jitter) ::
      c.NextStart(recorded, now, jitter, 0) >= last + IN_WINDOW_INTERVAL
  }

  /** The unrecorded start fell outside every window, well within the hour of the recorded one, and
      no window opens in the 300 s after it. */
  predicate RestartIsSafe(c: Cadence, recorded: real, last: real) {
    && !c.Contains(last) && last + IN_WINDOW_INTERVAL <= recorded + OUTSIDE_WINDOW_INTERVAL
    && forall i | 0 <= i < |c.windows| && c.Opening(i) > last :: c.Opening(i) >= last + IN_WINDOW_INTERVAL
  }

  /** A restart plans from the latest recorded start. When the last one left no record, the restart
      still keeps 300 s from it exactly when the hour of the recorded start protects it. */
  lemma UnrecordedStartAndTheFloor(c: Cadence, recorded: real, last: real)
    requires c.Valid() && last >= recorded + IN_WINDOW_INTERVAL
    ensures KeepsFloorAfter(c, recorded, last) <==> RestartIsSafe(c, recorded, last)
  {
    hide Cadence.NextStart;
    if KeepsFloorAfter(c, recorded, last) {
      assert c.NextStart(recorded, last, 1.0, 0) >= last + IN_WINDOW_INTERVAL;
      if !RestartIsSafe(c, recorded, last) {
        EarlyRestart(c, recorded, last);
      }
    }
    if RestartIsSafe(c, recorded, last) {
      forall now, jitter | now >= last && JitterOk(jitter)
        ensures c.NextStart(recorded, now, jitter, 0) >= last + IN_WINDOW_INTERVAL
      {
        LateRestart(c, recorded, last, now, jitter);
      }
    }
  }

  lemma EarlyRestart(c: Cadence, recorded: real, last: real)
    requires c.Valid() && last >= recorded + IN_WINDOW_INTERVAL && !RestartIsSafe(c, recorded, last)
    ensures c.NextStart(recorded, last, 1.0, 0) < last + IN_WINDOW_INTERVAL
  {
    AtMostFloored(c, recorded, last, 1.0, 0);
    forall i | 0 <= i < |c.windows| && c.Opening(i) > recorded
      ensures c.NextStart(recorded, last, 1.0, 0) <= Max(c.Opening(i), last)
    {
      OpeningsAreMet(c, recorded, last, 1.0, 0, i);
    }
    hide Cadence.NextStart;
    if c.Contains(last) {
      var i :| 0 <= i < |c.windows| && c.Inside(i, last);
      assert c.Opening(i) <= recorded ==> c.Inside(i, recorded);
    }
  }

  /** Openings only ever bring a start forward. */
  lemma AtMostFloored(c: Cadence, prev: real, now: real, jitter: real, failures: nat)
    requires c.Valid() && JitterOk(jitter)
    ensures c.NextStart(prev, now, jitter, failures) <= c.Floored(prev, now, jitter, failures)
  {
    FlooredBounds(c, prev, now, jitter, failures);
    RequestedBounds(c, prev, now, jitter, failures);
    if c.NextStart(prev, now, jitter, failures) != c.Floored(prev, now, jitter, failures) {
      var k := PulledForward(c, prev, now, jitter, failures);
    }
  }

  lemma LateRestart(c: Cadence, recorded: real, last: real, now: real, jitter: real)
    requires c.Valid() && JitterOk(jitter) && now >= last && RestartIsSafe(c, recorded, last)
    ensures c.NextStart(recorded, now, jitter, 0) >= last + IN_WINDOW_INTERVAL
  {
    var next := c.NextStart(recorded, now, jitter, 0);
    StartsAreSpaced(c, recorded, now, jitter, 0);
    hide Cadence.NextStart;
    if c.Contains(next) {
      var i :| 0 <= i < |c.windows| && c.Inside(i, next);
      assert !c.Inside(i, last);
    }
  }

  // ---- The operator's single sweep ----

  /** `earliest_next_start`: the tier floor without jitter. */
  function EarliestNextStart(c: Cadence, last: real, failures: nat): real {
    c.NextStart(last, last, 1.0, failures)
  }

  /** A single sweep is refused only before the earliest next start. */
  predicate OnceAllowed(c: Cadence, last: real, now: real) {
    now >= EarliestNextStart(c, last, 0)
  }

  /** Single sweeps keep the 300 s floor always, and the hour exactly when the window that holds
      the earliest next start, if any, outlasts it. */
  lemma OnceAgainstTheHour(c: Cadence, last: real)
    requires c.Valid()
    ensures forall now | OnceAllowed(c, last, now) :: now >= last + IN_WINDOW_INTERVAL
    ensures (forall now | OnceAllowed(c, last, now) :: c.Contains(now) || now >= last + OUTSIDE_WINDOW_INTERVAL)
       <==> WindowOutlastsTheHour(c, last, EarliestNextStart(c, last, 0))
  {
    StartsAreSpaced(c, last, last, 1.0, 0);
    LateStartsAndTheHour(c, last, last, 1.0, 0);
    hide Cadence.NextStart;
    assert forall now :: OnceAllowed(c, last, now) <==> now >= EarliestNextStart(c, last, 0);
  }

  /** Twenty minutes before the window closes, then at its closing: allowed, outside, 20 minutes apart. */
  lemma OnceCanBreakTheHour()
    ensures var c := OneDayWindow();
      c.Valid() && OnceAllowed(c, 85200.0, 86400.0) && !c.Contains(86400.0) &&
        86400.0 < 85200.0 + OUTSIDE_WINDOW_INTERVAL
  {
    var c := OneDayWindow();
    assert c.Inside(0, 85200.0) && c.Inside(0, 85500.0);
  }
}
