/** Registration windows and the cadence rules built on them. Instants are seconds; only the start
    of each local day matters. */
module Windows {
  import opened Text

  const IN_WINDOW_INTERVAL: real := 300.0
  const OUTSIDE_WINDOW_INTERVAL: real := 3600.0
  const JITTER_MAX: real := 1.2
  const MAX_BACKOFF_SECONDS: real := 3600.0
  const FRESH_TO_INTERVAL_RATIO: real := 1.25
  const STALE_TO_INTERVAL_RATIO: real := 2.0

  /** The shortest local day: 23 hours. */
  const SHORTEST_DAY: real := 82800.0

  /** Whole local days, both ends included. */
  datatype Window = Window(start: int, end: int)

  function Max(a: real, b: real): real {
    if a < b then b else a
  }

  datatype Cadence = Cadence(dayStart: int -> real, windows: seq<Window>)
  {
    /** What loading the windows file checks, on a calendar without missing days. */
    ghost predicate Valid() {
      && (forall d :: dayStart(d + 1) - dayStart(d) >= SHORTEST_DAY)
      && windows != []
      && (forall i | 0 <= i < |windows| :: windows[i].start <= windows[i].end)
      && (forall i | 0 <= i < |windows| - 1 :: windows[i].end < windows[i + 1].start)
    }

    /** The first instant of a window, and the first instant after it. */
    function Opening(i: int): real
      requires 0 <= i < |windows|
    {
      dayStart(windows[i].start)
    }

    function Closing(i: int): real
      requires 0 <= i < |windows|
    {
      dayStart(windows[i].end + 1)
    }

    predicate Inside(i: int, moment: real)
      requires 0 <= i < |windows|
    {
      Opening(i) <= moment < Closing(i)
    }

    predicate Contains(moment: real) {
      exists i | 0 <= i < |windows| :: Inside(i, moment)
    }

    function IntervalFor(moment: real): real {
      if Contains(moment) then IN_WINDOW_INTERVAL else OUTSIDE_WINDOW_INTERVAL
    }

    /** The first opening strictly after `moment`, searched in file order. */
    function NextOpening(moment: real, i: nat): Option<real>
      requires i <= |windows|
      decreases |windows| - i
    {
      if i == |windows| then None
      else if Opening(i) > moment then Some(Opening(i))
      else NextOpening(moment, i + 1)
    }

    function NextWindowStartAfter(moment: real): Option<real> {
      NextOpening(moment, 0)
    }

    /** What the previous sweep and its outcome ask for, before the later sweep's own floor. */
    function Requested(prev: real, now: real, jitter: real, failures: nat): real {
      var interval := IntervalFor(prev) * jitter;
      Max(prev + (if failures > 0 then Max(interval, Backoff(failures)) else interval), now)
    }

    /** Outside every window the hourly gap holds too. */
    function Floored(prev: real, now: real, jitter: real, failures: nat): real {
      var target := Requested(prev, now, jitter, failures);
      if Contains(target) then target else Max(target, prev + OUTSIDE_WINDOW_INTERVAL * jitter)
    }

    /** The earliest allowed start of the next sweep. */
    function NextStart(prev: real, now: real, jitter: real, failures: nat): real {
      var target := Floored(prev, now, jitter, failures);
      match NextWindowStartAfter(prev)
      case Some(b) => if b < target then Max(b, Max(prev + IN_WINDOW_INTERVAL, now)) else target
      case None => target
    }

    function GoverningInterval(verifiedAt: real, now: real): real {
      Max(IntervalFor(verifiedAt), IntervalFor(now))
    }

    function FreshSeconds(verifiedAt: real, now: real): real {
      FRESH_TO_INTERVAL_RATIO * GoverningInterval(verifiedAt, now)
    }

    function StaleSeconds(verifiedAt: real, now: real): real {
      STALE_TO_INTERVAL_RATIO * GoverningInterval(verifiedAt, now)
    }
  }

  function Power2(n: nat): nat {
    if n == 0 then 1 else 2 * Power2(n - 1)
  }

  function Backoff(failures: nat): real {
    var doublings := if failures < 10 then failures else 10;
    var wait := IN_WINDOW_INTERVAL * Power2(doublings) as real;
    if wait < MAX_BACKOFF_SECONDS then wait else MAX_BACKOFF_SECONDS
  }

  predicate JitterOk(jitter: real) {
    1.0 <= jitter <= JITTER_MAX
  }

  /** Doubles from 600 s and stops at the hourly cap. */
  lemma BackoffDoubles(failures: nat)
    ensures Backoff(1) == 600.0 && Backoff(2) == 1200.0 && Backoff(3) == 2400.0
    ensures failures >= 4 ==> Backoff(failures) == MAX_BACKOFF_SECONDS
    ensures Backoff(failures) <= MAX_BACKOFF_SECONDS
  {
    assert Power2(2) == 4 && Power2(3) == 8 && Power2(4) == 16;
    PowerGrows(if failures < 10 then failures else 10);
  }

  lemma {:induction false} PowerGrows(n: nat)
    ensures n >= 4 ==> Power2(n) >= 16
  {
    if n > 4 {
      PowerGrows(n - 1);
    } else if n == 4 {
      assert Power2(4) == 2 * Power2(3) && Power2(3) == 2 * Power2(2) && Power2(2) == 2 * Power2(1) && Power2(1) == 2;
    }
  }

  // ---- Days and windows ----

  lemma {:induction false} DaysApart(c: Cadence, d: int, e: int)
    requires c.Valid() && d <= e
    ensures c.dayStart(e) - c.dayStart(d) >= SHORTEST_DAY * (e - d) as real
    decreases e - d
  {
    if d < e {
      DaysApart(c, d, e - 1);
      assert c.dayStart((e - 1) + 1) - c.dayStart(e - 1) >= SHORTEST_DAY;
    }
  }

  lemma LaterDay(c: Cadence, d: int, e: int)
    requires c.Valid() && d < e
    ensures c.dayStart(d) + SHORTEST_DAY <= c.dayStart(e)
  {
    DaysApart(c, d, e);
  }

  /** An instant is in a window exactly when its local day is. */
  lemma ContainsByDay(c: Cadence, moment: real, day: int)
    requires c.Valid() && c.dayStart(day) <= moment < c.dayStart(day + 1)
    ensures c.Contains(moment) <==> exists i :: 0 <= i < |c.windows| && c.windows[i].start <= day <= c.windows[i].end
  {
    forall i | 0 <= i < |c.windows| ensures c.Inside(i, moment) <==> c.windows[i].start <= day <= c.windows[i].end {
      var w := c.windows[i];
      if day < w.start {
        DayOrder(c, day + 1, w.start);
      } else if w.end < day {
        DayOrder(c, w.end + 1, day);
      } else {
        DayOrder(c, w.start, day);
        DayOrder(c, day + 1, w.end + 1);
      }
    }
  }

  lemma DayOrder(c: Cadence, d: int, e: int)
    requires c.Valid() && d <= e
    ensures c.dayStart(d) <= c.dayStart(e)
  {
    DaysApart(c, d, e);
  }

  lemma {:induction false} WindowOrder(c: Cadence, i: int, j: int)
    requires c.Valid() && 0 <= i < j < |c.windows|
    ensures c.windows[i].end < c.windows[j].start
    decreases j - i
  {
    if i + 1 < j {
      WindowOrder(c, i, j - 1);
    }
  }

  /** A window lasts at least a day, and two windows either touch or lie a day apart. */
  lemma WindowGaps(c: Cadence, i: int, j: int)
    requires c.Valid() && 0 <= i <= j < |c.windows|
    ensures c.Opening(i) + SHORTEST_DAY <= c.Closing(i)
    ensures i < j ==> c.Closing(i) == c.Opening(j) || c.Closing(i) + SHORTEST_DAY <= c.Opening(j)
    ensures c.Opening(i) <= c.Opening(j)
  {
    LaterDay(c, c.windows[i].start, c.windows[i].end + 1);
    if i < j {
      WindowOrder(c, i, j);
      if c.windows[i].end + 1 < c.windows[j].start {
        LaterDay(c, c.windows[i].end + 1, c.windows[j].start);
      }
    }
  }

  /** The search finds the earliest opening after `moment`. */
  lemma {:induction false} EarliestOpening(c: Cadence, moment: real, i: nat)
    requires c.Valid() && i <= |c.windows|
    ensures var b := c.NextOpening(moment, i);
      && (b.None? ==> forall k | i <= k < |c.windows| :: c.Opening(k) <= moment)
      && (b.Some? ==> b.value > moment && exists k :: i <= k < |c.windows| && b.value == c.Opening(k))
      && (b.Some? ==> forall k | i <= k < |c.windows| && c.Opening(k) > moment :: b.value <= c.Opening(k))
    decreases |c.windows| - i
  {
    if i < |c.windows| {
      EarliestOpening(c, moment, i + 1);
      forall k | i <= k < |c.windows| ensures c.Opening(i) <= c.Opening(k) {
        WindowGaps(c, i, k);
      }
    }
  }
}
