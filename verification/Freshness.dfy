/** How fresh a seat snapshot is, judged from when a sweep last verified it. */
module Freshness {
  import opened Text
  import opened Schema
  import opened Windows
  import opened CadenceLaws

  const LEGACY_FRESH_SECONDS: real := 600.0
  const LEGACY_STALE_SECONDS: real := 1800.0

  datatype SeatFreshness = Fresh | Aging | Stale | Unavailable

  datatype SeatObservation = SeatObservation(observedAt: Option<real>, freshness: SeatFreshness, age: Option<real>)

  datatype Seen<T> = Ok(value: T) | BadThresholds

  /** The operator's explicit limits, and the cadence when its file could be read. */
  datatype Settings = Settings(freshSeconds: Option<real>, staleSeconds: Option<real>, cadence: Option<Cadence>)

  function Or(value: Option<real>, default: real): real {
    if value.Some? then value.value else default
  }

  /** `classify_observation` */
  function ClassifyObservation(
    observedAt: Option<real>, now: real, freshSeconds: Option<real>, staleSeconds: Option<real>, settings: Settings)
    : (r: Seen<SeatObservation>)
    ensures r.BadThresholds? <==>
      !(0.0 <= Or(freshSeconds, Or(settings.freshSeconds, LEGACY_FRESH_SECONDS)) <= Or(staleSeconds,
        Or(settings.staleSeconds, LEGACY_STALE_SECONDS)))
    ensures r.Ok? ==> r.value.observedAt == observedAt
    ensures r.Ok? ==>
      r.value.age == if observedAt.Some? && observedAt.value <= now then Some(now - observedAt.value) else None
    ensures r.Ok? ==> (r.value.freshness == Unavailable <==> r.value.age.None?)
    ensures r.Ok? && r.value.age.Some? ==>
      (r.value.freshness == Fresh <==>
        r.value.age.value <= Or(freshSeconds, Or(settings.freshSeconds, LEGACY_FRESH_SECONDS)))
    ensures r.Ok? && r.value.age.Some? ==>
      (r.value.freshness == Stale <==>
        r.value.age.value > Or(staleSeconds, Or(settings.staleSeconds, LEGACY_STALE_SECONDS)))
  {
    var freshLimit := Or(freshSeconds, Or(settings.freshSeconds, LEGACY_FRESH_SECONDS));
    var staleLimit := Or(staleSeconds, Or(settings.staleSeconds, LEGACY_STALE_SECONDS));
    if !(0.0 <= freshLimit <= staleLimit) then BadThresholds
    else if observedAt.None? then Ok(SeatObservation(None, Unavailable, None))
    else
      var age := now - observedAt.value;
      if age < 0.0 then Ok(SeatObservation(observedAt, Unavailable, None))
      else if age <= freshLimit then Ok(SeatObservation(observedAt, Fresh, Some(age)))
      else if age <= staleLimit then Ok(SeatObservation(observedAt, Aging, Some(age)))
      else Ok(SeatObservation(observedAt, Stale, Some(age)))
  }

  datatype Snapshot = Snapshot(observedAt: real, seats: SeatValues)

  predicate NoSeats(seats: SeatValues) {
    seats == SeatValues(Null, Null, Null, Null)
  }

  /** Both explicit limits, else the cadence, else the stricter legacy limits. */
  function VerifiedThresholds(verifiedAt: real, now: real, settings: Settings): (real, real) {
    if settings.freshSeconds.Some? &&
      settings.staleSeconds.Some? then (settings.freshSeconds.value, settings.staleSeconds.value)
    else if settings.cadence.Some? then
      (settings.cadence.value.FreshSeconds(verifiedAt, now), settings.cadence.value.StaleSeconds(verifiedAt, now))
    else (LEGACY_FRESH_SECONDS, LEGACY_STALE_SECONDS)
  }

  /** `snapshot_freshness` */
  function SnapshotFreshness(
    snapshot: Option<Snapshot>, now: real, verifiedAt: Option<real>, settings: Settings): Seen<SeatObservation> {
    if snapshot.None? then Ok(SeatObservation(None, Unavailable, None))
    else
      var s := snapshot.value;
      var at := if verifiedAt.Some? then Max(s.observedAt, verifiedAt.value) else s.observedAt;
      if NoSeats(s.seats) then Ok(SeatObservation(Some(at), Unavailable, None))
      else if verifiedAt.None? then ClassifyObservation(Some(at), now, None, None, settings)
      else
        var (freshLimit, staleLimit) := VerifiedThresholds(at, now, settings);
        ClassifyObservation(Some(at), now, Some(freshLimit), Some(staleLimit), settings)
  }

  /** The cadence limits are 375 and 600 s in a window, 4500 and 7200 s when either instant is outside. */
  lemma CadenceThresholds(c: Cadence, verifiedAt: real, now: real)
    ensures c.Contains(verifiedAt) && c.Contains(now) ==>
      c.FreshSeconds(verifiedAt, now) == 375.0 && c.StaleSeconds(verifiedAt, now) == 600.0
    ensures !(c.Contains(verifiedAt) && c.Contains(now)) ==>
      c.FreshSeconds(verifiedAt, now) == 4500.0 && c.StaleSeconds(verifiedAt, now) == 7200.0
  {
  }

  /** End to end: an unchanged section that a sweep verified shows fresh seats at every instant up
      to the next planned sweep, even when its snapshot is much older. The sweep started at `prev`,
      fetched at `verified` and ended at `ended`. */
  lemma VerifiedSeatsStayFresh(
    c: Cadence, snapshot: Snapshot, prev: real, verified: real, ended: real, jitter: real, t: real, settings: Settings)
    requires c.Valid() && JitterOk(jitter) && prev <= verified <= ended <= prev + IN_WINDOW_INTERVAL
    requires verified <= t <= c.NextStart(prev, ended, jitter, 0)
    requires snapshot.observedAt <= verified && !NoSeats(snapshot.seats)
    requires settings.cadence == Some(c) && (settings.freshSeconds.None? || settings.staleSeconds.None?)
    ensures SnapshotFreshness(Some(snapshot), t, Some(verified), settings) ==
      Ok(SeatObservation(Some(verified), Fresh, Some(t - verified)))
  {
    FreshUntilNextStart(c, prev, verified, ended, jitter);
    hide Cadence.NextStart;
    CadenceThresholds(c, verified, t);
  }

  /** Seats of a verified section, judged by the cadence: fresh to 375 s and stale beyond 600 s while
      both instants are in a window, to 4500 s and beyond 7200 s otherwise. */
  lemma SeatsJudged(c: Cadence, snapshot: Snapshot, verified: real, now: real, settings: Settings)
    requires settings.cadence == Some(c) && (settings.freshSeconds.None? || settings.staleSeconds.None?)
    requires !NoSeats(snapshot.seats)
    ensures var seen := if snapshot.observedAt < verified then verified else snapshot.observedAt;
      var inside := c.Contains(seen) && c.Contains(now);
      var freshTo, staleFrom := if inside then 375.0 else 4500.0, if inside then 600.0 else 7200.0;
      var age := now - seen;
      SnapshotFreshness(Some(snapshot), now, Some(verified), settings) ==
        Ok(if age < 0.0 then SeatObservation(Some(seen), Unavailable, None)
           else SeatObservation(Some(seen), if age <= freshTo then Fresh else if age <= staleFrom then Aging
             else Stale, Some(age)))
  {
    CadenceThresholds(c, if snapshot.observedAt < verified then verified else snapshot.observedAt, now);
    hide Cadence.FreshSeconds, Cadence.StaleSeconds;
  }

  /** Refused when the limits are out of order, else fresh to the one and stale beyond the other. */
  predicate JudgedBy(r: Seen<SeatObservation>, seen: real, now: real, freshTo: real, staleFrom: real) {
    && (r.BadThresholds? <==> freshTo < 0.0 || staleFrom < freshTo)
    && (r.Ok? ==> r.value.observedAt == Some(seen))
    && (r.Ok? ==> (r.value.freshness == Unavailable <==> now < seen))
    && (r.Ok? ==> (r.value.freshness == Fresh <==> 0.0 <= now - seen <= freshTo))
    && (r.Ok? ==> (r.value.freshness == Stale <==> now >= seen && now - seen > staleFrom))
  }

  /** Without the cadence: both limits as set; for verified seats neither unless both are set. */
  lemma LimitsWithoutCadence(snapshot: Snapshot, verified: Option<real>, now: real, settings: Settings)
    requires !NoSeats(snapshot.seats)
    ensures var f, s := settings.freshSeconds, settings.staleSeconds;
      var seen := if verified.Some? && snapshot.observedAt < verified.value then verified.value
        else snapshot.observedAt;
      var r := SnapshotFreshness(Some(snapshot), now, verified, settings);
      && (f.Some? && s.Some? ==> JudgedBy(r, seen, now, f.value, s.value))
      && (verified.None? ==>
            JudgedBy(r, seen, now, if f.Some? then f.value else 600.0, if s.Some? then s.value else 1800.0))
      && (verified.Some? && settings.cadence.None? && (f.None? || s.None?) ==> JudgedBy(r, seen, now, 600.0, 1800.0))
  {
  }

  /** Seats are never shown as known without a snapshot or when all four columns are empty. */
  lemma UnknownSeats(snapshot: Option<Snapshot>, verified: Option<real>, now: real, settings: Settings)
    ensures var r := SnapshotFreshness(snapshot, now, verified, settings);
      snapshot.None? || (snapshot.value.seats.capacity == snapshot.value.seats.enrollment == Null
        && snapshot.value.seats.remaining == snapshot.value.seats.wait == Null)
      ==> r.Ok? && r.value.freshness == Unavailable && r.value.age.None?
  {
  }

  /** Older never looks fresher. */
  function Rank(f: SeatFreshness): int {
    match f
    case Fresh => 0
    case Aging => 1
    case Stale => 2
    case Unavailable => 3
  }

  lemma OlderIsNeverFresher(
    observedAt: real, now: real, later: real, freshSeconds: Option<real>, staleSeconds: Option<real>,
    settings: Settings)
    requires observedAt <= now <= later
    requires ClassifyObservation(Some(observedAt), now, freshSeconds, staleSeconds, settings).Ok?
    ensures var r := ClassifyObservation(Some(observedAt), later, freshSeconds, staleSeconds, settings);
      r.Ok? && Rank(ClassifyObservation(Some(observedAt), now, freshSeconds, staleSeconds,
        settings).value.freshness) <= Rank(r.value.freshness)
  {
  }
}
