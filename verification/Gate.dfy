/** The sanity gate of a sweep, in exact fractions: may this response be applied at all? */
module Gate {
  import opened Text
  import opened SweepPlan

  const DEFAULT_MAX_MISSING: real := 0.10
  const DEFAULT_MIN_ROW_RATIO: real := 0.90
  const DEFAULT_MAX_ABSENT: real := 0.02
  const DEFAULT_MIN_ABSENT: int := 2

  datatype GateInput = GateInput(
    inScopeRows: nat, dbActive: nat, missing: nat, lastSuccess: Option<nat>,
    dbSubjects: set<string>, sweepSubjects: set<string>)
  {
    function Absent(): set<string> { dbSubjects - sweepSubjects }
  }

  datatype GateThresholds = GateThresholds(maxMissing: real, minRowRatio: real, maxAbsent: real, minAbsent: int)

  const DEFAULTS := GateThresholds(DEFAULT_MAX_MISSING, DEFAULT_MIN_ROW_RATIO, DEFAULT_MAX_ABSENT, DEFAULT_MIN_ABSENT)

  /** The operator's one fraction, mapped onto every size rule; None when it is not a fraction. */
  function ThresholdsFor(override: Option<real>): Option<GateThresholds> {
    match override
    case None => Some(DEFAULTS)
    case Some(o) =>
      if !(0.0 <= o <= 1.0) then None
      else if o <= DEFAULT_MAX_MISSING then Some(DEFAULTS.(maxMissing := o))
      else Some(GateThresholds(o, 1.0 - o, o, DEFAULT_MIN_ABSENT))
  }

  datatype GateReason =
    | ZeroRows
    | MissingFraction(missing: nat, active: nat)
    | RowFloor(rows: nat, lastSuccess: nat)
    | SubjectsAbsent(absent: nat, limit: int)

  function Max(a: int, b: int): int {
    if a < b then b else a
  }

  /** A share of a count, in exact fractions. */
  function Share(fraction: real, count: nat): real {
    fraction * count as real
  }

  function SubjectLimit(t: GateThresholds, subjects: nat): int {
    Max(t.minAbsent, Share(t.maxAbsent, subjects).Floor)
  }

  predicate MissingOk(inp: GateInput, t: GateThresholds) {
    inp.dbActive > 0 ==> inp.missing as real <= Share(t.maxMissing, inp.dbActive)
  }

  predicate RowsFloorOk(inp: GateInput, t: GateThresholds) {
    inp.lastSuccess.Some? ==> inp.inScopeRows as real >= Share(t.minRowRatio, inp.lastSuccess.value)
  }

  predicate SubjectsOk(inp: GateInput, t: GateThresholds) {
    |inp.Absent()| <= SubjectLimit(t, |inp.dbSubjects|)
  }

  /** The response may be applied. */
  predicate Accepts(inp: GateInput, t: GateThresholds) {
    inp.inScopeRows > 0 && MissingOk(inp, t) && RowsFloorOk(inp, t) && SubjectsOk(inp, t)
  }

  /** Every failed rule, in the order of the rules; none exactly when the response is accepted. */
  method EvaluateGate(inp: GateInput, t: GateThresholds) returns (reasons: seq<GateReason>)
    ensures reasons == [] <==> Accepts(inp, t)
    ensures ZeroRows in reasons <==> inp.inScopeRows == 0
    ensures MissingFraction(inp.missing, inp.dbActive) in reasons <==> !MissingOk(inp, t)
    ensures inp.lastSuccess.Some? ==> (RowFloor(inp.inScopeRows, inp.lastSuccess.value) in reasons <==>
      !RowsFloorOk(inp, t))
    ensures SubjectsAbsent(|inp.Absent()|, SubjectLimit(t, |inp.dbSubjects|)) in reasons <==> !SubjectsOk(inp, t)
    ensures forall r | r in reasons ::
      || r == ZeroRows || r == MissingFraction(inp.missing, inp.dbActive)
      || (inp.lastSuccess.Some? && r == RowFloor(inp.inScopeRows, inp.lastSuccess.value))
      || r == SubjectsAbsent(|inp.Absent()|, SubjectLimit(t, |inp.dbSubjects|))
    ensures |reasons| <= 4
  {
    hide Share;
    reasons := [];
    if inp.inScopeRows == 0 {
      reasons := reasons + [ZeroRows];
    }
    if inp.dbActive > 0 && inp.missing as real > Share(t.maxMissing, inp.dbActive) {
      reasons := reasons + [MissingFraction(inp.missing, inp.dbActive)];
      assert MissingFraction(inp.missing, inp.dbActive) in reasons;
    }
    if inp.lastSuccess.Some? && (inp.inScopeRows as real) < Share(t.minRowRatio, inp.lastSuccess.value) {
      var reason := RowFloor(inp.inScopeRows, inp.lastSuccess.value);
      reasons := reasons + [reason];
      assert reason in reasons;
    }
    var limit := SubjectLimit(t, |inp.dbSubjects|);
    if |inp.Absent()| > limit {
      var reason := SubjectsAbsent(|inp.Absent()|, limit);
      reasons := reasons + [reason];
      assert reason in reasons;
    }
  }

  // ---- What the gate promises ----

  lemma ShareMonotone(a: real, b: real, n: nat)
    requires a <= b
    ensures Share(a, n) <= Share(b, n) && Share(a, n).Floor <= Share(b, n).Floor
  {
    assert (b - a) * n as real >= 0.0;
  }

  /** Looser on every rule. */
  predicate Looser(s: GateThresholds, t: GateThresholds) {
    s.maxMissing <= t.maxMissing && t.minRowRatio <= s.minRowRatio && s.maxAbsent <= t.maxAbsent &&
      s.minAbsent <= t.minAbsent
  }

  lemma LooserAcceptsMore(inp: GateInput, s: GateThresholds, t: GateThresholds)
    requires Looser(s, t) && Accepts(inp, s)
    ensures Accepts(inp, t)
  {
    hide Share;
    ShareMonotone(s.maxMissing, t.maxMissing, inp.dbActive);
    ShareMonotone(s.maxAbsent, t.maxAbsent, |inp.dbSubjects|);
    if inp.lastSuccess.Some? {
      ShareMonotone(t.minRowRatio, s.minRowRatio, inp.lastSuccess.value);
    }
  }

  /** A larger override accepts every response a smaller one accepts, and the override of one tenth
      is the default gate. */
  lemma OverrideMonotone(inp: GateInput, a: real, b: real)
    requires 0.0 <= a <= b <= 1.0
    requires Accepts(inp, ThresholdsFor(Some(a)).value)
    ensures Accepts(inp, ThresholdsFor(Some(b)).value)
    ensures ThresholdsFor(Some(DEFAULT_MAX_MISSING)) == ThresholdsFor(None)
  {
    hide Accepts, Share;
    LooserAcceptsMore(inp, ThresholdsFor(Some(a)).value, ThresholdsFor(Some(b)).value);
  }

  /** No override accepts an empty response, and the full override accepts every other. */
  lemma OnlyZeroRowsAreRefusedAtOne(inp: GateInput)
    requires inp.missing <= inp.dbActive
    ensures Accepts(inp, ThresholdsFor(Some(1.0)).value) <==> inp.inScopeRows > 0
    ensures forall o | ThresholdsFor(o).Some? && inp.inScopeRows == 0 :: !Accepts(inp, ThresholdsFor(o).value)
  {
    hide Share;
    ExtremeShares(inp.dbActive);
    ExtremeShares(|inp.dbSubjects|);
    if inp.lastSuccess.Some? {
      ExtremeShares(inp.lastSuccess.value);
    }
    SubsetSize(inp.Absent(), inp.dbSubjects);
  }

  lemma ExtremeShares(n: nat)
    ensures Share(1.0, n) == n as real && Share(1.0, n).Floor == n && Share(0.0, n) == 0.0
  {
  }

  lemma SubsetSize<T>(a: set<T>, b: set<T>)
    requires a <= b
    ensures |a| <= |b|
  {
    assert b == a + (b - a);
  }

  /** A response that lists more rows, misses fewer sections and drops fewer subjects is accepted too. */
  lemma AddingNeverTrips(inp: GateInput, more: GateInput, t: GateThresholds)
    requires Accepts(inp, t)
    requires more.inScopeRows >= inp.inScopeRows && more.missing <= inp.missing && more.Absent() <= inp.Absent()
    requires more.dbActive == inp.dbActive && more.lastSuccess == inp.lastSuccess && more.dbSubjects == inp.dbSubjects
    ensures Accepts(more, t)
  {
    hide Share;
    SubsetSize(more.Absent(), inp.Absent());
  }

  // ---- The gate and the plan ----

  function ActiveInScope(view: TermView): set<string> {
    set c | c in view.sections && view.sections[c].inScope && view.sections[c].removedAt.None?
  }

  function GateInputOf(rows: seq<Row>, st: DbState): GateInput {
    GateInput(|rows|, st.activeInScope, |MissingCrns(rows, st.view)|, st.lastSuccess,
              st.activeSubjects, set r | r in rows :: r.subject)
  }

  /** A sweep that passes removes at most the accepted share of the active sections: a tenth by default. */
  lemma BoundedRemoval(rows: seq<Row>, st: DbState, override: Option<real>)
    requires ViewOk(st.view) && st.activeInScope == |ActiveInScope(st.view)|
    requires ThresholdsFor(override).Some? && Accepts(GateInputOf(rows, st), ThresholdsFor(override).value)
    ensures |PlanOf(rows, st).removals| as real <=
      Share(ThresholdsFor(override).value.maxMissing, |ActiveInScope(st.view)|)
    ensures override.None? ==> 10 * |PlanOf(rows, st).removals| <= |ActiveInScope(st.view)|
  {
    hide Removals, Crns, Inserts, FieldUpdates, InstructorAppends, SnapshotAppends, RestoreIds, Unknown,
      SubjectsOk, RowsFloorOk, ViewOk;
    RemovalsAreTheMissing(rows, st.view);
    SubsetSize(MissingCrns(rows, st.view), ActiveInScope(st.view));
  }
}
