/** Bayesian shrinkage, the easiness score and the outcome statistics built on an aggregate. */
module Scoring {
  import opened Text
  import opened Grades

  datatype PriorLevel = CoursePrior | SubjectPrior | GlobalPrior

  datatype ScoreSource = FromInstructorCourse | FromCourse | FromSubject | FromGlobal

  datatype ConfidenceLabel = Low | Medium | High

  datatype ScoreSettings = ScoreSettings(
    gradePriorStrength: real, instructorPriorStrength: real, withdrawalPriorStrength: real,
    gradeWeight: real, nonWithdrawalWeight: real, minEffectiveN: real)

  const DEFAULT_SETTINGS := ScoreSettings(60.0, 30.0, 60.0, 0.8, 0.2, 30.0)
  const GLOBAL_FAVORABILITY_PRIOR := 0.75
  const GLOBAL_WITHDRAWAL_PRIOR := 0.1

  /** Settings the scorer accepts: `bayesian_smooth` raises on a negative prior strength. */
  type ScoreConfig = c: ScoreSettings |
      c.gradePriorStrength >= 0.0 && c.instructorPriorStrength >= 0.0 && c.withdrawalPriorStrength >= 0.0
    witness DEFAULT_SETTINGS

  datatype OutcomeStats = OutcomeStats(
    gradeRaw: Option<real>, gradeSmoothed: real,
    withdrawalRaw: Option<real>, withdrawalSmoothed: real,
    easiness: real,
    completed: real, total: real, withdrawals: real, effectiveN: real,
    sectionCount: nat, termCount: nat, mappedCount: nat,
    confidence: ConfidenceLabel, priorLevel: PriorLevel, source: ScoreSource)

  function ClampUnit(v: real): (r: real)
    ensures 0.0 <= r <= 1.0
    ensures 0.0 <= v <= 1.0 ==> r == v
  {
    if v < 0.0 then 0.0 else if v > 1.0 then 1.0 else v
  }

  function Clamp10(v: real): (r: real)
    ensures 0.0 <= r <= 10.0
    ensures 0.0 <= v <= 10.0 ==> r == v
  {
    if v < 0.0 then 0.0 else if v > 10.0 then 10.0 else v
  }

  function Weight(n: real, strength: real): (w: real)
    requires n > 0.0 && strength >= 0.0
    ensures 0.0 < w <= 1.0
  {
    n / (n + strength)
  }

  function Mix(w: real, x: real, y: real): real {
    w * x + (1.0 - w) * y
  }

  /** The observed value pulled toward the prior, the more so the fewer observations there are. */
  function BayesianSmooth(observed: Option<real>, n: real, prior: real, strength: real): real
    requires strength >= 0.0
  {
    if observed.None? || n <= 0.0 then ClampUnit(prior)
    else if strength == 0.0 then ClampUnit(observed.value)
    else ClampUnit(Mix(Weight(n, strength), observed.value, prior))
  }

  function EasinessScore(grade: real, withdrawal: real, config: ScoreConfig): real {
    Clamp10(WeightedScore(ClampUnit(grade), 1.0 - ClampUnit(withdrawal), config))
  }

  function WeightedScore(grade: real, nonWithdrawal: real, config: ScoreConfig): real {
    10.0 * (config.gradeWeight * grade + config.nonWithdrawalWeight * nonWithdrawal)
  }

  function ConfidenceLabelFor(effectiveN: real, termCount: nat): ConfidenceLabel {
    var level := if effectiveN < 60.0 then Low else if effectiveN < 180.0 then Medium else High;
    if termCount > 1 then level else if level == High then Medium else Low
  }

  function ComputeStats(
    aggregate: Aggregate, gradePrior: real, withdrawalPrior: real,
    priorLevel: PriorLevel, source: ScoreSource, config: ScoreConfig): OutcomeStats
  {
    var gradeRaw := GradeFavorability(aggregate.counts);
    var withdrawalRaw := WithdrawalRate(aggregate.counts);
    var strength :=
      if source == FromInstructorCourse then config.instructorPriorStrength
      else config.gradePriorStrength;
    var grade := BayesianSmooth(gradeRaw, aggregate.effectiveGradeN, gradePrior, strength);
    var withdrawal :=
      BayesianSmooth(withdrawalRaw, aggregate.effectiveWithdrawalN, withdrawalPrior,
                     config.withdrawalPriorStrength);
    OutcomeStats(
      gradeRaw, grade, withdrawalRaw, withdrawal, EasinessScore(grade, withdrawal, config),
      aggregate.completed, aggregate.total, aggregate.withdrawals, aggregate.effectiveN,
      aggregate.sectionCount, aggregate.termCount, aggregate.mappedCount,
      ConfidenceLabelFor(aggregate.effectiveN, aggregate.termCount), priorLevel, source)
  }

  predicate HasSufficientInstructorEvidence(stats: OutcomeStats, config: ScoreConfig) {
    stats.source == FromInstructorCourse && stats.effectiveN >= config.minEffectiveN
    && stats.mappedCount > 0
  }

  /** Statistics of a course: its own history when there is any, else its subject's, else none;
      each shrunk toward the next wider level. */
  function StatsWithFallback(
    course: Aggregate, subject: Aggregate, everything: Aggregate, config: ScoreConfig): OutcomeStats
  {
    if course.HasEvidence() then
      var subjectGrade := GradeFavorability(subject.counts);
      var subjectWithdrawal := WithdrawalRate(subject.counts);
      ComputeStats(
        course, ValueOr(subjectGrade, GlobalGradePrior(everything)),
        ValueOr(subjectWithdrawal, GlobalWithdrawalPrior(everything)),
        if subjectGrade.Some? || subjectWithdrawal.Some? then SubjectPrior else GlobalPrior,
        FromCourse, config)
    else if subject.HasEvidence() then
      ComputeStats(subject, GlobalGradePrior(everything), GlobalWithdrawalPrior(everything), GlobalPrior, FromSubject,
        config)
    else
      ComputeStats(course, GlobalGradePrior(everything), GlobalWithdrawalPrior(everything), GlobalPrior, FromGlobal,
        config)
  }

  function GlobalGradePrior(everything: Aggregate): real {
    if everything.HasGradeEvidence() then ValueOr(GradeFavorability(everything.counts), GLOBAL_FAVORABILITY_PRIOR)
    else GLOBAL_FAVORABILITY_PRIOR
  }

  function GlobalWithdrawalPrior(everything: Aggregate): real {
    if everything.HasWithdrawalEvidence() then ValueOr(WithdrawalRate(everything.counts), GLOBAL_WITHDRAWAL_PRIOR)
    else GLOBAL_WITHDRAWAL_PRIOR
  }

  function ValueOr(o: Option<real>, default: real): real {
    if o.Some? then o.value else default
  }

  /** Statistics of one instructor in one course, shrunk toward the course; None without a row
      that carries weight. */
  function InstructorCourseStats(
    obs: seq<GradeObservation>, courseStats: OutcomeStats, config: ScoreConfig): Option<OutcomeStats>
  {
    InstructorStatsFrom(AggregateOf(obs), courseStats, config)
  }

  function InstructorStatsFrom(
    aggregate: Aggregate, courseStats: OutcomeStats, config: ScoreConfig): Option<OutcomeStats> {
    if !aggregate.HasEvidence() then None
    else Some(ComputeStats(aggregate, courseStats.gradeSmoothed, courseStats.withdrawalSmoothed,
                           CoursePrior, FromInstructorCourse, config))
  }

  // ---- Shrinkage ----

  lemma ProductNonNegative(w: real, d: real)
    requires w >= 0.0 && d >= 0.0
    ensures w * d >= 0.0
  {
  }

  lemma MulMonotone(w: real, x: real, y: real)
    requires w >= 0.0 && x <= y
    ensures w * x <= w * y
  {
    ProductNonNegative(w, y - x);
    assert w * (y - x) == w * y - w * x;
  }

  lemma MixBelow(w: real, x: real, y: real)
    requires 0.0 <= w <= 1.0 && x <= y
    ensures Mix(w, x, y) == y - w * (y - x)
    ensures x <= Mix(w, x, y) <= y
  {
    ProductNonNegative(w, y - x);
    ProductNonNegative(1.0 - w, y - x);
    assert Mix(w, x, y) == y - w * (y - x) == x + (1.0 - w) * (y - x);
  }

  lemma MixAbove(w: real, x: real, y: real)
    requires 0.0 <= w <= 1.0 && y <= x
    ensures Mix(w, x, y) == y + w * (x - y)
    ensures y <= Mix(w, x, y) <= x
  {
    ProductNonNegative(w, x - y);
    ProductNonNegative(1.0 - w, x - y);
    assert Mix(w, x, y) == y + w * (x - y) == x - (1.0 - w) * (x - y);
  }

  lemma MixMonotone(w: real, x: real, x': real, y: real, y': real)
    requires 0.0 <= w <= 1.0 && x <= x' && y <= y'
    ensures Mix(w, x, y) <= Mix(w, x', y')
  {
    ProductNonNegative(w, x' - x);
    ProductNonNegative(1.0 - w, y' - y);
    assert Mix(w, x', y') == Mix(w, x, y) + w * (x' - x) + (1.0 - w) * (y' - y);
  }

  /** The smoothed value lies between the prior and the observed value, and moves from the prior
      toward it by the weight n / (n + strength). */
  lemma SmoothBetween(observed: real, n: real, prior: real, strength: real)
    requires n > 0.0 && strength > 0.0
    requires 0.0 <= observed <= 1.0 && 0.0 <= prior <= 1.0
    ensures var s := BayesianSmooth(Some(observed), n, prior, strength);
      && s == prior + Weight(n, strength) * (observed - prior)
      && (observed <= s <= prior || prior <= s <= observed)
  {
    var w := Weight(n, strength);
    if observed <= prior {
      MixBelow(w, observed, prior);
      assert w * (observed - prior) == -(w * (prior - observed));
    } else {
      MixAbove(w, observed, prior);
    }
  }

  /** Shrinkage keeps order in the observed value and in the prior. */
  lemma SmoothMonotone(o: Option<real>, o': Option<real>, n: real, prior: real, prior': real, strength: real)
    requires strength >= 0.0 && prior <= prior'
    requires o.Some? <==> o'.Some?
    requires o.Some? ==> o.value <= o'.value
    ensures BayesianSmooth(o, n, prior, strength) <= BayesianSmooth(o', n, prior', strength)
  {
    if o.Some? && n > 0.0 && strength > 0.0 {
      var w := Weight(n, strength);
      MixMonotone(w, o.value, o'.value, prior, prior');
      ClampMonotone(Mix(w, o.value, prior), Mix(w, o'.value, prior'));
    }
  }

  lemma ClampMonotone(x: real, y: real)
    requires x <= y
    ensures ClampUnit(x) <= ClampUnit(y) && Clamp10(x) <= Clamp10(y)
  {
  }

  /** A better smoothed grade at the same withdrawal rate never lowers easiness. */
  lemma EasinessMonotone(g: real, g': real, withdrawal: real, config: ScoreConfig)
    requires config.gradeWeight >= 0.0 && g <= g'
    ensures EasinessScore(g, withdrawal, config) <= EasinessScore(g', withdrawal, config)
  {
    ClampMonotone(g, g');
    var stay := 1.0 - ClampUnit(withdrawal);
    hide ClampUnit, Clamp10;
    MulMonotone(config.gradeWeight, ClampUnit(g), ClampUnit(g'));
    ClampMonotone(WeightedScore(ClampUnit(g), stay, config), WeightedScore(ClampUnit(g'), stay, config));
  }

  /** A higher withdrawal rate at the same smoothed grade never raises easiness. */
  lemma EasinessFallsWithWithdrawals(grade: real, withdrawal: real, withdrawal': real, config: ScoreConfig)
    requires config.nonWithdrawalWeight >= 0.0 && withdrawal <= withdrawal'
    ensures EasinessScore(grade, withdrawal', config) <= EasinessScore(grade, withdrawal, config)
  {
    ClampMonotone(withdrawal, withdrawal');
    var stay, stay' := 1.0 - ClampUnit(withdrawal), 1.0 - ClampUnit(withdrawal');
    var g := ClampUnit(grade);
    hide ClampUnit, Clamp10;
    MulMonotone(config.nonWithdrawalWeight, stay', stay);
    ClampMonotone(WeightedScore(g, stay', config), WeightedScore(g, stay, config));
  }
}
