/** What the scores are, written out over the sums of the grade rows. */
module ScoreMeaning {
  import opened Text
  import opened Grades
  import opened Scoring
  import opened Instructors
  import opened Breakdown
  import opened Schema
  import opened Evidence
  import opened Analytics

  // ---- Sums over the joined grade rows ----

  /** Which grade rows are meant. */
  type Pick = JoinedRow -> bool

  function SumOf(rows: seq<JoinedRow>, pick: Pick, amount: GradeCounts -> real): real {
    if rows == [] then 0.0
    else
      var last := rows[|rows| - 1];
      SumOf(rows[..|rows| - 1], pick, amount) + if pick(last) then amount(last.grade.counts) else 0.0
  }

  /** The sums and distinct counts of a selection. */
  datatype Sums = Sums(
    letters: real, points: real, withdrawals: real, total: real, sections: nat, terms: nat, mapped: nat)

  function SumsOf(rows: seq<JoinedRow>, table: seq<InstructorRow>, pick: Pick): Sums {
    Sums(
      SumOf(rows, pick, (g: GradeCounts) => g.a + g.b + g.c + g.d + g.f),
      SumOf(rows, pick, (g: GradeCounts) => 4.0 * g.a + 3.0 * g.b + 2.0 * g.c + g.d),
      SumOf(rows, pick, (g: GradeCounts) => g.w),
      SumOf(rows, pick, (g: GradeCounts) => g.total),
      |set r | r in rows && pick(r) :: (r.grade.termId, r.grade.crn)|,
      |set r | r in rows && pick(r) :: r.grade.termId|,
      |set r | r in rows && pick(r) && Mapped(r, table) :: (r.grade.termId, r.grade.crn)|)
  }

  /** Some usable instructor is recorded for the section of the row. */
  predicate Mapped(r: JoinedRow, table: seq<InstructorRow>) {
    r.sectionId.Some? && exists o :: o in table && o.sectionId == r.sectionId.value && IsUsableInstructor(o.name)
  }

  predicate IsCourse(id: Option<nat>, courses: map<nat, Course>, key: CourseKey) {
    id.Some? && id.value in courses && courses[id.value].Key() == key
  }

  predicate IsOther(id: Option<nat>, courses: map<nat, Course>, key: CourseKey) {
    id.Some? && id.value in courses && courses[id.value].subject == key.0 && courses[id.value].Key() != key
  }

  /** The rows of a course: by their own attribution or by their section's course. */
  function OfCourse(courses: map<nat, Course>, key: CourseKey): Pick {
    (r: JoinedRow) => IsCourse(r.grade.courseId, courses, key) || IsCourse(r.sectionCourseId, courses, key)
  }

  /** The rows of the other courses of its subject. */
  function OfOthers(courses: map<nat, Course>, key: CourseKey): Pick {
    (r: JoinedRow) => IsOther(r.grade.courseId, courses, key) || IsOther(r.sectionCourseId, courses, key)
  }

  function OfAll(): Pick {
    (r: JoinedRow) => true
  }

  /** The rows of the course's non-laboratory sections for which the instructor is recorded. */
  function OfInstructor(courses: map<nat, Course>, key: CourseKey, table: seq<InstructorRow>, name: string): Pick {
    (r: JoinedRow) =>
      && r.sectionId.Some? && !r.sectionIsLab && IsCourse(r.sectionCourseId, courses, key)
      && IsUsableInstructor(name) && exists o :: o in table && o.sectionId == r.sectionId.value && o.name == name
  }

  // ---- The aggregates are these sums ----

  /** The selector selects just these rows, each with its own counts. */
  ghost predicate Selects(sel: Selector, table: seq<InstructorRow>, pick: Pick) {
    forall r :: if pick(r) then IsOne(Contribution(r, table, sel), r) else Contribution(r, table, sel) == []
  }

  predicate IsOne(obs: seq<GradeObservation>, r: JoinedRow) {
    |obs| == 1 && obs[0].counts == r.grade.counts && obs[0].termId == r.grade.termId && obs[0].crn == r.grade.crn
  }

  ghost predicate Additive(amount: GradeCounts -> real) {
    amount(NO_GRADES) == 0.0 && forall x, y :: amount(AddCounts(x, y)) == amount(x) + amount(y)
  }

  lemma {:induction false} SumsField(
    rows: seq<JoinedRow>, table: seq<InstructorRow>, sel: Selector, pick: Pick, amount: GradeCounts -> real)
    requires Selects(sel, table, pick) && Additive(amount)
    ensures amount(SumCounts(Obs(rows, table, sel))) == SumOf(rows, pick, amount)
  {
    hide Contribution, AddCounts, SumCounts;
    if rows == [] {
      NothingCompleted();
    } else {
      var n := |rows| - 1;
      SumsField(rows[..n], table, sel, pick, amount);
      var before, more := Obs(rows[..n], table, sel), Contribution(rows[n], table, sel);
      if pick(rows[n]) {
        assert IsOne(more, rows[n]);
        assert before + more == before + [more[0]];
        SumAppend(before, more[0]);
      } else {
        assert before + more == before;
      }
    }
  }

  lemma AmountsAreAdditive()
    ensures Additive((g: GradeCounts) => g.a + g.b + g.c + g.d + g.f)
    ensures Additive((g: GradeCounts) => 4.0 * g.a + 3.0 * g.b + 2.0 * g.c + g.d)
    ensures Additive((g: GradeCounts) => g.w)
    ensures Additive((g: GradeCounts) => g.total)
  {
  }

  /** The distinct keys of the observations are those of the rows. */
  lemma {:induction false} KeysOfRows(rows: seq<JoinedRow>, table: seq<InstructorRow>, sel: Selector, pick: Pick)
    requires Selects(sel, table, pick) && MarksMapped(sel, table)
    ensures SectionKeys(Obs(rows, table, sel)) == set r | r in rows && pick(r) :: (r.grade.termId, r.grade.crn)
    ensures TermIds(Obs(rows, table, sel)) == set r | r in rows && pick(r) :: r.grade.termId
    ensures MappedKeys(Obs(rows, table, sel)) ==
      set r | r in rows && pick(r) && Mapped(r, table) :: (r.grade.termId, r.grade.crn)
  {
    hide Contribution, Mapped;
    if rows != [] {
      var n := |rows| - 1;
      KeysOfRows(rows[..n], table, sel, pick);
      assert forall r :: r in rows <==> r in rows[..n] || r == rows[n];
      var before, more := Obs(rows[..n], table, sel), Contribution(rows[n], table, sel);
      if pick(rows[n]) {
        assert IsOne(more, rows[n]);
        assert before + more == before + [more[0]];
        KeysOfAppend(before, more[0]);
        assert more[0] in more;
      } else {
        assert before + more == before;
      }
    }
  }

  /** An observation counts as mapped exactly when its section is. */
  ghost predicate MarksMapped(sel: Selector, table: seq<InstructorRow>) {
    forall r, o | o in Contribution(r, table, sel) :: o.mapped <==> Mapped(r, table)
  }

  lemma CourseIsSelected(courses: map<nat, Course>, key: CourseKey, table: seq<InstructorRow>)
    ensures Selects(OfCourses(CourseIds(courses, key)), table, OfCourse(courses, key))
    ensures MarksMapped(OfCourses(CourseIds(courses, key)), table)
  {
    hide IsUsableInstructor;
    MappedAsRecorded(table);
    hide Mapped, IsMapped;
    assert forall id :: id in CourseIds(courses, key) <==> IsCourse(Some(id), courses, key);
  }

  lemma OthersAreSelected(courses: map<nat, Course>, key: CourseKey, table: seq<InstructorRow>)
    ensures Selects(OfCourses(SubjectIds(courses, key.0) - CourseIds(courses, key)), table, OfOthers(courses, key))
    ensures MarksMapped(OfCourses(SubjectIds(courses, key.0) - CourseIds(courses, key)), table)
  {
    hide IsUsableInstructor;
    MappedAsRecorded(table);
    hide Mapped, IsMapped;
    var ids := SubjectIds(courses, key.0) - CourseIds(courses, key);
    assert forall id :: id in ids <==> IsOther(Some(id), courses, key);
  }

  lemma AllAreSelected(table: seq<InstructorRow>)
    ensures Selects(Everything, table, OfAll()) && MarksMapped(Everything, table)
  {
    hide IsUsableInstructor;
    MappedAsRecorded(table);
    hide Mapped, IsMapped;
  }

  lemma InstructorIsSelected(courses: map<nat, Course>, key: CourseKey, table: seq<InstructorRow>, name: string)
    ensures Selects(TaughtBy(CourseIds(courses, key), name), table, OfInstructor(courses, key, table, name))
    ensures MarksMapped(TaughtBy(CourseIds(courses, key), name), table)
  {
    hide IsUsableInstructor;
    assert forall id :: id in CourseIds(courses, key) <==> IsCourse(Some(id), courses, key);
  }

  lemma MappedAsRecorded(table: seq<InstructorRow>)
    ensures forall r :: IsMapped(r, table) <==> Mapped(r, table)
  {
    hide IsUsableInstructor;
    forall r ensures IsMapped(r, table) <==> Mapped(r, table) {
      if IsMapped(r, table) {
        var n :| n in NamesOf(table, r.sectionId.value) && IsUsableInstructor(n);
      }
      if Mapped(r, table) {
        var o :| o in table && o.sectionId == r.sectionId.value && IsUsableInstructor(o.name);
        assert o.name in NamesOf(table, r.sectionId.value);
      }
    }
  }

  /** An aggregate that holds these sums. */
  predicate AggregateIs(a: Aggregate, e: Sums) {
    && a.counts.a + a.counts.b + a.counts.c + a.counts.d + a.counts.f == e.letters
    && 4.0 * a.counts.a + 3.0 * a.counts.b + 2.0 * a.counts.c + a.counts.d == e.points
    && a.counts.w == e.withdrawals && a.counts.total == e.total
    && a.completed == a.effectiveGradeN == e.letters && a.total == a.effectiveWithdrawalN == e.total
    && a.withdrawals == e.withdrawals && a.effectiveN == (if e.total < e.letters then e.total else e.letters)
    && a.sectionCount == e.sections && a.termCount == e.terms && a.mappedCount == e.mapped
  }

  lemma AggregateMeaning(rows: seq<JoinedRow>, table: seq<InstructorRow>, sel: Selector, pick: Pick)
    requires Selects(sel, table, pick) && MarksMapped(sel, table)
    ensures AggregateIs(AggregateOf(Obs(rows, table, sel)), SumsOf(rows, table, pick))
  {
    hide Selects, MarksMapped, SumOf, Obs, SumCounts, Additive, SectionKeys, TermIds, MappedKeys, Mapped;
    AmountsAreAdditive();
    SumsField(rows, table, sel, pick, (g: GradeCounts) => g.a + g.b + g.c + g.d + g.f);
    SumsField(rows, table, sel, pick, (g: GradeCounts) => 4.0 * g.a + 3.0 * g.b + 2.0 * g.c + g.d);
    SumsField(rows, table, sel, pick, (g: GradeCounts) => g.w);
    SumsField(rows, table, sel, pick, (g: GradeCounts) => g.total);
    KeysOfRows(rows, table, sel, pick);
  }

  // ---- The figures of a score ----

  function Unit(v: real): real {
    if v < 0.0 then 0.0 else if v > 1.0 then 1.0 else v
  }

  function OnTen(v: real): real {
    if v < 0.0 then 0.0 else if v > 10.0 then 10.0 else v
  }

  /** A rate, None without a base. */
  function Rate(part: real, base: real): Option<real> {
    if base > 0.0 then Some(part / base) else None
  }

  function RateOr(part: real, base: real, default: real): real {
    if base > 0.0 then part / base else default
  }

  /** The prior, moved toward the observed rate by n / (n + strength). */
  function Shrunk(raw: Option<real>, n: real, prior: real, strength: real): real
    requires strength >= 0.0
  {
    if raw.None? || n <= 0.0 then Unit(prior) else Unit(prior + n / (n + strength) * (raw.value - prior))
  }

  /** Ten times the two weighted parts, kept within the scale. */
  function Easiness(grade: real, withdrawal: real, config: ScoreConfig): real {
    OnTen(10.0 * (config.gradeWeight * grade + config.nonWithdrawalWeight * (1.0 - withdrawal)))
  }

  function ExpectedConfidence(n: real, terms: nat): ConfidenceLabel {
    if n < 60.0 then Low
    else if n < 180.0 then (if terms > 1 then Medium else Low)
    else if terms > 1 then High else Medium
  }

  /** The statistics over these sums, shrunk toward these priors. */
  predicate Figures(
    stats: OutcomeStats, e: Sums, gradePrior: real, withdrawalPrior: real, strength: real, config: ScoreConfig)
    requires strength >= 0.0
  {
    && stats.gradeRaw == Rate(e.points, 4.0 * e.letters) && stats.withdrawalRaw == Rate(e.withdrawals, e.total)
    && stats.gradeSmoothed == Shrunk(stats.gradeRaw, e.letters, gradePrior, strength)
    && stats.withdrawalSmoothed == Shrunk(stats.withdrawalRaw, e.total, withdrawalPrior, config.withdrawalPriorStrength)
    && stats.easiness == Easiness(stats.gradeSmoothed, stats.withdrawalSmoothed, config)
    && stats.completed == e.letters && stats.total == e.total && stats.withdrawals == e.withdrawals
    && stats.effectiveN == (if e.total < e.letters then e.total else e.letters)
    && stats.sectionCount == e.sections && stats.termCount == e.terms && stats.mappedCount == e.mapped
    && stats.confidence == ExpectedConfidence(stats.effectiveN, e.terms)
  }

  lemma MixIsShift(n: real, strength: real, x: real, y: real)
    requires n > 0.0 && strength >= 0.0
    ensures Mix(Weight(n, strength), x, y) == y + n / (n + strength) * (x - y)
    ensures strength == 0.0 ==> y + n / (n + strength) * (x - y) == x
  {
    var w := n / (n + strength);
    assert w * (x - y) == w * x - w * y;
    if strength == 0.0 {
      assert w == 1.0;
    }
  }

  lemma SmoothIsShrunk(raw: Option<real>, n: real, prior: real, strength: real)
    requires strength >= 0.0
    ensures BayesianSmooth(raw, n, prior, strength) == Shrunk(raw, n, prior, strength)
    ensures 0.0 <= Shrunk(raw, n, prior, strength) <= 1.0
  {
    if raw.Some? && n > 0.0 {
      MixIsShift(n, strength, raw.value, prior);
    }
    hide Mix, Weight;
  }

  lemma EasinessWrittenOut(grade: real, withdrawal: real, config: ScoreConfig)
    requires 0.0 <= grade <= 1.0 && 0.0 <= withdrawal <= 1.0
    ensures EasinessScore(grade, withdrawal, config) == Easiness(grade, withdrawal, config)
  {
    assert ClampUnit(grade) == grade && ClampUnit(withdrawal) == withdrawal;
    assert forall v :: Clamp10(v) == OnTen(v);
    hide ClampUnit, Clamp10, OnTen;
  }

  lemma ComputedFigures(
    a: Aggregate, e: Sums, gradePrior: real, withdrawalPrior: real, level: PriorLevel, source: ScoreSource,
    config: ScoreConfig)
    requires AggregateIs(a, e)
    ensures var stats := ComputeStats(a, gradePrior, withdrawalPrior, level, source, config);
      && stats.source == source && stats.priorLevel == level
      && Figures(stats, e, gradePrior, withdrawalPrior,
                 if source == FromInstructorCourse then config.instructorPriorStrength
                   else config.gradePriorStrength, config)
  {
    var stats := ComputeStats(a, gradePrior, withdrawalPrior, level, source, config);
    var strength := if source == FromInstructorCourse then config.instructorPriorStrength
      else config.gradePriorStrength;
    ComputedParts(a, gradePrior, withdrawalPrior, level, source, config);
    hide ComputeStats;
    RatesWrittenOut(a, e);
    hide GradeFavorability, WithdrawalRate, Rate, ExpectedConfidence, Easiness, Mix;
    SmoothIsShrunk(stats.gradeRaw, e.letters, gradePrior, strength);
    SmoothIsShrunk(stats.withdrawalRaw, e.total, withdrawalPrior, config.withdrawalPriorStrength);
    hide BayesianSmooth, Shrunk;
    EasinessWrittenOut(stats.gradeSmoothed, stats.withdrawalSmoothed, config);
    hide EasinessScore;
  }

  lemma ComputedParts(
    a: Aggregate, gradePrior: real, withdrawalPrior: real, level: PriorLevel, source: ScoreSource, config: ScoreConfig)
    ensures var stats := ComputeStats(a, gradePrior, withdrawalPrior, level, source, config);
      && stats.gradeRaw == GradeFavorability(a.counts) && stats.withdrawalRaw == WithdrawalRate(a.counts)
      && stats.gradeSmoothed == BayesianSmooth(
           stats.gradeRaw, a.effectiveGradeN, gradePrior,
           if source == FromInstructorCourse then config.instructorPriorStrength else config.gradePriorStrength)
      && stats.withdrawalSmoothed == BayesianSmooth(
           stats.withdrawalRaw, a.effectiveWithdrawalN, withdrawalPrior, config.withdrawalPriorStrength)
      && stats.easiness == EasinessScore(stats.gradeSmoothed, stats.withdrawalSmoothed, config)
      && stats.completed == a.completed && stats.total == a.total && stats.withdrawals == a.withdrawals
      && stats.effectiveN == a.effectiveN && stats.sectionCount == a.sectionCount && stats.termCount == a.termCount
      && stats.mappedCount == a.mappedCount && stats.confidence == ExpectedConfidence(a.effectiveN, a.termCount)
      && stats.priorLevel == level && stats.source == source
  {
    hide GradeFavorability, WithdrawalRate, BayesianSmooth, EasinessScore;
  }

  lemma RatesWrittenOut(a: Aggregate, e: Sums)
    requires AggregateIs(a, e)
    ensures GradeFavorability(a.counts) == Rate(e.points, 4.0 * e.letters)
    ensures WithdrawalRate(a.counts) == Rate(e.withdrawals, e.total)
  {
  }

  /** Within the unit range nothing is clamped. */
  lemma ShrunkInRange(raw: real, n: real, prior: real, strength: real)
    requires 0.0 <= raw <= 1.0 && 0.0 <= prior <= 1.0 && n > 0.0 && strength >= 0.0
    ensures Shrunk(Some(raw), n, prior, strength) == prior + n / (n + strength) * (raw - prior)
  {
    MixIsShift(n, strength, raw, prior);
    SmoothIsShrunk(Some(raw), n, prior, strength);
    hide Mix;
    if strength > 0.0 {
      SmoothBetween(raw, n, prior, strength);
    }
  }

  // ---- Courses and instructors ----

  /** The statistics of a course: over its own rows when there are any, else over its subject's other
      courses, else none; shrunk toward the next wider level, the defaults at last. */
  predicate ScoredFromCourse(stats: OutcomeStats, course: Sums, subject: Sums, all: Sums, config: ScoreConfig) {
    var grade := RateOr(all.points, 4.0 * all.letters, 0.75);
    var withdrawal := RateOr(all.withdrawals, all.total, 0.1);
    if course.letters > 0.0 || course.total > 0.0 then
      && stats.source == FromCourse
      && stats.priorLevel == (if subject.letters > 0.0 || subject.total > 0.0 then SubjectPrior else GlobalPrior)
      && Figures(stats, course, RateOr(subject.points, 4.0 * subject.letters, grade),
                 RateOr(subject.withdrawals, subject.total, withdrawal), config.gradePriorStrength, config)
    else if subject.letters > 0.0 || subject.total > 0.0 then
      && stats.source == FromSubject && stats.priorLevel == GlobalPrior
      && Figures(stats, subject, grade, withdrawal, config.gradePriorStrength, config)
    else
      && stats.source == FromGlobal && stats.priorLevel == GlobalPrior
      && Figures(stats, course, grade, withdrawal, config.gradePriorStrength, config)
  }

  lemma FallbackMeaning(
    c: Aggregate, s: Aggregate, g: Aggregate, course: Sums, subject: Sums, all: Sums, config: ScoreConfig)
    requires AggregateIs(c, course) && AggregateIs(s, subject) && AggregateIs(g, all)
    ensures ScoredFromCourse(StatsWithFallback(c, s, g, config), course, subject, all, config)
  {
    RatesWrittenOut(s, subject);
    RatesWrittenOut(g, all);
    var grade := RateOr(all.points, 4.0 * all.letters, 0.75);
    var withdrawal := RateOr(all.withdrawals, all.total, 0.1);
    assert GlobalGradePrior(g) == grade && GlobalWithdrawalPrior(g) == withdrawal;
    hide GradeFavorability, WithdrawalRate, ComputeStats, Figures, GlobalGradePrior, GlobalWithdrawalPrior;
    if c.HasEvidence() {
      ComputedFigures(c, course, RateOr(subject.points, 4.0 * subject.letters, grade),
                      RateOr(subject.withdrawals, subject.total, withdrawal),
                      if subject.letters > 0.0 || subject.total > 0.0 then SubjectPrior
                        else GlobalPrior, FromCourse, config);
    } else if s.HasEvidence() {
      ComputedFigures(s, subject, grade, withdrawal, GlobalPrior, FromSubject, config);
    } else {
      ComputedFigures(c, course, grade, withdrawal, GlobalPrior, FromGlobal, config);
    }
  }

  lemma CourseStatsMeaning(
    rows: seq<JoinedRow>, table: seq<InstructorRow>, courses: map<nat, Course>, key: CourseKey, config: ScoreConfig)
    ensures ScoredFromCourse(
      CourseStatsOf(rows, table, courses, key, config), SumsOf(rows, table, OfCourse(courses, key)),
      SumsOf(rows, table, OfOthers(courses, key)), SumsOf(rows, table, OfAll()), config)
  {
    hide ScoredFromCourse, StatsWithFallback, AggregateOf, AggregateIs, SumsOf, Obs, Selects, MarksMapped;
    var ids := CourseIds(courses, key);
    CourseIsSelected(courses, key, table);
    OthersAreSelected(courses, key, table);
    AllAreSelected(table);
    AggregateMeaning(rows, table, OfCourses(ids), OfCourse(courses, key));
    AggregateMeaning(rows, table, OfCourses(SubjectIds(courses, key.0) - ids), OfOthers(courses, key));
    AggregateMeaning(rows, table, Everything, OfAll());
    FallbackMeaning(
      AggregateOf(Obs(rows, table, OfCourses(ids))),
        AggregateOf(Obs(rows, table, OfCourses(SubjectIds(courses, key.0) - ids))),
      AggregateOf(Obs(rows, table, Everything)), SumsOf(rows, table, OfCourse(courses, key)),
      SumsOf(rows, table, OfOthers(courses, key)), SumsOf(rows, table, OfAll()), config);
  }

  /** Enough rows of an instructor to score a section by. */
  predicate Enough(own: Sums, config: ScoreConfig) {
    && (own.letters > 0.0 || own.total > 0.0) && own.mapped > 0
    && own.letters >= config.minEffectiveN && own.total >= config.minEffectiveN
  }

  /** Scored from the instructor's own rows when there are enough, shrunk toward the course; else as
      the course. */
  predicate ScoredFor(stats: OutcomeStats, own: Option<Sums>, course: OutcomeStats, config: ScoreConfig) {
    if own.Some? && Enough(own.value, config) then
      && stats.source == FromInstructorCourse && stats.priorLevel == CoursePrior
      && Figures(stats, own.value, course.gradeSmoothed, course.withdrawalSmoothed, config.instructorPriorStrength,
        config)
    else stats == course
  }

  lemma ChosenMeaning(a: Aggregate, own: Sums, course: OutcomeStats, config: ScoreConfig)
    requires AggregateIs(a, own)
    ensures ScoredFor(ChooseStats(InstructorStatsFrom(a, course, config), course, config), Some(own), course, config)
  {
    hide ComputeStats, Figures;
    ComputedFigures(a, own, course.gradeSmoothed, course.withdrawalSmoothed, CoursePrior, FromInstructorCourse, config);
    ComputedParts(a, course.gradeSmoothed, course.withdrawalSmoothed, CoursePrior, FromInstructorCourse, config);
    hide BayesianSmooth, GradeFavorability, WithdrawalRate, EasinessScore;
  }

  // ---- Sections ----

  /** The instructor whose own rows may score the section. */
  function OwnSums(
    rows: seq<JoinedRow>, table: seq<InstructorRow>, courses: map<nat, Course>, key: CourseKey, name: Option<string>,
    lab: bool)
    : Option<Sums>
  {
    if name.Some? && IsUsableInstructor(name.value) && !lab
    then Some(SumsOf(rows, table, OfInstructor(courses, key, table, name.value))) else None
  }

  lemma SectionMeaning(
    rows: seq<JoinedRow>, table: seq<InstructorRow>, courses: map<nat, Course>, key: CourseKey,
    crn: string, state: InstructorState, lab: bool, config: ScoreConfig)
    ensures var course := CourseStatsOf(rows, table, courses, key, config);
      var s := ScoreSection(crn, state, lab, course, ObservationsByInstructor(rows, table, CourseIds(courses, key)),
        config);
      s.crn == crn && s.instructor == state.name
      && ScoredFor(s.stats, OwnSums(rows, table, courses, key, state.name, lab), course, config)
  {
    hide CourseStatsOf, ObservationsByInstructor, BreakdownOf, ChooseStats, InstructorStatsFrom, ScoredFor, AggregateOf,
      Obs,
      SumsOf, AggregateIs, IsUsableInstructor;
    var course, ids := CourseStatsOf(rows, table, courses, key, config), CourseIds(courses, key);
    if IsUsableState(state) && !lab {
      var name := state.name.value;
      RowsByName(rows, table, ids, name);
      InstructorIsSelected(courses, key, table, name);
      AggregateMeaning(rows, table, TaughtBy(ids, name), OfInstructor(courses, key, table, name));
      ChosenMeaning(AggregateOf(Obs(rows, table, TaughtBy(ids, name))),
        SumsOf(rows, table, OfInstructor(courses, key, table, name)),
                    course, config);
    } else {
      CourseAlone(course, config);
    }
  }

  lemma CourseAlone(course: OutcomeStats, config: ScoreConfig)
    ensures ScoredFor(ChooseStats(None, course, config), None, course, config)
  {
  }

  // ---- The joined rows ----

  /** A grade row of an earlier term with the section of its term and CRN, when there is one. */
  ghost predicate JoinsSection(db: Db, code: nat, r: JoinedRow) {
    && r.grade in db.grades && r.grade.termId in db.terms && r.termCode == db.terms[r.grade.termId] && r.termCode < code
    && (forall id | id in db.sections && db.sections[id].termId == r.grade.termId &&
      db.sections[id].crn == r.grade.crn ::
          && r.sectionId == Some(id) && r.sectionCourseId == Some(db.sections[id].courseId)
          && r.sectionIsLab == IsLaboratory(db.sections[id].values))
    && (r.sectionId.Some? ==>
          && r.sectionId.value in db.sections && db.sections[r.sectionId.value].termId == r.grade.termId
          && db.sections[r.sectionId.value].crn == r.grade.crn)
    && (r.sectionId.None? ==> r.sectionCourseId.None?)
  }

  lemma {:induction false} JoinedRowsMeaning(db: Db, grades: seq<GradeRow>, code: nat)
    requires UniqueCrnsIn(db.sections) && forall g | g in grades :: g in db.grades
    ensures var joined := JoinGrades(db.terms, db.sections, grades, code);
      && (forall r | r in joined :: JoinsSection(db, code, r) && r.grade in grades)
      && (forall g | g in grades && g.termId in db.terms && db.terms[g.termId] < code ::
           exists r :: r in joined && r.grade == g)
      && |joined| == |EarlierOnes(db.terms, grades, code)|
  {
    hide IsLaboratory, JoinsSection;
    if grades != [] {
      var n := |grades| - 1;
      assert grades == grades[..n] + [grades[n]];
      JoinedRowsMeaning(db, grades[..n], code);
      var g := grades[n];
      if g.termId in db.terms && db.terms[g.termId] < code {
        var last := JoinRow(db.sections, g, db.terms[g.termId]);
        assert last.grade == g && last.termCode == db.terms[g.termId];
        JoinRowMeaning(db, code, g);
        var before := JoinGrades(db.terms, db.sections, grades[..n], code);
        assert last in before + [last];
      }
    }
  }

  lemma JoinRowMeaning(db: Db, code: nat, g: GradeRow)
    requires UniqueCrnsIn(db.sections) && g in db.grades && g.termId in db.terms && db.terms[g.termId] < code
    ensures JoinsSection(db, code, JoinRow(db.sections, g, db.terms[g.termId]))
  {
    hide IsLaboratory;
  }

  function EarlierOnes(terms: map<nat, nat>, grades: seq<GradeRow>, code: nat): seq<GradeRow> {
    if grades == [] then []
    else
      var last := grades[|grades| - 1];
      EarlierOnes(terms, grades[..|grades| - 1], code) + if last.termId in terms &&
        terms[last.termId] < code then [last] else []
  }
}
