/** Better grades never hurt: raising letters in grade rows, through aggregation, the course,
    subject and global priors and instructor shrinkage, lowers no section's easiness. */
module Monotonicity {
  import opened Text
  import opened Grades
  import opened Scoring
  import opened Instructors
  import opened Breakdown
  import opened Schema
  import opened Evidence
  import opened Analytics

  datatype Letter = LetterA | LetterB | LetterC | LetterD | LetterF

  function PointsOf(l: Letter): real {
    match l case LetterA => 4.0 case LetterB => 3.0 case LetterC => 2.0 case LetterD => 1.0 case LetterF => 0.0
  }

  function AddTo(g: GradeCounts, l: Letter, n: real): GradeCounts {
    match l
    case LetterA => g.(a := g.a + n)
    case LetterB => g.(b := g.b + n)
    case LetterC => g.(c := g.c + n)
    case LetterD => g.(d := g.d + n)
    case LetterF => g.(f := g.f + n)
  }

  /** One student of a row gets a different letter. */
  function MoveStudent(g: GradeCounts, from: Letter, to: Letter): GradeCounts {
    AddTo(AddTo(g, from, -1.0), to, 1.0)
  }

  /** The same students, with at least as many grade points. */
  predicate Improved(x: GradeCounts, y: GradeCounts) {
    && Completed(x) == Completed(y) && Points(x) <= Points(y)
    && x.i == y.i && x.s == y.s && x.u == y.u && x.w == y.w && x.other == y.other && x.total == y.total
  }

  lemma MoveImproves(g: GradeCounts, from: Letter, to: Letter)
    requires PointsOf(from) <= PointsOf(to)
    ensures Improved(g, MoveStudent(g, from, to))
  {
  }

  // ---- Rows ----

  predicate RowsImproved(xs: seq<GradeRow>, ys: seq<GradeRow>) {
    && |xs| == |ys|
    && forall k | 0 <= k < |xs| ::
      xs[k] == ys[k].(counts := xs[k].counts) && Improved(xs[k].counts, ys[k].counts)
  }

  predicate JoinedImproved(xs: seq<JoinedRow>, ys: seq<JoinedRow>) {
    && |xs| == |ys|
    && forall k | 0 <= k < |xs| ::
      xs[k] == ys[k].(grade := xs[k].grade) && xs[k].grade == ys[k].grade.(counts := xs[k].grade.counts)
      && Improved(xs[k].grade.counts, ys[k].grade.counts)
  }

  predicate ObsImproved(xs: seq<GradeObservation>, ys: seq<GradeObservation>) {
    && |xs| == |ys|
    && forall k | 0 <= k < |xs| :: xs[k] == ys[k].(counts := xs[k].counts) && Improved(xs[k].counts, ys[k].counts)
  }

  lemma {:induction false} JoinImproved(
    terms: map<nat, nat>, sections: map<nat, Section>, xs: seq<GradeRow>, ys: seq<GradeRow>, before: nat)
    requires RowsImproved(xs, ys)
    ensures JoinedImproved(JoinGrades(terms, sections, xs, before), JoinGrades(terms, sections, ys, before))
    decreases |xs|
  {
    hide Improved;
    if xs != [] {
      var n := |xs| - 1;
      JoinImproved(terms, sections, xs[..n], ys[..n], before);
    }
  }

  lemma {:induction false} SelectedImproved(
    xs: seq<JoinedRow>, ys: seq<JoinedRow>, table: seq<InstructorRow>, sel: Selector)
    requires JoinedImproved(xs, ys)
    ensures ObsImproved(Obs(xs, table, sel), Obs(ys, table, sel))
    decreases |xs|
  {
    hide Improved;
    if xs != [] {
      var n := |xs| - 1;
      SelectedImproved(xs[..n], ys[..n], table, sel);
      ContributionImproved(xs[n], ys[n], table, sel);
      hide Contribution;
    }
  }

  lemma ContributionImproved(x: JoinedRow, y: JoinedRow, table: seq<InstructorRow>, sel: Selector)
    requires JoinedImproved([x], [y])
    ensures ObsImproved(Contribution(x, table, sel), Contribution(y, table, sel))
  {
    hide Improved;
    assert [x][0] == x && [y][0] == y;
  }

  // ---- Aggregates ----

  predicate AggregateImproved(x: Aggregate, y: Aggregate) {
    x == y.(counts := x.counts) && Improved(x.counts, y.counts)
  }

  lemma {:induction false} SumImproved(xs: seq<GradeObservation>, ys: seq<GradeObservation>)
    requires ObsImproved(xs, ys)
    ensures Improved(SumCounts(xs), SumCounts(ys))
    decreases |xs|
  {
    if xs != [] {
      var n := |xs| - 1;
      SumImproved(xs[..n], ys[..n]);
      AddImproved(SumCounts(xs[..n]), SumCounts(ys[..n]), xs[n].counts, ys[n].counts);
      hide AddCounts, Improved;
    }
  }

  lemma AddImproved(x: GradeCounts, y: GradeCounts, dx: GradeCounts, dy: GradeCounts)
    requires Improved(x, y) && Improved(dx, dy)
    ensures Improved(AddCounts(x, dx), AddCounts(y, dy))
  {
  }

  lemma AggregatesImproved(xs: seq<GradeObservation>, ys: seq<GradeObservation>)
    requires ObsImproved(xs, ys)
    ensures AggregateImproved(AggregateOf(xs), AggregateOf(ys))
  {
    SumImproved(xs, ys);
    KeysImproved(xs, ys);
    hide SumCounts, SectionKeys, TermIds, MappedKeys;
  }

  lemma KeysImproved(xs: seq<GradeObservation>, ys: seq<GradeObservation>)
    requires ObsImproved(xs, ys)
    ensures SectionKeys(xs) == SectionKeys(ys) && TermIds(xs) == TermIds(ys) && MappedKeys(xs) == MappedKeys(ys)
  {
    hide Improved;
    KeysWithin(xs, ys);
    KeysWithin(ys, xs);
  }

  lemma KeysWithin(xs: seq<GradeObservation>, ys: seq<GradeObservation>)
    requires |xs| == |ys|
    requires forall k | 0 <= k < |xs| :: xs[k] == ys[k].(counts := xs[k].counts)
    ensures SectionKeys(xs) <= SectionKeys(ys) && TermIds(xs) <= TermIds(ys) && MappedKeys(xs) <= MappedKeys(ys)
  {
    forall o | o in xs ensures exists p :: p in ys && o == p.(counts := o.counts) {
      var k :| 0 <= k < |xs| && xs[k] == o;
      assert ys[k] in ys;
    }
  }

  lemma SelectedAggregateImproved(xs: seq<JoinedRow>, ys: seq<JoinedRow>, table: seq<InstructorRow>, sel: Selector)
    requires JoinedImproved(xs, ys)
    ensures AggregateImproved(AggregateOf(Obs(xs, table, sel)), AggregateOf(Obs(ys, table, sel)))
  {
    SelectedImproved(xs, ys, table, sel);
    AggregatesImproved(Obs(xs, table, sel), Obs(ys, table, sel));
  }

  // ---- Statistics ----

  /** Nothing but the grade side moves, and only upward. */
  predicate StatsImproved(x: OutcomeStats, y: OutcomeStats) {
    && x == y.(gradeRaw := x.gradeRaw, gradeSmoothed := x.gradeSmoothed, easiness := x.easiness)
    && x.gradeSmoothed <= y.gradeSmoothed && x.easiness <= y.easiness
  }

  predicate AtMost(x: Option<real>, y: Option<real>) {
    (x.Some? <==> y.Some?) && (x.Some? ==> x.value <= y.value)
  }

  lemma FavorabilityImproved(x: GradeCounts, y: GradeCounts)
    requires Improved(x, y)
    ensures AtMost(GradeFavorability(x), GradeFavorability(y)) && WithdrawalRate(x) == WithdrawalRate(y)
  {
    if Completed(x) > 0.0 {
      DivideMonotone(Points(x), Points(y), 4.0 * Completed(x));
    }
  }

  lemma DivideMonotone(x: real, y: real, d: real)
    requires x <= y && d > 0.0
    ensures x / d <= y / d
  {
    var q := 1.0 / d;
    assert q * d == 1.0;
    assert q > 0.0;
    assert x / d == q * x && y / d == q * y;
    MulMonotone(q, x, y);
  }

  lemma ComputeStatsImproved(
    x: Aggregate, y: Aggregate, gx: real, gy: real, withdrawalPrior: real,
    priorLevel: PriorLevel, source: ScoreSource, config: ScoreConfig)
    requires config.gradeWeight >= 0.0 && AggregateImproved(x, y) && gx <= gy
    ensures StatsImproved(ComputeStats(x, gx, withdrawalPrior, priorLevel, source, config),
                          ComputeStats(y, gy, withdrawalPrior, priorLevel, source, config))
  {
    hide GradeFavorability, WithdrawalRate, BayesianSmooth, EasinessScore, Completed, Points,
      ConfidenceLabelFor;
    FavorabilityImproved(x.counts, y.counts);
    var strength :=
      if source == FromInstructorCourse then config.instructorPriorStrength else config.gradePriorStrength;
    SmoothMonotone(GradeFavorability(x.counts), GradeFavorability(y.counts), x.effectiveGradeN, gx, gy, strength);
    var withdrawal := BayesianSmooth(WithdrawalRate(x.counts), x.effectiveWithdrawalN, withdrawalPrior,
      config.withdrawalPriorStrength);
    EasinessMonotone(
      BayesianSmooth(GradeFavorability(x.counts), x.effectiveGradeN, gx, strength),
      BayesianSmooth(GradeFavorability(y.counts), y.effectiveGradeN, gy, strength), withdrawal, config);
  }

  lemma FallbackImproved(
    c: Aggregate, c': Aggregate, s: Aggregate, s': Aggregate, g: Aggregate, g': Aggregate, config: ScoreConfig)
    requires config.gradeWeight >= 0.0
    requires AggregateImproved(c, c') && AggregateImproved(s, s') && AggregateImproved(g, g')
    ensures StatsImproved(StatsWithFallback(c, s, g, config), StatsWithFallback(c', s', g', config))
  {
    FavorabilityImproved(s.counts, s'.counts);
    FavorabilityImproved(g.counts, g'.counts);
    var prior, prior' := GlobalGradePrior(g), GlobalGradePrior(g');
    var withdrawal := GlobalWithdrawalPrior(g);
    hide GradeFavorability, WithdrawalRate, ComputeStats, Completed, Points, StatsImproved, Improved;
    if c.HasEvidence() {
      var level := if GradeFavorability(s.counts).Some? || WithdrawalRate(s.counts).Some? then SubjectPrior
        else GlobalPrior;
      ComputeStatsImproved(c, c', ValueOr(GradeFavorability(s.counts), prior),
        ValueOr(GradeFavorability(s'.counts), prior'),
                           ValueOr(WithdrawalRate(s.counts), withdrawal), level, FromCourse, config);
    } else if s.HasEvidence() {
      ComputeStatsImproved(s, s', prior, prior', withdrawal, GlobalPrior, FromSubject, config);
    } else {
      ComputeStatsImproved(c, c', prior, prior', withdrawal, GlobalPrior, FromGlobal, config);
    }
  }

  lemma CourseStatsImproved(
    xs: seq<JoinedRow>, ys: seq<JoinedRow>, table: seq<InstructorRow>, courses: map<nat, Course>, key: CourseKey,
    config: ScoreConfig)
    requires config.gradeWeight >= 0.0 && JoinedImproved(xs, ys)
    ensures StatsImproved(CourseStatsOf(xs, table, courses, key, config),
      CourseStatsOf(ys, table, courses, key, config))
  {
    var ids := CourseIds(courses, key);
    var others := SubjectIds(courses, key.0) - ids;
    SelectedAggregateImproved(xs, ys, table, OfCourses(ids));
    SelectedAggregateImproved(xs, ys, table, OfCourses(others));
    SelectedAggregateImproved(xs, ys, table, Everything);
    hide AggregateOf, Obs, StatsWithFallback, StatsImproved, AggregateImproved;
    FallbackImproved(
      AggregateOf(Obs(xs, table, OfCourses(ids))), AggregateOf(Obs(ys, table, OfCourses(ids))),
      AggregateOf(Obs(xs, table, OfCourses(others))), AggregateOf(Obs(ys, table, OfCourses(others))),
      AggregateOf(Obs(xs, table, Everything)), AggregateOf(Obs(ys, table, Everything)), config);
  }

  // ---- Sections ----

  predicate SectionImproved(x: SectionAnalytics, y: SectionAnalytics) {
    x.crn == y.crn && x.instructor == y.instructor && StatsImproved(x.stats, y.stats)
  }

  predicate SectionsImproved(xs: seq<SectionAnalytics>, ys: seq<SectionAnalytics>) {
    |xs| == |ys| && forall k | 0 <= k < |xs| :: SectionImproved(xs[k], ys[k])
  }

  lemma OwnStatsImproved(
    xs: seq<JoinedRow>, ys: seq<JoinedRow>, table: seq<InstructorRow>, ids: set<nat>, name: string,
    cx: OutcomeStats, cy: OutcomeStats, config: ScoreConfig)
    requires config.gradeWeight >= 0.0 && JoinedImproved(xs, ys) && StatsImproved(cx, cy)
    ensures StatsImproved(
      ChooseStats(OwnStats(name, cx, ObservationsByInstructor(xs, table, ids), config), cx, config),
      ChooseStats(OwnStats(name, cy, ObservationsByInstructor(ys, table, ids), config), cy, config))
  {
    hide AggregateOf, InstructorStatsFrom, ChooseStats, StatsImproved, AggregateImproved, JoinedImproved;
    RowsByName(xs, table, ids, name);
    RowsByName(ys, table, ids, name);
    SelectedAggregateImproved(xs, ys, table, TaughtBy(ids, name));
    ChooseImproved(AggregateOf(Obs(xs, table, TaughtBy(ids, name))), AggregateOf(Obs(ys, table, TaughtBy(ids, name))),
      cx, cy, config);
  }

  lemma ChooseImproved(a: Aggregate, b: Aggregate, cx: OutcomeStats, cy: OutcomeStats, config: ScoreConfig)
    requires config.gradeWeight >= 0.0 && AggregateImproved(a, b) && StatsImproved(cx, cy)
    ensures StatsImproved(ChooseStats(InstructorStatsFrom(a, cx, config), cx, config),
                          ChooseStats(InstructorStatsFrom(b, cy, config), cy, config))
  {
    hide ComputeStats, Improved;
    ComputeStatsImproved(a, b, cx.gradeSmoothed, cy.gradeSmoothed, cx.withdrawalSmoothed, CoursePrior,
      FromInstructorCourse, config);
  }

  lemma ChooseNone(courseStats: OutcomeStats, config: ScoreConfig)
    ensures ChooseStats(None, courseStats, config) == courseStats
  {
  }

  lemma CourseRowsImproved(
    db: Db, db': Db, termId: nat, xs: seq<JoinedRow>, ys: seq<JoinedRow>, key: CourseKey, config: ScoreConfig)
    requires config.gradeWeight >= 0.0 && UniqueCrnsIn(db.sections)
    requires db' == db.(grades := db'.grades) && JoinedImproved(xs, ys)
    ensures SectionsImproved(CourseRows(db, termId, xs, key, config), CourseRows(db', termId, ys, key, config))
  {
    hide CourseStatsOf, ObservationsByInstructor, OwnStats, ChooseStats, StatsImproved, BreakdownOf,
      SectionsByCrn, CurrentState, IsLaboratory, JoinedImproved;
    CourseStatsImproved(xs, ys, db.instructors, db.courses, key, config);
    var ids := CourseIds(db.courses, key);
    var cx, cy := CourseStatsOf(xs, db.instructors, db.courses, key, config),
      CourseStatsOf(ys, db.instructors, db.courses, key, config);
    var ox, oy := ObservationsByInstructor(xs, db.instructors, ids), ObservationsByInstructor(ys, db.instructors, ids);
    forall name
      ensures StatsImproved(ChooseStats(OwnStats(name, cx, ox, config), cx, config),
        ChooseStats(OwnStats(name, cy, oy, config), cy, config))
    {
      OwnStatsImproved(xs, ys, db.instructors, ids, name, cx, cy, config);
    }
    ChooseNone(cx, config);
    ChooseNone(cy, config);
  }

  /** Raising letters in grade rows leaves every section of the whole-term build with the same
      source, evidence and withdrawal rate, and no lower easiness. */
  lemma {:induction false} BetterGradesNeverHurt(db: Db, db': Db, code: nat, keys: seq<CourseKey>, config: ScoreConfig)
    requires UniqueCrnsIn(db.sections) && UniqueCodes(db.terms)
    requires config.gradeWeight >= 0.0
    requires db' == db.(grades := db'.grades) && RowsImproved(db.grades, db'.grades)
    ensures SectionsImproved(PerCourseAll(db, code, keys, config), PerCourseAll(db', code, keys, config))
    decreases |keys|
  {
    hide CourseRows, RowsImproved, SectionImproved, JoinGrades;
    if keys != [] {
      BetterGradesNeverHurt(db, db', code, keys[..|keys| - 1], config);
      JoinImproved(db.terms, db.sections, db.grades, db'.grades, code);
      var term := TermIdOf(db.terms, code);
      if term.Some? {
        CourseRowsImproved(db, db', term.value, JoinedRows(db, code), JoinedRows(db', code),
          Normalized(keys[|keys| - 1]), config);
      }
    }
  }

  /** The promise for one student of one grade row. */
  lemma MovingOneStudentUp(
    db: Db, k: nat, from: Letter, to: Letter, code: nat, keys: seq<CourseKey>, config: ScoreConfig)
    requires UniqueCrnsIn(db.sections) && UniqueCodes(db.terms) && config.gradeWeight >= 0.0
    requires k < |db.grades| && PointsOf(from) <= PointsOf(to)
    ensures var moved := db.grades[k].(counts := MoveStudent(db.grades[k].counts, from, to));
      SectionsImproved(PerCourseAll(db, code, keys, config),
                       PerCourseAll(db.(grades := db.grades[k := moved]), code, keys, config))
  {
    hide PerCourseAll, SectionsImproved, MoveStudent;
    var moved := db.grades[k].(counts := MoveStudent(db.grades[k].counts, from, to));
    MoveImproves(db.grades[k].counts, from, to);
    BetterGradesNeverHurt(db, db.(grades := db.grades[k := moved]), code, keys, config);
  }
}
