/** The row pinned beside a section and the score of the section come from the same figures. */
module PinnedRow {
  import opened Text
  import opened Ordering
  import opened Grades
  import opened Scoring
  import opened Instructors
  import opened Breakdown
  import opened Schema
  import opened Evidence
  import opened Analytics

  predicate CountsNonNegative(rows: seq<JoinedRow>) {
    forall r | r in rows :: r.grade.counts.NonNegative()
  }

  /** The breakdown is ready and pins exactly one row, with the section's own figures. */
  predicate Pinned(s: SectionAnalytics) {
    && s.breakdown.Some? && s.breakdown.value.status == Ready
    && var rows := s.breakdown.value.instructors;
    && rows != [] && rows[0].isCurrent && rows[0].scored
    && Some(rows[0].name) == s.instructor
    && rows[0].easiness == Some(s.stats.easiness) && rows[0].effectiveN == s.stats.effectiveN
    && forall i | 0 < i < |rows| :: !rows[i].isCurrent
  }

  // ---- An instructor's rows are among the course's rows ----

  /** An instructor's rows are a sub-multiset of the course's rows, and all of them are mapped. */
  lemma {:induction false} TaughtRowsAreAmong(
    rows: seq<JoinedRow>, table: seq<InstructorRow>, ids: set<nat>, name: string)
    ensures multiset(Obs(rows, table, TaughtBy(ids, name))) <= multiset(Obs(rows, table, OfCourses(ids)))
    ensures forall o | o in Obs(rows, table, TaughtBy(ids, name)) :: o.mapped
  {
    if rows != [] {
      var n := |rows| - 1;
      TaughtRowsAreAmong(rows[..n], table, ids, name);
      assert Taught(rows[n], table, ids, name) ==> IsMapped(rows[n], table);
      hide Taught, Attributed, IsMapped;
    }
  }

  lemma {:induction false} TaughtWithinCourse(
    rows: seq<JoinedRow>, table: seq<InstructorRow>, ids: set<nat>, name: string)
    requires CountsNonNegative(rows)
    ensures SumsWithin(Obs(rows, table, TaughtBy(ids, name)), Obs(rows, table, OfCourses(ids)))
    ensures forall o | o in Obs(rows, table, TaughtBy(ids, name)) :: o.mapped && o in Obs(rows, table, OfCourses(ids))
  {
    if rows != [] {
      var n := |rows| - 1;
      TaughtWithinCourse(rows[..n], table, ids, name);
      var own, all := Obs(rows[..n], table, TaughtBy(ids, name)), Obs(rows[..n], table, OfCourses(ids));
      var dOwn, dAll := Contribution(rows[n], table, TaughtBy(ids, name)), Contribution(rows[n], table, OfCourses(ids));
      assert rows[n] in rows;
      ContributionWithin(rows[n], table, ids, name);
      hide Obs, Contribution, Within, SumCounts;
      assert own + [] == own && all + [] == all;
      if dAll != [] {
        assert dAll == [dAll[0]] && dAll[0] in dAll;
        SumAppend(own, dAll[0]);
        SumAppend(all, dAll[0]);
        AddWithin(SumCounts(own), SumCounts(all), dAll[0].counts);
      }
    }
  }

  lemma ContributionWithin(row: JoinedRow, table: seq<InstructorRow>, ids: set<nat>, name: string)
    requires row.grade.counts.NonNegative()
    ensures var own, all := Contribution(row, table, TaughtBy(ids, name)), Contribution(row, table, OfCourses(ids));
      ((own == [] && |all| <= 1) || (own == all && |own| == 1 && own[0].mapped))
      && forall o | o in all :: o.counts.NonNegative()
  {
    assert Taught(row, table, ids, name) ==> IsMapped(row, table);
  }

  /** No more letters, no more grades and no more withdrawals. */
  predicate Within(x: GradeCounts, y: GradeCounts) {
    Completed(x) <= Completed(y) && x.total <= y.total && x.w <= y.w
  }

  predicate SumsWithin(xs: seq<GradeObservation>, ys: seq<GradeObservation>) {
    Within(SumCounts(xs), SumCounts(ys))
  }

  lemma AddWithin(x: GradeCounts, y: GradeCounts, d: GradeCounts)
    requires Within(x, y) && d.NonNegative()
    ensures Within(AddCounts(x, d), AddCounts(y, d)) && Within(x, AddCounts(y, d))
  {
  }

  lemma MappedWithin(xs: seq<GradeObservation>, ys: seq<GradeObservation>)
    requires forall o | o in xs :: o.mapped && o in ys
    requires xs != []
    ensures |MappedKeys(ys)| > 0
  {
    assert xs[0] in ys;
    assert (xs[0].termId, xs[0].crn) in MappedKeys(ys);
  }

  /** The rows carry letter grades. */
  predicate HasLetters(obs: seq<GradeObservation>) {
    var g := SumCounts(obs);
    Completed(g) > 0.0 && g.total > 0.0
  }

  lemma WeightIsLetters(obs: seq<GradeObservation>)
    ensures AggregateOf(obs).effectiveN > 0.0 ==> HasLetters(obs)
  {
    hide SumCounts, Completed;
  }

  /** A course whose instructor has letter grades supports a breakdown. */
  lemma CourseSupports(
    rows: seq<JoinedRow>, table: seq<InstructorRow>, courses: map<nat, Course>, key: CourseKey, name: string,
    config: ScoreConfig)
    requires CountsNonNegative(rows)
    requires HasLetters(Obs(rows, table, TaughtBy(CourseIds(courses, key), name)))
    ensures SupportsBreakdown(CourseStatsOf(rows, table, courses, key, config))
  {
    var ids := CourseIds(courses, key);
    var own, all := Obs(rows, table, TaughtBy(ids, name)), Obs(rows, table, OfCourses(ids));
    TaughtWithinCourse(rows, table, ids, name);
    assert own != [] by {
      assert SumCounts([]) == NO_GRADES;
    }
    MappedWithin(own, all);
    hide Obs, SumCounts, BayesianSmooth, EasinessScore, GradeFavorability, WithdrawalRate, ConfidenceLabelFor;
  }

  // ---- The pinned row ----

  lemma PinnedRowListed(histories: Histories, name: string, collapseMin: real, scoringMin: real)
    requires NamedByKey(histories)
    requires forall n | n in histories :: histories[n].isCurrent <==> n == name
    requires name in histories
    ensures var report := ReportOf(histories, Some(name), scoringMin, collapseMin);
      && report.status == Ready && report.instructors != []
      && report.instructors[0] == histories[name]
      && forall i | 0 < i < |report.instructors| :: !report.instructors[i].isCurrent
  {
    var listed := ListedRows(histories, collapseMin);
    HistoryOrderTotal(listed);
    var rows := Sorted(HistoryLess, listed);
    assert histories[name] in Elements(rows);
    HeadIsLeast(HistoryLess, rows, histories[name]);
    assert rows[0] in Elements(rows);
    forall i | 0 < i < |rows| ensures !rows[i].isCurrent {
      assert rows[i] in Elements(rows) && HistoryLess(rows[0], rows[i]);
      StrLessIrreflexive(name);
    }
  }

  lemma NoPinnedRow(histories: Histories, name: string, collapseMin: real, scoringMin: real)
    requires NamedByKey(histories)
    requires forall n | n in histories :: !histories[n].isCurrent
    ensures var rows := ReportOf(histories, Some(name), scoringMin, collapseMin).instructors;
      forall i | 0 <= i < |rows| :: !rows[i].isCurrent
  {
    var listed := ListedRows(histories, collapseMin);
    HistoryOrderTotal(listed);
    var rows := Sorted(HistoryLess, listed);
    assert forall i | 0 <= i < |rows| :: rows[i] in Elements(rows);
  }

  lemma NoRowsNoStats(courseStats: OutcomeStats, config: ScoreConfig)
    ensures InstructorStatsFrom(AggregateOf([]), courseStats, config) == None
  {
    hide SectionKeys, TermIds, MappedKeys, ComputeStats;
  }

  lemma HistoriesCurrent(obsBy: ByInstructor, courseStats: OutcomeStats, name: string, config: ScoreConfig)
    requires IsUsableInstructor(name)
    ensures var histories := HistoriesOf(obsBy, courseStats, Some(name), config);
      && (forall n | n in histories :: histories[n].isCurrent <==> n == name)
      && (name in histories <==>
          name in obsBy && var own := InstructorCourseStats(obsBy[name], courseStats, config);
          own.Some? && own.value.effectiveN > 0.0)
      && (name in histories ==>
        Shows(histories[name], name, InstructorCourseStats(obsBy[name], courseStats, config).value, config))
  {
    hide InstructorCourseStats, SumCounts, IsUsableInstructor, HasSufficientInstructorEvidence;
  }

  predicate Shows(row: InstructorHistory, name: string, own: OutcomeStats, config: ScoreConfig) {
    && row.name == name && row.effectiveN == own.effectiveN
    && row.scored == HasSufficientInstructorEvidence(own, config)
    && row.easiness == if row.scored then Some(own.easiness) else None
  }

  lemma CourseNeverInstructor(
    rows: seq<JoinedRow>, table: seq<InstructorRow>, courses: map<nat, Course>, key: CourseKey, config: ScoreConfig)
    ensures CourseStatsOf(rows, table, courses, key, config).source != FromInstructorCourse
  {
    hide AggregateOf, Obs, BayesianSmooth, EasinessScore, GradeFavorability, WithdrawalRate,
      ConfidenceLabelFor;
  }

  /** A section scored from its instructor's own history has its pinned row exactly if that history
      carries letter grades. */
  predicate PinnedIffLetters(s: SectionAnalytics) {
    s.stats.source == FromInstructorCourse ==> (Pinned(s) <==> s.stats.effectiveN > 0.0)
  }

  lemma SectionPinned(
    rows: seq<JoinedRow>, table: seq<InstructorRow>, courses: map<nat, Course>, key: CourseKey,
    crn: string, state: InstructorState, lab: bool, config: ScoreConfig)
    requires CountsNonNegative(rows)
    ensures PinnedIffLetters(ScoreSection(
      crn, state, lab, CourseStatsOf(rows, table, courses, key, config),
      ObservationsByInstructor(rows, table, CourseIds(courses, key)), config))
  {
    hide AggregateOf, Obs, CourseStatsOf, ObservationsByInstructor, InstructorStatsFrom, HistoriesOf,
      ReportOf, SupportsBreakdown, IsUsableInstructor;
    var ids := CourseIds(courses, key);
    var courseStats := CourseStatsOf(rows, table, courses, key, config);
    CourseNeverInstructor(rows, table, courses, key, config);
    if IsUsableState(state) && !lab {
      var name := state.name.value;
      RowsByName(rows, table, ids, name);
      var obsBy := ObservationsByInstructor(rows, table, ids);
      var own := OwnStats(name, courseStats, obsBy, config);
      if own.Some? && HasSufficientInstructorEvidence(own.value, config) {
        HistoriesCurrent(obsBy, courseStats, name, config);
        NoRowsNoStats(courseStats, config);
        var histories := HistoriesOf(obsBy, courseStats, Some(name), config);
        HistoriesNamed(obsBy, courseStats, Some(name), config);
        if own.value.effectiveN > 0.0 {
          OwnEffective(AggregateOf(Obs(rows, table, TaughtBy(ids, name))), courseStats, config);
          WeightIsLetters(Obs(rows, table, TaughtBy(ids, name)));
          CourseSupports(rows, table, courses, key, name, config);
          PinnedRowListed(histories, name, COLLAPSE_MIN_EFFECTIVE_N, config.minEffectiveN);
        } else {
          NoPinnedRow(histories, name, COLLAPSE_MIN_EFFECTIVE_N, config.minEffectiveN);
        }
      }
    }
  }

  lemma OwnEffective(aggregate: Aggregate, courseStats: OutcomeStats, config: ScoreConfig)
    ensures var own := InstructorStatsFrom(aggregate, courseStats, config);
      own.Some? ==> own.value.effectiveN == aggregate.effectiveN && own.value.source == FromInstructorCourse
  {
  }

  lemma CoursePinned(db: Db, termId: nat, rows: seq<JoinedRow>, key: CourseKey, config: ScoreConfig)
    requires UniqueCrnsIn(db.sections) && CountsNonNegative(rows)
    ensures forall s | s in CourseRows(db, termId, rows, key, config) :: PinnedIffLetters(s)
  {
    hide CourseStatsOf, ObservationsByInstructor, ScoreSection, PinnedIffLetters, SectionsByCrn,
      CurrentState, IsLaboratory, CountsNonNegative;
    forall crn, state, lab
      ensures PinnedIffLetters(ScoreSection(
        crn, state, lab, CourseStatsOf(rows, db.instructors, db.courses, key, config),
        ObservationsByInstructor(rows, db.instructors, CourseIds(db.courses, key)), config))
    {
      SectionPinned(rows, db.instructors, db.courses, key, crn, state, lab, config);
    }
  }

  /** Whenever a section is scored from its instructor's own history, the pinned row shows the same
      easiness and the same evidence, exactly if that history carries letter grades. */
  lemma {:induction false} PinnedRowAgrees(db: Db, code: nat, keys: seq<CourseKey>, config: ScoreConfig)
    requires UniqueCrnsIn(db.sections) && UniqueCodes(db.terms) && CountsNonNegative(JoinedRows(db, code))
    ensures forall s | s in PerCourseAll(db, code, keys, config) :: PinnedIffLetters(s)
    decreases |keys|
  {
    hide CourseRows, PinnedIffLetters, JoinedRows, CountsNonNegative, Normalized;
    if keys != [] {
      PinnedRowAgrees(db, code, keys[..|keys| - 1], config);
      var term := TermIdOf(db.terms, code);
      if term.Some? {
        CoursePinned(db, term.value, JoinedRows(db, code), Normalized(keys[|keys| - 1]), config);
      }
    }
  }

  /** Only sufficient evidence is scored from the instructor. */
  lemma {:induction false} InstructorScoreIsSufficient(db: Db, code: nat, keys: seq<CourseKey>, config: ScoreConfig)
    requires UniqueCrnsIn(db.sections) && UniqueCodes(db.terms)
    ensures forall s | s in PerCourseAll(db, code, keys, config) ::
      s.stats.source == FromInstructorCourse ==> s.stats.effectiveN >= config.minEffectiveN
    decreases |keys|
  {
    hide CourseStatsOf, ObservationsByInstructor, OwnStats, BreakdownOf, JoinedRows, Normalized, CourseIds,
      SectionsByCrn, CurrentState, IsLaboratory;
    if keys != [] {
      InstructorScoreIsSufficient(db, code, keys[..|keys| - 1], config);
      CourseNeverInstructor(JoinedRows(db, code), db.instructors, db.courses, Normalized(keys[|keys| - 1]), config);
    }
  }

  /** The scorer demands some evidence of an instructor, so its rows are always pinned. */
  lemma {:induction false} DefaultPinned(db: Db, code: nat, keys: seq<CourseKey>, config: ScoreConfig)
    requires UniqueCrnsIn(db.sections) && UniqueCodes(db.terms) && CountsNonNegative(JoinedRows(db, code))
    requires config.minEffectiveN > 0.0
    ensures forall s | s in PerCourseAll(db, code, keys, config) && s.stats.source == FromInstructorCourse :: Pinned(s)
  {
    hide PerCourseAll, Pinned;
    PinnedRowAgrees(db, code, keys, config);
    InstructorScoreIsSufficient(db, code, keys, config);
  }
}
