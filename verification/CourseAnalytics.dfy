/** The course-by-course build: the simple form the whole-term build must equal. */
module CourseAnalytics {
  import opened Text
  import opened Grades
  import opened Scoring
  import opened Instructors
  import opened Breakdown
  import opened Schema
  import opened Evidence
  import opened EvidenceQueries
  import opened Analytics
  import opened TermAnalytics

  /** `get_course_historical_outcome_stats`: three queries, one aggregate each. */
  method CourseOutcomeStats(
    rows: seq<JoinedRow>, table: seq<InstructorRow>, courses: map<nat, Course>, key: CourseKey, config: ScoreConfig)
    returns (stats: OutcomeStats)
    ensures stats == CourseStatsOf(rows, table, courses, key, config)
  {
    hide AggregateOf, StatsWithFallback, Obs;
    var ids := CourseIds(courses, key);
    var course := AggregateGradeObservations(Obs(rows, table, OfCourses(ids)));
    var subject := AggregateGradeObservations(Obs(rows, table, OfCourses(SubjectIds(courses, key.0) - ids)));
    var everything := AggregateGradeObservations(Obs(rows, table, Everything));
    stats := StatsWithFallback(course, subject, everything, config);
  }

  /** The current instructor of one section, read on its own. */
  method ReadInstructorState(table: seq<InstructorRow>, sectionId: nat) returns (state: InstructorState)
    ensures state == CurrentState(table, sectionId)
  {
    var states := GetCurrentInstructorStates(table, [sectionId]);
    state := states[sectionId];
  }

  method ScoreEach(
    sections: seq<SectionRow>, table: seq<InstructorRow>, courseStats: OutcomeStats, obsBy: ByInstructor,
    config: ScoreConfig)
    returns (rows: seq<SectionAnalytics>)
    ensures rows == ScoreAll(sections, table, courseStats, obsBy, config)
  {
    hide BreakdownOf, CurrentState, IsLaboratory, HasSufficientInstructorEvidence, IsUsableState,
      AggregateOf, InstructorStatsFrom;
    rows := [];
    var breakdowns: BreakdownMemo := map[];
    for k := 0 to |sections|
      invariant |rows| == k
      invariant forall i | 0 <= i < k :: rows[i] == ScoreAll(sections, table, courseStats, obsBy, config)[i]
      invariant BreakdownMemoOk(breakdowns, courseStats, obsBy, config)
    {
      var s := sections[k];
      var state := ReadInstructorState(table, s.id);
      var lab := IsLaboratory(s.section.values);
      var stats := courseStats;
      if IsUsableState(state) && !lab {
        assert state.name.Some? by { UsableHasName(state); }
        var aggregate := AggregateGradeObservations(ObsIn(obsBy, state.name.value));
        var own := InstructorStatsFrom(aggregate, courseStats, config);
        if own.Some? && HasSufficientInstructorEvidence(own.value, config) {
          stats := own.value;
        }
      }
      var current := BreakdownName(state);
      breakdowns := MemoBreakdown(breakdowns, current, lab, courseStats, obsBy, config);
      rows := rows + [SectionAnalytics(s.section.crn, state.name, stats, breakdowns[(current, lab)])];
    }
  }

  /** `get_current_section_historical_analytics`, whatever order the grade query returns its rows in. */
  method GetCurrentSectionHistoricalAnalytics(
    db: Db, code: nat, subject: string, number: string, config: ScoreConfig,
    joined: seq<JoinedRow>) returns (rows: seq<SectionAnalytics>)
    requires QueryReady(db) && multiset(joined) == multiset(JoinedRows(db, code))
    ensures rows == PerCourse(db, code, (subject, number), config)
  {
    hide Obs, JoinedRows, ScoreAll, CourseStatsOf, ObservationsByInstructor, SectionsByCrn, NormalizeKey;
    var term := TermIdOf(db.terms, code);
    if term.None? {
      return [];
    }
    var key := Normalized((subject, number));
    var ids := CourseIds(db.courses, key);
    CourseRowsPermutation(db, term.value, joined, JoinedRows(db, code), key, config);
    if ids == {} {
      return [];
    }
    var stats := CourseOutcomeStats(joined, db.instructors, db.courses, key, config);
    var sections := SectionsByCrn(db.sections, term.value, ids);
    var obsBy := ObservationsByInstructor(joined, db.instructors, ids);
    rows := ScoreEach(sections, db.instructors, stats, obsBy, config);
  }
}
