/** The whole-term build: evidence read once, indexed and memoised. It returns exactly the rows the
    per-course calls return, concatenated in the order of the course keys. */
module TermAnalytics {
  import opened Text
  import opened Ordering
  import opened Grades
  import opened Scoring
  import opened Instructors
  import opened Breakdown
  import opened Schema
  import opened Evidence
  import opened EvidenceQueries
  import opened Analytics

  function SectionIds(rows: seq<SectionRow>): seq<nat> {
    seq(|rows|, i requires 0 <= i < |rows| => rows[i].id)
  }

  /** The rows of a sorted listing that belong to some courses. */
  function OfCourseIds(rows: seq<SectionRow>, ids: set<nat>): seq<SectionRow> {
    if rows == [] then []
    else
      var rest := OfCourseIds(rows[..|rows| - 1], ids);
      if rows[|rows| - 1].section.courseId in ids then rest + [rows[|rows| - 1]] else rest
  }

  lemma {:induction false} OfCourseIdsSpec(rows: seq<SectionRow>, ids: set<nat>)
    ensures forall r :: r in OfCourseIds(rows, ids) <==> r in rows && r.section.courseId in ids
    ensures Increasing(CrnLess, rows) ==> Increasing(CrnLess, OfCourseIds(rows, ids))
  {
    if rows != [] {
      var n := |rows| - 1;
      OfCourseIdsSpec(rows[..n], ids);
      assert rows == rows[..n] + [rows[n]];
    }
  }

  /** Splitting one sorted read of the term gives what a sorted read per course gives. */
  lemma SplitSections(sections: map<nat, Section>, termId: nat, all: set<nat>, ids: set<nat>)
    requires UniqueCrnsIn(sections) && ids <= all
    ensures OfCourseIds(SectionsByCrn(sections, termId, all), ids) == SectionsByCrn(sections, termId, ids)
  {
    var wide, narrow := SectionsByCrn(sections, termId, all), SectionsByCrn(sections, termId, ids);
    OfCourseIdsSpec(wide, ids);
    assert forall r :: r in wide <==> r in Elements(wide);
    assert Elements(OfCourseIds(wide, ids)) == Elements(narrow);
    CrnOrderTotal(sections, termId, ids);
    SortedUnique(CrnLess, OfCourseIds(wide, ids), narrow);
  }

  function KeyOf(courses: map<nat, Course>, courseId: nat): CourseKey {
    if courseId in courses then courses[courseId].Key() else ("", "")
  }

  function SectionsIn(byKey: map<CourseKey, seq<SectionRow>>, key: CourseKey): seq<SectionRow> {
    if key in byKey then byKey[key] else []
  }

  method GroupSections(sections: seq<SectionRow>, courses: map<nat, Course>)
    returns (byKey: map<CourseKey, seq<SectionRow>>)
    requires forall r | r in sections :: r.section.courseId in courses
    ensures forall key :: SectionsIn(byKey, key) == OfCourseIds(sections, CourseIds(courses, key))
  {
    byKey := map[];
    for k := 0 to |sections|
      invariant forall key :: SectionsIn(byKey, key) == OfCourseIds(sections[..k], CourseIds(courses, key))
    {
      assert sections[..k + 1][..k] == sections[..k];
      assert sections[k] in sections;
      var key := KeyOf(courses, sections[k].section.courseId);
      assert forall other :: sections[k].section.courseId in CourseIds(courses, other) <==> other == key;
      byKey := byKey[key := SectionsIn(byKey, key) + [sections[k]]];
    }
    assert sections[..|sections|] == sections;
  }

  method CourseStatistics(
    e: TermEvidence, courses: map<nat, Course>, key: CourseKey, everything: Aggregate, config: ScoreConfig,
    ghost fetched: seq<JoinedRow>, ghost table: seq<InstructorRow>) returns (stats: OutcomeStats)
    requires EvidenceOk(e, fetched, table)
    requires everything == AggregateOf(Obs(fetched, table, Everything))
    ensures stats == CourseStatsOf(fetched, table, courses, key, config)
  {
    hide AggregateOf, StatsWithFallback, Obs, EvidenceOk;
    var ids := CourseIds(courses, key);
    var courseRows := ForCourseIds(e, ids, fetched, table);
    var course := AggregateGradeObservations(courseRows);
    var subjectRows := ForCourseIds(e, SubjectIds(courses, key.0) - ids, fetched, table);
    var subject := AggregateGradeObservations(subjectRows);
    stats := StatsWithFallback(course, subject, everything, config);
  }

  type StatsMemo = map<string, Option<OutcomeStats>>
  type BreakdownMemo = map<(Option<string>, bool), Option<BreakdownResult>>

  ghost predicate StatsMemoOk(memo: StatsMemo, courseStats: OutcomeStats, obsBy: ByInstructor, config: ScoreConfig) {
    forall name | name in memo :: memo[name] == OwnStats(name, courseStats, obsBy, config)
  }

  ghost predicate BreakdownMemoOk(
    memo: BreakdownMemo, courseStats: OutcomeStats, obsBy: ByInstructor, config: ScoreConfig) {
    forall k | k in memo :: memo[k] == BreakdownOf(courseStats, obsBy, k.0, k.1, config, COLLAPSE_MIN_EFFECTIVE_N)
  }

  method MemoStats(memo: StatsMemo, name: string, courseStats: OutcomeStats, obsBy: ByInstructor, config: ScoreConfig)
    returns (more: StatsMemo)
    requires StatsMemoOk(memo, courseStats, obsBy, config)
    ensures StatsMemoOk(more, courseStats, obsBy, config) && name in more
  {
    hide AggregateOf, InstructorStatsFrom;
    more := memo;
    if name !in more {
      var aggregate := AggregateGradeObservations(ObsIn(obsBy, name));
      more := more[name := InstructorStatsFrom(aggregate, courseStats, config)];
    }
  }

  method MemoBreakdown(
    memo: BreakdownMemo, current: Option<string>, lab: bool, courseStats: OutcomeStats, obsBy: ByInstructor,
    config: ScoreConfig)
    returns (more: BreakdownMemo)
    requires BreakdownMemoOk(memo, courseStats, obsBy, config)
    ensures BreakdownMemoOk(more, courseStats, obsBy, config) && (current, lab) in more
  {
    hide BreakdownOf;
    more := memo;
    if (current, lab) !in more {
      var breakdown := BuildInstructorBreakdown(courseStats, obsBy, current, lab, config, COLLAPSE_MIN_EFFECTIVE_N);
      more := more[(current, lab) := breakdown];
    }
  }

  /** Scores a course's sections with memoised instructor statistics and breakdowns. */
  method ScoreSections(
    sections: seq<SectionRow>, states: map<nat, InstructorState>, courseStats: OutcomeStats, obsBy: ByInstructor,
    config: ScoreConfig, ghost table: seq<InstructorRow>) returns (rows: seq<SectionAnalytics>)
    requires forall r | r in sections :: r.id in states && states[r.id] == CurrentState(table, r.id)
    ensures rows == ScoreAll(sections, table, courseStats, obsBy, config)
  {
    hide BreakdownOf, OwnStats, CurrentState, IsLaboratory, HasSufficientInstructorEvidence, IsUsableState;
    rows := [];
    var statsMemo: StatsMemo, breakdowns: BreakdownMemo := map[], map[];
    for k := 0 to |sections|
      invariant |rows| == k
      invariant forall i | 0 <= i < k :: rows[i] == ScoreAll(sections, table, courseStats, obsBy, config)[i]
      invariant StatsMemoOk(statsMemo, courseStats, obsBy, config)
      invariant BreakdownMemoOk(breakdowns, courseStats, obsBy, config)
    {
      var s := sections[k];
      assert s in sections;
      var state := states[s.id];
      var lab := IsLaboratory(s.section.values);
      var stats := courseStats;
      if IsUsableState(state) && !lab {
        assert state.name.Some? by { UsableHasName(state); }
        statsMemo := MemoStats(statsMemo, state.name.value, courseStats, obsBy, config);
        var own := statsMemo[state.name.value];
        if own.Some? && HasSufficientInstructorEvidence(own.value, config) {
          stats := own.value;
        }
      }
      var current := BreakdownName(state);
      breakdowns := MemoBreakdown(breakdowns, current, lab, courseStats, obsBy, config);
      rows := rows + [SectionAnalytics(s.section.crn, state.name, stats, breakdowns[(current, lab)])];
    }
  }

  lemma UsableHasName(state: InstructorState)
    requires IsUsableState(state)
    ensures state.name.Some?
  {
  }

  function NormalizedKeys(keys: seq<CourseKey>): seq<CourseKey> {
    seq(|keys|, i requires 0 <= i < |keys| => Normalized(keys[i]))
  }

  /** `course_ids_by_key` over every requested key. */
  function RequestedIds(courses: map<nat, Course>, keys: seq<CourseKey>): set<nat> {
    set id | id in courses && courses[id].Key() in keys
  }

  ghost predicate QueryReady(db: Db) {
    && UniqueCrnsIn(db.sections) && UniqueCodes(db.terms)
    && forall i | i in db.sections :: db.sections[i].courseId in db.courses
  }

  method GetTermSectionHistoricalAnalytics(
    db: Db, code: nat, courseKeys: seq<CourseKey>, config: ScoreConfig, e: TermEvidence, ghost fetched: seq<JoinedRow>)
    returns (rows: seq<SectionAnalytics>)
    requires QueryReady(db)
    requires EvidenceOk(e, fetched, db.instructors) && multiset(fetched) == multiset(JoinedRows(db, code))
    ensures rows == PerCourseAll(db, code, courseKeys, config)
  {
    hide AggregateOf, EvidenceOk, Obs, JoinedRows, ScoreAll, CourseStatsOf, ObservationsByInstructor,
      SectionsByCrn, NormalizeKey;
    var term := TermIdOf(db.terms, code);
    if term.None? {
      PerCourseAllNoTerm(db, code, courseKeys, config);
      return [];
    }
    var keys := NormalizedKeys(courseKeys);
    var all := RequestedIds(db.courses, keys);
    var sections := SectionsByCrn(db.sections, term.value, all);
    ByCrnMembers(db.sections, term.value, all);
    var byKey := GroupSections(sections, db.courses);
    var observations := AllObservations(e, fetched, db.instructors);
    var everything := AggregateGradeObservations(observations);
    var states := GetCurrentInstructorStates(db.instructors, SectionIds(sections));
    rows := [];
    for k := 0 to |keys|
      invariant rows == PerCourseAll(db, code, courseKeys[..k], config)
    {
      assert courseKeys[..k + 1][..k] == courseKeys[..k];
      var key := keys[k];
      assert key in keys && key == Normalized(courseKeys[k]);
      var ids := CourseIds(db.courses, key);
      if ids != {} {
        SplitSections(db.sections, term.value, all, ids);
        var ofKey := SectionsIn(byKey, key);
        StatesCover(sections, ofKey, ids);
        var more := CourseAnalytics(db, key, ids, ofKey, states, everything, config, e, fetched);
        rows := rows + more;
      }
      CourseRowsPermutation(db, term.value, fetched, JoinedRows(db, code), key, config);
    }
    assert courseKeys[..|keys|] == courseKeys;
  }

  lemma StatesCover(sections: seq<SectionRow>, ofKey: seq<SectionRow>, ids: set<nat>)
    requires ofKey == OfCourseIds(sections, ids)
    ensures forall r | r in ofKey :: r.id in SectionIds(sections)
  {
    OfCourseIdsSpec(sections, ids);
    forall r | r in ofKey ensures r.id in SectionIds(sections) {
      var i :| 0 <= i < |sections| && sections[i] == r;
      assert SectionIds(sections)[i] == r.id;
    }
  }

  method CourseAnalytics(
    db: Db, key: CourseKey, ids: set<nat>, sections: seq<SectionRow>, states: map<nat, InstructorState>,
    everything: Aggregate, config: ScoreConfig, e: TermEvidence, ghost fetched: seq<JoinedRow>)
    returns (rows: seq<SectionAnalytics>)
    requires EvidenceOk(e, fetched, db.instructors) && ids == CourseIds(db.courses, key)
    requires everything == AggregateOf(Obs(fetched, db.instructors, Everything))
    requires forall r | r in sections :: r.id in states && states[r.id] == CurrentState(db.instructors, r.id)
    ensures rows == ScoreAll(sections, db.instructors,
                             CourseStatsOf(fetched, db.instructors, db.courses, key, config),
                             ObservationsByInstructor(fetched, db.instructors, ids), config)
  {
    hide *;
    var stats := CourseStatistics(e, db.courses, key, everything, config, fetched, db.instructors);
    var obsBy := InstructorObservations(e, ids, fetched, db.instructors);
    rows := ScoreSections(sections, states, stats, obsBy, config, db.instructors);
  }

  lemma {:induction false} PerCourseAllNoTerm(db: Db, code: nat, keys: seq<CourseKey>, config: ScoreConfig)
    requires QueryReady(db) && TermIdOf(db.terms, code).None?
    ensures PerCourseAll(db, code, keys, config) == []
  {
    if keys != [] {
      PerCourseAllNoTerm(db, code, keys[..|keys| - 1], config);
    }
  }
}
