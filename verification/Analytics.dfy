/** Historical analytics of a term's sections: one course at a time, and the whole term at once. */
module Analytics {
  import opened Text
  import opened Ordering
  import opened Grades
  import opened Scoring
  import opened Instructors
  import opened Breakdown
  import opened Schema
  import opened Evidence
  import opened EvidenceQueries

  // ---- The course-by-course meaning ----

  function CourseIds(courses: map<nat, Course>, key: CourseKey): set<nat> {
    set id | id in courses && courses[id].Key() == key
  }

  function SubjectIds(courses: map<nat, Course>, subject: string): set<nat> {
    set id | id in courses && courses[id].subject == subject
  }

  function TermIdOf(terms: map<nat, nat>, code: nat): (r: Option<nat>)
    requires UniqueCodes(terms)
    ensures r.Some? ==> r.value in terms && terms[r.value] == code
    ensures r.None? ==> code !in terms.Values
  {
    if code in terms.Values then
      var t :| t in terms && terms[t] == code;
      Some(t)
    else None
  }

  datatype SectionRow = SectionRow(id: nat, section: Section)

  predicate CrnLess(x: SectionRow, y: SectionRow) {
    StrLess(x.section.crn, y.section.crn)
  }

  function ActiveIn(sections: map<nat, Section>, termId: nat, ids: set<nat>): set<SectionRow> {
    set id | id in sections && sections[id].termId == termId && sections[id].Active() && sections[id].courseId in ids ::
      SectionRow(id, sections[id])
  }

  lemma CrnOrderTotal(sections: map<nat, Section>, termId: nat, ids: set<nat>)
    requires UniqueCrnsIn(sections)
    ensures StrictTotalOn(CrnLess, ActiveIn(sections, termId, ids))
  {
    var s := ActiveIn(sections, termId, ids);
    forall x | x in s ensures !CrnLess(x, x) {
      StrLessIrreflexive(x.section.crn);
    }
    forall x, y | x in s && y in s ensures x == y || CrnLess(x, y) || CrnLess(y, x) {
      StrLessTotal(x.section.crn, y.section.crn);
    }
    forall x, y, z | x in s && y in s && z in s && CrnLess(x, y) && CrnLess(y, z) ensures CrnLess(x, z) {
      StrLessTransitive(x.section.crn, y.section.crn, z.section.crn);
    }
  }

  /** The active sections of a term in some courses, ordered by CRN. */
  function SectionsByCrn(sections: map<nat, Section>, termId: nat, ids: set<nat>): (rows: seq<SectionRow>)
    requires UniqueCrnsIn(sections)
    ensures Elements(rows) == ActiveIn(sections, termId, ids) && Increasing(CrnLess, rows)
  {
    CrnOrderTotal(sections, termId, ids);
    Sorted(CrnLess, ActiveIn(sections, termId, ids))
  }

  lemma ByCrnMembers(sections: map<nat, Section>, termId: nat, ids: set<nat>)
    requires UniqueCrnsIn(sections)
    ensures forall r :: r in SectionsByCrn(sections, termId, ids) <==>
      r.id in sections && r.section == sections[r.id] && r.section.termId == termId
      && r.section.Active() && r.section.courseId in ids
  {
    var rows := SectionsByCrn(sections, termId, ids);
    assert forall r :: r in rows <==> r in Elements(rows);
  }

  function CourseStatsOf(
    rows: seq<JoinedRow>, table: seq<InstructorRow>, courses: map<nat, Course>, key: CourseKey,
    config: ScoreConfig): OutcomeStats
  {
    var ids := CourseIds(courses, key);
    StatsWithFallback(
      AggregateOf(Obs(rows, table, OfCourses(ids))),
      AggregateOf(Obs(rows, table, OfCourses(SubjectIds(courses, key.0) - ids))),
      AggregateOf(Obs(rows, table, Everything)), config)
  }

  /** One section: its instructor's own history in the course when that is sufficient, else the
      course's. A laboratory section is scored from course-level history. */
  function ScoreSection(
    crn: string, state: InstructorState, lab: bool, courseStats: OutcomeStats, obsBy: ByInstructor, config: ScoreConfig)
    : SectionAnalytics
  {
    var own := if IsUsableState(state) && !lab then OwnStats(state.name.value, courseStats, obsBy, config) else None;
    SectionAnalytics(
      crn, state.name, ChooseStats(own, courseStats, config),
      BreakdownOf(courseStats, obsBy, BreakdownName(state), lab, config, COLLAPSE_MIN_EFFECTIVE_N))
  }

  function BreakdownName(state: InstructorState): Option<string> {
    if IsUsableState(state) then state.name else None
  }

  function OwnStats(
    name: string, courseStats: OutcomeStats, obsBy: ByInstructor, config: ScoreConfig): Option<OutcomeStats> {
    InstructorCourseStats(ObsIn(obsBy, name), courseStats, config)
  }

  function ChooseStats(own: Option<OutcomeStats>, courseStats: OutcomeStats, config: ScoreConfig): OutcomeStats {
    if own.Some? && HasSufficientInstructorEvidence(own.value, config) then own.value else courseStats
  }

  /** Looking an instructor up by name gives the rows it taught, none when it taught none. */
  lemma RowsByName(rows: seq<JoinedRow>, table: seq<InstructorRow>, ids: set<nat>, name: string)
    ensures ObsIn(ObservationsByInstructor(rows, table, ids), name) == Obs(rows, table, TaughtBy(ids, name))
  {
    hide Obs;
    TaughtNamesRecorded(rows, table, ids, name);
  }

  function ScoreAll(
    sections: seq<SectionRow>, table: seq<InstructorRow>, courseStats: OutcomeStats, obsBy: ByInstructor,
    config: ScoreConfig)
    : seq<SectionAnalytics>
  {
    seq(|sections|, i requires 0 <= i < |sections| =>
      ScoreSection(sections[i].section.crn, CurrentState(table, sections[i].id),
                   IsLaboratory(sections[i].section.values), courseStats, obsBy, config))
  }

  function Normalized(key: CourseKey): CourseKey {
    (NormalizeKey(key.0), NormalizeKey(key.1))
  }

  /** The rows a per-course call returns, given the joined grade rows. */
  function CourseRows(
    db: Db, termId: nat, rows: seq<JoinedRow>, key: CourseKey, config: ScoreConfig): seq<SectionAnalytics>
    requires UniqueCrnsIn(db.sections)
  {
    var ids := CourseIds(db.courses, key);
    if ids == {} then []
    else ScoreAll(SectionsByCrn(db.sections, termId, ids), db.instructors,
                  CourseStatsOf(rows, db.instructors, db.courses, key, config),
                  ObservationsByInstructor(rows, db.instructors, ids), config)
  }

  /** `get_current_section_historical_analytics` for one course. */
  ghost function PerCourse(db: Db, code: nat, key: CourseKey, config: ScoreConfig): seq<SectionAnalytics>
    requires UniqueCrnsIn(db.sections) && UniqueCodes(db.terms)
  {
    var term := TermIdOf(db.terms, code);
    if term.None? then [] else CourseRows(db, term.value, JoinedRows(db, code), Normalized(key), config)
  }

  /** Calling it for each course in turn. */
  ghost function PerCourseAll(db: Db, code: nat, keys: seq<CourseKey>, config: ScoreConfig): seq<SectionAnalytics>
    requires UniqueCrnsIn(db.sections) && UniqueCodes(db.terms)
  {
    if keys == [] then []
    else PerCourseAll(db, code, keys[..|keys| - 1], config) + PerCourse(db, code, keys[|keys| - 1], config)
  }

  // ---- The order in which grade rows are fetched does not matter ----

  lemma ObsLast(rows: seq<JoinedRow>, table: seq<InstructorRow>, sel: Selector)
    requires rows != []
    ensures multiset(Obs(rows, table, sel)) ==
            multiset(Obs(rows[..|rows| - 1], table, sel)) + multiset(Contribution(rows[|rows| - 1], table, sel))
  {
  }

  lemma {:induction false} ObsRemove(rows: seq<JoinedRow>, k: nat, table: seq<InstructorRow>, sel: Selector)
    requires k < |rows|
    ensures multiset(Obs(rows, table, sel)) ==
            multiset(Obs(rows[..k] + rows[k + 1..], table, sel)) + multiset(Contribution(rows[k], table, sel))
    decreases |rows|
  {
    hide Contribution, Obs;
    var n := |rows| - 1;
    var rest := rows[..k] + rows[k + 1..];
    ObsLast(rows, table, sel);
    if k == n {
      assert rest == rows[..n];
    } else {
      ObsRemove(rows[..n], k, table, sel);
      ObsLast(rest, table, sel);
      assert rest[..n - 1] == rows[..n][..k] + rows[..n][k + 1..];
      assert rest[n - 1] == rows[n];
    }
  }

  lemma {:induction false} ObsPermutation(
    xs: seq<JoinedRow>, ys: seq<JoinedRow>, table: seq<InstructorRow>, sel: Selector)
    requires multiset(xs) == multiset(ys)
    ensures multiset(Obs(xs, table, sel)) == multiset(Obs(ys, table, sel))
    decreases |xs|
  {
    if xs == [] {
      assert |multiset(ys)| == 0;
    } else {
      var k := PairUp(xs, ys);
      ObsPermutation(xs[..|xs| - 1], ys[..k] + ys[k + 1..], table, sel);
      ObsRemove(ys, k, table, sel);
    }
  }

  lemma SelectedAggregatePermutation(xs: seq<JoinedRow>, ys: seq<JoinedRow>, table: seq<InstructorRow>, sel: Selector)
    requires multiset(xs) == multiset(ys)
    ensures AggregateOf(Obs(xs, table, sel)) == AggregateOf(Obs(ys, table, sel))
  {
    ObsPermutation(xs, ys, table, sel);
    AggregatePermutation(Obs(xs, table, sel), Obs(ys, table, sel));
  }

  lemma CourseStatsPermutation(
    xs: seq<JoinedRow>, ys: seq<JoinedRow>, table: seq<InstructorRow>, courses: map<nat, Course>, key: CourseKey,
    config: ScoreConfig)
    requires multiset(xs) == multiset(ys)
    ensures CourseStatsOf(xs, table, courses, key, config) == CourseStatsOf(ys, table, courses, key, config)
  {
    var ids := CourseIds(courses, key);
    SelectedAggregatePermutation(xs, ys, table, OfCourses(ids));
    SelectedAggregatePermutation(xs, ys, table, OfCourses(SubjectIds(courses, key.0) - ids));
    SelectedAggregatePermutation(xs, ys, table, Everything);
  }

  /** Same instructors, and for each the same rows in some order. */
  ghost predicate SameRows(a: ByInstructor, b: ByInstructor) {
    a.Keys == b.Keys && forall name | name in a :: multiset(a[name]) == multiset(b[name])
  }

  lemma ByInstructorPermutation(xs: seq<JoinedRow>, ys: seq<JoinedRow>, table: seq<InstructorRow>, ids: set<nat>)
    requires multiset(xs) == multiset(ys)
    ensures SameRows(ObservationsByInstructor(xs, table, ids), ObservationsByInstructor(ys, table, ids))
  {
    forall name ensures multiset(Obs(xs, table, TaughtBy(ids, name))) == multiset(Obs(ys, table, TaughtBy(ids, name)))
      && (Obs(xs, table, TaughtBy(ids, name)) == [] <==> Obs(ys, table, TaughtBy(ids, name)) == [])
    {
      ObsPermutation(xs, ys, table, TaughtBy(ids, name));
      EmptyByCount(Obs(xs, table, TaughtBy(ids, name)));
      EmptyByCount(Obs(ys, table, TaughtBy(ids, name)));
    }
  }

  lemma EmptyByCount<T>(xs: seq<T>)
    ensures xs == [] <==> multiset(xs) == multiset{}
  {
    assert |multiset(xs)| == |xs|;
  }

  lemma HistoryPermutation(
    name: string, a: seq<GradeObservation>, b: seq<GradeObservation>, courseStats: OutcomeStats,
    current: Option<string>, config: ScoreConfig)
    requires multiset(a) == multiset(b)
    ensures InstructorCourseStats(a, courseStats, config) == InstructorCourseStats(b, courseStats, config)
    ensures RowOf(name, a, courseStats, current, config) == RowOf(name, b, courseStats, current, config)
  {
    hide AggregateOf, SumCounts, InstructorStatsFrom, RowFrom;
    AggregatePermutation(a, b);
    SumCountsPermutation(a, b);
    SameMembers(a, b);
    assert TermCodes(a) == TermCodes(b);
  }

  lemma HistoriesPermutation(
    a: ByInstructor, b: ByInstructor, courseStats: OutcomeStats, current: Option<string>, config: ScoreConfig)
    requires SameRows(a, b)
    ensures HistoriesOf(a, courseStats, current, config) == HistoriesOf(b, courseStats, current, config)
  {
    hide RowOf;
    forall name | name in a
      ensures RowOf(name, a[name], courseStats, current, config) == RowOf(name, b[name], courseStats, current, config)
    {
      HistoryPermutation(name, a[name], b[name], courseStats, current, config);
    }
  }

  lemma ScorePermutation(
    crn: string, state: InstructorState, lab: bool, courseStats: OutcomeStats, a: ByInstructor, b: ByInstructor,
    config: ScoreConfig)
    requires SameRows(a, b)
    ensures ScoreSection(crn, state, lab, courseStats, a, config) ==
      ScoreSection(crn, state, lab, courseStats, b, config)
  {
    if IsUsableState(state) {
      OwnStatsPermutation(state.name.value, courseStats, a, b, config);
    }
    HistoriesPermutation(a, b, courseStats, CurrentUsable(BreakdownName(state)), config);
  }

  lemma OwnStatsPermutation(
    name: string, courseStats: OutcomeStats, a: ByInstructor, b: ByInstructor, config: ScoreConfig)
    requires SameRows(a, b)
    ensures OwnStats(name, courseStats, a, config) == OwnStats(name, courseStats, b, config)
  {
    assert name in a <==> name in b.Keys;
    AggregatePermutation(ObsIn(a, name), ObsIn(b, name));
  }

  /** Whatever order the grade rows come in, a course's rows are the same. */
  lemma CourseRowsPermutation(
    db: Db, termId: nat, xs: seq<JoinedRow>, ys: seq<JoinedRow>, key: CourseKey, config: ScoreConfig)
    requires UniqueCrnsIn(db.sections) && multiset(xs) == multiset(ys)
    ensures CourseRows(db, termId, xs, key, config) == CourseRows(db, termId, ys, key, config)
  {
    var ids := CourseIds(db.courses, key);
    var sections := SectionsByCrn(db.sections, termId, ids);
    CourseStatsPermutation(xs, ys, db.instructors, db.courses, key, config);
    ByInstructorPermutation(xs, ys, db.instructors, ids);
    var stats := CourseStatsOf(xs, db.instructors, db.courses, key, config);
    forall i | 0 <= i < |sections|
      ensures ScoreAll(sections, db.instructors, stats, ObservationsByInstructor(xs, db.instructors, ids), config)[i]
           == ScoreAll(sections, db.instructors, stats, ObservationsByInstructor(ys, db.instructors, ids), config)[i]
    {
      ScorePermutation(
        sections[i].section.crn, CurrentState(db.instructors, sections[i].id), IsLaboratory(sections[i].section.values),
        stats, ObservationsByInstructor(xs, db.instructors, ids), ObservationsByInstructor(ys, db.instructors, ids),
          config);
    }
  }
}
