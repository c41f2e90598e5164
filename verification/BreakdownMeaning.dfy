/** What an instructor breakdown shows, written out over the joined grade rows. */
module BreakdownMeaning {
  import opened Text
  import opened Ordering
  import opened Grades
  import opened Scoring
  import opened Instructors
  import opened Breakdown
  import opened Schema
  import opened Evidence
  import opened EvidenceQueries
  import opened Analytics
  import opened Rankings
  import opened ScoreMeaning

  /** The rows of one course and who taught them. */
  datatype CourseRowsOf = CourseRowsOf(
    rows: seq<JoinedRow>, table: seq<InstructorRow>, courses: map<nat, Course>, key: CourseKey)
  {
    function Own(name: string): Pick {
      OfInstructor(courses, key, table, name)
    }

    function OwnSumsOf(name: string): Sums {
      SumsOf(rows, table, Own(name))
    }

    function ObsOf(name: string): seq<GradeObservation> {
      Obs(rows, table, TaughtBy(CourseIds(courses, key), name))
    }

    function OwnCodes(name: string): set<nat> {
      set r | r in rows && Own(name)(r) :: r.termCode
    }

    function Letter(name: string, amount: GradeCounts -> real): real {
      SumOf(rows, Own(name), amount)
    }

    /** The instructor has graded rows in the course, with letters. */
    predicate HasHistory(name: string) {
      IsUsableInstructor(name) && OwnSumsOf(name).letters > 0.0 && OwnSumsOf(name).total > 0.0
    }

    function Weight(name: string): real {
      if OwnSumsOf(name).total < OwnSumsOf(name).letters then OwnSumsOf(name).total else OwnSumsOf(name).letters
    }
  }

  /** One displayed row. */
  ghost predicate ShowsHistory(
    row: InstructorHistory, c: CourseRowsOf, name: string, course: OutcomeStats, current: Option<string>,
    config: ScoreConfig)
  {
    && row.name == name && row.effectiveN == c.Weight(name) && row.isCurrent == (Some(name) == current)
    && row.scored == Enough(c.OwnSumsOf(name), config) && (row.easiness.Some? <==> row.scored)
    && (row.scored ==> exists stats: OutcomeStats ::
          row.easiness == Some(stats.easiness)
          && Figures(stats, c.OwnSumsOf(name), course.gradeSmoothed, course.withdrawalSmoothed,
            config.instructorPriorStrength, config))
    && row.termCount == |c.OwnCodes(name)|
    && row.firstTerm in c.OwnCodes(name) && row.lastTerm in c.OwnCodes(name)
    && (forall t | t in c.OwnCodes(name) :: row.firstTerm <= t <= row.lastTerm)
    && SharesShown(row, c, name)
  }

  /** The share of each letter among all letters. */
  predicate SharesShown(row: InstructorHistory, c: CourseRowsOf, name: string) {
    var letters := c.OwnSumsOf(name).letters;
    letters > 0.0
    && row.aShare == c.Letter(name, (g: GradeCounts) => g.a) / letters
    && row.bShare == c.Letter(name, (g: GradeCounts) => g.b) / letters
    && row.cShare == c.Letter(name, (g: GradeCounts) => g.c) / letters
    && row.dShare == c.Letter(name, (g: GradeCounts) => g.d) / letters
    && row.fShare == c.Letter(name, (g: GradeCounts) => g.f) / letters
  }

  lemma LettersAreAdditive()
    ensures Additive((g: GradeCounts) => g.a) && Additive((g: GradeCounts) => g.b) && Additive((g: GradeCounts) => g.c)
    ensures Additive((g: GradeCounts) => g.d) && Additive((g: GradeCounts) => g.f)
  {
  }

  lemma LetterSums(c: CourseRowsOf, name: string)
    ensures var counts := SumCounts(c.ObsOf(name));
      && counts.a == c.Letter(name, (g: GradeCounts) => g.a) && counts.b == c.Letter(name, (g: GradeCounts) => g.b)
      && counts.c == c.Letter(name, (g: GradeCounts) => g.c) && counts.d == c.Letter(name, (g: GradeCounts) => g.d)
      && counts.f == c.Letter(name, (g: GradeCounts) => g.f)
  {
    hide Selects, MarksMapped, SumOf, Obs, SumCounts, Additive;
    LettersAreAdditive();
    InstructorIsSelected(c.courses, c.key, c.table, name);
    var sel := TaughtBy(CourseIds(c.courses, c.key), name);
    SumsField(c.rows, c.table, sel, c.Own(name), (g: GradeCounts) => g.a);
    SumsField(c.rows, c.table, sel, c.Own(name), (g: GradeCounts) => g.b);
    SumsField(c.rows, c.table, sel, c.Own(name), (g: GradeCounts) => g.c);
    SumsField(c.rows, c.table, sel, c.Own(name), (g: GradeCounts) => g.d);
    SumsField(c.rows, c.table, sel, c.Own(name), (g: GradeCounts) => g.f);
  }

  lemma {:induction false} CodesOfRows(
    rows: seq<JoinedRow>, table: seq<InstructorRow>, ids: set<nat>, name: string, pick: Pick)
    requires forall r :: pick(r) <==> Taught(r, table, ids, name)
    ensures TermCodes(Obs(rows, table, TaughtBy(ids, name))) == set r | r in rows && pick(r) :: r.termCode
  {
    hide Taught;
    if rows != [] {
      var n := |rows| - 1;
      CodesOfRows(rows[..n], table, ids, name, pick);
      assert forall r :: r in rows <==> r in rows[..n] || r == rows[n];
      var before, more := Obs(rows[..n], table, TaughtBy(ids, name)), Contribution(rows[n], table, TaughtBy(ids, name));
      if pick(rows[n]) {
        assert more == [ObservationOf(rows[n], true)];
        assert forall o :: o in before + more <==> o in before || o == more[0];
        assert TermCodes(before + more) == TermCodes(before) + {rows[n].termCode};
      } else {
        assert before + more == before;
      }
    }
  }

  lemma OwnIsTaught(c: CourseRowsOf, name: string)
    ensures forall r :: c.Own(name)(r) <==> Taught(r, c.table, CourseIds(c.courses, c.key), name)
  {
    hide IsUsableInstructor;
    assert forall id :: id in CourseIds(c.courses, c.key) <==> IsCourse(Some(id), c.courses, c.key);
  }

  lemma OwnAggregate(c: CourseRowsOf, name: string)
    ensures AggregateIs(AggregateOf(c.ObsOf(name)), c.OwnSumsOf(name))
  {
    hide Selects, MarksMapped, SumsOf, Obs, AggregateOf, AggregateIs;
    InstructorIsSelected(c.courses, c.key, c.table, name);
    AggregateMeaning(c.rows, c.table, TaughtBy(CourseIds(c.courses, c.key), name), c.Own(name));
  }

  lemma EmptyAggregate(own: Sums)
    requires AggregateIs(AggregateOf([]), own)
    ensures own.letters == 0.0
  {
    NothingCompleted();
  }

  lemma NoRowsNoLetters(c: CourseRowsOf, name: string)
    ensures c.OwnSumsOf(name).letters > 0.0 ==> c.ObsOf(name) != []
  {
    hide *;
    OwnAggregate(c, name);
    if c.ObsOf(name) == [] {
      EmptyAggregate(c.OwnSumsOf(name));
    }
  }

  lemma OwnTermCodes(c: CourseRowsOf, name: string)
    ensures TermCodes(c.ObsOf(name)) == c.OwnCodes(name)
    ensures c.OwnSumsOf(name).letters > 0.0 ==> TermCodes(c.ObsOf(name)) != {}
  {
    OwnIsTaught(c, name);
    CodesOfRows(c.rows, c.table, CourseIds(c.courses, c.key), name, c.Own(name));
    NoRowsNoLetters(c, name);
    hide SumsOf, SumOf, Obs, OfInstructor, CourseRowsOf.OwnSumsOf;
    var obs := c.ObsOf(name);
    assert obs != [] ==> obs[0].termCode in TermCodes(obs);
  }

  /** A row is made exactly for an instructor with history, and shows it. */
  lemma RowShows(c: CourseRowsOf, name: string, course: OutcomeStats, current: Option<string>, config: ScoreConfig)
    ensures var row := RowOf(name, c.ObsOf(name), course, current, config);
      (row.Some? <==> c.HasHistory(name)) && (row.Some? ==> ShowsHistory(row.value, c, name, course, current, config))
  {
    hide AggregateIs, SumsOf, SumOf, Obs, SumCounts, TermCodes, InstructorStatsFrom, RowFrom, ShowsHistory, SectionKeys,
      TermIds, MappedKeys, CourseRowsOf.HasHistory, CourseRowsOf.OwnCodes, CourseRowsOf.Letter, CourseRowsOf.OwnSumsOf;
    var obs := c.ObsOf(name);
    OwnAggregate(c, name);
    OwnTermCodes(c, name);
    LetterSums(c, name);
    assert AggregateOf(obs).counts == SumCounts(obs);
    hide AggregateOf;
    RowFromShows(c, name, AggregateOf(obs), c.OwnSumsOf(name), TermCodes(obs), course, current, config);
  }

  lemma RowFromShows(
    c: CourseRowsOf, name: string, a: Aggregate, own: Sums, codes: set<nat>, course: OutcomeStats,
    current: Option<string>, config: ScoreConfig)
    requires AggregateIs(a, own) && own == c.OwnSumsOf(name) && codes == c.OwnCodes(name)
    requires a.counts.a == c.Letter(name, (g: GradeCounts) => g.a)
    requires a.counts.b == c.Letter(name, (g: GradeCounts) => g.b)
    requires a.counts.c == c.Letter(name, (g: GradeCounts) => g.c)
    requires a.counts.d == c.Letter(name, (g: GradeCounts) => g.d)
    requires a.counts.f == c.Letter(name, (g: GradeCounts) => g.f)
    requires own.letters > 0.0 ==> codes != {}
    ensures var row := RowFrom(name, a.counts, codes, InstructorStatsFrom(a, course, config), current, config);
      (row.Some? <==> c.HasHistory(name)) && (row.Some? ==> ShowsHistory(row.value, c, name, course, current, config))
  {
    hide SumsOf, SumOf, ComputeStats, Figures, IsUsableInstructor, CourseRowsOf.OwnCodes, CourseRowsOf.Letter;
    ComputedFigures(a, own, course.gradeSmoothed, course.withdrawalSmoothed, CoursePrior, FromInstructorCourse, config);
    ComputedParts(a, course.gradeSmoothed, course.withdrawalSmoothed, CoursePrior, FromInstructorCourse, config);
    hide BayesianSmooth, GradeFavorability, WithdrawalRate, EasinessScore;
  }

  // ---- The whole report ----

  /** The instructors whose row is shown: enough grades, or teaching the section. */
  predicate IsListed(c: CourseRowsOf, name: string, current: Option<string>) {
    c.HasHistory(name) && (c.Weight(name) >= 15.0 || Some(name) == current)
  }

  /** Current instructor first, then the most graded, then by name. */
  predicate ShownBefore(x: InstructorHistory, y: InstructorHistory) {
    || (x.isCurrent && !y.isCurrent)
    || (x.isCurrent == y.isCurrent && x.effectiveN > y.effectiveN)
    || (x.isCurrent == y.isCurrent && x.effectiveN == y.effectiveN && StrLess(x.name, y.name))
  }

  /** The report of a section, by the course's statistics and its instructors' rows. */
  ghost predicate Reports(
    b: BreakdownResult, c: CourseRowsOf, course: OutcomeStats, current: Option<string>, config: ScoreConfig)
  {
    && (b.status == Ready <==> exists name :: c.HasHistory(name)) && b.status != LabSection
    && (forall name :: IsListed(c, name, current) <==> exists r :: r in b.instructors && r.name == name)
    && (forall r | r in b.instructors :: ShowsHistory(r, c, r.name, course, current, config))
    && (forall i, j | 0 <= i < j < |b.instructors| :: ShownBefore(b.instructors[i], b.instructors[j]))
    && (b.currentHasHistory <==> exists r :: r in b.instructors && r.isCurrent)
    && b.otherCount == |set name | name in AllNames(c.table) && c.HasHistory(name) && !IsListed(c, name, current)|
    && b.currentInstructor == current && b.scoringMin == config.minEffectiveN && b.collapseMin == 15.0
  }

  lemma HistoryNamed(c: CourseRowsOf, name: string)
    ensures c.HasHistory(name) ==> name in AllNames(c.table) && c.ObsOf(name) != []
  {
    hide SumsOf, Obs, OfInstructor, AllNames, CourseRowsOf.OwnSumsOf;
    NoRowsNoLetters(c, name);
    TaughtNamesRecorded(c.rows, c.table, CourseIds(c.courses, c.key), name);
  }

  lemma HistoriesShow(c: CourseRowsOf, course: OutcomeStats, current: Option<string>, config: ScoreConfig)
    ensures var histories := HistoriesOf(
              ObservationsByInstructor(c.rows, c.table, CourseIds(c.courses, c.key)), course, current, config);
      && (forall name :: name in histories <==> c.HasHistory(name))
      && (forall name | name in histories :: ShowsHistory(histories[name], c, name, course, current, config))
  {
    hide RowOf, CourseRowsOf.HasHistory, ShowsHistory, Obs, AllNames;
    var obsBy := ObservationsByInstructor(c.rows, c.table, CourseIds(c.courses, c.key));
    var histories := HistoriesOf(obsBy, course, current, config);
    forall name
      ensures name in histories <==> c.HasHistory(name)
      ensures name in histories ==> ShowsHistory(histories[name], c, name, course, current, config)
    {
      RowShows(c, name, course, current, config);
      HistoryNamed(c, name);
    }
  }

  lemma OrderWrittenOut(x: InstructorHistory, y: InstructorHistory)
    ensures HistoryLess(x, y) <==> ShownBefore(x, y)
  {
  }

  lemma ShownFields(
    row: InstructorHistory, c: CourseRowsOf, name: string, course: OutcomeStats, current: Option<string>,
    config: ScoreConfig)
    requires ShowsHistory(row, c, name, course, current, config)
    ensures row.name == name && row.effectiveN == c.Weight(name) && row.isCurrent == (Some(name) == current)
  {
    hide CourseRowsOf.Weight, CourseRowsOf.OwnSumsOf, CourseRowsOf.OwnCodes;
  }

  lemma ReportMeaning(c: CourseRowsOf, course: OutcomeStats, current: Option<string>, config: ScoreConfig)
    requires NamedByKey(HistoriesOf(ObservationsByInstructor(c.rows, c.table, CourseIds(c.courses, c.key)), course,
      current, config))
    ensures Reports(
      ReportOf(HistoriesOf(ObservationsByInstructor(c.rows, c.table, CourseIds(c.courses, c.key)), course, current,
        config),
               current, config.minEffectiveN, 15.0),
      c, course, current, config)
  {
    hide HistoriesOf, ObservationsByInstructor, ShowsHistory, HistoryLess, CourseRowsOf.HasHistory, CourseRowsOf.Weight,
      AllNames;
    var histories :=
      HistoriesOf(ObservationsByInstructor(c.rows, c.table, CourseIds(c.courses, c.key)), course, current, config);
    HistoriesShow(c, course, current, config);
    ReportOfHistories(histories, c, course, current, config);
  }

  ghost predicate AllShown(
    histories: Histories, c: CourseRowsOf, course: OutcomeStats, current: Option<string>, config: ScoreConfig)
  {
    && (forall name :: name in histories <==> c.HasHistory(name))
    && (forall name | name in histories :: ShowsHistory(histories[name], c, name, course, current, config))
  }

  lemma ListedAsShown(
    histories: Histories, c: CourseRowsOf, course: OutcomeStats, current: Option<string>, config: ScoreConfig,
    name: string)
    requires AllShown(histories, c, course, current, config) && name in histories
    ensures histories[name].name == name && (Listed(histories[name], 15.0) <==> IsListed(c, name, current))
    ensures name in AllNames(c.table)
  {
    hide ShowsHistory, CourseRowsOf.HasHistory, CourseRowsOf.Weight, AllNames;
    ShownFields(histories[name], c, name, course, current, config);
    HistoryNamed(c, name);
  }

  lemma ListedRowsShown(
    histories: Histories, c: CourseRowsOf, course: OutcomeStats, current: Option<string>, config: ScoreConfig,
    rows: seq<InstructorHistory>)
    requires AllShown(histories, c, course, current, config) && Elements(rows) == ListedRows(histories, 15.0)
    ensures forall name :: IsListed(c, name, current) <==> exists r :: r in rows && r.name == name
    ensures forall r | r in rows :: ShowsHistory(r, c, r.name, course, current, config)
    ensures CollapsedNames(histories, 15.0) ==
      set name | name in AllNames(c.table) && c.HasHistory(name) && !IsListed(c, name, current)
  {
    hide ShowsHistory, CourseRowsOf.HasHistory, CourseRowsOf.Weight, AllNames, Listed;
    assert forall r :: r in rows <==> r in Elements(rows);
    forall name | name in histories
      ensures histories[name].name == name && (Listed(histories[name], 15.0) <==> IsListed(c, name, current))
      ensures name in AllNames(c.table)
    {
      ListedAsShown(histories, c, course, current, config, name);
    }
    forall name | IsListed(c, name, current) ensures exists r :: r in rows && r.name == name {
      assert name in histories && histories[name] in ListedRows(histories, 15.0);
    }
  }

  lemma ReportOfHistories(
    histories: Histories, c: CourseRowsOf, course: OutcomeStats, current: Option<string>, config: ScoreConfig)
    requires NamedByKey(histories) && AllShown(histories, c, course, current, config)
    ensures Reports(ReportOf(histories, current, config.minEffectiveN, 15.0), c, course, current, config)
  {
    hide ShowsHistory, HistoryLess, ShownBefore, CourseRowsOf.HasHistory, CourseRowsOf.Weight, AllNames, IsListed,
      Listed,
      NamesDetermine;
    var listed := ListedRows(histories, 15.0);
    NamedRows(histories);
    HistoryOrderTotal(listed);
    var rows := Sorted(HistoryLess, listed);
    ListedRowsShown(histories, c, course, current, config, rows);
    assert forall r :: r in rows <==> r in Elements(rows);
    hide ListedRows, CollapsedNames;
    forall i, j | 0 <= i < j < |rows| ensures ShownBefore(rows[i], rows[j]) {
      OrderWrittenOut(rows[i], rows[j]);
    }
    if histories != map[] {
      var name :| name in histories;
      assert c.HasHistory(name);
    }
  }

  lemma NamedRows(histories: Histories)
    requires NamedByKey(histories)
    ensures NamesDetermine(ListedRows(histories, 15.0))
  {
  }

  /** The breakdown of a section, exactly. None without course-level letters and a mapped section; a
      mark alone for a laboratory; else every instructor with letter grades in the course, listed with
      15 or more or when teaching the section, in display order, the others counted. */
  ghost predicate BreakdownShown(
    b: Option<BreakdownResult>, c: CourseRowsOf, course: OutcomeStats, name: Option<string>, lab: bool,
    config: ScoreConfig)
  {
    var current := if name.Some? && IsUsableInstructor(name.value) then name else None;
    && (b.None? <==> course.source != FromCourse || course.effectiveN <= 0.0 || course.mappedCount == 0)
    && (b.Some? && lab ==> b.value == BreakdownResult(LabSection, [], current, false, 0, config.minEffectiveN, 15.0))
    && (b.Some? && !lab ==> Reports(b.value, c, course, current, config))
  }

  lemma BreakdownMeansWhatItShows(
    c: CourseRowsOf, course: OutcomeStats, name: Option<string>, lab: bool, config: ScoreConfig)
    ensures BreakdownShown(
      BreakdownOf(course, ObservationsByInstructor(c.rows, c.table, CourseIds(c.courses, c.key)), name, lab, config,
                  COLLAPSE_MIN_EFFECTIVE_N), c, course, name, lab, config)
  {
    hide HistoriesOf, ObservationsByInstructor, Reports, ReportOf, IsUsableInstructor;
    var current := if name.Some? && IsUsableInstructor(name.value) then name else None;
    HistoriesNamed(ObservationsByInstructor(c.rows, c.table, CourseIds(c.courses, c.key)), course, current, config);
    ReportMeaning(c, course, current, config);
  }

  // ---- Sections ----

  /** A row of the analytics, for an active section of a course: scored from its instructor's own rows
      when there are enough, else from the course's, and with the breakdown of the course. */
  ghost predicate SectionExplained(
    db: Db, termId: nat, rows: seq<JoinedRow>, key: CourseKey, id: nat, s: SectionAnalytics, config: ScoreConfig)
  {
    && id in db.sections && db.sections[id].termId == termId && db.sections[id].removedAt.None?
    && db.sections[id].courseId in db.courses && db.courses[db.sections[id].courseId].Key() == key
    && s.crn == db.sections[id].crn && s.instructor == CurrentState(db.instructors, id).name
    && exists course: OutcomeStats ::
         && ScoredFromCourse(
              course, SumsOf(rows, db.instructors, OfCourse(db.courses, key)),
              SumsOf(rows, db.instructors, OfOthers(db.courses, key)), SumsOf(rows, db.instructors, OfAll()), config)
         && ScoredFor(
              s.stats,
              OwnSums(rows, db.instructors, db.courses, key, s.instructor, IsLaboratory(db.sections[id].values)),
              course, config)
         && BreakdownShown(
              s.breakdown, CourseRowsOf(rows, db.instructors, db.courses, key), course, s.instructor,
              IsLaboratory(db.sections[id].values), config)
  }

  lemma SectionBreakdown(
    rows: seq<JoinedRow>, table: seq<InstructorRow>, courses: map<nat, Course>, key: CourseKey,
    crn: string, state: InstructorState, lab: bool, config: ScoreConfig)
    ensures var course := CourseStatsOf(rows, table, courses, key, config);
      var s := ScoreSection(crn, state, lab, course, ObservationsByInstructor(rows, table, CourseIds(courses, key)),
        config);
      BreakdownShown(s.breakdown, CourseRowsOf(rows, table, courses, key), course, state.name, lab, config)
  {
    hide CourseStatsOf, ObservationsByInstructor, OwnStats, ChooseStats, BreakdownOf, Reports, IsUsableInstructor;
    BreakdownMeansWhatItShows(
      CourseRowsOf(rows, table, courses, key), CourseStatsOf(rows, table, courses, key, config), BreakdownName(state),
        lab, config);
  }

  lemma CourseRowMeaning(db: Db, termId: nat, rows: seq<JoinedRow>, key: CourseKey, config: ScoreConfig, i: nat)
    requires UniqueCrnsIn(db.sections) && i < |CourseRows(db, termId, rows, key, config)|
    ensures exists id ::
      SectionExplained(db, termId, rows, key, id, CourseRows(db, termId, rows, key, config)[i], config)
  {
    hide CourseStatsOf, ObservationsByInstructor, ScoreSection, SectionsByCrn, CurrentState, IsLaboratory,
      ScoredFromCourse,
      ScoredFor, OwnSums, SumsOf, BreakdownShown;
    var ids := CourseIds(db.courses, key);
    var section := SectionsByCrn(db.sections, termId, ids)[i];
    ByCrnMembers(db.sections, termId, ids);
    assert section in SectionsByCrn(db.sections, termId, ids);
    CourseStatsMeaning(rows, db.instructors, db.courses, key, config);
    SectionMeaning(rows, db.instructors, db.courses, key, section.section.crn, CurrentState(db.instructors, section.id),
                   IsLaboratory(section.section.values), config);
    SectionBreakdown(rows, db.instructors, db.courses, key, section.section.crn,
      CurrentState(db.instructors, section.id),
                     IsLaboratory(section.section.values), config);
    assert SectionExplained(db, termId, rows, key, section.id, CourseRows(db, termId, rows, key, config)[i], config);
  }

  /** Main result: every row of the whole-term build belongs to an active section of a requested course
      and is scored and broken down as written out above, over the grade rows of the earlier terms. */
  lemma {:induction false} AnalyticsMeanWhatTheySay(db: Db, code: nat, keys: seq<CourseKey>, config: ScoreConfig)
    requires UniqueCrnsIn(db.sections) && UniqueCodes(db.terms)
    ensures forall s | s in PerCourseAll(db, code, keys, config) ::
      exists termId, k, id ::
        termId in db.terms && db.terms[termId] == code && k in keys
        && SectionExplained(db, termId, JoinedRows(db, code), Normalized(k), id, s, config)
    decreases |keys|
  {
    hide CourseRows, JoinedRows, SectionExplained, Normalized;
    if keys != [] {
      var n := |keys| - 1;
      AnalyticsMeanWhatTheySay(db, code, keys[..n], config);
      var term := TermIdOf(db.terms, code);
      if term.Some? {
        var rows, key := JoinedRows(db, code), Normalized(keys[n]);
        var more := CourseRows(db, term.value, rows, key, config);
        forall s | s in more ensures exists id :: SectionExplained(db, term.value, rows, key, id, s, config) {
          var i :| 0 <= i < |more| && more[i] == s;
          CourseRowMeaning(db, term.value, rows, key, config, i);
        }
        assert keys[n] in keys;
      }
    }
  }

  /** So is every ranking row that a rebuild stores. */
  lemma RankingExplained(config: ScoreConfig, db: Db, code: nat, id: nat)
    requires id in db.sections && db.sections[id].courseId in db.courses && db.sections[id].removedAt.None?
    ensures SectionExplained(
      db, db.sections[id].termId, JoinedRows(db, code), db.courses[db.sections[id].courseId].Key(), id,
      AnalyticsOf(config, db, code, id), config)
  {
    hide CourseStatsOf, ObservationsByInstructor, ScoreSection, CurrentState, IsLaboratory, ScoredFromCourse, ScoredFor,
      OwnSums,
      SumsOf, BreakdownShown, JoinedRows;
    var s, rows := db.sections[id], JoinedRows(db, code);
    var key := db.courses[s.courseId].Key();
    CourseStatsMeaning(rows, db.instructors, db.courses, key, config);
    SectionMeaning(rows, db.instructors, db.courses, key, s.crn, CurrentState(db.instructors, id),
      IsLaboratory(s.values), config);
    SectionBreakdown(rows, db.instructors, db.courses, key, s.crn, CurrentState(db.instructors, id),
      IsLaboratory(s.values), config);
  }
}
