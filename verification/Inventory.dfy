/** The grade-coverage inventory: an independent roll-up of the grade rows per course key, and the
    decision tree that judges each cached score against it. */
module Inventory {
  import opened Text
  import opened Grades
  import opened Scoring
  import opened Instructors
  import opened Breakdown
  import opened Schema
  import opened Evidence
  import opened EvidenceQueries
  import opened Analytics
  import opened PinnedRow

  datatype EvidenceState =
    | EvidenceBacked | ExceptionNonLetterGrade | ExceptionNoRows
    | MissingCacheRow | UnbackedCourseClaim | RawTotalMismatch | HistoryNotUsed
    | GlobalNonzeroEffectiveN | Unclassified

  /** What a cache row claims, as stored: nothing about it is taken for granted. */
  datatype CachedScore = CachedScore(source: string, effectiveN: Option<real>, total: Option<real>)

  datatype KeyEvidence = KeyEvidence(rowCount: nat, afSum: real, totalSum: real)
  {
    predicate HasRows() { rowCount > 0 }
  }

  const NO_EVIDENCE := KeyEvidence(0, 0.0, 0.0)

  function Classify(cached: Option<CachedScore>, evidence: KeyEvidence): EvidenceState {
    if cached.None? then MissingCacheRow
    else
      var c := cached.value;
      if c.source !in {"instructor_course", "course", "subject", "global"} || c.effectiveN.None? then Unclassified
      else if c.source == "course" || c.source == "instructor_course" then
        if !evidence.HasRows() then UnbackedCourseClaim
        else if c.effectiveN.value > 0.0 then
          if evidence.afSum <= 0.0 then Unclassified
          else if c.total.Some? && (if c.source == "course" then c.total.value == evidence.totalSum
                                    else 0.0 < c.total.value <= evidence.totalSum) then EvidenceBacked
          else RawTotalMismatch
        else if c.source == "course" && evidence.afSum == 0.0 && evidence.totalSum > 0.0 then
          if c.total == Some(evidence.totalSum) then ExceptionNonLetterGrade else RawTotalMismatch
        else Unclassified
      else if c.source == "subject" then
        if c.effectiveN.value <= 0.0 then Unclassified
        else if evidence.HasRows() then HistoryNotUsed else ExceptionNoRows
      else if c.effectiveN.value > 0.0 then GlobalNonzeroEffectiveN
      else if evidence.HasRows() then HistoryNotUsed else ExceptionNoRows
  }

  function SourceLabel(source: ScoreSource): string {
    match source
    case FromInstructorCourse => "instructor_course"
    case FromCourse => "course"
    case FromSubject => "subject"
    case FromGlobal => "global"
  }

  /** The cache row the scorer writes. */
  function CacheOf(stats: OutcomeStats): CachedScore {
    CachedScore(SourceLabel(stats.source), Some(stats.effectiveN), Some(stats.total))
  }

  // ---- The roll-up ----

  predicate HasKey(row: JoinedRow, courses: map<nat, Course>, key: CourseKey) {
    row.grade.courseId.Some? && row.grade.courseId.value in CourseIds(courses, key)
  }

  function AddRow(e: KeyEvidence, counts: GradeCounts): KeyEvidence {
    KeyEvidence(e.rowCount + 1, e.afSum + Completed(counts), e.totalSum + counts.total)
  }

  /** The rows attributed to a course key, counted and summed. */
  function KeyEvidenceOf(rows: seq<JoinedRow>, courses: map<nat, Course>, key: CourseKey): KeyEvidence {
    if rows == [] then NO_EVIDENCE
    else
      var rest := KeyEvidenceOf(rows[..|rows| - 1], courses, key);
      if HasKey(rows[|rows| - 1], courses, key) then AddRow(rest, rows[|rows| - 1].grade.counts) else rest
  }

  function EvidenceFor(totals: map<CourseKey, KeyEvidence>, key: CourseKey): KeyEvidence {
    if key in totals then totals[key] else NO_EVIDENCE
  }

  function Unattributed(grades: seq<GradeRow>): nat {
    if grades == [] then 0
    else Unattributed(grades[..|grades| - 1]) + if grades[|grades| - 1].courseId.None? then 1 else 0
  }

  function BucketMismatches(grades: seq<GradeRow>): nat {
    if grades == [] then 0
    else BucketMismatches(grades[..|grades| - 1])
         + if BucketSum(grades[|grades| - 1].counts) != grades[|grades| - 1].counts.total then 1 else 0
  }

  predicate Before(g: GradeRow, terms: map<nat, nat>, before: nat) {
    g.termId in terms && terms[g.termId] < before
  }

  ghost predicate RolledUp(totals: map<CourseKey, KeyEvidence>, rows: seq<JoinedRow>, courses: map<nat, Course>) {
    forall key :: EvidenceFor(totals, key) == KeyEvidenceOf(rows, courses, key)
  }

  lemma NothingRolledUp(courses: map<nat, Course>)
    ensures RolledUp(map[], [], courses)
  {
  }

  lemma JoinKeepsGrade(sections: map<nat, Section>, g: GradeRow, code: nat)
    ensures JoinRow(sections, g, code).grade == g
  {
  }

  /** One more joined row feeds its own key, or none. */
  lemma RollUpStep(totals: map<CourseKey, KeyEvidence>, rows: seq<JoinedRow>, row: JoinedRow, courses: map<nat, Course>)
    requires RolledUp(totals, rows, courses)
    ensures var c := row.grade.courseId;
      if c.Some? && c.value in courses then
        var key := courses[c.value].Key();
        RolledUp(totals[key := AddRow(EvidenceFor(totals, key), row.grade.counts)], rows + [row], courses)
      else RolledUp(totals, rows + [row], courses)
  {
    hide AddRow;
    assert (rows + [row])[..|rows|] == rows;
    forall key ensures KeyEvidenceOf(rows + [row], courses, key) ==
      if HasKey(row, courses, key) then AddRow(EvidenceFor(totals, key), row.grade.counts) else EvidenceFor(totals, key)
    {
      assert EvidenceFor(totals, key) == KeyEvidenceOf(rows, courses, key);
    }
  }

  /** One pass over every grade row; rows at or after the term feed no key. */
  method AggregateGradeRows(db: Db, before: nat)
    returns (totals: map<CourseKey, KeyEvidence>, unattributed: nat, mismatches: nat, atOrAfter: nat)
    ensures forall key :: EvidenceFor(totals, key) == KeyEvidenceOf(JoinedRows(db, before), db.courses, key)
    ensures unattributed == Unattributed(db.grades) && mismatches == BucketMismatches(db.grades)
    ensures atOrAfter + |JoinedRows(db, before)| == |db.grades|
  {
    hide BucketSum, AddRow, JoinRow, KeyEvidenceOf, EvidenceFor;
    NothingRolledUp(db.courses);
    totals, unattributed, mismatches, atOrAfter := map[], 0, 0, 0;
    for k := 0 to |db.grades|
      invariant RolledUp(totals, JoinGrades(db.terms, db.sections, db.grades[..k], before), db.courses)
      invariant unattributed == Unattributed(db.grades[..k]) && mismatches == BucketMismatches(db.grades[..k])
      invariant atOrAfter + |JoinGrades(db.terms, db.sections, db.grades[..k], before)| == k
    {
      var g := db.grades[k];
      assert db.grades[..k + 1][..k] == db.grades[..k];
      if BucketSum(g.counts) != g.counts.total {
        mismatches := mismatches + 1;
      }
      if g.courseId.None? {
        unattributed := unattributed + 1;
      }
      ghost var joined := JoinGrades(db.terms, db.sections, db.grades[..k], before);
      if !Before(g, db.terms, before) {
        atOrAfter := atOrAfter + 1;
      } else {
        RollUpStep(totals, joined, JoinRow(db.sections, g, db.terms[g.termId]), db.courses);
        JoinKeepsGrade(db.sections, g, db.terms[g.termId]);
        if g.courseId.Some? && g.courseId.value in db.courses {
          var key := db.courses[g.courseId.value].Key();
          totals := totals[key := AddRow(EvidenceFor(totals, key), g.counts)];
        }
      }
    }
    assert db.grades[..|db.grades|] == db.grades;
  }

  // ---- The inventory agrees with the scorer ----

  /** Bucket sums equal totals, courses are known, and a row whose section belongs to a course is
      attributed to a course of the same key. A row may belong to no course at all. */
  predicate CleanRow(row: JoinedRow, courses: map<nat, Course>) {
    && row.grade.counts.NonNegative() && BucketSum(row.grade.counts) == row.grade.counts.total
    && (row.grade.courseId.Some? ==> row.grade.courseId.value in courses)
    && (row.sectionCourseId.Some? ==>
        row.grade.courseId.Some? && row.sectionCourseId.value in courses
        && courses[row.sectionCourseId.value].Key() == courses[row.grade.courseId.value].Key())
  }

  predicate CleanRows(rows: seq<JoinedRow>, courses: map<nat, Course>) {
    forall r | r in rows :: CleanRow(r, courses)
  }

  lemma AttributionIsKey(row: JoinedRow, courses: map<nat, Course>, key: CourseKey)
    requires CleanRow(row, courses)
    ensures Attributed(row, CourseIds(courses, key)) <==> HasKey(row, courses, key)
  {
  }

  /** The scorer's course aggregate and the inventory's roll-up see the same rows. */
  lemma {:induction false} RollUpMatches(
    rows: seq<JoinedRow>, table: seq<InstructorRow>, courses: map<nat, Course>, key: CourseKey)
    requires CleanRows(rows, courses)
    ensures var g := SumCounts(Obs(rows, table, OfCourses(CourseIds(courses, key))));
      var e := KeyEvidenceOf(rows, courses, key);
      && e.afSum == Completed(g) && e.totalSum == g.total
      && 0.0 <= Completed(g) <= g.total
      && (e.rowCount == 0 ==> g == NO_GRADES)
  {
    NothingCompleted();
    hide SumCounts, AddCounts, Completed, BucketSum, IsMapped, HasKey, Attributed, CourseIds, CleanRow;
    if rows != [] {
      var n := |rows| - 1;
      var last := rows[n];
      assert last in rows;
      RollUpMatches(rows[..n], table, courses, key);
      AttributionIsKey(last, courses, key);
      var before := Obs(rows[..n], table, OfCourses(CourseIds(courses, key)));
      if HasKey(last, courses, key) {
        SumAppend(before, ObservationOf(last, IsMapped(last, table)));
        CleanAdd(SumCounts(before), last, courses);
      } else {
        assert before + [] == before;
      }
    }
  }

  lemma CleanAdd(g: GradeCounts, row: JoinedRow, courses: map<nat, Course>)
    requires CleanRow(row, courses) && 0.0 <= Completed(g) <= g.total
    ensures var d := row.grade.counts;
      var h := AddCounts(g, d);
      Completed(h) == Completed(g) + Completed(d) && h.total == g.total + d.total && 0.0 <= Completed(h) <= h.total
  {
  }

  /** What the inventory must say of a section the scorer has just scored. */
  function ExpectedState(stats: OutcomeStats, evidence: KeyEvidence): EvidenceState {
    if evidence.totalSum > 0.0 then
      if stats.source == FromInstructorCourse || evidence.afSum > 0.0 then EvidenceBacked else ExceptionNonLetterGrade
    else if stats.source == FromSubject && stats.effectiveN <= 0.0 then Unclassified
    else if evidence.HasRows() then HistoryNotUsed
    else ExceptionNoRows
  }

  lemma ClassifyCourse(
    course: Aggregate, subject: Aggregate, everything: Aggregate, e: KeyEvidence, config: ScoreConfig)
    requires course.effectiveGradeN == e.afSum && course.effectiveWithdrawalN == e.totalSum
    requires course.total == e.totalSum
    requires course.effectiveN == Min(course.effectiveGradeN, course.effectiveWithdrawalN)
    requires 0.0 <= e.afSum <= e.totalSum && (e.rowCount == 0 ==> e.totalSum == 0.0)
    ensures var stats := StatsWithFallback(course, subject, everything, config);
      Classify(Some(CacheOf(stats)), e) == ExpectedState(stats, e)
  {
    hide GradeFavorability, WithdrawalRate, BayesianSmooth, EasinessScore, ConfidenceLabelFor,
      GlobalGradePrior, GlobalWithdrawalPrior;
  }

  lemma ClassifyInstructor(own: Aggregate, courseStats: OutcomeStats, e: KeyEvidence, config: ScoreConfig)
    requires own.effectiveN == Min(own.effectiveGradeN, own.effectiveWithdrawalN)
    requires own.total == own.effectiveWithdrawalN
    requires own.effectiveGradeN <= e.afSum && own.total <= e.totalSum
    requires e.rowCount == 0 ==> e.totalSum == 0.0
    ensures var stats := InstructorStatsFrom(own, courseStats, config);
      stats.Some? && stats.value.effectiveN > 0.0 ==>
        Classify(Some(CacheOf(stats.value)), e) == EvidenceBacked == ExpectedState(stats.value, e)
  {
    hide GradeFavorability, WithdrawalRate, BayesianSmooth, EasinessScore, ConfidenceLabelFor;
  }

  /** A cache row as the scorer writes it is evidence-backed or a listed exception, except that it is
      `history_not_used` exactly when the course has rows but all their totals are zero, and
      `unclassified` exactly when the subject fallback carries no letter grade. */
  lemma InventoryAgreesWithScorer(
    rows: seq<JoinedRow>, table: seq<InstructorRow>, courses: map<nat, Course>, key: CourseKey,
    crn: string, state: InstructorState, lab: bool, config: ScoreConfig)
    requires CleanRows(rows, courses) && config.minEffectiveN > 0.0
    ensures var courseStats := CourseStatsOf(rows, table, courses, key, config);
      var s := ScoreSection(crn, state, lab, courseStats,
        ObservationsByInstructor(rows, table, CourseIds(courses, key)), config);
      var e := KeyEvidenceOf(rows, courses, key);
      Classify(Some(CacheOf(s.stats)), e) == ExpectedState(s.stats, e)
  {
    hide Classify, CacheOf, ExpectedState, StatsWithFallback, InstructorStatsFrom, ObservationsByInstructor,
      ObsIn, Obs, SumCounts, KeyEvidenceOf, BreakdownOf, IsUsableInstructor, Completed;
    var ids := CourseIds(courses, key);
    var e := KeyEvidenceOf(rows, courses, key);
    var all := Obs(rows, table, OfCourses(ids));
    RollUpMatches(rows, table, courses, key);
    ClassifyCourse(AggregateOf(all), AggregateOf(Obs(rows, table, OfCourses(SubjectIds(courses, key.0) - ids))),
                   AggregateOf(Obs(rows, table, Everything)), e, config);
    if state.name.Some? {
      var name := state.name.value;
      var courseStats := CourseStatsOf(rows, table, courses, key, config);
      RowsByName(rows, table, ids, name);
      TaughtWithinCourse(rows, table, ids, name);
      ClassifyInstructor(AggregateOf(Obs(rows, table, TaughtBy(ids, name))), courseStats, e, config);
    }
  }

  // ---- What every state says ----

  predicate CourseClaim(c: CachedScore) {
    c.source == "course" || c.source == "instructor_course"
  }

  /** A claim of evidence that the key's rows bear out: letters where the claim has weight, and a total
      that is the whole of the key's for a course, some of it for an instructor. */
  predicate BorneOut(c: CachedScore, e: KeyEvidence) {
    && e.rowCount > 0 && e.afSum > 0.0 && c.total.Some?
    && (c.source == "course" ==> c.total.value == e.totalSum)
    && (c.source == "instructor_course" ==> 0.0 < c.total.value <= e.totalSum)
  }

  /** Each state of any cache row whatever, exactly: what it claims against what there is. */
  lemma StatesMeanWhatTheySay(cached: Option<CachedScore>, e: KeyEvidence)
    ensures var state := Classify(cached, e);
      && (state == MissingCacheRow <==> cached.None?)
      && (cached.Some? && cached.value.effectiveN.Some? ==>
            var c, n := cached.value, cached.value.effectiveN.value;
            && (state == EvidenceBacked <==> CourseClaim(c) && n > 0.0 && BorneOut(c, e))
            && (state == UnbackedCourseClaim <==> CourseClaim(c) && e.rowCount == 0)
            && (state == ExceptionNonLetterGrade <==>
                  c.source == "course" && n <= 0.0 && e.rowCount > 0 && e.afSum == 0.0 && e.totalSum > 0.0
                  && c.total == Some(e.totalSum))
            && (state == RawTotalMismatch <==>
                  CourseClaim(c) && e.rowCount > 0
                  && ((n > 0.0 && e.afSum > 0.0 && !BorneOut(c, e))
                      || (c.source == "course" && n <= 0.0 && e.afSum == 0.0 && e.totalSum > 0.0 &&
                        c.total != Some(e.totalSum))))
            && (state == GlobalNonzeroEffectiveN <==> c.source == "global" && n > 0.0)
            && (state == HistoryNotUsed <==>
                  e.rowCount > 0 && ((c.source == "subject" && n > 0.0) || (c.source == "global" && n <= 0.0)))
            && (state == ExceptionNoRows <==>
                  e.rowCount == 0 && ((c.source == "subject" && n > 0.0) || (c.source == "global" && n <= 0.0))))
      && (cached.Some? && cached.value.effectiveN.None? ==> state == Unclassified)
  {
  }
}
