/** Courses that a sweep adds from the catalog: new ids, no grade history, nothing else changes. */
module CourseAdding {
  import opened Text
  import opened Ordering
  import opened Grades
  import opened Scoring
  import opened Instructors
  import opened Schema
  import opened Evidence
  import opened Analytics
  import opened Rankings
  import opened SweepState
  import opened StateReload
  import opened SweepPlan
  import opened Fingerprint

  /** The catalog entries that describe a requested course, under ids that are not in use. */
  function Adopted(db: Db, catalog: map<nat, Course>, keys: set<CourseKey>): map<nat, Course> {
    map id | id in catalog && id !in db.courses && catalog[id].Key() in keys :: catalog[id]
  }

  function WithCourses(db: Db, added: map<nat, Course>): Db {
    db.(courses := db.courses + added)
  }

  ghost predicate NormalKeys(keys: set<CourseKey>) {
    forall k | k in keys :: Normalized(k) == k
  }

  lemma AddedKeepsValid(db: Db, catalog: map<nat, Course>, keys: set<CourseKey>)
    requires db.Valid() && NormalKeys(keys)
    ensures WithCourses(db, Adopted(db, catalog, keys)).Valid()
  {
    hide Full, NormalizeKey;
    var added := Adopted(db, catalog, keys);
    forall id | id in added
      ensures NormalizeKey(added[id].subject) == added[id].subject && NormalizeKey(added[id].number) == added[id].number
    {
      assert Normalized(added[id].Key()) == added[id].Key();
    }
  }

  lemma AddedKeepsView(db: Db, added: map<nat, Course>, termId: nat)
    requires db.SectionsOk() && added.Keys !! db.courses.Keys
    ensures ViewOf(WithCourses(db, added), termId) == ViewOf(db, termId)
    ensures FingerprintOf(WithCourses(db, added), termId) == FingerprintOf(db, termId)
  {
    hide ViewOfIds, SectionIdsOf, ExistingOf, LatestSnapshot, Full, ObservationsOf, StateFrom,
      CourseSubject, InstructorIdsIn, SnapshotIdsIn, RemovedIn, Reloaded, MaxId;
    var w := WithCourses(db, added);
    AddedFingerprint(db, added, termId);
    var ids := SectionIdsOf(db.sections, termId);
    TermUnique(db.sections, termId);
    forall id | id in ids ensures SameInView(db, w, id) && id in db.sections {
      TermMember(db.sections, termId, id);
      SameCourse(db.courses, added, id, db.sections[id]);
    }
    PatchedView(db, w, ids, {});
    NothingPatched(w, ViewOfIds(db, ids));
    assert ids + {} == ids;
  }

  lemma AddedFingerprint(db: Db, added: map<nat, Course>, termId: nat)
    ensures FingerprintOf(WithCourses(db, added), termId) == FingerprintOf(db, termId)
  {
    hide MaxId, SectionIdsOf;
    var w := WithCourses(db, added);
    assert RemovedIn(w, termId) == RemovedIn(db, termId);
    assert InstructorIdsIn(w, termId) == InstructorIdsIn(db, termId);
    assert SnapshotIdsIn(w, termId) == SnapshotIdsIn(db, termId);
  }

  lemma SameCourse(courses: map<nat, Course>, added: map<nat, Course>, id: nat, s: Section)
    requires s.courseId in courses && added.Keys !! courses.Keys
    ensures ExistingOf(courses + added, id, s) == ExistingOf(courses, id, s)
    ensures CourseSubject(courses + added, s.courseId) == CourseSubject(courses, s.courseId)
  {
  }

  // ---- No ranking can show a course that nothing refers to ----

  /** Every attribution of the rows is a known course. */
  ghost predicate AttributedWithin(rows: seq<JoinedRow>, known: set<nat>) {
    forall r | r in rows :: RowCourseIds(r) <= known
  }

  predicate SameOn(a: Selector, b: Selector, known: set<nat>) {
    match (a, b)
    case (OfCourses(x), OfCourses(y)) => x * known == y * known
    case (TaughtBy(x, n), TaughtBy(y, m)) => n == m && x * known == y * known
    case _ => a == b
  }

  lemma ContributionWithin(row: JoinedRow, table: seq<InstructorRow>, a: Selector, b: Selector, known: set<nat>)
    requires RowCourseIds(row) <= known && SameOn(a, b, known)
    ensures Contribution(row, table, a) == Contribution(row, table, b)
  {
    hide IsMapped, NamesOf, IsUsableInstructor, ObservationOf;
    if row.grade.courseId.Some? && !a.Everything? {
      assert row.grade.courseId.value in RowCourseIds(row);
      SameIn(a, b, known, row.grade.courseId.value);
    }
    if row.sectionCourseId.Some? && !a.Everything? {
      assert row.sectionCourseId.value in RowCourseIds(row);
      SameIn(a, b, known, row.sectionCourseId.value);
    }
  }

  lemma SameIn(a: Selector, b: Selector, known: set<nat>, c: nat)
    requires SameOn(a, b, known) && c in known && !a.Everything?
    ensures c in a.ids <==> c in b.ids
  {
    assert c in a.ids * known <==> c in b.ids * known;
  }

  lemma {:induction false} ObsWithin(
    rows: seq<JoinedRow>, table: seq<InstructorRow>, a: Selector, b: Selector, known: set<nat>)
    requires AttributedWithin(rows, known) && SameOn(a, b, known)
    ensures Obs(rows, table, a) == Obs(rows, table, b)
  {
    if rows != [] {
      var n := |rows| - 1;
      assert rows[n] in rows;
      ObsWithin(rows[..n], table, a, b, known);
      ContributionWithin(rows[n], table, a, b, known);
      hide Contribution;
    }
  }

  lemma ByInstructorWithin(rows: seq<JoinedRow>, table: seq<InstructorRow>, x: set<nat>, y: set<nat>, known: set<nat>)
    requires AttributedWithin(rows, known) && x * known == y * known
    ensures ObservationsByInstructor(rows, table, x) == ObservationsByInstructor(rows, table, y)
  {
    hide Obs, AllNames;
    forall name ensures Obs(rows, table, TaughtBy(x, name)) == Obs(rows, table, TaughtBy(y, name)) {
      ObsWithin(rows, table, TaughtBy(x, name), TaughtBy(y, name), known);
    }
  }

  lemma StatsWithin(
    rows: seq<JoinedRow>, table: seq<InstructorRow>, courses: map<nat, Course>, added: map<nat, Course>, key: CourseKey,
    config: ScoreConfig)
    requires AttributedWithin(rows, courses.Keys) && added.Keys !! courses.Keys
    ensures CourseIds(courses + added, key) * courses.Keys == CourseIds(courses, key) * courses.Keys
    ensures CourseStatsOf(rows, table, courses + added, key, config) == CourseStatsOf(rows, table, courses, key, config)
  {
    hide Obs, AggregateOf, StatsWithFallback;
    var more := courses + added;
    assert CourseIds(more, key) * courses.Keys == CourseIds(courses, key) * courses.Keys;
    var rest, moreRest :=
      SubjectIds(courses, key.0) - CourseIds(courses, key), SubjectIds(more, key.0) - CourseIds(more, key);
    assert moreRest * courses.Keys == rest * courses.Keys;
    ObsWithin(rows, table, OfCourses(CourseIds(more, key)), OfCourses(CourseIds(courses, key)), courses.Keys);
    ObsWithin(rows, table, OfCourses(moreRest), OfCourses(rest), courses.Keys);
  }

  lemma {:induction false} JoinedWithin(
    terms: map<nat, nat>, sections: map<nat, Section>, grades: seq<GradeRow>, before: nat, known: set<nat>)
    requires forall id | id in sections :: sections[id].courseId in known
    requires forall g | g in grades && g.courseId.Some? :: g.courseId.value in known
    ensures AttributedWithin(JoinGrades(terms, sections, grades, before), known)
  {
    hide IsLaboratory;
    if grades != [] {
      var n := |grades| - 1;
      assert grades[n] in grades;
      JoinedWithin(terms, sections, grades[..n], before, known);
    }
  }

  /** The statistics and instructor histories of a section's course are the same. */
  lemma AddedKeepsEvidence(db: Db, added: map<nat, Course>, code: nat, key: CourseKey, config: ScoreConfig)
    requires db.SectionsOk() && db.GradesOk() && added.Keys !! db.courses.Keys
    ensures var rows, more := JoinedRows(db, code), db.courses + added;
      && CourseStatsOf(rows, db.instructors, more, key, config) ==
        CourseStatsOf(rows, db.instructors, db.courses, key, config)
      && ObservationsByInstructor(rows, db.instructors, CourseIds(more, key)) ==
        ObservationsByInstructor(rows, db.instructors, CourseIds(db.courses, key))
  {
    hide CourseStatsOf, ObservationsByInstructor, JoinGrades, Full, CourseIds, AttributedWithin;
    var rows := JoinedRows(db, code);
    JoinedWithin(db.terms, db.sections, db.grades, code, db.courses.Keys);
    StatsWithin(rows, db.instructors, db.courses, added, key, config);
    ByInstructorWithin(rows, db.instructors, CourseIds(db.courses + added, key), CourseIds(db.courses, key),
      db.courses.Keys);
  }

  /** Adding courses leaves the ranking cache coherent. */
  lemma AddedKeepsCoherent(env: RankingEnv, db: Db, added: map<nat, Course>, termId: nat, code: nat)
    requires db.SectionsOk() && db.GradesOk() && added.Keys !! db.courses.Keys && Coherent(env, db, termId, code)
    ensures CoursesKnown(WithCourses(db, added)) && Coherent(env, WithCourses(db, added), termId, code)
  {
    hide ScoreSection, CourseStatsOf, ObservationsByInstructor, JoinGrades, CurrentState, NonSeat,
      IsLaboratory, Full, CourseIds;
    forall id | id in db.sections
      ensures RankingOf(env, WithCourses(db, added), code, id) == RankingOf(env, db, code, id)
    {
      AddedKeepsEvidence(db, added, code, db.courses[db.sections[id].courseId].Key(), env.config);
    }
  }
}
