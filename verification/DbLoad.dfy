/** Everything the diff reads, in one value: the term view, the course ids and the gate's counts. */
module DbLoad {
  import opened Text
  import opened Ordering
  import opened Schema
  import opened Analytics
  import opened SweepPlan
  import opened SweepState
  import opened StateCache
  import opened Gate
  import opened Fingerprint

  datatype CourseRow = CourseRow(id: nat, course: Course)

  /** Highest catalog edition first, then highest id. */
  predicate Preferred(x: CourseRow, y: CourseRow) {
    StrLess(y.course.edition, x.course.edition) || (x.course.edition == y.course.edition && x.id > y.id)
  }

  function CoursesIn(courses: map<nat, Course>, subjects: set<string>): set<CourseRow> {
    set id | id in courses && courses[id].subject in subjects :: CourseRow(id, courses[id])
  }

  lemma PreferenceTotal(courses: map<nat, Course>, subjects: set<string>)
    ensures StrictTotalOn(Preferred, CoursesIn(courses, subjects))
  {
    var s := CoursesIn(courses, subjects);
    forall x | x in s ensures !Preferred(x, x) {
      StrLessIrreflexive(x.course.edition);
    }
    forall x, y | x in s && y in s ensures x == y || Preferred(x, y) || Preferred(y, x) {
      StrLessTotal(x.course.edition, y.course.edition);
    }
    forall x, y, z | x in s && y in s && z in s && Preferred(x, y) && Preferred(y, z) ensures Preferred(x, z) {
      PreferenceTransitive(x, y, z);
    }
  }

  lemma PreferenceTransitive(x: CourseRow, y: CourseRow, z: CourseRow)
    requires Preferred(x, y) && Preferred(y, z)
    ensures Preferred(x, z)
  {
    hide StrLess;
    if StrLess(y.course.edition, x.course.edition) && StrLess(z.course.edition, y.course.edition) {
      StrLessTransitive(z.course.edition, y.course.edition, x.course.edition);
    }
  }

  /** The course a key stands for: no other course of the key is preferred. */
  ghost predicate IsChosen(courses: map<nat, Course>, key: CourseKey, id: nat) {
    && id in courses && courses[id].Key() == key
    && forall c | c in courses && courses[c].Key() == key && c != id ::
         Preferred(CourseRow(id, courses[id]), CourseRow(c, courses[c]))
  }

  /** One id for every key of the subjects. */
  ghost predicate ChosenIds(courses: map<nat, Course>, subjects: set<string>, ids: map<CourseKey, nat>) {
    && (forall k | k in ids :: IsChosen(courses, k, ids[k]))
    && (forall k :: k in ids <==> k.0 in subjects && exists c :: c in courses && courses[c].Key() == k)
  }

  lemma ChosenUnique(courses: map<nat, Course>, subjects: set<string>, a: map<CourseKey, nat>, b: map<CourseKey, nat>)
    requires ChosenIds(courses, subjects, a) && ChosenIds(courses, subjects, b)
    ensures a == b
  {
    forall k | k in a ensures k in b && a[k] == b[k] {
      assert k in b;
      if a[k] != b[k] {
        OneChosen(courses, k, a[k], b[k]);
      }
    }
    forall k | k in b ensures k in a {
    }
  }

  lemma OneChosen(courses: map<nat, Course>, key: CourseKey, i: nat, j: nat)
    requires IsChosen(courses, key, i) && IsChosen(courses, key, j)
    ensures i == j
  {
    hide StrLess;
    var x, y := CourseRow(i, courses[i]), CourseRow(j, courses[j]);
    if i != j {
      assert Preferred(x, y) && Preferred(y, x);
      StrLessIrreflexive(x.course.edition);
      PreferenceTransitive(x, y, x);
    }
  }

  method LoadCourseIds(courses: map<nat, Course>, subjects: set<string>) returns (ids: map<CourseKey, nat>)
    ensures ChosenIds(courses, subjects, ids)
  {
    hide StrLess;
    PreferenceTotal(courses, subjects);
    var rows := Sorted(Preferred, CoursesIn(courses, subjects));
    ids := FirstOfEachKey(rows);
    FirstsAreChosen(courses, subjects, rows, ids);
  }

  ghost predicate Firsts(rows: seq<CourseRow>, ids: map<CourseKey, nat>) {
    && (forall key | key in ids :: exists i :: First(rows, i, key) && ids[key] == rows[i].id)
    && (forall i | 0 <= i < |rows| :: rows[i].course.Key() in ids)
  }

  /** `setdefault` over the rows in order of preference. */
  method FirstOfEachKey(rows: seq<CourseRow>) returns (ids: map<CourseKey, nat>)
    ensures Firsts(rows, ids)
  {
    ids := map[];
    for k := 0 to |rows|
      invariant forall key | key in ids :: exists i :: i < k && First(rows, i, key) && ids[key] == rows[i].id
      invariant forall i | 0 <= i < k :: rows[i].course.Key() in ids
    {
      var key := rows[k].course.Key();
      if key !in ids {
        assert First(rows, k, key);
        ids := ids[key := rows[k].id];
      }
    }
  }

  lemma FirstsAreChosen(
    courses: map<nat, Course>, subjects: set<string>, rows: seq<CourseRow>, ids: map<CourseKey, nat>)
    requires Elements(rows) == CoursesIn(courses, subjects) && Increasing(Preferred, rows) && Firsts(rows, ids)
    ensures ChosenIds(courses, subjects, ids)
  {
    hide Preferred, Increasing;
    forall key | key in ids ensures IsChosen(courses, key, ids[key]) && key.0 in subjects {
      var i :| First(rows, i, key) && ids[key] == rows[i].id;
      FirstIsChosen(courses, subjects, rows, i, key);
      assert rows[i] in Elements(rows);
    }
    forall c | c in courses && courses[c].subject in subjects ensures courses[c].Key() in ids {
      assert CourseRow(c, courses[c]) in Elements(rows);
      var i :| 0 <= i < |rows| && rows[i] == CourseRow(c, courses[c]);
    }
  }

  predicate First(rows: seq<CourseRow>, i: int, key: CourseKey) {
    0 <= i < |rows| && rows[i].course.Key() == key && forall j | 0 <= j < i :: rows[j].course.Key() != key
  }

  lemma FirstIsChosen(courses: map<nat, Course>, subjects: set<string>, rows: seq<CourseRow>, i: int, key: CourseKey)
    requires Elements(rows) == CoursesIn(courses, subjects) && Increasing(Preferred, rows) && First(rows, i, key)
    ensures IsChosen(courses, key, rows[i].id)
  {
    hide Preferred;
    assert rows[i] in Elements(rows);
    forall c | c in courses && courses[c].Key() == key && c != rows[i].id
      ensures Preferred(rows[i], CourseRow(c, courses[c]))
    {
      assert CourseRow(c, courses[c]) in Elements(rows);
      var j :| 0 <= j < |rows| && rows[j] == CourseRow(c, courses[c]);
    }
  }

  /** The chosen course has the newest edition of its key, and of those the highest id. */
  lemma ChosenIsNewest(courses: map<nat, Course>, key: CourseKey, id: nat, other: nat)
    requires IsChosen(courses, key, id) && other in courses && courses[other].Key() == key && other != id
    ensures StrLess(courses[other].edition, courses[id].edition)
      || (courses[other].edition == courses[id].edition && other < id)
  {
    hide StrLess;
  }

  // ---- The whole state ----

  lemma ChosenExists(courses: map<nat, Course>, key: CourseKey)
    requires CourseIds(courses, key) != {}
    ensures exists id :: IsChosen(courses, key, id)
  {
    PreferenceTotal(courses, {key.0});
    hide Preferred;
    var rows := set id | id in CourseIds(courses, key) :: CourseRow(id, courses[id]);
    var c :| c in CourseIds(courses, key);
    assert CourseRow(c, courses[c]) in rows;
    assert rows <= CoursesIn(courses, {key.0});
    LeastExists(Preferred, rows);
    var m :| m in rows && forall x | x in rows && x != m :: Preferred(m, x);
    forall c | c in courses && courses[c].Key() == key && c != m.id ensures Preferred(m, CourseRow(c, courses[c])) {
      assert CourseRow(c, courses[c]) in rows;
    }
    assert IsChosen(courses, key, m.id);
  }

  ghost function ChosenId(courses: map<nat, Course>, key: CourseKey): (id: nat)
    requires CourseIds(courses, key) != {}
    ensures IsChosen(courses, key, id)
  {
    ChosenExists(courses, key);
    var id :| IsChosen(courses, key, id);
    id
  }

  function KeysIn(courses: map<nat, Course>, subjects: set<string>): set<CourseKey> {
    set id | id in courses && courses[id].subject in subjects :: courses[id].Key()
  }

  /** `course_ids` */
  ghost function ChosenMap(courses: map<nat, Course>, subjects: set<string>): (ids: map<CourseKey, nat>)
    ensures ChosenIds(courses, subjects, ids)
  {
    KeysHaveCourses(courses, subjects);
    map k | k in KeysIn(courses, subjects) :: ChosenId(courses, k)
  }

  lemma KeysHaveCourses(courses: map<nat, Course>, subjects: set<string>)
    ensures forall k | k in KeysIn(courses, subjects) :: CourseIds(courses, k) != {}
  {
    forall k | k in KeysIn(courses, subjects) ensures CourseIds(courses, k) != {} {
      var id :| id in courses && courses[id].subject in subjects && courses[id].Key() == k;
      assert id in CourseIds(courses, k);
    }
  }

  function SubjectsOf(rows: seq<Row>): set<string> {
    set r | r in rows :: r.subject
  }

  function SubjectOf(view: TermView, crn: string): string {
    if crn in view.subjects then view.subjects[crn] else ""
  }

  function ActiveSubjects(view: TermView): set<string> {
    SubjectsAt(view, ActiveInScope(view))
  }

  function SubjectsAt(view: TermView, crns: set<string>): set<string> {
    set c | c in crns :: SubjectOf(view, c)
  }

  lemma SubjectsAdd(view: TermView, crns: set<string>, crn: string)
    ensures SubjectsAt(view, crns + {crn}) == SubjectsAt(view, crns) + {SubjectOf(view, crn)}
  {
    hide SubjectOf;
  }

  predicate CountsAt(view: TermView, crn: string) {
    crn in view.sections && view.sections[crn].inScope && view.sections[crn].removedAt.None?
  }

  lemma ActiveAdd(view: TermView, done: set<string>, crn: string)
    ensures ActiveInScope(view) * (done + {crn}) ==
      ActiveInScope(view) * done + if CountsAt(view, crn) then {crn} else {}
  {
  }

  /** The state the diff reads, given the term view. */
  ghost function StateOf(db: Db, view: TermView, rows: seq<Row>, lastSuccess: Option<nat>): DbState {
    DbState(view, ChosenMap(db.courses, SubjectsOf(rows)), |ActiveInScope(view)|, ActiveSubjects(view), lastSuccess)
  }

  ghost predicate Tallied(view: TermView, done: set<string>, active: nat, subjects: set<string>) {
    active == |ActiveInScope(view) * done| && subjects == SubjectsAt(view, ActiveInScope(view) * done)
  }

  lemma TallyEnds(view: TermView)
    ensures Tallied(view, {}, 0, {})
    ensures ActiveInScope(view) * view.sections.Keys == ActiveInScope(view)
  {
    assert ActiveInScope(view) * {} == {};
  }

  lemma TallyNext(view: TermView, done: set<string>, crn: string, active: nat, subjects: set<string>)
    requires crn !in done && Tallied(view, done, active, subjects)
    ensures CountsAt(view, crn) ==> Tallied(view, done + {crn}, active + 1, subjects + {SubjectOf(view, crn)})
    ensures !CountsAt(view, crn) ==> Tallied(view, done + {crn}, active, subjects)
  {
    ActiveAdd(view, done, crn);
    SubjectsAdd(view, ActiveInScope(view) * done, crn);
    hide ActiveInScope, SubjectsAt, SubjectOf, CountsAt;
  }

  method CountActive(view: TermView) returns (active: nat, subjects: set<string>)
    ensures active == |ActiveInScope(view)| && subjects == ActiveSubjects(view)
  {
    hide ActiveInScope, SubjectsAt, SubjectOf, CountsAt;
    TallyEnds(view);
    active, subjects := 0, {};
    var left, done: set<string> := view.sections.Keys, {};
    while left != {}
      invariant left !! done && left + done == view.sections.Keys
      invariant Tallied(view, done, active, subjects)
    {
      hide Tallied;
      var c :| c in left;
      TallyNext(view, done, c, active, subjects);
      left, done := left - {c}, done + {c};
      if CountsAt(view, c) {
        active := active + 1;
        subjects := subjects + {SubjectOf(view, c)};
      }
    }
    assert done == view.sections.Keys;
  }

  /** `load_db_state`, with the worker's cache or without one. */
  method LoadDbState(
    db: Db, termId: nat, rows: seq<Row>, lastSuccess: Option<nat>, cache: SweepStateCache?, now: int, readAt: int,
    ghost base: Db)
    returns (st: DbState)
    requires db.SectionsOk() && KeysOrdered(db) && (cache != null ==> Trusted(cache.state, base, db))
    modifies cache
    ensures st == StateOf(db, ViewOf(db, termId), rows, lastSuccess)
    ensures cache != null ==>
      && cache.current.Some? && cache.current.value == Loaded(db, termId, cache.current.value.loadedAt)
      && cache.pending == None && Trusted(cache.state, base, db)
  {
    hide ViewOf, FingerprintOf, Full, IsChosen, ChosenMap, History, KeysOrdered;
    var view: TermView;
    if cache == null {
      view := LoadTermSections(db, termId);
    } else {
      ghost var before := cache.state;
      var loaded := cache.Load(db, termId, now, readAt);
      if cache.lastLoadReused {
        TrustedLoadIsCurrent(before, base, db, termId, now, cache.maxAge);
      }
      view := loaded.view;
    }
    var active, subjects := CountActive(view);
    var ids := LoadCourseIds(db.courses, SubjectsOf(rows));
    ChosenUnique(db.courses, SubjectsOf(rows), ids, ChosenMap(db.courses, SubjectsOf(rows)));
    st := DbState(view, ids, active, subjects, lastSuccess);
  }
}
