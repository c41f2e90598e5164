/** One sweep as a transaction: busy, refused, rolled back, rehearsed or committed. */
module SweepRun {
  import opened Text
  import opened Schema
  import opened Evidence
  import opened Analytics
  import opened Rankings
  import opened SweepPlan
  import opened Scope
  import opened SweepState
  import opened SweepApply
  import opened SweepFrame
  import opened PlanFacts
  import opened RankingCoherence
  import opened Fingerprint
  import opened Gate
  import opened CourseAdding
  import opened DbLoad

  /** What the outside world contributes to one sweep: the lock, the response, clock readings, what
      the catalog would answer, and whether anything raises after the writes began. */
  datatype SweepInput = SweepInput(
    lockFree: bool, response: Option<seq<Row>>, fetchedAt: int, now: int, readAt: int,
    override: Option<real>, catalog: map<nat, Course>, dryRun: bool, fault: bool)

  datatype Outcome = Busy | Failed | Rehearsed(plan: Plan) | Succeeded(plan: Plan)

  /** The tables the sweep owns and the size of the last succeeded one. */
  datatype World = World(db: Db, lastSuccess: Option<nat>)

  /** `normalize_schedule_row` strips and upper-cases the course key and fills every column. */
  ghost predicate Normalised(rows: seq<Row>) {
    SweepPlan.RowsOk(rows) && forall r | r in rows :: Normalized(r.Key()) == r.Key()
  }

  ghost predicate InputOk(input: SweepInput) {
    input.response.Some? ==> Normalised(input.response.value)
  }

  /** `new_course_keys` */
  function NewCourseKeys(rows: seq<Row>, st: DbState): set<CourseKey> {
    set r | r in rows && Unapplied(r, st) :: r.Key()
  }

  /** The added courses, each under its only id. */
  ghost function WithAdded(st: DbState, db: Db, added: map<nat, Course>): DbState {
    st.(courseIds := st.courseIds + ChosenMapOf(WithCourses(db, added).courses, AddedKeys(added)))
  }

  function AddedKeys(added: map<nat, Course>): set<CourseKey> {
    set id | id in added :: added[id].Key()
  }

  /** `_resolve_added_course_ids` */
  ghost function ChosenMapOf(courses: map<nat, Course>, keys: set<CourseKey>): map<CourseKey, nat> {
    map k | k in keys && CourseIds(courses, k) != {} :: ChosenId(courses, k)
  }

  ghost predicate Passes(rows: seq<Row>, st: DbState, override: Option<real>) {
    ThresholdsFor(override).Some? && Accepts(GateInputOf(rows, st), ThresholdsFor(override).value)
  }

  /** The state every decision of a sweep reads: always a full read of the term. */
  ghost function FullState(world: World, termId: nat, rows: seq<Row>): DbState
    requires world.db.UniqueCrns()
  {
    StateOf(world.db, ViewOf(world.db, termId), rows, world.lastSuccess)
  }

  ghost function AddedBy(world: World, termId: nat, rows: seq<Row>, catalog: map<nat, Course>): map<nat, Course>
    requires world.db.UniqueCrns()
  {
    Adopted(world.db, catalog, NewCourseKeys(rows, FullState(world, termId, rows)))
  }

  /** What a sweep decides, without any cache. */
  ghost function Decide(world: World, termId: nat, input: SweepInput): Outcome
    requires world.db.UniqueCrns()
  {
    if !input.lockFree then Busy
    else if input.response.None? || !DistinctCrns(InScopeRows(input.response.value)) then Failed
    else
      var rows := InScopeRows(input.response.value);
      var st := FullState(world, termId, rows);
      if !Passes(rows, st, input.override) || input.fault then Failed
      else if input.dryRun then Rehearsed(PlanOf(rows, st))
      else Succeeded(PlanOf(rows, WithAdded(st, world.db, AddedBy(world, termId, rows, input.catalog))))
  }

  // ---- A succeeded sweep ----

  ghost predicate Sound(db: Db, termId: nat, code: nat) {
    db.Valid() && KeysOrdered(db) && termId in db.terms && db.terms[termId] == code
  }

  lemma SoundIsReadable(db: Db, termId: nat, code: nat)
    requires Sound(db, termId, code)
    ensures db.SectionsOk() && db.HistoryOk() && db.UniqueCrns() && KeysOrdered(db)
  {
    hide KeysOrdered, Full, NormalizeKey;
  }

  lemma {:induction false} InScopeAmong(rows: seq<Row>)
    ensures forall r | r in InScopeRows(rows) :: r in rows
  {
    hide InScopeRow;
    if rows != [] {
      InScopeAmong(rows[..|rows| - 1]);
    }
  }

  /** The plan is built for the tables with the added courses, and is a good one. */
  lemma AddedState(world: World, termId: nat, code: nat, rows: seq<Row>, catalog: map<nat, Course>)
    requires Sound(world.db, termId, code) && Normalised(rows) && DistinctCrns(rows)
    ensures var added := AddedBy(world, termId, rows, catalog);
      var db := WithCourses(world.db, added);
      var st := WithAdded(FullState(world, termId, rows), world.db, added);
      && added.Keys !! world.db.courses.Keys && Sound(db, termId, code)
      && st.view == ViewOf(db, termId) && ViewOf(db, termId) == ViewOf(world.db, termId)
      && GoodPlan(db, termId, PlanOf(rows, st))
  {
    hide ViewOf, Full, ChosenMap, ActiveInScope, ActiveSubjects, NormalizeKey, DistinctCrns, GoodPlan,
      PlanOf, IsChosen, FingerprintOf, NewCourseKeys, WithCourses;
    var full := FullState(world, termId, rows);
    var added := AddedBy(world, termId, rows, catalog);
    NewKeysNormal(rows, full);
    AddedKeepsValid(world.db, catalog, NewCourseKeys(rows, full));
    AddedKeepsView(world.db, added, termId);
    AddedKeepsTables(world.db, added);
    AddedLoaded(world, termId, rows, added);
    PlanIsGood(rows, WithAdded(full, world.db, added), WithCourses(world.db, added), termId);
  }

  lemma AddedKeepsTables(db: Db, added: map<nat, Course>)
    ensures var w := WithCourses(db, added);
      && w.terms == db.terms && w.sections == db.sections && w.grades == db.grades
      && w.instructors == db.instructors && w.snapshots == db.snapshots && w.courses == db.courses + added
  {
  }

  lemma NewKeysNormal(rows: seq<Row>, st: DbState)
    requires Normalised(rows)
    ensures NormalKeys(NewCourseKeys(rows, st))
  {
    hide NormalizeKey, Full;
  }

  lemma AddedLoaded(world: World, termId: nat, rows: seq<Row>, added: map<nat, Course>)
    requires world.db.UniqueCrns() && ViewOf(WithCourses(world.db, added), termId) == ViewOf(world.db, termId)
    ensures LoadedFrom(WithAdded(FullState(world, termId, rows), world.db, added), WithCourses(world.db, added), termId)
  {
    hide ViewOf, Preferred, ActiveInScope, ActiveSubjects, SubjectsOf, AddedKeys, ChosenMapOf, Adopted,
      NewCourseKeys, IsChosen;
    var courses := WithCourses(world.db, added).courses;
    var st := FullState(world, termId, rows);
    ChosenAreCourses(world.db.courses, SubjectsOf(rows));
    AddedAreCourses(courses, AddedKeys(added));
  }

  lemma ChosenAreCourses(courses: map<nat, Course>, subjects: set<string>)
    ensures forall k | k in ChosenMap(courses, subjects) :: ChosenMap(courses, subjects)[k] in courses
  {
    hide Preferred;
    assert forall k | k in ChosenMap(courses, subjects) :: IsChosen(courses, k, ChosenMap(courses, subjects)[k]);
  }

  lemma AddedAreCourses(courses: map<nat, Course>, keys: set<CourseKey>)
    ensures forall k | k in ChosenMapOf(courses, keys) :: ChosenMapOf(courses, keys)[k] in courses
  {
    hide Preferred, CourseIds;
  }

  /** The tables after a succeeded sweep. */
  ghost function SucceededDb(
    env: RankingEnv, world: World, termId: nat, code: nat, rows: seq<Row>, input: SweepInput): Db
    requires Sound(world.db, termId, code) && Normalised(rows) && DistinctCrns(rows)
  {
    var added := AddedBy(world, termId, rows, input.catalog);
    var db := WithCourses(world.db, added);
    var plan := PlanOf(rows, WithAdded(FullState(world, termId, rows), world.db, added));
    AddedState(world, termId, code, rows, input.catalog);
    WrittenCourses(db, termId, plan, input.fetchedAt);
    Applied(env, db, termId, code, plan, input.fetchedAt)
  }

  /** One sweep on the committed state, without any cache. */
  ghost function After(env: RankingEnv, termId: nat, code: nat, world: World, input: SweepInput): World
    requires Sound(world.db, termId, code) && InputOk(input)
  {
    if Decide(world, termId, input).Succeeded? then
      InScopeAmong(input.response.value);
      var rows := InScopeRows(input.response.value);
      World(SucceededDb(env, world, termId, code, rows, input), Some(|rows|))
    else world
  }
}
