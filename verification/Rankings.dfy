/** The derived ranking rows: what a full rebuild stores for a section, and the scoped rebuild. */
module Rankings {
  import opened Text
  import opened Scoring
  import opened Instructors
  import opened Breakdown
  import opened Schema
  import opened Evidence
  import opened Analytics
  import opened TermAnalytics
  import opened EvidenceCache

  /** How the shown text of a ranking follows from a section's non-seat columns and its current
      instructor. The tables it also reads are never written by a sweep. */
  datatype RankingEnv = RankingEnv(
    config: ScoreConfig, display: (nat, string, nat, Values, InstructorState) -> string)

  /** A database session: the state inside the caller's transaction. */
  class Session {
    var db: Db

    constructor (db: Db)
      ensures this.db == db
    {
      this.db := db;
    }
  }

  ghost function AnalyticsOf(config: ScoreConfig, db: Db, code: nat, id: nat): SectionAnalytics
    requires id in db.sections && db.sections[id].courseId in db.courses
  {
    var s := db.sections[id];
    var key := db.courses[s.courseId].Key();
    var rows := JoinedRows(db, code);
    ScoreSection(
      s.crn, CurrentState(db.instructors, id), IsLaboratory(s.values),
      CourseStatsOf(rows, db.instructors, db.courses, key, config),
      ObservationsByInstructor(rows, db.instructors, CourseIds(db.courses, key)), config)
  }

  function DisplayOf(env: RankingEnv, db: Db, id: nat): string
    requires id in db.sections
  {
    var s := db.sections[id];
    env.display(id, s.crn, s.courseId, NonSeat(s.values), CurrentState(db.instructors, id))
  }

  /** The row a full rebuild stores for a section. */
  ghost function RankingOf(env: RankingEnv, db: Db, code: nat, id: nat): Ranking
    requires id in db.sections && db.sections[id].courseId in db.courses
  {
    Ranking(AnalyticsOf(env.config, db, code, id), DisplayOf(env, db, id))
  }

  /** The requested course keys, stripped and in upper case. */
  function NormalizedSet(keys: Option<set<CourseKey>>): Option<set<CourseKey>> {
    if keys.None? then None else Some(set k | k in keys.value :: Normalized(k))
  }

  predicate InKeys(db: Db, id: nat, keys: Option<set<CourseKey>>)
    requires id in db.sections && db.sections[id].courseId in db.courses
  {
    keys.None? || db.courses[db.sections[id].courseId].Key() in keys.value
  }

  ghost predicate CoursesKnown(db: Db) {
    forall i | i in db.sections :: db.sections[i].courseId in db.courses
  }

  function Selected(db: Db, termId: nat, keys: Option<set<CourseKey>>): set<nat>
    requires CoursesKnown(db)
  {
    set id | id in db.sections && db.sections[id].termId == termId && db.sections[id].Active() && InKeys(db, id, keys)
  }

  function RemovedSelected(db: Db, termId: nat, keys: Option<set<CourseKey>>): set<nat>
    requires CoursesKnown(db)
  {
    set id | id in db.sections && db.sections[id].termId == termId && !db.sections[id].Active() && InKeys(db, id, keys)
  }

  /** The ranking rows after a rebuild of the courses in `keys` (of the whole term when None). */
  ghost function Refreshed(
    env: RankingEnv, db: Db, termId: nat, code: nat, keys: Option<set<CourseKey>>): map<nat, Ranking>
    requires CoursesKnown(db)
  {
    map id | id in (db.rankings.Keys + Selected(db, termId, keys)) - RemovedSelected(db, termId, keys) ::
      if id in Selected(db, termId, keys) then RankingOf(env, db, code, id) else db.rankings[id]
  }

  /** Every active section of the term has its full-rebuild row and no removed section has one. */
  ghost predicate Coherent(env: RankingEnv, db: Db, termId: nat, code: nat)
    requires CoursesKnown(db)
  {
    forall id | id in db.sections && db.sections[id].termId == termId ::
      if db.sections[id].Active() then id in db.rankings && db.rankings[id] == RankingOf(env, db, code, id)
      else id !in db.rankings
  }

  // ---- The batch analytics hold each section's own row ----

  lemma ScoreKeepsCrn(
    crn: string, state: InstructorState, lab: bool, courseStats: OutcomeStats, obsBy: ByInstructor, config: ScoreConfig)
    ensures ScoreSection(crn, state, lab, courseStats, obsBy, config).crn == crn
  {
    hide OwnStats, ChooseStats, BreakdownOf;
  }

  lemma AnyKey(db: Db, id: nat)
    requires id in db.sections && db.sections[id].courseId in db.courses
    ensures InKeys(db, id, None)
  {
  }

  /** Every selected section is listed. */
  lemma RowOfSection(db: Db, termId: nat, key: CourseKey, id: nat) returns (i: nat)
    requires QueryReady(db) && id in Selected(db, termId, Some({key}))
    ensures i < |SectionsByCrn(db.sections, termId, CourseIds(db.courses, key))|
    ensures SectionsByCrn(db.sections, termId, CourseIds(db.courses, key))[i].id == id
  {
    hide SectionsByCrn;
    var sections := SectionsByCrn(db.sections, termId, CourseIds(db.courses, key));
    ByCrnMembers(db.sections, termId, CourseIds(db.courses, key));
    assert SectionRow(id, db.sections[id]) in sections;
    i :| 0 <= i < |sections| && sections[i] == SectionRow(id, db.sections[id]);
  }

  /** A listed section is a stored and selected one. */
  lemma ListedSection(db: Db, termId: nat, key: CourseKey, i: nat)
    requires QueryReady(db) && i < |SectionsByCrn(db.sections, termId, CourseIds(db.courses, key))|
    ensures var s := SectionsByCrn(db.sections, termId, CourseIds(db.courses, key))[i];
      s.id in Selected(db, termId, Some({key})) && s.section == db.sections[s.id] &&
        s.section.courseId in CourseIds(db.courses, key)
  {
    hide SectionsByCrn;
    var sections := SectionsByCrn(db.sections, termId, CourseIds(db.courses, key));
    ByCrnMembers(db.sections, termId, CourseIds(db.courses, key));
    assert sections[i] in sections;
  }

  lemma {:induction false} BatchRowsAreOwn(config: ScoreConfig, db: Db, termId: nat, code: nat, keys: seq<CourseKey>)
    requires QueryReady(db) && TermIdOf(db.terms, code) == Some(termId)
    requires forall k | k in keys :: Normalized(k) == k
    ensures forall r | r in PerCourseAll(db, code, keys, config) ::
      exists id :: id in Selected(db, termId, None) && r == AnalyticsOf(config, db, code, id) &&
        r.crn == db.sections[id].crn
    ensures forall id, key | key in keys && id in Selected(db, termId, Some({key})) ::
      AnalyticsOf(config, db, code, id) in PerCourseAll(db, code, keys, config)
  {
    hide ScoreSection, CourseStatsOf, ObservationsByInstructor, CurrentState, IsLaboratory, JoinedRows,
      NormalizeKey, SectionsByCrn, InKeys;
    if keys != [] {
      var n := |keys| - 1;
      assert keys == keys[..n] + [keys[n]];
      BatchRowsAreOwn(config, db, termId, code, keys[..n]);
      var last := CourseRows(db, termId, JoinedRows(db, code), keys[n], config);
      var sections := SectionsByCrn(db.sections, termId, CourseIds(db.courses, keys[n]));
      forall i | 0 <= i < |sections|
        ensures |last| == |sections| && sections[i].id in Selected(db, termId, Some({keys[n]}))
        ensures sections[i].id in Selected(db, termId, None)
        ensures last[i] == AnalyticsOf(config, db, code, sections[i].id)
        ensures last[i].crn == db.sections[sections[i].id].crn
      {
        ListedSection(db, termId, keys[n], i);
        OwnCrn(config, db, code, sections[i].id);
        AnyKey(db, sections[i].id);
      }
      forall id | id in Selected(db, termId, Some({keys[n]})) ensures AnalyticsOf(config, db, code, id) in last {
        var i := RowOfSection(db, termId, keys[n], id);
      }
    }
  }

  method IndexByCrn(rows: seq<SectionAnalytics>) returns (byCrn: map<string, SectionAnalytics>)
    ensures byCrn.Keys == set r | r in rows :: r.crn
    ensures forall c | c in byCrn :: byCrn[c] in rows && byCrn[c].crn == c
  {
    byCrn := map[];
    for k := 0 to |rows|
      invariant byCrn.Keys == set r | r in rows[..k] :: r.crn
      invariant forall c | c in byCrn :: byCrn[c] in rows && byCrn[c].crn == c
    {
      assert forall r :: r in rows[..k + 1] <==> r in rows[..k] || r == rows[k];
      byCrn := byCrn[rows[k].crn := rows[k]];
    }
    assert rows[..|rows|] == rows;
  }

  function KeysOf(db: Db, ids: set<nat>): set<CourseKey>
    requires CoursesKnown(db) && ids <= db.sections.Keys
  {
    set id | id in ids :: db.courses[db.sections[id].courseId].Key()
  }

  method Listing<T(==)>(s: set<T>) returns (xs: seq<T>)
    ensures forall x :: x in xs <==> x in s
  {
    xs := [];
    var left := s;
    while left != {}
      invariant left <= s && forall x :: x in xs <==> x in s && x !in left
    {
      var x :| x in left;
      left := left - {x};
      xs := xs + [x];
    }
  }

  /** One analytics read for every selected course, looked up by CRN. */
  method AnalyticsForSections(
    config: ScoreConfig, db: Db, termId: nat, code: nat, ids: set<nat>, evidence: GradeEvidenceCache?,
    joined: seq<JoinedRow>)
    returns (byCrn: map<string, SectionAnalytics>)
    requires QueryReady(db) && TermIdOf(db.terms, code) == Some(termId) && db.CoursesOk()
    requires evidence != null ==> evidence.Trusted(db, code)
    requires multiset(joined) == multiset(JoinedRows(db, code))
    requires ids <= Selected(db, termId, None)
    modifies evidence
    ensures evidence != null ==> evidence.Trusted(db, code)
    ensures evidence != null ==> unchanged(evidence) || evidence.key == Some(KeyFor(db, code))
    ensures forall id | id in ids ::
      db.sections[id].crn in byCrn && byCrn[db.sections[id].crn] == AnalyticsOf(config, db, code, id)
  {
    hide AnalyticsOf, PerCourseAll, JoinedRows, EvidenceOk, NormalizeKey, KeyFor;
    var keys := Listing(KeysOf(db, ids));
    if keys == [] {
      NoKeysNoIds(db, ids);
      return map[];
    }
    var e, fetched := ReadEvidence(evidence, db, code, joined);
    var rows := GetTermSectionHistoricalAnalytics(db, code, keys, config, e, fetched);
    byCrn := IndexByCrn(rows);
    BatchRowsAreOwn(config, db, termId, code, keys);
    forall id | id in ids
      ensures db.sections[id].crn in byCrn && byCrn[db.sections[id].crn] == AnalyticsOf(config, db, code, id)
    {
      var key := db.courses[db.sections[id].courseId].Key();
      assert key in KeysOf(db, ids) && id in Selected(db, termId, Some({key}));
      var own := AnalyticsOf(config, db, code, id);
      assert own in rows;
      var other :| other in Selected(db, termId, None) && own == AnalyticsOf(config, db, code, other) &&
        own.crn == db.sections[other].crn;
      OwnCrn(config, db, code, id);
    }
  }

  lemma NoKeysNoIds(db: Db, ids: set<nat>)
    requires CoursesKnown(db) && ids <= db.sections.Keys && KeysOf(db, ids) == {}
    ensures ids == {}
  {
    assert forall id | id in ids :: db.courses[db.sections[id].courseId].Key() in KeysOf(db, ids);
  }

  lemma OwnCrn(config: ScoreConfig, db: Db, code: nat, id: nat)
    requires id in db.sections && db.sections[id].courseId in db.courses
    ensures AnalyticsOf(config, db, code, id).crn == db.sections[id].crn
  {
    hide ScoreSection, CourseStatsOf, ObservationsByInstructor, JoinedRows, CurrentState, IsLaboratory;
    var s := db.sections[id];
    var key := db.courses[s.courseId].Key();
    ScoreKeepsCrn(s.crn, CurrentState(db.instructors, id), IsLaboratory(s.values),
                  CourseStatsOf(JoinedRows(db, code), db.instructors, db.courses, key, config),
                  ObservationsByInstructor(JoinedRows(db, code), db.instructors, CourseIds(db.courses, key)), config);
  }

  /** Adds or overwrites the row of each section. */
  method UpsertRankings(
    session: Session, env: RankingEnv, code: nat, ids: set<nat>, byCrn: map<string, SectionAnalytics>)
    requires CoursesKnown(session.db) && ids <= session.db.sections.Keys
    requires forall id | id in ids ::
      session.db.sections[id].crn in byCrn &&
        byCrn[session.db.sections[id].crn] == AnalyticsOf(env.config, session.db, code, id)
    modifies session
    ensures session.db == old(session.db).(rankings := session.db.rankings)
    ensures session.db.rankings.Keys == old(session.db).rankings.Keys + ids
    ensures forall id | id in session.db.rankings ::
      session.db.rankings[id] == if id in ids then RankingOf(env, old(session.db), code, id)
        else old(session.db).rankings[id]
  {
    hide AnalyticsOf, DisplayOf;
    var db := session.db;
    var left, done: set<nat> := ids, {};
    while left != {}
      invariant left !! done && left + done == ids
      invariant session.db == db.(rankings := session.db.rankings)
      invariant session.db.rankings.Keys == db.rankings.Keys + done
      invariant forall id | id in session.db.rankings ::
        session.db.rankings[id] == if id in done then RankingOf(env, db, code, id) else db.rankings[id]
    {
      var id :| id in left;
      left, done := left - {id}, done + {id};
      var row := Ranking(byCrn[db.sections[id].crn], DisplayOf(env, db, id));
      session.db := session.db.(rankings := session.db.rankings[id := row]);
    }
  }

  /** Rebuilds the rows of the selected courses from one analytics read. */
  method RebuildRankings(
    session: Session, env: RankingEnv, termId: nat, code: nat, scoped: Option<set<CourseKey>>,
    evidence: GradeEvidenceCache?, joined: seq<JoinedRow>)
    requires QueryReady(session.db) && TermIdOf(session.db.terms, code) == Some(termId) && session.db.CoursesOk()
    requires evidence != null ==> evidence.Trusted(session.db, code)
    requires multiset(joined) == multiset(JoinedRows(session.db, code))
    modifies session, evidence
    ensures evidence != null ==> evidence.Trusted(old(session.db), code)
    ensures evidence != null ==> unchanged(evidence) || evidence.key == Some(KeyFor(old(session.db), code))
    ensures session.db == old(session.db).(rankings := Refreshed(env, old(session.db), termId, code, scoped))
  {
    hide RankingOf, AnalyticsOf, JoinedRows, AnswersFor, KeyFor, UniqueCrnsIn, UniqueCodes, NormalizeKey;
    var db := session.db;
    var ids := Selected(db, termId, scoped);
    var byCrn := AnalyticsForSections(env.config, db, termId, code, ids, evidence, joined);
    UpsertRankings(session, env, code, ids, byCrn);
    session.db := session.db.(rankings := session.db.rankings - RemovedSelected(db, termId, scoped));
    assert session.db.rankings == Refreshed(env, db, termId, code, scoped);
  }

  /** Upserts the row of every selected section and drops the rows of removed ones. */
  method RefreshSectionRankings(
    session: Session, env: RankingEnv, termId: nat, code: nat, keys: Option<set<CourseKey>>,
    evidence: GradeEvidenceCache?, joined: seq<JoinedRow>)
    requires QueryReady(session.db) && TermIdOf(session.db.terms, code) == Some(termId) && session.db.CoursesOk()
    requires evidence != null ==> evidence.Trusted(session.db, code)
    requires multiset(joined) == multiset(JoinedRows(session.db, code))
    modifies session, evidence
    ensures evidence != null ==> evidence.Trusted(old(session.db), code)
    ensures evidence != null ==> unchanged(evidence) || evidence.key == Some(KeyFor(old(session.db), code))
    ensures session.db ==
      old(session.db).(rankings := Refreshed(env, old(session.db), termId, code, NormalizedSet(keys)))
  {
    hide RankingOf, JoinedRows, AnswersFor, KeyFor, NormalizedSet, UniqueCrnsIn, UniqueCodes;
    var scoped := NormalizedSet(keys);
    if scoped == Some({}) {
      NothingSelected(env, session.db, termId, code);
      return;
    }
    RebuildRankings(session, env, termId, code, scoped, evidence, joined);
  }

  lemma NothingSelected(env: RankingEnv, db: Db, termId: nat, code: nat)
    requires CoursesKnown(db)
    ensures Refreshed(env, db, termId, code, Some({})) == db.rankings
  {
    hide RankingOf;
  }
}
