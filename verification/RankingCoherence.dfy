/** Rebuilding only the courses a sweep touched, or none after a seat-only sweep, leaves the same
    ranking rows as rebuilding the whole term. */
module RankingCoherence {
  import opened Text
  import opened Instructors
  import opened Schema
  import opened Evidence
  import opened Analytics
  import opened Rankings
  import opened SweepPlan
  import opened SweepApply
  import opened SweepFrame

  lemma NonSeatKept(values: Values, changed: Values)
    requires !StructuralUpdate(changed)
    ensures NonSeat(values + changed) == NonSeat(values)
  {
  }

  lemma LaboratoryByNonSeat(a: Values, b: Values)
    requires NonSeat(a) == NonSeat(b)
    ensures IsLaboratory(a) == IsLaboratory(b)
  {
    assert SectionType in a <==> SectionType in NonSeat(a);
    assert SectionType in b <==> SectionType in NonSeat(b);
    assert SectionType in a ==> NonSeat(a)[SectionType] == a[SectionType];
    assert SectionType in b ==> NonSeat(b)[SectionType] == b[SectionType];
  }

  /** Nothing a ranking shows of an untouched section changes. */
  lemma UntouchedSection(db: Db, termId: nat, plan: Plan, at: int, id: nat)
    requires db.SectionsOk() && GoodPlan(db, termId, plan)
    requires id in db.sections && id !in ChangedIds(db, plan)
    ensures var w := Written(db, termId, plan, at);
      && id in w.sections
      && w.sections[id].crn == db.sections[id].crn && w.sections[id].courseId == db.sections[id].courseId
      && w.sections[id].removedAt == db.sections[id].removedAt
      && NonSeat(w.sections[id].values) == NonSeat(db.sections[id].values)
      && CurrentState(w.instructors, id) == CurrentState(db.instructors, id)
  {
    OldSection(db, termId, plan, at, id);
    if id in plan.fieldUpdates {
      NonSeatKept(db.sections[id].values, plan.fieldUpdates[id]);
    }
    StateKept(db, termId, plan, at, id);
    assert id in RestoreSet(plan) <==> id in plan.restores;
    hide WrittenSections, NonSeat, CurrentState, Full, WrittenInstructors, StructuralUpdate, NewIds,
      AppendIds, WrittenSnapshots;
  }

  lemma StateKept(db: Db, termId: nat, plan: Plan, at: int, id: nat)
    requires id !in NewIds(db, plan.inserts) && id !in AppendIds(plan.instructorAppends)
    ensures CurrentState(WrittenInstructors(db, plan, at), id) == CurrentState(db.instructors, id)
  {
    hide StateFrom, NewObservations, AppendedObservations, ObservationsOf, NewIds, AppendIds;
    NewRowSections(db, plan, at);
    var first, rest := NewObservations(db, plan.inserts, at),
      AppendedObservations(db.nextInstructor + |plan.inserts|, plan.instructorAppends, at);
    ObservationsKept(db.instructors, first, id);
    ObservationsKept(db.instructors + first, rest, id);
  }

  lemma UntouchedRanking(env: RankingEnv, db: Db, termId: nat, code: nat, plan: Plan, at: int, id: nat)
    requires db.SectionsOk() && GoodPlan(db, termId, plan)
    requires termId in db.terms && db.terms[termId] == code
    requires id in db.sections && id !in ChangedIds(db, plan)
    ensures var w := Written(db, termId, plan, at);
      && id in w.sections && w.sections[id].courseId in w.courses
      && RankingOf(env, w, code, id) == RankingOf(env, db, code, id)
  {
    UntouchedSection(db, termId, plan, at, id);
    WrittenWithinTerm(db, termId, plan, at);
    WrittenUnique(db, termId, plan, at);
    var w := Written(db, termId, plan, at);
    LaboratoryByNonSeat(w.sections[id].values, db.sections[id].values);
    CourseEvidenceKept(db, w, termId, code, db.courses[db.sections[id].courseId].Key(), env.config);
    hide ScoreSection, CourseStatsOf, ObservationsByInstructor, JoinedRows, CurrentState, NonSeat,
      IsLaboratory, ChangedIds, GoodPlan, WithinTerm, WrittenSections, WrittenInstructors, WrittenSnapshots,
      UniqueCrnsIn, Full;
  }

  lemma QuietPlanChangesNothing(db: Db, plan: Plan)
    requires !plan.StructuralChange()
    ensures ChangedIds(db, plan) == {}
  {
  }

  lemma KeysNormalized(db: Db, w: Db, plan: Plan)
    requires w.CoursesOk()
    ensures NormalizedSet(Some(ChangedKeys(db, w, plan))) == Some(ChangedKeys(db, w, plan))
  {
    hide NormalizeKey, ChangedIds;
    var keys := ChangedKeys(db, w, plan);
    assert forall k | k in keys :: Normalized(k) == k;
    assert (set k | k in keys :: Normalized(k)) == keys;
  }

  lemma WrittenCourses(db: Db, termId: nat, plan: Plan, at: int)
    requires db.SectionsOk() && GoodPlan(db, termId, plan)
    ensures CoursesKnown(Written(db, termId, plan, at))
  {
    hide AfterSection, Full;
    var w := WrittenSections(db, termId, plan, at);
    forall id | id in w ensures w[id].courseId in db.courses {
      if id in db.sections {
        OldSection(db, termId, plan, at, id);
        OtherTermUntouched(db, termId, plan, at, id);
      } else {
        NewCrn(db, termId, plan, at, id);
        NewCourse(db, termId, plan, at, id);
      }
    }
  }

  lemma NewCourse(db: Db, termId: nat, plan: Plan, at: int, id: nat)
    requires id in WrittenSections(db, termId, plan, at) && id !in db.sections
    ensures db.nextSection <= id < db.nextSection + |plan.inserts|
    ensures WrittenSections(db, termId, plan, at)[id].courseId == plan.inserts[id - db.nextSection].courseId
  {
    NewCrn(db, termId, plan, at, id);
  }

  /** The scoped rebuild is the whole story, whether or not the plan calls for one. */
  lemma AppliedRankings(env: RankingEnv, db: Db, termId: nat, code: nat, plan: Plan, at: int)
    requires db.SectionsOk() && db.CoursesOk() && GoodPlan(db, termId, plan)
    ensures CoursesKnown(Written(db, termId, plan, at))
    ensures var w := Written(db, termId, plan, at);
      Applied(env, db, termId, code, plan, at) ==
        w.(rankings := Refreshed(env, w, termId, code, Some(ChangedKeys(db, w, plan))))
  {
    WrittenCourses(db, termId, plan, at);
    var w := Written(db, termId, plan, at);
    hide RankingOf, NormalizeKey, WrittenSections, WrittenInstructors, WrittenSnapshots, Full, Refreshed,
      NormalizedSet, ChangedIds, GoodPlan;
    KeysNormalized(db, w, plan);
    if !plan.StructuralChange() {
      QuietPlanChangesNothing(db, plan);
      assert ChangedKeys(db, w, plan) == {};
      NothingSelected(env, w, termId, code);
    }
  }

  /** What a coherent cache holds for one section. */
  ghost predicate CoherentAt(env: RankingEnv, db: Db, code: nat, id: nat)
    requires id in db.sections && db.sections[id].courseId in db.courses
  {
    if db.sections[id].Active() then id in db.rankings && db.rankings[id] == RankingOf(env, db, code, id)
    else id !in db.rankings
  }

  /** A rebuilt course is right whatever the cache held before. */
  lemma RebuiltSection(env: RankingEnv, w: Db, termId: nat, code: nat, keys: Option<set<CourseKey>>, id: nat)
    requires CoursesKnown(w) && id in w.sections && w.sections[id].termId == termId && InKeys(w, id, keys)
    ensures CoherentAt(env, w.(rankings := Refreshed(env, w, termId, code, keys)), code, id)
  {
    hide RankingOf, InKeys;
    RankingIgnoresRankings(env, w, w.(rankings := Refreshed(env, w, termId, code, keys)), code, id);
  }

  /** Outside the rebuilt courses the cache is left as it was. */
  lemma SkippedSection(env: RankingEnv, w: Db, termId: nat, code: nat, keys: Option<set<CourseKey>>, id: nat)
    requires CoursesKnown(w) && id in w.sections && !InKeys(w, id, keys)
    ensures var r := Refreshed(env, w, termId, code, keys);
      (id in r <==> id in w.rankings) && (id in r ==> r[id] == w.rankings[id])
  {
    hide RankingOf;
  }

  lemma UntouchedCoherent(env: RankingEnv, db: Db, termId: nat, code: nat, plan: Plan, at: int, id: nat)
    requires db.SectionsOk() && GoodPlan(db, termId, plan)
    requires termId in db.terms && db.terms[termId] == code
    requires id in db.sections && id !in ChangedIds(db, plan) && CoherentAt(env, db, code, id)
    ensures var w := Written(db, termId, plan, at);
      id in w.sections && w.sections[id].courseId in w.courses && CoherentAt(env, w, code, id)
  {
    hide RankingOf, WrittenSections, WrittenInstructors, WrittenSnapshots, Full, NewIds, AppendIds, NonSeat,
      CurrentState, GoodPlan, RestoreSet, StructuralUpdate;
    UntouchedSection(db, termId, plan, at, id);
    UntouchedRanking(env, db, termId, code, plan, at, id);
  }

  /** Main result of one sweep: coherent before, coherent after. */
  lemma SweepKeepsRankingsCoherent(env: RankingEnv, db: Db, termId: nat, code: nat, plan: Plan, at: int)
    requires db.SectionsOk() && db.CoursesOk() && GoodPlan(db, termId, plan)
    requires termId in db.terms && db.terms[termId] == code
    requires Coherent(env, db, termId, code)
    ensures CoursesKnown(Written(db, termId, plan, at)) && CoursesKnown(Applied(env, db, termId, code, plan, at))
    ensures Coherent(env, Applied(env, db, termId, code, plan, at), termId, code)
  {
    hide RankingOf, WrittenSections, WrittenInstructors, WrittenSnapshots, Full, Refreshed, NormalizeKey,
      Applied, GoodPlan, ChangedIds, ChangedKeys;
    AppliedRankings(env, db, termId, code, plan, at);
    var w := Written(db, termId, plan, at);
    var keys := Some(ChangedKeys(db, w, plan));
    var after := w.(rankings := Refreshed(env, w, termId, code, keys));
    forall id | id in after.sections && after.sections[id].termId == termId ensures CoherentAt(env, after, code, id) {
      if InKeys(w, id, keys) {
        RebuiltSection(env, w, termId, code, keys, id);
      } else {
        SkippedSection(env, w, termId, code, keys, id);
        UntouchedKey(db, termId, plan, at, id);
        SameTerm(db, termId, plan, at, id);
        UntouchedCoherent(env, db, termId, code, plan, at, id);
        RankingIgnoresRankings(env, w, after, code, id);
      }
    }
  }

  lemma SameTerm(db: Db, termId: nat, plan: Plan, at: int, id: nat)
    requires db.SectionsOk() && id in db.sections
    ensures id in WrittenSections(db, termId, plan, at)
    ensures WrittenSections(db, termId, plan, at)[id].termId == db.sections[id].termId
  {
    OldSection(db, termId, plan, at, id);
  }

  lemma RankingIgnoresRankings(env: RankingEnv, w: Db, after: Db, code: nat, id: nat)
    requires after == w.(rankings := after.rankings)
    requires id in w.sections && w.sections[id].courseId in w.courses
    ensures RankingOf(env, after, code, id) == RankingOf(env, w, code, id)
  {
    hide ScoreSection, CourseStatsOf, ObservationsByInstructor, JoinGrades, CurrentState, NonSeat,
      IsLaboratory;
  }

  /** A section whose course is not rebuilt was not touched, and existed before. */
  lemma UntouchedKey(db: Db, termId: nat, plan: Plan, at: int, id: nat)
    requires db.SectionsOk() && GoodPlan(db, termId, plan)
    requires var w := Written(db, termId, plan, at);
      id in w.sections && w.sections[id].courseId in w.courses
      && w.courses[w.sections[id].courseId].Key() !in ChangedKeys(db, w, plan)
    ensures id in db.sections && id !in ChangedIds(db, plan)
  {
    hide AfterSection, Full, GoodPlan;
    if id !in db.sections {
      NewCrn(db, termId, plan, at, id);
    }
  }

  /** Coherent means exactly that a whole-term rebuild would change nothing. */
  lemma CoherentIsFullRebuild(env: RankingEnv, db: Db, termId: nat, code: nat)
    requires CoursesKnown(db)
    ensures Coherent(env, db, termId, code) <==> Refreshed(env, db, termId, code, None) == db.rankings
  {
    hide RankingOf;
    var r := Refreshed(env, db, termId, code, None);
    if r == db.rankings {
      forall id | id in db.sections && db.sections[id].termId == termId ensures CoherentAt(env, db, code, id) {
        assert db.sections[id].Active() <==> id in Selected(db, termId, None);
        assert !db.sections[id].Active() <==> id in RemovedSelected(db, termId, None);
      }
    }
  }
}
