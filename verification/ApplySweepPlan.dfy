/** Applying a plan inside the sweep's transaction. */
module ApplySweepPlan {
  import opened Text
  import opened Instructors
  import opened Schema
  import opened Evidence
  import opened Analytics
  import opened TermAnalytics
  import opened Rankings
  import opened SweepPlan
  import opened SweepApply
  import opened SweepFrame
  import opened RankingCoherence
  import opened EvidenceCache
  import opened EvidenceTrust

  /** Outside these courses every section was there before and kept its mark and its ranking row. */
  ghost predicate RankingsStand(env: RankingEnv, db: Db, w: Db, code: nat, keys: set<CourseKey>)
    requires CoursesKnown(db) && CoursesKnown(w)
  {
    forall id | id in w.sections && w.courses[w.sections[id].courseId].Key() !in keys ::
      && id in db.sections && db.sections[id].removedAt == w.sections[id].removedAt
      && RankingOf(env, db, code, id) == RankingOf(env, w, code, id)
  }

  /** Every key is the course of a section that the plan wrote to. */
  ghost predicate OnlyWritten(db: Db, w: Db, plan: Plan, keys: set<CourseKey>)
    requires CoursesKnown(w)
  {
    forall k | k in keys :: exists id ::
      id in w.sections && id in TouchedIds(db, plan) && w.courses[w.sections[id].courseId].Key() == k
  }

  /** `_changed_course_keys`: the courses of every section whose cached ranking can have changed.
      A section of any other course shows what it showed before the sweep. */
  method ChangedCourseKeys(
    session: Session, ghost env: RankingEnv, ghost before: Db, plan: Plan, newIds: set<nat>,
    ghost termId: nat, ghost code: nat, ghost at: int)
    returns (keys: set<CourseKey>)
    requires before.SectionsOk() && GoodPlan(before, termId, plan) && session.db == Written(before, termId, plan, at)
    requires termId in before.terms && before.terms[termId] == code && newIds == NewIds(before, plan.inserts)
    ensures CoursesKnown(session.db) && RankingsStand(env, before, session.db, code, keys)
    ensures OnlyWritten(before, session.db, plan, keys)
    ensures keys == ChangedKeys(before, session.db, plan)
  {
    hide WrittenSections, WrittenInstructors, WrittenSnapshots, GoodPlan, Full, RankingOf;
    WrittenCourses(before, termId, plan, at);
    var structural := set id | id in plan.fieldUpdates && StructuralUpdate(plan.fieldUpdates[id]);
    var ids := newIds + plan.removals + RestoreSet(plan) + AppendIds(plan.instructorAppends) + structural;
    keys := set id | id in ids && id in session.db.sections && session.db.sections[id].courseId in session.db.courses ::
      session.db.courses[session.db.sections[id].courseId].Key();
    ChangedKeysSuffice(env, before, termId, code, plan, at);
  }

  lemma ChangedKeysSuffice(env: RankingEnv, db: Db, termId: nat, code: nat, plan: Plan, at: int)
    requires db.SectionsOk() && GoodPlan(db, termId, plan) && termId in db.terms && db.terms[termId] == code
    ensures CoursesKnown(Written(db, termId, plan, at))
    ensures RankingsStand(env, db, Written(db, termId, plan, at), code,
      ChangedKeys(db, Written(db, termId, plan, at), plan))
  {
    hide WrittenSections, WrittenInstructors, WrittenSnapshots, GoodPlan, Full, RankingOf, ChangedKeys,
      ChangedIds, NonSeat, CurrentState;
    WrittenCourses(db, termId, plan, at);
    var w := Written(db, termId, plan, at);
    forall id | id in w.sections && w.courses[w.sections[id].courseId].Key() !in ChangedKeys(db, w, plan)
      ensures id in db.sections && db.sections[id].removedAt == w.sections[id].removedAt
        && RankingOf(env, db, code, id) == RankingOf(env, w, code, id)
    {
      UntouchedKey(db, termId, plan, at, id);
      UntouchedSection(db, termId, plan, at, id);
      UntouchedRanking(env, db, termId, code, plan, at, id);
    }
  }

  /** The ordered writes, then the scoped rebuild, which reads the kept grade evidence against the
      written tables; returns every section it wrote. The evidence stays right for the tables as
      they were, should the writes be rolled back. */
  method Apply(
    session: Session, env: RankingEnv, plan: Plan, termId: nat, code: nat, at: int,
    evidence: GradeEvidenceCache?, joined: seq<JoinedRow>)
    returns (touched: set<nat>)
    requires session.db.SectionsOk() && session.db.CoursesOk() && session.db.TermsOk()
    requires GoodPlan(session.db, termId, plan)
    requires termId in session.db.terms && session.db.terms[termId] == code
    requires evidence != null ==> evidence.Trusted(session.db, code)
    requires multiset(joined) == multiset(JoinedRows(session.db, code))
    modifies session, evidence
    ensures CoursesKnown(Written(old(session.db), termId, plan, at))
    ensures session.db == Applied(env, old(session.db), termId, code, plan, at)
    ensures touched == TouchedIds(old(session.db), plan)
    ensures evidence != null ==> evidence.Trusted(old(session.db), code)
    ensures evidence != null ==> unchanged(evidence) || evidence.key == Some(KeyFor(old(session.db), code))
  {
    hide Refreshed, WrittenSections, WrittenInstructors, WrittenSnapshots, JoinedRows, NormalizeKey, Full,
      ChangedKeys, AnswersFor, KeyFor, GoodPlan, WithinTerm, RankingsStand, OnlyWritten;
    ghost var db := session.db;
    var newIds := NewIds(session.db, plan.inserts);
    WritePlan(session, termId, plan, at);
    WrittenCourses(db, termId, plan, at);
    ReadyAfterWrites(db, session.db, termId, code, plan, at);
    if evidence != null {
      SweepKeepsTrust(evidence, db, session.db, termId, code);
    }
    if plan.StructuralChange() {
      var keys := ChangedCourseKeys(session, env, db, plan, newIds, termId, code, at);
      ghost var w := session.db;
      RefreshSectionRankings(session, env, termId, code, Some(keys), evidence, joined);
      if evidence != null {
        SweepKeepsTrust(evidence, db, w, termId, code);
      }
    }
    touched := newIds + plan.fieldUpdates.Keys + AppendIds(plan.instructorAppends)
               + AppendIds(plan.snapshotAppends) + plan.removals + RestoreSet(plan);
  }

  lemma ReadyAfterWrites(db: Db, w: Db, termId: nat, code: nat, plan: Plan, at: int)
    requires db.SectionsOk() && db.CoursesOk() && db.TermsOk() && GoodPlan(db, termId, plan)
    requires termId in db.terms && db.terms[termId] == code && w == Written(db, termId, plan, at)
    ensures QueryReady(w) && TermIdOf(w.terms, code) == Some(termId) && w.CoursesOk()
    ensures UniqueCrnsIn(db.sections) && WithinTerm(db, w, termId)
    ensures JoinedRows(w, code) == JoinedRows(db, code)
  {
    hide JoinGrades, NormalizeKey, Full, WrittenSections, WrittenInstructors, WrittenSnapshots, GoodPlan,
      WithinTerm;
    WrittenUnique(db, termId, plan, at);
    WrittenCourses(db, termId, plan, at);
    WrittenWithinTerm(db, termId, plan, at);
    EvidenceKept(db, w, termId, code);
    assert code in db.terms.Values;
  }

  // ---- The tables stay sound ----

  lemma FullUpdated(values: Values, updates: map<nat, Values>, id: nat)
    requires Full(values)
    ensures Full(UpdatedValues(values, updates, id))
  {
  }

  lemma AppliedSectionsOk(db: Db, termId: nat, plan: Plan, at: int)
    requires db.SectionsOk() && GoodPlan(db, termId, plan)
    ensures Written(db, termId, plan, at).SectionsOk()
  {
    hide Full, UpdatedValues;
    var w := Written(db, termId, plan, at);
    WrittenUnique(db, termId, plan, at);
    WrittenCourses(db, termId, plan, at);
    forall id | id in w.sections ensures id < w.nextSection && Full(w.sections[id].values) {
      if id in db.sections {
        OldSection(db, termId, plan, at, id);
        FullUpdated(db.sections[id].values, plan.fieldUpdates, id);
      } else {
        NewCrn(db, termId, plan, at, id);
        FullUpdated(plan.inserts[id - db.nextSection].row.values, plan.fieldUpdates, id);
      }
    }
  }

  lemma AppliedHistoryOk(db: Db, termId: nat, plan: Plan, at: int)
    requires db.SectionsOk() && db.HistoryOk() && GoodPlan(db, termId, plan)
    ensures Written(db, termId, plan, at).HistoryOk()
  {
    hide Full, WrittenSections, GoodPlan;
    var w := Written(db, termId, plan, at);
    forall r | r in w.instructors ensures r.sectionId in w.sections && r.id < w.nextInstructor {
      InstructorRowOk(db, termId, plan, at, r);
    }
    forall r | r in w.snapshots ensures r.sectionId in w.sections && r.id < w.nextSnapshot {
      SnapshotRowOk(db, termId, plan, at, r);
    }
  }

  lemma InstructorRowOk(db: Db, termId: nat, plan: Plan, at: int, r: InstructorRow)
    requires db.SectionsOk() && db.HistoryOk() && GoodPlan(db, termId, plan)
    requires r in WrittenInstructors(db, plan, at)
    ensures r.sectionId in WrittenSections(db, termId, plan, at)
    ensures r.id < db.nextInstructor + |plan.inserts| + |plan.instructorAppends|
  {
    hide Full, WrittenSections, AppendIds, NewIds, GoodPlan;
    var first := NewObservations(db, plan.inserts, at);
    var rest := AppendedObservations(db.nextInstructor + |plan.inserts|, plan.instructorAppends, at);
    NewRowSections(db, plan, at);
    if r in db.instructors {
      OldSection(db, termId, plan, at, r.sectionId);
    } else {
      assert r in first || r in rest;
      WrittenTerm(db, termId, plan, at, r.sectionId);
      var k := if r in first then (var i :| 0 <= i < |first| && first[i] == r; i)
        else (var i :| 0 <= i < |rest| && rest[i] == r; i);
    }
  }

  lemma SnapshotRowOk(db: Db, termId: nat, plan: Plan, at: int, r: SnapshotRow)
    requires db.SectionsOk() && db.HistoryOk() && GoodPlan(db, termId, plan)
    requires r in WrittenSnapshots(db, plan, at)
    ensures r.sectionId in WrittenSections(db, termId, plan, at)
    ensures r.id < db.nextSnapshot + |plan.inserts| + |plan.snapshotAppends|
  {
    hide Full, WrittenSections, SeatsOf;
    var first := NewSnapshots(db, plan.inserts, at);
    var rest := AppendedSnapshots(db.nextSnapshot + |plan.inserts|, plan.snapshotAppends, at);
    if r in db.snapshots {
      OldSection(db, termId, plan, at, r.sectionId);
    } else if r in first {
      var i :| 0 <= i < |first| && first[i] == r;
      assert InRange(db.nextSection + i, db.nextSection, |plan.inserts|);
      NewIdWritten(db, termId, plan, at, r.sectionId);
    } else {
      assert r in rest;
      var i :| 0 <= i < |rest| && rest[i] == r;
      assert plan.snapshotAppends[i] in plan.snapshotAppends && r.sectionId in AppendIds(plan.snapshotAppends);
      OldSection(db, termId, plan, at, r.sectionId);
    }
  }

  /** A sweep keeps every table invariant. */
  lemma SweepKeepsValid(env: RankingEnv, db: Db, termId: nat, code: nat, plan: Plan, at: int)
    requires db.Valid() && GoodPlan(db, termId, plan)
    ensures CoursesKnown(Written(db, termId, plan, at))
    ensures Applied(env, db, termId, code, plan, at).Valid()
  {
    hide Refreshed, WrittenSections, WrittenInstructors, WrittenSnapshots, NormalizeKey, Full, GoodPlan,
      NormalizedSet, ChangedKeys;
    WrittenCourses(db, termId, plan, at);
    AppliedSectionsOk(db, termId, plan, at);
    AppliedHistoryOk(db, termId, plan, at);
  }
}
