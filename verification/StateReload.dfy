/** Reading again only the sections a sweep wrote gives what reading the whole term would give. */
module StateReload {
  import opened Instructors
  import opened Schema
  import opened SweepPlan
  import opened SweepState
  import opened SweepApply
  import opened SweepFrame
  import opened RankingCoherence

  /** A section and its histories look the same in both states. */
  ghost predicate SameInView(db: Db, w: Db, id: nat) {
    && id in db.sections && id in w.sections
    && w.sections[id].crn == db.sections[id].crn
    && ExistingOf(w.courses, id, w.sections[id]) == ExistingOf(db.courses, id, db.sections[id])
    && CourseSubject(w.courses, w.sections[id].courseId) == CourseSubject(db.courses, db.sections[id].courseId)
    && CurrentState(w.instructors, id) == CurrentState(db.instructors, id)
    && LatestSnapshot(w.snapshots, id) == LatestSnapshot(db.snapshots, id)
  }

  /** The general law: patching a view needs only the sections that differ, new ones included. */
  lemma PatchedView(db: Db, w: Db, old_: set<nat>, touched: set<nat>)
    requires UniqueIn(db.sections, old_) && UniqueIn(w.sections, old_ + touched)
    requires forall id | id in old_ :: id in w.sections && w.sections[id].crn == db.sections[id].crn
    requires forall id | id in old_ - touched :: SameInView(db, w, id)
    ensures UniqueIn(w.sections, touched)
    ensures Reloaded(w, ViewOfIds(db, old_), touched) == ViewOfIds(w, old_ + touched)
  {
    hide SectionsByCrnMap, SubjectsByCrnMap, StatesOf, SeatsMap, SameInView;
    PatchedByCrn(db, w, old_, touched);
    PatchedHistories(db, w, old_, touched);
  }

  lemma PatchedHistories(db: Db, w: Db, old_: set<nat>, touched: set<nat>)
    requires forall id | id in old_ - touched :: SameInView(db, w, id)
    ensures (SeatsMap(db.snapshots, old_) - touched) + SeatsMap(w.snapshots, touched) ==
      SeatsMap(w.snapshots, old_ + touched)
    ensures (StatesOf(db.instructors, old_) - touched) + StatesOf(w.instructors, touched) ==
      StatesOf(w.instructors, old_ + touched)
  {
    hide ExistingOf, CurrentState, LatestSnapshot, CourseSubject;
    forall id | id in old_ && id !in touched
      ensures CurrentState(w.instructors, id) == CurrentState(db.instructors, id)
      ensures LatestSnapshot(w.snapshots, id) == LatestSnapshot(db.snapshots, id)
    {
      assert SameInView(db, w, id);
    }
  }

  lemma PatchedByCrn(db: Db, w: Db, old_: set<nat>, touched: set<nat>)
    requires UniqueIn(db.sections, old_) && UniqueIn(w.sections, old_ + touched) && UniqueIn(w.sections, touched)
    requires forall id | id in old_ :: id in w.sections && w.sections[id].crn == db.sections[id].crn
    requires forall id | id in old_ - touched :: SameInView(db, w, id)
    ensures SectionsByCrnMap(db.courses, db.sections, old_) + SectionsByCrnMap(w.courses, w.sections, touched)
         == SectionsByCrnMap(w.courses, w.sections, old_ + touched)
    ensures SubjectsByCrnMap(db.courses, db.sections, old_) + SubjectsByCrnMap(w.courses, w.sections, touched)
         == SubjectsByCrnMap(w.courses, w.sections, old_ + touched)
  {
    hide ExistingOf, CourseSubject, SectionsByCrnMap, SubjectsByCrnMap, CurrentState, LatestSnapshot, CrnsOf;
    MapFacts(db.courses, db.sections, old_);
    MapFacts(w.courses, w.sections, touched);
    MapFacts(w.courses, w.sections, old_ + touched);
    CrnsUnion(db.sections, w.sections, old_, touched);
    var a := SectionsByCrnMap(db.courses, db.sections, old_) + SectionsByCrnMap(w.courses, w.sections, touched);
    var b := SubjectsByCrnMap(db.courses, db.sections, old_) + SubjectsByCrnMap(w.courses, w.sections, touched);
    forall id | id in old_ + touched
      ensures w.sections[id].crn in a && a[w.sections[id].crn] == ExistingOf(w.courses, id, w.sections[id])
      ensures w.sections[id].crn in b && b[w.sections[id].crn] == CourseSubject(w.courses, w.sections[id].courseId)
    {
      CrnAmong(w.sections, old_ + touched, touched, id);
      if id !in touched {
        assert SameInView(db, w, id);
      }
    }
    SameByCrn(a, SectionsByCrnMap(w.courses, w.sections, old_ + touched), w.sections, old_ + touched);
    SameByCrn(b, SubjectsByCrnMap(w.courses, w.sections, old_ + touched), w.sections, old_ + touched);
  }

  lemma CrnsUnion(a: map<nat, Section>, b: map<nat, Section>, old_: set<nat>, touched: set<nat>)
    requires old_ <= a.Keys && old_ + touched <= b.Keys
    requires forall id | id in old_ :: b[id].crn == a[id].crn
    ensures CrnsOf(a, old_) + CrnsOf(b, touched) == CrnsOf(b, old_ + touched)
  {
  }

  lemma CrnAmong(sections: map<nat, Section>, all: set<nat>, some: set<nat>, id: nat)
    requires UniqueIn(sections, all) && some <= all && id in all
    ensures sections[id].crn in CrnsOf(sections, some) <==> id in some
    ensures sections[id].crn in CrnsOf(sections, all)
  {
  }

  // ---- A plan leaves the untouched sections as they look ----

  lemma SnapshotsKept(table: seq<SnapshotRow>, extra: seq<SnapshotRow>, sectionId: nat)
    requires forall r | r in extra :: r.sectionId != sectionId
    ensures LatestSnapshot(table + extra, sectionId) == LatestSnapshot(table, sectionId)
    decreases |extra|
  {
    if extra == [] {
      assert table + extra == table;
    } else {
      var n := |extra| - 1;
      assert table + extra == (table + extra[..n]) + [extra[n]];
      assert ((table + extra[..n]) + [extra[n]])[..|table| + n] == table + extra[..n];
      assert extra[n] in extra;
      SnapshotsKept(table, extra[..n], sectionId);
    }
  }

  lemma NewSnapshotSections(db: Db, plan: Plan, at: int)
    ensures forall r | r in NewSnapshots(db, plan.inserts, at) :: r.sectionId in NewIds(db, plan.inserts)
    ensures forall r | r in AppendedSnapshots(db.nextSnapshot + |plan.inserts|, plan.snapshotAppends, at) ::
      r.sectionId in AppendIds(plan.snapshotAppends)
  {
    hide SeatsOf;
    var first := NewSnapshots(db, plan.inserts, at);
    forall r | r in first ensures r.sectionId in NewIds(db, plan.inserts) {
      var i :| 0 <= i < |first| && first[i] == r;
      assert InRange(db.nextSection + i, db.nextSection, |plan.inserts|);
    }
    var rows := AppendedSnapshots(db.nextSnapshot + |plan.inserts|, plan.snapshotAppends, at);
    forall r | r in rows ensures r.sectionId in AppendIds(plan.snapshotAppends) {
      var i :| 0 <= i < |rows| && rows[i] == r;
      assert plan.snapshotAppends[i] in plan.snapshotAppends;
    }
  }

  lemma SeatsKept(db: Db, plan: Plan, at: int, id: nat)
    requires id !in NewIds(db, plan.inserts) && id !in AppendIds(plan.snapshotAppends)
    ensures LatestSnapshot(WrittenSnapshots(db, plan, at), id) == LatestSnapshot(db.snapshots, id)
  {
    hide NewSnapshots, AppendedSnapshots, LatestSnapshot, NewIds, AppendIds;
    NewSnapshotSections(db, plan, at);
    var first, rest := NewSnapshots(db, plan.inserts, at),
      AppendedSnapshots(db.nextSnapshot + |plan.inserts|, plan.snapshotAppends, at);
    SnapshotsKept(db.snapshots, first, id);
    SnapshotsKept(db.snapshots + first, rest, id);
  }

  lemma UntouchedView(db: Db, termId: nat, plan: Plan, at: int, id: nat)
    requires db.SectionsOk() && GoodPlan(db, termId, plan)
    requires id in db.sections && id !in TouchedIds(db, plan)
    ensures SameInView(db, Written(db, termId, plan, at), id)
  {
    hide WrittenSections, WrittenInstructors, WrittenSnapshots, CurrentState, LatestSnapshot, NewIds,
      AppendIds, Full, GoodPlan;
    OldSection(db, termId, plan, at, id);
    StateKept(db, termId, plan, at, id);
    SeatsKept(db, plan, at, id);
    assert id in RestoreSet(plan) <==> id in plan.restores;
  }

  lemma TermIdsAfter(db: Db, termId: nat, plan: Plan, at: int)
    requires db.SectionsOk() && GoodPlan(db, termId, plan)
    ensures SectionIdsOf(WrittenSections(db, termId, plan, at), termId) ==
      SectionIdsOf(db.sections, termId) + TouchedIds(db, plan)
    ensures TouchedIds(db, plan) <= SectionIdsOf(WrittenSections(db, termId, plan, at), termId)
  {
    hide AfterSection, Full;
    var w := WrittenSections(db, termId, plan, at);
    forall id | id in w
      ensures id in SectionIdsOf(w, termId) <==>
        id in SectionIdsOf(db.sections, termId) || id in NewIds(db, plan.inserts)
    {
      if id in db.sections {
        OldSection(db, termId, plan, at, id);
        OtherTermUntouched(db, termId, plan, at, id);
      } else {
        NewCrn(db, termId, plan, at, id);
      }
    }
    forall id | id in SectionIdsOf(db.sections, termId) ensures id in w {
      OldSection(db, termId, plan, at, id);
    }
    forall id | id in NewIds(db, plan.inserts) ensures id in w {
      NewIdWritten(db, termId, plan, at, id);
    }
  }

  /** After any plan, the re-read of the touched sections is the full view. */
  lemma ReloadIsFullLoad(db: Db, termId: nat, plan: Plan, at: int)
    requires db.SectionsOk() && GoodPlan(db, termId, plan)
    ensures Written(db, termId, plan, at).UniqueCrns()
    ensures UniqueIn(Written(db, termId, plan, at).sections, TouchedIds(db, plan))
    ensures Reloaded(Written(db, termId, plan, at), ViewOf(db, termId), TouchedIds(db, plan)) ==
      ViewOf(Written(db, termId, plan, at), termId)
  {
    var w := Written(db, termId, plan, at);
    hide WrittenSections, WrittenInstructors, WrittenSnapshots, ViewOfIds, SectionIdsOf, TouchedIds, Full,
      GoodPlan, Reloaded, Kept, SameInView;
    WrittenUnique(db, termId, plan, at);
    TermIdsAfter(db, termId, plan, at);
    var ids := SectionIdsOf(db.sections, termId);
    TermUnique(w.sections, termId);
    TermUnique(db.sections, termId);
    forall id | id in ids ensures id in w.sections && w.sections[id].crn == db.sections[id].crn {
      TermMember(db.sections, termId, id);
      OldSection(db, termId, plan, at, id);
      CrnAfter(db.sections[id], id, termId, plan, at);
    }
    forall id | id in ids - TouchedIds(db, plan) ensures SameInView(db, w, id) {
      TermMember(db.sections, termId, id);
      UntouchedView(db, termId, plan, at, id);
    }
    PatchedView(db, w, ids, TouchedIds(db, plan));
  }

  lemma CrnAfter(s: Section, id: nat, termId: nat, plan: Plan, at: int)
    ensures AfterSection(s, id, termId, plan, at).crn == s.crn
  {
  }

  lemma TermMember(sections: map<nat, Section>, termId: nat, id: nat)
    ensures id in SectionIdsOf(sections, termId) <==> id in sections && sections[id].termId == termId
  {
  }

  lemma TermUnique(sections: map<nat, Section>, termId: nat)
    requires UniqueCrnsIn(sections)
    ensures UniqueIn(sections, SectionIdsOf(sections, termId))
  {
  }
}
