/** When a sweep goes through, written out over the stored sections and the rows. */
module GateMeaning {
  import opened Text
  import opened Schema
  import opened SweepPlan
  import opened Scope
  import opened SweepState
  import opened StateReload
  import opened Gate
  import opened DbLoad
  import opened SweepRun
  import opened SweepMeaning

  // ---- The counts, over the stored sections ----

  /** The active sections of the term that a sweep follows. */
  function FollowedIds(db: Db, termId: nat): set<nat> {
    set id | id in db.sections && db.sections[id].termId == termId && db.sections[id].removedAt.None?
      && Followed(db.courses, db.sections[id])
  }

  /** Those that no row lists. */
  function UnlistedIds(db: Db, termId: nat, rows: seq<Row>): set<nat> {
    set id | id in FollowedIds(db, termId) && forall r | r in rows :: r.crn != db.sections[id].crn
  }

  function FollowedSubjects(db: Db, termId: nat): set<string>
    requires forall id | id in db.sections :: db.sections[id].courseId in db.courses
  {
    set id | id in FollowedIds(db, termId) :: db.courses[db.sections[id].courseId].subject
  }

  /** The subjects that no row names any more. */
  function LostSubjects(db: Db, termId: nat, rows: seq<Row>): set<string>
    requires forall id | id in db.sections :: db.sections[id].courseId in db.courses
  {
    set s | s in FollowedSubjects(db, termId) && forall r | r in rows :: r.subject != s
  }

  // ---- The view counts the same ----

  function CrnsAt(sections: map<nat, Section>, ids: set<nat>): set<string>
    requires ids <= sections.Keys
  {
    set id | id in ids :: sections[id].crn
  }

  lemma {:induction false} CrnsCounted(sections: map<nat, Section>, termId: nat, ids: set<nat>)
    requires UniqueCrnsIn(sections) && ids <= sections.Keys && forall id | id in ids :: sections[id].termId == termId
    ensures |CrnsAt(sections, ids)| == |ids|
    decreases |ids|
  {
    if ids != {} {
      var id :| id in ids;
      CrnsCounted(sections, termId, ids - {id});
      assert CrnsAt(sections, ids) == CrnsAt(sections, ids - {id}) + {sections[id].crn};
      assert sections[id].crn !in CrnsAt(sections, ids - {id});
    }
  }

  lemma ViewCrn(db: Db, termId: nat, crn: string) returns (id: nat)
    requires db.SectionsOk() && crn in ViewOf(db, termId).sections
    ensures id in db.sections && db.sections[id].termId == termId && db.sections[id].crn == crn
    ensures ViewOf(db, termId).sections[crn] == ExistingOf(db.courses, id, db.sections[id])
  {
    hide ViewOf, Full, ExistingOf;
    ViewEntry(db, termId, crn);
    id := ViewOf(db, termId).sections[crn].id;
    TermMember(db.sections, termId, id);
  }

  lemma ActiveCounted(db: Db, termId: nat)
    requires db.SectionsOk()
    ensures ActiveInScope(ViewOf(db, termId)) == CrnsAt(db.sections, FollowedIds(db, termId))
    ensures |ActiveInScope(ViewOf(db, termId))| == |FollowedIds(db, termId)|
  {
    hide ViewOf, Full, ExistingOf, Followed;
    var view, ids := ViewOf(db, termId), FollowedIds(db, termId);
    forall c | c in ActiveInScope(view) ensures c in CrnsAt(db.sections, ids) {
      var id := ViewCrn(db, termId, c);
      ViewFields(db.courses, id, db.sections[id]);
      assert id in ids;
    }
    forall c | c in CrnsAt(db.sections, ids) ensures c in ActiveInScope(view) {
      var id :| id in ids && db.sections[id].crn == c;
      TermMember(db.sections, termId, id);
      ViewHas(db, termId, id);
      ViewFields(db.courses, id, db.sections[id]);
    }
    CrnsCounted(db.sections, termId, ids);
  }

  lemma MissingCounted(db: Db, termId: nat, rows: seq<Row>)
    requires db.SectionsOk()
    ensures |MissingCrns(rows, ViewOf(db, termId))| == |UnlistedIds(db, termId, rows)|
  {
    hide ViewOf, Full, ExistingOf, Followed;
    var ids := UnlistedIds(db, termId, rows);
    ActiveCounted(db, termId);
    var missing := MissingCrns(rows, ViewOf(db, termId));
    assert missing == ActiveInScope(ViewOf(db, termId)) - Crns(rows);
    forall c | c in missing ensures c in CrnsAt(db.sections, ids) {
      var id :| id in FollowedIds(db, termId) && db.sections[id].crn == c;
      assert id in ids;
    }
    forall c | c in CrnsAt(db.sections, ids) ensures c in missing {
      var id :| id in ids && db.sections[id].crn == c;
      assert c in CrnsAt(db.sections, FollowedIds(db, termId));
    }
    assert missing == CrnsAt(db.sections, ids);
    CrnsCounted(db.sections, termId, ids);
  }

  lemma SubjectsCounted(db: Db, termId: nat)
    requires db.SectionsOk()
    ensures ActiveSubjects(ViewOf(db, termId)) == FollowedSubjects(db, termId)
  {
    hide ViewOf, Full, ExistingOf, Followed, ActiveInScope, SubjectOf;
    var view, ids := ViewOf(db, termId), FollowedIds(db, termId);
    ActiveCounted(db, termId);
    forall id | id in ids ensures SubjectOf(view, db.sections[id].crn) == db.courses[db.sections[id].courseId].subject {
      SubjectStored(db, termId, id);
    }
    var crns := CrnsAt(db.sections, ids);
    assert ActiveSubjects(view) == SubjectsAt(view, crns);
    forall s | s in FollowedSubjects(db, termId) ensures s in SubjectsAt(view, crns) {
      var id :| id in ids && db.courses[db.sections[id].courseId].subject == s;
      assert db.sections[id].crn in crns;
    }
  }

  lemma SubjectStored(db: Db, termId: nat, id: nat)
    requires db.SectionsOk() && id in db.sections && db.sections[id].termId == termId
    ensures SubjectOf(ViewOf(db, termId), db.sections[id].crn) == db.courses[db.sections[id].courseId].subject
  {
    hide SectionsByCrnMap, StatesOf, SeatsMap, Full;
    TermMember(db.sections, termId, id);
    TermUnique(db.sections, termId);
  }

  // ---- The rules ----

  /** The rules of the sanity gate, for the largest share of the term that may be lost. Up to a tenth
      only the missing sections are judged by it; the row floor stays at nine tenths of the last
      succeeded sweep and the lost subjects at a fiftieth. */
  predicate MayGoThrough(
    listed: nat, active: nat, missing: nat, last: Option<nat>, subjects: nat, lost: nat, share: real) {
    && listed > 0
    && missing as real <= share * active as real
    && (last.Some? ==>
          if share <= 0.1 then 10 * listed >= 9 * last.value else listed as real >= (1.0 - share) * last.value as real)
    && (lost <= 2 || if share <= 0.1 then 50 * lost <= subjects else lost as real <= share * subjects as real)
  }

  lemma FloorOfShare(share: real, n: nat, k: nat)
    ensures k <= (share * n as real).Floor <==> k as real <= share * n as real
  {
  }

  lemma RulesWrittenOut(inp: GateInput, override: Option<real>)
    requires inp.missing <= inp.dbActive
    requires override.Some? ==> 0.0 <= override.value <= 1.0
    ensures ThresholdsFor(override).Some?
    ensures Accepts(inp, ThresholdsFor(override).value) <==>
      MayGoThrough(inp.inScopeRows, inp.dbActive, inp.missing, inp.lastSuccess, |inp.dbSubjects|, |inp.Absent()|,
                   if override.Some? then override.value else 0.1)
  {
    var share := if override.Some? then override.value else 0.1;
    FloorOfShare(share, |inp.dbSubjects|, |inp.Absent()|);
    FloorOfShare(0.02, |inp.dbSubjects|, |inp.Absent()|);
  }

  /** Main result: undisturbed, a sweep succeeds if and only if the response lists something in scope,
      misses at most the share of the active followed sections, has nine tenths of the rows of the
      last succeeded sweep, and loses at most two or a fiftieth of their subjects. */
  lemma SweepGoesThrough(world: World, termId: nat, input: SweepInput)
    requires world.db.SectionsOk() && input.lockFree && !input.fault && !input.dryRun
    requires input.response.Some? && DistinctCrns(InScopeRows(input.response.value))
    requires input.override.Some? ==> 0.0 <= input.override.value <= 1.0
    ensures var rows := InScopeRows(input.response.value);
      Decide(world, termId, input).Succeeded? <==>
        MayGoThrough(
          |rows|, |FollowedIds(world.db, termId)|, |UnlistedIds(world.db, termId, rows)|, world.lastSuccess,
          |FollowedSubjects(world.db, termId)|, |LostSubjects(world.db, termId, rows)|,
          if input.override.Some? then input.override.value else 0.1)
  {
    hide InScopeRows, DistinctCrns, ThresholdsFor, MayGoThrough, Accepts, ViewOf, ActiveInScope, ActiveSubjects,
      MissingCrns, Full, PlanOf, WithAdded, AddedBy, ChosenMap, FollowedIds, UnlistedIds;
    var rows := InScopeRows(input.response.value);
    var inp := GateInputOf(rows, FullState(world, termId, rows));
    ActiveCounted(world.db, termId);
    MissingCounted(world.db, termId, rows);
    SubjectsCounted(world.db, termId);
    LostCounted(world.db, termId, rows);
    UnlistedAmong(world.db, termId, rows);
    RulesWrittenOut(inp, input.override);
  }

  lemma LostCounted(db: Db, termId: nat, rows: seq<Row>)
    requires db.SectionsOk()
    ensures FollowedSubjects(db, termId) - (set r | r in rows :: r.subject) == LostSubjects(db, termId, rows)
  {
    hide FollowedIds, Full;
  }

  lemma UnlistedAmong(db: Db, termId: nat, rows: seq<Row>)
    ensures |UnlistedIds(db, termId, rows)| <= |FollowedIds(db, termId)|
  {
    hide FollowedIds;
    SubsetSize(UnlistedIds(db, termId, rows), FollowedIds(db, termId));
  }

  /** Nothing stands in the way of a response but what it lists. */
  ghost predicate Undisturbed(input: SweepInput) {
    && input.lockFree && !input.fault
    && (input.override.Some? ==> 0.0 <= input.override.value <= 1.0)
    && input.response.Some? && DistinctCrns(InScopeRows(input.response.value))
  }

  ghost predicate RulesHold(world: World, termId: nat, input: SweepInput)
    requires world.db.SectionsOk() && input.response.Some?
  {
    var rows := InScopeRows(input.response.value);
    MayGoThrough(
      |rows|, |FollowedIds(world.db, termId)|, |UnlistedIds(world.db, termId, rows)|, world.lastSuccess,
      |FollowedSubjects(world.db, termId)|, |LostSubjects(world.db, termId, rows)|,
      if input.override.Some? then input.override.value else 0.1)
  }

  /** Main result, every outcome of every sweep: busy without the lock, else succeeded or rehearsed
      exactly when it is undisturbed and the rules hold. */
  lemma OutcomesExactly(world: World, termId: nat, input: SweepInput)
    requires world.db.SectionsOk()
    ensures var outcome := Decide(world, termId, input);
      && (outcome.Busy? <==> !input.lockFree)
      && (outcome.Succeeded? <==> !input.dryRun && Undisturbed(input) && RulesHold(world, termId, input))
      && (outcome.Rehearsed? <==> input.dryRun && Undisturbed(input) && RulesHold(world, termId, input))
  {
    hide InScopeRows, DistinctCrns, MayGoThrough, ViewOf, PlanOf, WithAdded, AddedBy, ChosenMap, FollowedIds,
      UnlistedIds, FollowedSubjects, LostSubjects, FullState, Accepts, GateInputOf;
    if Undisturbed(input) {
      SweepGoesThrough(world, termId, input.(dryRun := false));
    }
  }

  /** Without an override: the four rules in whole numbers. */
  lemma DefaultGate(world: World, termId: nat, input: SweepInput)
    requires world.db.SectionsOk() && input.lockFree && !input.fault && !input.dryRun && input.override.None?
    requires input.response.Some? && DistinctCrns(InScopeRows(input.response.value))
    ensures var db, rows := world.db, InScopeRows(input.response.value);
      Decide(world, termId, input).Succeeded? <==>
        && rows != []
        && 10 * |UnlistedIds(db, termId, rows)| <= |FollowedIds(db, termId)|
        && (world.lastSuccess.Some? ==> 10 * |rows| >= 9 * world.lastSuccess.value)
        && (|LostSubjects(db, termId, rows)| <= 2 ||
          50 * |LostSubjects(db, termId, rows)| <= |FollowedSubjects(db, termId)|)
  {
    hide InScopeRows, DistinctCrns, FollowedIds, UnlistedIds, FollowedSubjects, LostSubjects, Decide, Full;
    SweepGoesThrough(world, termId, input);
  }
}
