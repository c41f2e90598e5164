/** Taking a backfill back: which sections may go, and that nothing else does. */
module Rollback {
  import opened Text
  import opened Instructors
  import opened Schema
  import opened SweepPlan
  import opened Backfill

  /** The five historical grade terms; nothing else can be backfilled or rolled back. */
  const HISTORICAL_GRADE_TERMS: set<nat> := {202408, 202501, 202505, 202508, 202601}

  predicate IsHistorical(db: Db, termId: nat) {
    termId in db.terms && db.terms[termId] in HISTORICAL_GRADE_TERMS
  }

  predicate HasInstructor(table: seq<InstructorRow>, id: nat) {
    exists r | r in table :: r.sectionId == id
  }

  predicate HasOtherSource(table: seq<InstructorRow>, id: nat) {
    exists r | r in table :: r.sectionId == id && r.source != BACKFILL_SOURCE
  }

  predicate HasSnapshot(table: seq<SnapshotRow>, id: nat) {
    exists r | r in table :: r.sectionId == id
  }

  /** Only the backfill ever wrote to this section. */
  predicate Eligible(db: Db, id: nat) {
    && !HasSnapshot(db.snapshots, id) && id !in db.syllabi
    && HasInstructor(db.instructors, id) && !HasOtherSource(db.instructors, id)
  }

  /** The historical term code of a stored section. */
  function CodeOf(db: Db, id: nat): Option<nat> {
    if id in db.sections && IsHistorical(db, db.sections[id].termId) then Some(db.terms[db.sections[id].termId])
      else None
  }

  predicate Asked(db: Db, id: nat, codes: set<nat>) {
    CodeOf(db, id).Some? && CodeOf(db, id).value in codes
  }

  function Rollbackable(db: Db, codes: set<nat>): set<nat> {
    set id | id in db.sections && Asked(db, id, codes) && Eligible(db, id)
  }

  function EligibleIn(db: Db, code: nat): set<nat> {
    set id | id in db.sections && CodeOf(db, id) == Some(code) && Eligible(db, id)
  }

  function SectionsIn(db: Db, code: nat): set<nat> {
    set id | id in db.sections && CodeOf(db, id) == Some(code)
  }

  datatype RollbackSelection = RollbackSelection(ids: set<nat>, eligible: map<nat, nat>, ineligible: map<nat, nat>)

  /** `select_rollback_sections`, with the eligible and the kept sections counted by term. */
  method SelectRollbackSections(db: Db, codes: set<nat>) returns (r: RollbackSelection)
    ensures r.ids == Rollbackable(db, codes)
    ensures r.eligible.Keys == r.ineligible.Keys == codes * HISTORICAL_GRADE_TERMS
    ensures forall c | c in r.eligible ::
      r.eligible[c] == |EligibleIn(db, c)| && r.eligible[c] + r.ineligible[c] == |SectionsIn(db, c)|
  {
    hide Eligible, Rollbackable, EligibleIn, SectionsIn, CodeOf, CountsOk;
    var wanted := codes * HISTORICAL_GRADE_TERMS;
    var ids: set<nat> := {};
    var eligible: map<nat, nat>, ineligible: map<nat, nat> := map c | c in wanted :: 0, map c | c in wanted :: 0;
    var left: set<nat>, done: set<nat> := db.sections.Keys, {};
    NoCounts(db, wanted);
    while left != {}
      invariant left !! done && left + done == db.sections.Keys
      invariant ids == Rollbackable(db, codes) * done
      invariant eligible.Keys == ineligible.Keys == wanted && CountsOk(db, wanted, done, eligible, ineligible)
    {
      var id :| id in left;
      Historical(db, id, codes);
      SelectStep(db, codes, done, id);
      var code := CodeOf(db, id);
      CountsNext(db, wanted, done, id, eligible, ineligible);
      left, done := left - {id}, done + {id};
      if code.Some? && code.value in codes {
        if Eligible(db, id) {
          ids := ids + {id};
          eligible := eligible[code.value := eligible[code.value] + 1];
        } else {
          ineligible := ineligible[code.value := ineligible[code.value] + 1];
        }
      }
    }
    assert done == db.sections.Keys;
    AllStored(db, codes);
    CountsTotal(db, wanted, eligible, ineligible);
    r := RollbackSelection(ids, eligible, ineligible);
  }

  lemma Historical(db: Db, id: nat, codes: set<nat>)
    ensures CodeOf(db, id).Some? ==>
      (CodeOf(db, id).value in codes <==> CodeOf(db, id).value in codes * HISTORICAL_GRADE_TERMS)
  {
  }

  lemma SelectStep(db: Db, codes: set<nat>, done: set<nat>, id: nat)
    requires id in db.sections
    ensures Rollbackable(db, codes) * (done + {id}) ==
            Rollbackable(db, codes) * done +
              (if CodeOf(db, id).Some? && CodeOf(db, id).value in codes && Eligible(db, id) then {id} else {})
  {
    hide Eligible, CodeOf;
  }

  ghost predicate CountsOk(
    db: Db, wanted: set<nat>, done: set<nat>, eligible: map<nat, nat>, ineligible: map<nat, nat>) {
    && eligible.Keys == ineligible.Keys == wanted
    && forall c | c in wanted ::
         eligible[c] == |EligibleIn(db, c) * done| && eligible[c] + ineligible[c] == |SectionsIn(db, c) * done|
  }

  lemma NoCounts(db: Db, wanted: set<nat>)
    ensures CountsOk(db, wanted, {}, map c | c in wanted :: 0, map c | c in wanted :: 0)
  {
    hide EligibleIn, SectionsIn;
    assert forall s: set<nat> :: |s * {}| == 0;
  }

  /** One more section counts once, for its own term. */
  lemma CountStep(db: Db, done: set<nat>, id: nat, c: nat)
    requires id !in done && id in db.sections
    ensures |EligibleIn(db, c) * (done + {id})| ==
      |EligibleIn(db, c) * done| + (if CodeOf(db, id) == Some(c) && Eligible(db, id) then 1 else 0)
    ensures |SectionsIn(db, c) * (done + {id})| ==
      |SectionsIn(db, c) * done| + (if CodeOf(db, id) == Some(c) then 1 else 0)
  {
    hide Eligible, CodeOf;
    OneMore(EligibleIn(db, c), done, id);
    OneMore(SectionsIn(db, c), done, id);
  }

  lemma OneMore(s: set<nat>, done: set<nat>, id: nat)
    requires id !in done
    ensures |s * (done + {id})| == |s * done| + if id in s then 1 else 0
  {
    assert s * (done + {id}) == s * done + if id in s then {id} else {};
  }

  lemma CountsNext(
    db: Db, wanted: set<nat>, done: set<nat>, id: nat, eligible: map<nat, nat>, ineligible: map<nat, nat>)
    requires id !in done && id in db.sections && CountsOk(db, wanted, done, eligible, ineligible)
    ensures var code := CodeOf(db, id);
      if code.None? || code.value !in wanted then CountsOk(db, wanted, done + {id}, eligible, ineligible)
      else if Eligible(db, id)
      then CountsOk(db, wanted, done + {id}, eligible[code.value := eligible[code.value] + 1], ineligible)
      else CountsOk(db, wanted, done + {id}, eligible, ineligible[code.value := ineligible[code.value] + 1])
  {
    hide EligibleIn, SectionsIn, Eligible, CodeOf;
    forall c | c in wanted
      ensures |EligibleIn(db, c) * (done + {id})| ==
        |EligibleIn(db, c) * done| + (if CodeOf(db, id) == Some(c) && Eligible(db, id) then 1 else 0)
      ensures |SectionsIn(db, c) * (done + {id})| ==
        |SectionsIn(db, c) * done| + (if CodeOf(db, id) == Some(c) then 1 else 0)
    {
      CountStep(db, done, id, c);
    }
  }

  lemma CountsTotal(db: Db, wanted: set<nat>, eligible: map<nat, nat>, ineligible: map<nat, nat>)
    requires CountsOk(db, wanted, db.sections.Keys, eligible, ineligible)
    ensures forall c | c in eligible ::
      eligible[c] == |EligibleIn(db, c)| && eligible[c] + ineligible[c] == |SectionsIn(db, c)|
  {
    hide Eligible, CodeOf;
    forall c
      ensures EligibleIn(db, c) * db.sections.Keys == EligibleIn(db, c)
      ensures SectionsIn(db, c) * db.sections.Keys == SectionsIn(db, c)
    {
    }
  }

  lemma AllStored(db: Db, codes: set<nat>)
    ensures Rollbackable(db, codes) * db.sections.Keys == Rollbackable(db, codes)
  {
    hide Eligible, CodeOf;
  }
}
