/** The worker's copy of a term's state, kept between sweeps. */
module StateCache {
  import opened Text
  import opened Schema
  import opened SweepPlan
  import opened SweepState
  import opened Fingerprint

  datatype TermSections = TermSections(termId: nat, view: TermView, fingerprint: Aggregates, loadedAt: int)

  /** A full read of the term. */
  function Loaded(db: Db, termId: nat, loadedAt: int): TermSections
    requires db.UniqueCrns()
  {
    TermSections(termId, ViewOf(db, termId), FingerprintOf(db, termId), loadedAt)
  }

  predicate Reusable(state: Option<TermSections>, db: Db, termId: nat, now: int, maxAge: int) {
    && state.Some? && state.value.termId == termId
    && now - state.value.loadedAt < maxAge
    && FingerprintOf(db, termId) == state.value.fingerprint
  }

  /** What the worker kept is what a full read of `base` gave, and since then there was only a
      history of other writers whose changes of marks do not cancel out. */
  ghost predicate Trusted(state: Option<TermSections>, base: Db, db: Db) {
    state.Some? ==>
      && base.SectionsOk() && base.HistoryOk() && KeysOrdered(base) && History(base, db)
      && state.value == Loaded(base, state.value.termId, state.value.loadedAt)
      && MarksShow(base, db, state.value.termId)
  }

  class SweepStateCache {
    const maxAge: int
    var state: Option<TermSections>
    var current: Option<TermSections>
    var pending: Option<TermSections>
    var fullLoads: nat
    var lastLoadReused: bool

    constructor (maxAge: int)
      ensures this.maxAge == maxAge && state == current == pending == None && fullLoads == 0 && !lastLoadReused
    {
      this.maxAge := maxAge;
      state, current, pending := None, None, None;
      fullLoads, lastLoadReused := 0, false;
    }

    /** Reuses the kept state when it is of this term, younger than the limit and nothing counted has
        changed; else reads the term in full. */
    method Load(db: Db, termId: nat, now: int, readAt: int) returns (r: TermSections)
      requires db.UniqueCrns()
      modifies this
      ensures lastLoadReused <==>
        && old(state).Some? && old(state).value.termId == termId
        && now - old(state).value.loadedAt < maxAge
        && old(state).value.fingerprint == FingerprintOf(db, termId)
      ensures r == if lastLoadReused then old(state).value else Loaded(db, termId, readAt)
      ensures state == (if lastLoadReused then old(state) else None) && current == Some(r) && pending == None
      ensures fullLoads == old(fullLoads) + if lastLoadReused then 0 else 1
    {
      pending := None;
      var reusable := Reusable(state, db, termId, now, maxAge);
      if reusable {
        r := state.value;
      } else {
        state := None;
        var view := LoadTermSections(db, termId);
        r := TermSections(termId, view, FingerprintOf(db, termId), readAt);
        fullLoads := fullLoads + 1;
      }
      lastLoadReused := reusable;
      current := Some(r);
    }

    /** Reads the written sections again inside the transaction; kept only on commit. */
    method Stage(db: Db, touched: set<nat>)
      requires UniqueIn(db.sections, touched)
      modifies this`pending
      ensures pending == match old(current)
        case None => old(pending)
        case Some(c) => Some(TermSections(c.termId, Reloaded(db, c.view, touched), FingerprintOf(db, c.termId),
          c.loadedAt))
    {
      if current.Some? {
        var view := ReloadSections(db, current.value.view, touched);
        pending := Some(
          TermSections(current.value.termId, view, FingerprintOf(db, current.value.termId), current.value.loadedAt));
      }
    }

    method Commit()
      modifies this`state, this`current, this`pending
      ensures state == (if old(pending).Some? then old(pending) else old(state)) && current == None && pending == None
    {
      if pending.Some? {
        state := pending;
      }
      current, pending := None, None;
    }

    method Invalidate()
      modifies this`state, this`current, this`pending
      ensures state == current == pending == None
    {
      state, current, pending := None, None, None;
    }
  }

  /** Main result: a trusted cache always answers with the current view, reused or not. */
  lemma TrustedLoadIsCurrent(state: Option<TermSections>, base: Db, db: Db, termId: nat, now: int, maxAge: int)
    requires db.SectionsOk() && KeysOrdered(db) && Trusted(state, base, db)
    requires Reusable(state, db, termId, now, maxAge)
    ensures state.value == Loaded(db, termId, state.value.loadedAt)
  {
    hide ViewOf, FingerprintOf, Full, History, KeysOrdered, MarksShow;
    SameFingerprintSameView(base, db, termId);
  }

  /** Other writers do not spoil the trust, exactly as long as their changes of marks do not cancel
      out against those made since the state was read. */
  lemma TrustSurvivesWriters(state: Option<TermSections>, base: Db, db: Db, later: Db)
    requires Trusted(state, base, db) && History(db, later)
    ensures Trusted(state, base, later) <==> (state.Some? ==> MarksShow(base, later, state.value.termId))
  {
    hide ViewOf, FingerprintOf, Full, MarksShow;
    if state.Some? {
      HistoriesCompose(base, db, later);
    }
  }

  /** Whatever else they edited, others who changed which rows the term has make the next load a
      full one: the kept state is never reused. */
  lemma ForeignRowsForceFullLoad(
    state: Option<TermSections>, base: Db, db: Db, termId: nat, now: int, maxAge: int)
    requires (forall id | id in base.sections :: id < base.nextSection) && base.HistoryOk() && base.UniqueCrns()
    requires KeyHistory(base, db)
    requires state.Some? ==> state.value == Loaded(base, state.value.termId, state.value.loadedAt)
    requires SectionIdsOf(base.sections, termId) != SectionIdsOf(db.sections, termId)
      || InstructorIdsIn(base, termId) != InstructorIdsIn(db, termId)
      || SnapshotIdsIn(base, termId) != SnapshotIdsIn(db, termId)
    ensures !Reusable(state, db, termId, now, maxAge)
  {
    hide ViewOf, KeyHistory, SectionIdsOf, InstructorIdsIn, SnapshotIdsIn, FingerprintOf;
    if FingerprintOf(base, termId) == FingerprintOf(db, termId) {
      FingerprintSeesWriters(base, db, termId);
    }
  }

  /** Outside that condition the kept state is wrong: it would be reused although the view differs. */
  lemma UnseenMarksMislead(state: TermSections, base: Db, db: Db, now: int, maxAge: int)
    requires base.SectionsOk() && base.HistoryOk() && db.SectionsOk() && KeysOrdered(base) && KeysOrdered(db)
    requires History(base, db) && state == Loaded(base, state.termId, state.loadedAt) && now - state.loadedAt < maxAge
    ensures Reusable(Some(state), db, state.termId, now, maxAge) && state.view != ViewOf(db, state.termId)
      <==> !MarksShow(base, db, state.termId)
  {
    hide ViewOf, FingerprintOf, Full, History, KeysOrdered, SameIds, Balanced, SameMarks;
    BlindSpot(base, db, state.termId);
  }
}
