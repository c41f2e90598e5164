/** Whatever anyone did to the tables, no sweep reads a state that was loaded too long ago. */
module CacheAge {
  import opened Text
  import opened Schema
  import opened SweepState
  import opened StateCache

  /** What happens to the worker's state cache, in any order, on any tables. */
  datatype CacheOp =
    | Load(db: Db, termId: nat, now: int, readAt: int)
    | Stage(db: Db, touched: set<nat>)
    | Commit
    | Invalidate

  ghost predicate OpOk(op: CacheOp) {
    match op
    case Load(db, _, _, _) => db.UniqueCrns()
    case Stage(db, touched) => UniqueIn(db.sections, touched)
    case _ => true
  }

  /** The answer of this load was read in full from the tables then. */
  ghost predicate ReadInFull(ops: seq<CacheOp>, answers: seq<Option<TermSections>>, j: int) {
    && 0 <= j < |ops| && j < |answers| && ops[j].Load? && ops[j].db.UniqueCrns()
    && answers[j] == Some(Loaded(ops[j].db, ops[j].termId, ops[j].readAt))
  }

  /** The state goes back to a full read among the first operations. */
  ghost predicate GoesBack(ops: seq<CacheOp>, answers: seq<Option<TermSections>>, s: Option<TermSections>) {
    s.Some? ==> exists j :: ReadInFull(ops, answers, j) && s.value.loadedAt == ops[j].readAt
  }

  /** A load reads in full, or answers with what goes back to a full read less than the limit ago. */
  ghost predicate YoungAnswer(ops: seq<CacheOp>, answers: seq<Option<TermSections>>, i: int, maxAge: int)
    requires 0 <= i < |ops| && ops[i].Load? && i < |answers|
  {
    || ReadInFull(ops, answers, i)
    || (answers[i].Some? && exists j ::
          0 <= j < i && ReadInFull(ops, answers, j)
          && answers[i].value.loadedAt == ops[j].readAt && ops[i].now - ops[j].readAt < maxAge)
  }

  lemma StillGoesBack(
    ops: seq<CacheOp>, answers: seq<Option<TermSections>>, more: Option<TermSections>, s: Option<TermSections>)
    requires |answers| < |ops| && GoesBack(ops, answers, s)
    ensures GoesBack(ops, answers + [more], s)
  {
    hide Loaded;
    if s.Some? {
      var j :| ReadInFull(ops, answers, j) && s.value.loadedAt == ops[j].readAt;
      assert ReadInFull(ops, answers + [more], j);
    }
  }

  lemma StillYoung(
    ops: seq<CacheOp>, answers: seq<Option<TermSections>>, more: Option<TermSections>, i: int, maxAge: int)
    requires |answers| < |ops| && 0 <= i < |answers| && ops[i].Load? && YoungAnswer(ops, answers, i, maxAge)
    ensures YoungAnswer(ops, answers + [more], i, maxAge)
  {
    hide Loaded;
    if ReadInFull(ops, answers, i) {
      assert ReadInFull(ops, answers + [more], i);
    } else {
      var j :| 0 <= j < i && ReadInFull(ops, answers, j) && answers[i].value.loadedAt == ops[j].readAt
        && ops[i].now - ops[j].readAt < maxAge;
      assert ReadInFull(ops, answers + [more], j);
    }
  }

  /** Any history of the cache, from an empty one: every answer is young. */
  method Serve(cache: SweepStateCache, ops: seq<CacheOp>) returns (answers: seq<Option<TermSections>>)
    requires forall op | op in ops :: OpOk(op)
    requires cache.state == None && cache.current == None && cache.pending == None
    modifies cache
    ensures |answers| == |ops|
    ensures forall i | 0 <= i < |ops| && ops[i].Load? :: YoungAnswer(ops, answers, i, cache.maxAge)
  {
    hide YoungAnswer, GoesBack, Loaded;
    answers := [];
    NothingGoesBack(ops, answers);
    for k := 0 to |ops|
      invariant |answers| == k
      invariant forall i | 0 <= i < k && ops[i].Load? :: YoungAnswer(ops, answers, i, cache.maxAge)
      invariant GoesBack(ops, answers, cache.state) && GoesBack(ops, answers, cache.current)
      invariant GoesBack(ops, answers, cache.pending)
    {
      ghost var state, current, pending, before := cache.state, cache.current, cache.pending, answers;
      assert OpOk(ops[k]) by { assert ops[k] in ops; }
      var answer: Option<TermSections> := None;
      match ops[k] {
        case Load(db, termId, now, readAt) =>
          var r := cache.Load(db, termId, now, readAt);
          answer := Some(r);
        case Stage(db, touched) => cache.Stage(db, touched);
        case Commit => cache.Commit();
        case Invalidate => cache.Invalidate();
      }
      answers := answers + [answer];
      forall i | 0 <= i < k && ops[i].Load? ensures YoungAnswer(ops, answers, i, cache.maxAge) {
        StillYoung(ops, before, answer, i, cache.maxAge);
      }
      StillGoesBack(ops, before, answer, state);
      StillGoesBack(ops, before, answer, current);
      StillGoesBack(ops, before, answer, pending);
      NothingGoesBack(ops, answers);
      if ops[k].Load? {
        LoadAnswers(ops, answers, k, state, cache.lastLoadReused, cache.maxAge);
      } else {
        SameAge(ops, answers, current, cache.pending);
      }
    }
  }

  lemma NothingGoesBack(ops: seq<CacheOp>, answers: seq<Option<TermSections>>)
    ensures GoesBack(ops, answers, None)
  {
  }

  /** Staging keeps the age. */
  lemma SameAge(ops: seq<CacheOp>, answers: seq<Option<TermSections>>, s: Option<TermSections>, t: Option<TermSections>)
    requires GoesBack(ops, answers, s)
    ensures t.Some? && s.Some? && t.value.loadedAt == s.value.loadedAt ==> GoesBack(ops, answers, t)
  {
  }

  lemma LoadAnswers(
    ops: seq<CacheOp>, answers: seq<Option<TermSections>>, k: int, state: Option<TermSections>, reused: bool,
    maxAge: int)
    requires 0 <= k < |ops| && |answers| == k + 1 && ops[k].Load? && ops[k].db.UniqueCrns()
    requires reused ==> state.Some? && answers[k] == state && ops[k].now - state.value.loadedAt < maxAge
    requires !reused ==> answers[k] == Some(Loaded(ops[k].db, ops[k].termId, ops[k].readAt))
    requires GoesBack(ops, answers[..k], state) && GoesBack(ops, answers, state)
    ensures YoungAnswer(ops, answers, k, maxAge) && GoesBack(ops, answers, answers[k])
  {
    hide Loaded;
    if reused {
      var j :| ReadInFull(ops, answers[..k], j) && state.value.loadedAt == ops[j].readAt;
      assert ReadInFull(ops, answers, j) && j < k;
    } else {
      assert ReadInFull(ops, answers, k);
      FullReadAge(ops[k].db, ops[k].termId, ops[k].readAt);
    }
  }

  lemma FullReadAge(db: Db, termId: nat, readAt: int)
    requires db.UniqueCrns()
    ensures Loaded(db, termId, readAt).loadedAt == readAt
  {
  }
}
