/** What clients of the response cache may rely on, over any sequence of its operations. */
module CacheLaws {
  import opened Text
  import opened ResponseCache

  lemma {:induction false} BytesSplit(es: seq<Entry>, i: nat)
    requires i <= |es|
    ensures TotalBytes(es) == TotalBytes(es[..i]) + TotalBytes(es[i..])
  {
    if i == |es| {
      assert es[..i] == es;
    } else {
      var n := |es| - 1;
      BytesSplit(es[..n], i);
      assert es[..n][..i] == es[..i] && es[i..][..n - i] == es[..n][i..];
    }
  }

  lemma SuffixBytes(es: seq<Entry>, i: nat, j: nat)
    requires i <= j <= |es|
    ensures TotalBytes(es[j..]) <= TotalBytes(es[i..])
  {
    BytesSplit(es[i..], j - i);
    assert es[i..][j - i..] == es[j..];
  }

  /** Evictions are a prefix of the recency order and exactly as many as needed: an entry stays if and
      only if it and everything used after it fit the budget. */
  lemma {:induction false} EvictsShortestPrefix(es: seq<Entry>, maxBytes: int) returns (n: nat)
    requires maxBytes >= 0
    ensures n <= |es| && Trim(es, maxBytes) == es[n..]
    ensures forall i | 0 <= i <= |es| :: n <= i <==> TotalBytes(es[i..]) <= maxBytes
    decreases |es|
  {
    if es == [] || TotalBytes(es) <= maxBytes {
      n := 0;
      assert es[0..] == es;
      forall i | 0 <= i <= |es| ensures TotalBytes(es[i..]) <= maxBytes {
        SuffixBytes(es, 0, i);
      }
    } else {
      var m := EvictsShortestPrefix(es[1..], maxBytes);
      n := m + 1;
      assert es[1..][m..] == es[n..] && es[0..] == es;
      forall i | 0 <= i <= |es| ensures n <= i <==> TotalBytes(es[i..]) <= maxBytes {
        if i > 0 {
          assert es[1..][i - 1..] == es[i..];
        }
      }
    }
  }

  /** An accepted response is never evicted by its own arrival: it is the most recent entry, and the
      budget is kept. */
  lemma AcceptedPutStays(es: seq<Entry>, e: Entry, maxBytes: int)
    requires Acceptable(e.response.body, maxBytes)
    ensures var after := Stored(es, e, maxBytes);
      after != [] && after[|after| - 1] == e && TotalBytes(after) <= maxBytes
  {
    var added := Without(es, e.key) + [e];
    var n := EvictsShortestPrefix(added, maxBytes);
    assert added[|added| - 1..] == [e];
    assert [e][..0] == [];
    assert TotalBytes([e]) == |e.response.body|;
  }

  // ---- Runs ----

  datatype Op =
    | Put(key: string, body: Bytes, headers: map<string, string>, route: string, at: real)
    | Get(key: string, at: real)

  function EntryOf(op: Op, ttl: real): Entry
    requires op.Put?
  {
    Entry(op.key, CachedResponse.CachedResponse(op.at + ttl, op.body, op.headers, op.route))
  }

  /** The entries after a sequence of operations on an empty cache. */
  function Ran(ops: seq<Op>, ttl: real, maxBytes: int): seq<Entry> {
    if ops == [] then []
    else
      var before := Ran(ops[..|ops| - 1], ttl, maxBytes);
      match ops[|ops| - 1]
      case Put(_, _, _, _, _) => Stored(before, EntryOf(ops[|ops| - 1], ttl), maxBytes)
      case Get(key, at) => Used(before, key, at)
  }

  /** The latest put of a key that was small enough to keep. */
  function LatestPut(ops: seq<Op>, key: string, maxBytes: int): Option<Op> {
    if ops == [] then None
    else
      var last := ops[|ops| - 1];
      if last.Put? && last.key == key && Acceptable(last.body, maxBytes) then Some(last)
      else LatestPut(ops[..|ops| - 1], key, maxBytes)
  }

  lemma {:induction false} LatestIsPut(ops: seq<Op>, key: string, maxBytes: int)
    ensures LatestPut(ops, key, maxBytes).Some? ==>
      LatestPut(ops, key, maxBytes).value.Put? && LatestPut(ops, key, maxBytes).value.key == key
  {
    if ops != [] {
      LatestIsPut(ops[..|ops| - 1], key, maxBytes);
    }
  }

  ghost predicate Latest(e: Entry, ops: seq<Op>, ttl: real, maxBytes: int) {
    var put := LatestPut(ops, e.key, maxBytes);
    put.Some? && put.value.Put? && e == EntryOf(put.value, ttl)
  }

  lemma TrimKeepsMembers(es: seq<Entry>, maxBytes: int)
    ensures forall e | e in Trim(es, maxBytes) :: e in es
    ensures DistinctKeys(es) ==> DistinctKeys(Trim(es, maxBytes))
    decreases |es|
  {
    if es != [] && TotalBytes(es) > maxBytes {
      TrimKeepsMembers(es[1..], maxBytes);
    }
  }

  lemma StepKeeps(es: seq<Entry>, op: Op, ttl: real, maxBytes: int)
    requires DistinctKeys(es) && (es == [] || TotalBytes(es) <= maxBytes)
    ensures op.Put? ==>
      var after := Stored(es, EntryOf(op, ttl), maxBytes);
      && DistinctKeys(after) && (after == [] || TotalBytes(after) <= maxBytes)
      && forall e | e in after ::
           (Acceptable(op.body, maxBytes) && e == EntryOf(op, ttl)) ||
             (e in es && (e.key != op.key || !Acceptable(op.body, maxBytes)))
    ensures op.Get? ==>
      var after := Used(es, op.key, op.at);
      && DistinctKeys(after) && (after == [] || TotalBytes(after) <= maxBytes)
      && forall e | e in after :: e in es
  {
    hide Trim, Without, TotalBytes, DistinctKeys, Find;
    WithoutBytes(es, op.key);
    WithoutDistinct(es, op.key);
    if op.Put? {
      Readded(es, EntryOf(op, ttl));
      TrimKeepsMembers(Without(es, op.key) + [EntryOf(op, ttl)], maxBytes);
      if Acceptable(op.body, maxBytes) {
        AcceptedPutStays(es, EntryOf(op, ttl), maxBytes);
      }
    } else if Hit(es, op.key, op.at).Some? {
      Readded(es, Entry(op.key, Hit(es, op.key, op.at).value));
    }
  }

  /** After any operations the keys are distinct, the budget is kept, and every entry is the latest
      accepted put of its key. */
  lemma {:induction false} RunIsSound(ops: seq<Op>, ttl: real, maxBytes: int)
    ensures var es := Ran(ops, ttl, maxBytes);
      && DistinctKeys(es) && (es == [] || TotalBytes(es) <= maxBytes)
      && forall e | e in es :: Latest(e, ops, ttl, maxBytes)
  {
    hide Stored, Used, TotalBytes, Acceptable;
    if ops != [] {
      var n := |ops| - 1;
      RunIsSound(ops[..n], ttl, maxBytes);
      var before := Ran(ops[..n], ttl, maxBytes);
      StepKeeps(before, ops[n], ttl, maxBytes);
      forall e | e in Ran(ops, ttl, maxBytes) ensures Latest(e, ops, ttl, maxBytes) {
        assert e in before ==> Latest(e, ops[..n], ttl, maxBytes);
      }
    }
  }

  /** A hit is the latest accepted put of that key, and younger than the time to live. */
  lemma HitIsLatestPut(ops: seq<Op>, ttl: real, maxBytes: int, key: string, now: real)
    requires Hit(Ran(ops, ttl, maxBytes), key, now).Some?
    ensures var put := LatestPut(ops, key, maxBytes);
      && put.Some? && put.value.Put? && put.value.key == key
      && Hit(Ran(ops, ttl, maxBytes), key, now).value == EntryOf(put.value, ttl).response
      && now - put.value.at < ttl
  {
    hide Ran, LatestPut;
    RunIsSound(ops, ttl, maxBytes);
    LatestIsPut(ops, key, maxBytes);
    assert Latest(Entry(key, Hit(Ran(ops, ttl, maxBytes), key, now).value), ops, ttl, maxBytes);
  }

  // ---- The order of the entries is the order of their last use ----

  /** The position of the latest accepted put or hit of a key; -1 when there is none. */
  function LastUse(ops: seq<Op>, key: string, ttl: real, maxBytes: int): (k: int)
    ensures -1 <= k < |ops|
  {
    if ops == [] then -1
    else
      var n := |ops| - 1;
      if ops[n].key == key && IsUse(Ran(ops[..n], ttl, maxBytes), ops[n], maxBytes) then n
      else LastUse(ops[..n], key, ttl, maxBytes)
  }

  predicate IsUse(es: seq<Entry>, op: Op, maxBytes: int) {
    match op
    case Put(_, body, _, _, _) => Acceptable(body, maxBytes)
    case Get(key, at) => Hit(es, key, at).Some?
  }

  ghost predicate ByLastUse(es: seq<Entry>, ops: seq<Op>, ttl: real, maxBytes: int) {
    forall i, j | 0 <= i < j < |es| :: LastUse(ops, es[i].key, ttl, maxBytes) < LastUse(ops, es[j].key, ttl, maxBytes)
  }

  lemma {:induction false} WithoutKeepsOrder(es: seq<Entry>, key: string, ops: seq<Op>, ttl: real, maxBytes: int)
    requires ByLastUse(es, ops, ttl, maxBytes)
    ensures ByLastUse(Without(es, key), ops, ttl, maxBytes)
  {
    hide LastUse;
    if es != [] {
      var n := |es| - 1;
      WithoutKeepsOrder(es[..n], key, ops, ttl, maxBytes);
      forall e | e in Without(es[..n], key)
        ensures LastUse(ops, e.key, ttl, maxBytes) < LastUse(ops, es[n].key, ttl, maxBytes)
      {
        var i :| 0 <= i < n && es[i] == e;
      }
    }
  }

  /** The other keys were last used when they were before; a used key was used last of all. */
  lemma OneMoreUse(ops: seq<Op>, rest: seq<Entry>, e: Entry, ttl: real, maxBytes: int)
    requires ops != [] && ByLastUse(rest, ops[..|ops| - 1], ttl, maxBytes)
    requires (forall r | r in rest :: r.key != ops[|ops| - 1].key) && e.key == ops[|ops| - 1].key
    ensures ByLastUse(rest, ops, ttl, maxBytes)
    ensures IsUse(Ran(ops[..|ops| - 1], ttl, maxBytes), ops[|ops| - 1], maxBytes) ==>
      ByLastUse(rest + [e], ops, ttl, maxBytes)
  {
    hide Ran, IsUse;
    forall i | 0 <= i < |rest|
      ensures LastUse(ops, rest[i].key, ttl, maxBytes) == LastUse(ops[..|ops| - 1], rest[i].key, ttl, maxBytes)
    {
      assert rest[i] in rest;
    }
  }

  /** Over any run the entries stand in the order of their last use. */
  lemma {:induction false} OrderIsRecency(ops: seq<Op>, ttl: real, maxBytes: int)
    ensures ByLastUse(Ran(ops, ttl, maxBytes), ops, ttl, maxBytes)
  {
    hide LastUse, Trim, Without, Acceptable;
    if ops != [] {
      var n := |ops| - 1;
      var before, op := Ran(ops[..n], ttl, maxBytes), ops[n];
      OrderIsRecency(ops[..n], ttl, maxBytes);
      WithoutKeepsOrder(before, op.key, ops[..n], ttl, maxBytes);
      match op
      case Put(_, body, _, _, _) =>
        if Acceptable(body, maxBytes) {
          OneMoreUse(ops, Without(before, op.key), EntryOf(op, ttl), ttl, maxBytes);
          AcceptedLeavesSuffix(before, EntryOf(op, ttl), maxBytes);
        } else {
          RefusedIsNoUse(ops, before, ttl, maxBytes);
        }
      case Get(key, at) =>
        var r := Hit(before, key, at);
        if r.Some? {
          OneMoreUse(ops, Without(before, key), Entry(key, r.value), ttl, maxBytes);
        } else {
          RefusedIsNoUse(ops, Without(before, key), ttl, maxBytes);
        }
    }
  }

  lemma AcceptedLeavesSuffix(es: seq<Entry>, e: Entry, maxBytes: int)
    requires Acceptable(e.response.body, maxBytes)
    ensures exists n ::
      0 <= n <= |Without(es, e.key) + [e]| && Stored(es, e, maxBytes) == (Without(es, e.key) + [e])[n..]
  {
    var n := EvictsShortestPrefix(Without(es, e.key) + [e], maxBytes);
  }

  lemma RefusedIsNoUse(ops: seq<Op>, es: seq<Entry>, ttl: real, maxBytes: int)
    requires ops != [] && !IsUse(Ran(ops[..|ops| - 1], ttl, maxBytes), ops[|ops| - 1], maxBytes)
    requires ByLastUse(es, ops[..|ops| - 1], ttl, maxBytes)
    ensures ByLastUse(es, ops, ttl, maxBytes)
  {
    hide Ran, IsUse;
  }

  /** Evictions are the shortest least-recently-used prefix that suffices: after any run, an accepted
      put leaves a suffix of the entries in order of last use, and one entry more would not fit. */
  lemma EvictsLeastRecentlyUsed(ops: seq<Op>, put: Op, ttl: real, maxBytes: int) returns (n: nat)
    requires put.Put? && Acceptable(put.body, maxBytes)
    ensures var added := Without(Ran(ops, ttl, maxBytes), put.key) + [EntryOf(put, ttl)];
      && n < |added| && Ran(ops + [put], ttl, maxBytes) == added[n..]
      && ByLastUse(added, ops + [put], ttl, maxBytes)
      && forall i | 0 <= i <= |added| :: n <= i <==> TotalBytes(added[i..]) <= maxBytes
  {
    hide LastUse, Without;
    var all := ops + [put];
    assert all[..|ops|] == ops;
    var es := Ran(ops, ttl, maxBytes);
    OrderIsRecency(ops, ttl, maxBytes);
    WithoutKeepsOrder(es, put.key, ops, ttl, maxBytes);
    OneMoreUse(all, Without(es, put.key), EntryOf(put, ttl), ttl, maxBytes);
    AcceptedPutStays(es, EntryOf(put, ttl), maxBytes);
    n := EvictsShortestPrefix(Without(es, put.key) + [EntryOf(put, ttl)], maxBytes);
  }

  // ---- Exactly what is served ----

  lemma FoundExactly(es: seq<Entry>, key: string)
    requires DistinctKeys(es)
    ensures Find(es, key).Some? <==> exists e :: e in es && e.key == key
    ensures forall e | e in es && e.key == key :: Find(es, key) == Some(e.response)
  {
    hide Find;
    forall e | e in es && e.key == key ensures Find(es, key) == Some(e.response) {
      var found := Entry(key, Find(es, key).value);
      var i :| 0 <= i < |es| && es[i] == e;
      var j :| 0 <= j < |es| && es[j] == found;
      assert i == j;
    }
  }

  /** A key is served exactly when an entry is kept for it whose latest accepted put is younger than
      the time to live; and what is served is that put's body, headers and route. */
  lemma ServedExactly(ops: seq<Op>, ttl: real, maxBytes: int, key: string, now: real)
    ensures var es, put := Ran(ops, ttl, maxBytes), LatestPut(ops, key, maxBytes);
      && (Hit(es, key, now).Some? <==>
            (exists e :: e in es && e.key == key) && put.Some? && put.value.Put? && now - put.value.at < ttl)
      && (Hit(es, key, now).Some? ==>
            && Hit(es, key, now).value.body == put.value.body && Hit(es, key, now).value.headers == put.value.headers
            && Hit(es, key, now).value.route == put.value.route)
  {
    hide Ran, LatestPut, DistinctKeys;
    RunIsSound(ops, ttl, maxBytes);
    FoundExactly(Ran(ops, ttl, maxBytes), key);
    LatestIsPut(ops, key, maxBytes);
    if e :| e in Ran(ops, ttl, maxBytes) && e.key == key {
      assert Latest(e, ops, ttl, maxBytes);
    }
  }

  /** A put is kept exactly when its body is at most an eighth of the budget; a larger one changes
      nothing at all. */
  lemma PutIsKeptExactly(ops: seq<Op>, ttl: real, maxBytes: int, put: Op)
    requires put.Put?
    ensures 8 * |put.body| <= maxBytes <==> EntryOf(put, ttl) in Ran(ops + [put], ttl, maxBytes)
    ensures 8 * |put.body| > maxBytes ==> Ran(ops + [put], ttl, maxBytes) == Ran(ops, ttl, maxBytes)
  {
    assert (ops + [put])[..|ops|] == ops;
    hide Ran;
    var es := Ran(ops, ttl, maxBytes);
    if Acceptable(put.body, maxBytes) {
      AcceptedPutStays(es, EntryOf(put, ttl), maxBytes);
    } else {
      RunIsSound(ops, ttl, maxBytes);
      AcceptedPuts(ops, put.key, maxBytes);
      assert EntryOf(put, ttl) in es ==> Latest(EntryOf(put, ttl), ops, ttl, maxBytes);
    }
  }

  lemma {:induction false} AcceptedPuts(ops: seq<Op>, key: string, maxBytes: int)
    ensures var put := LatestPut(ops, key, maxBytes);
      put.Some? ==> put.value.Put? && 8 * |put.value.body| <= maxBytes
  {
    if ops != [] {
      AcceptedPuts(ops[..|ops| - 1], key, maxBytes);
    }
  }

  /** A look at a key that is not served leaves no entry of it. */
  lemma MissLeavesNothing(ops: seq<Op>, ttl: real, maxBytes: int, key: string, at: real)
    requires Hit(Ran(ops, ttl, maxBytes), key, at).None?
    ensures forall e | e in Ran(ops + [Get(key, at)], ttl, maxBytes) :: e.key != key
  {
    assert (ops + [Get(key, at)])[..|ops|] == ops;
    hide Hit;
  }
}
