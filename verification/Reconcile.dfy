/** The verdict of the identity scan against the stored sections. */
module Reconcile {
  import opened Text
  import opened Ordering
  import opened PageScan

  datatype StoredSnapshot = StoredSnapshot(identities: set<string>, cacheCount: nat, nonTampa: nat)

  datatype Verdict =
    | Pass
    | Fail(reason: Reason, missing: set<string>, extra: set<string>, duplicates: seq<string>)

  function CrnsOf(keys: seq<OrderKey>): seq<string> {
    seq(|keys|, i requires 0 <= i < |keys| => keys[i].2)
  }

  ghost predicate NoRepeats(crns: seq<string>) {
    forall i, j | 0 <= i < j < |crns| :: crns[i] != crns[j]
  }

  ghost predicate Repeats(crns: seq<string>, crn: string) {
    exists i, j :: 0 <= i < j < |crns| && crns[i] == crns[j] == crn
  }

  /** Everything a pass asserts. */
  ghost predicate Reconciles(stored: StoredSnapshot, scan: Scan) {
    && scan.reason.None? && NoRepeats(CrnsOf(scan.keys)) && Elements(CrnsOf(scan.keys)) == stored.identities
    && stored.nonTampa == 0
    && |stored.identities| == stored.cacheCount == (if scan.apiTotal.Some? then scan.apiTotal.value else 0)
  }

  method FindDuplicates(crns: seq<string>) returns (duplicates: seq<string>)
    ensures duplicates == [] <==> NoRepeats(crns)
    ensures forall c :: c in duplicates <==> Repeats(crns, c)
  {
    duplicates := [];
    var seen: set<string> := {};
    for k := 0 to |crns|
      invariant seen == Elements(crns[..k])
      invariant duplicates == [] <==> NoRepeats(crns[..k])
      invariant forall c | c in duplicates :: Repeats(crns, c)
      invariant forall i, j | 0 <= i < j < k && crns[i] == crns[j] :: crns[j] in duplicates
    {
      assert crns[..k + 1] == crns[..k] + [crns[k]];
      if crns[k] in seen {
        var i :| 0 <= i < k && crns[..k][i] == crns[k];
        assert crns[i] == crns[k] && crns[..k + 1][i] == crns[..k + 1][k];
        assert Repeats(crns, crns[k]);
        duplicates := duplicates + [crns[k]];
      }
      seen := seen + {crns[k]};
    }
    assert crns[..|crns|] == crns;
  }

  /** `reconcile`: a pass, or the first rule that fails with what it found. */
  method ReconcileScan(stored: StoredSnapshot, scan: Scan) returns (verdict: Verdict)
    ensures verdict.Pass? <==> Reconciles(stored, scan)
    ensures var crns := CrnsOf(scan.keys);
      var found := Elements(crns);
      if scan.reason.Some? then verdict == Fail(scan.reason.value, {}, {}, [])
      else if !NoRepeats(crns) then
        && verdict.Fail? && verdict.reason == DuplicateIdentity && verdict.missing == verdict.extra == {}
        && forall c :: c in verdict.duplicates <==> Repeats(crns, c)
      else if found != stored.identities then
        verdict == Fail(IdentityMismatch, stored.identities - found, found - stored.identities, [])
      else if stored.nonTampa > 0 then verdict == Fail(NonTampaSection, {}, {}, [])
      else verdict.Pass? || verdict == Fail(CountMismatch, {}, {}, [])
  {
    if scan.reason.Some? {
      return Fail(scan.reason.value, {}, {}, []);
    }
    var crns := CrnsOf(scan.keys);
    var duplicates := FindDuplicates(crns);
    if duplicates != [] {
      return Fail(DuplicateIdentity, {}, {}, duplicates);
    }
    var scanned := set c | c in crns;
    assert scanned == Elements(crns);
    var missing, extra := stored.identities - scanned, scanned - stored.identities;
    if missing != {} || extra != {} {
      return Fail(IdentityMismatch, missing, extra, []);
    }
    assert scanned == stored.identities;
    if stored.nonTampa > 0 {
      return Fail(NonTampaSection, {}, {}, []);
    }
    if !(|stored.identities| == stored.cacheCount &&
      stored.cacheCount == (if scan.apiTotal.Some? then scan.apiTotal.value else 0)) {
      return Fail(CountMismatch, {}, {}, []);
    }
    return Pass;
  }

  lemma {:induction false} DistinctCount(crns: seq<string>)
    requires NoRepeats(crns)
    ensures |Elements(crns)| == |crns|
  {
    if crns != [] {
      var n := |crns| - 1;
      DistinctCount(crns[..n]);
      assert crns == crns[..n] + [crns[n]];
      assert Elements(crns) == Elements(crns[..n]) + {crns[n]};
    }
  }

  /** The server lists exactly the stored sections, each once, over all its pages. */
  ghost predicate ListsExactly(server: nat -> Answer, pageSize: int, identities: set<string>, list: seq<Item>)
    requires pageSize >= 1
  {
    Serves(server, pageSize, list) && NoRepeats(CrnsOf(Keys(list))) && Elements(CrnsOf(Keys(list))) == identities
  }

  lemma {:induction false} ServedOnce(server: nat -> Answer, pageSize: int, a: seq<Item>, b: seq<Item>)
    requires pageSize >= 1 && Serves(server, pageSize, a) && Serves(server, pageSize, b)
    ensures a == b
  {
    hide KeyLess, Ascending, PageCount;
    MorePages(|a|, pageSize, 0);
    MorePages(|b|, pageSize, 0);
    assert server(0) == PageOf(a, pageSize, 0) && server(0) == PageOf(b, pageSize, 0);
    SamePages(server, pageSize, a, b, PageCount(|a|, pageSize));
    PageCountIsCeiling(|a|, pageSize);
    OffsetIsProduct(pageSize, PageCount(|a|, pageSize));
  }

  lemma {:induction false} SamePages(server: nat -> Answer, pageSize: int, a: seq<Item>, b: seq<Item>, k: nat)
    requires pageSize >= 1 && Serves(server, pageSize, a) && Serves(server, pageSize, b) && |a| == |b|
    requires k <= PageCount(|a|, pageSize)
    ensures a[..Min(Offset(pageSize, k), |a|)] == b[..Min(Offset(pageSize, k), |a|)]
  {
    hide KeyLess, Ascending, PageCount;
    if k > 0 {
      var i := k - 1;
      SamePages(server, pageSize, a, b, i);
      assert server(i) == PageOf(a, pageSize, i) && server(i) == PageOf(b, pageSize, i);
      var from_, to_ := Offset(pageSize, i), Min(Offset(pageSize, i) + pageSize, |a|);
      assert a[..to_] == a[..from_] + a[from_..to_] && b[..to_] == b[..from_] + b[from_..to_];
    }
  }

  /** End to end, against any server: a pass means that the server lists exactly the stored sections,
      and a server that does, with matching counts, passes. */
  method VerifyTerm(server: nat -> Answer, pageSize: int, stored: StoredSnapshot) returns (verdict: Verdict)
    requires pageSize >= 1
    ensures verdict.Pass? <==>
      && (exists list :: ListsExactly(server, pageSize, stored.identities, list))
      && stored.nonTampa == 0 && |stored.identities| == stored.cacheCount
  {
    hide Serves, Keys, ServesNothing, CountSource, PageCount;
    var scan, seen := ScanPages(server, pageSize);
    verdict := ReconcileScan(stored, scan);
    Outcome(server, pageSize, stored, scan, seen);
  }

  lemma Outcome(server: nat -> Answer, pageSize: int, stored: StoredSnapshot, scan: Scan, seen: seq<Item>)
    requires pageSize >= 1 && scan.keys == Keys(seen)
    requires scan.reason.None? ==> Serves(server, pageSize, seen) && scan.apiTotal == Some(|seen|)
    requires scan.reason.Some? ==> ServesNothing(server, pageSize)
    ensures Reconciles(stored, scan) <==>
      && (exists list :: ListsExactly(server, pageSize, stored.identities, list))
      && stored.nonTampa == 0 && |stored.identities| == stored.cacheCount
  {
    hide Serves;
    if Reconciles(stored, scan) {
      assert ListsExactly(server, pageSize, stored.identities, seen);
    }
    if list :| ListsExactly(server, pageSize, stored.identities, list) {
      assert scan.reason.None?;
      ServedOnce(server, pageSize, list, seen);
      DistinctCount(CrnsOf(Keys(seen)));
    }
  }
}
