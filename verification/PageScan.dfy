/** The full-page identity scan of the rankings search, against any server. */
module PageScan {
  import opened Text
  import opened Ordering

  type OrderKey = (string, string, string)

  datatype ScoreSource = InstructorCourse | CourseSource | SubjectSource | GlobalSource | NoSource

  datatype Item = Item(subject: string, courseNumber: string, crn: string, source: ScoreSource, effectiveN: real)
  {
    function Key(): OrderKey { (subject, courseNumber, crn) }
  }

  /** One answer of the server; what cannot be read as a page is a named failure. */
  datatype Answer = Page(total: int, limit: int, offset: int, items: seq<Item>) | BadStatus | Unreadable

  datatype Reason =
    | HttpStatus | InvalidResponse | SnapshotChanged | DuplicateIdentity | OrderViolation | PageOverrun | ShortPage
    | IdentityMismatch | NonTampaSection | CountMismatch

  // ---- Order ----

  /** Tuples of strings compare by their first difference. */
  predicate KeyLess(a: OrderKey, b: OrderKey) {
    || StrLess(a.0, b.0)
    || (a.0 == b.0 && StrLess(a.1, b.1))
    || (a.0 == b.0 && a.1 == b.1 && StrLess(a.2, b.2))
  }

  lemma KeyTotal(a: OrderKey, b: OrderKey)
    ensures a == b || KeyLess(a, b) || KeyLess(b, a)
    ensures !KeyLess(a, a) && !(KeyLess(a, b) && KeyLess(b, a))
  {
    hide StrLess;
    StrLessTotal(a.0, b.0);
    StrLessTotal(a.1, b.1);
    StrLessTotal(a.2, b.2);
    StrIrreflexives(a);
    if KeyLess(a, b) && KeyLess(b, a) {
      KeyTransitive(a, b, a);
    }
  }

  lemma StrIrreflexives(a: OrderKey)
    ensures !StrLess(a.0, a.0) && !StrLess(a.1, a.1) && !StrLess(a.2, a.2)
  {
    StrLessIrreflexive(a.0);
    StrLessIrreflexive(a.1);
    StrLessIrreflexive(a.2);
  }

  lemma KeyTransitive(a: OrderKey, b: OrderKey, c: OrderKey)
    requires KeyLess(a, b) && KeyLess(b, c)
    ensures KeyLess(a, c)
  {
    hide StrLess;
    if StrLess(a.0, b.0) && StrLess(b.0, c.0) {
      StrLessTransitive(a.0, b.0, c.0);
    } else if a.0 == b.0 == c.0 && StrLess(a.1, b.1) && StrLess(b.1, c.1) {
      StrLessTransitive(a.1, b.1, c.1);
    } else if a.0 == b.0 == c.0 && a.1 == b.1 == c.1 {
      StrLessTransitive(a.2, b.2, c.2);
    }
  }

  /** Every key is below the next one. */
  ghost predicate Ascending(keys: seq<OrderKey>) {
    forall i | 0 <= i < |keys| - 1 :: KeyLess(keys[i], keys[i + 1])
  }

  lemma {:induction false} AscendingIsIncreasing(keys: seq<OrderKey>, i: int, j: int)
    requires Ascending(keys) && 0 <= i < j < |keys|
    ensures KeyLess(keys[i], keys[j])
    decreases j - i
  {
    hide KeyLess;
    if i + 1 < j {
      AscendingIsIncreasing(keys, i, j - 1);
      KeyTransitive(keys[i], keys[j - 1], keys[j]);
    }
  }

  method Compare(a: OrderKey, b: OrderKey) returns (violation: Option<Reason>)
    ensures violation.None? <==> KeyLess(a, b)
    ensures violation == Some(DuplicateIdentity) <==> a == b
  {
    KeyTotal(a, b);
    if a == b {
      return Some(DuplicateIdentity);
    }
    if KeyLess(b, a) {
      return Some(OrderViolation);
    }
    return None;
  }

  /** Checks the seam to the previous page, then the page. */
  method FindOrderViolation(previous: seq<OrderKey>, page: seq<OrderKey>) returns (violation: Option<Reason>)
    requires Ascending(previous)
    ensures violation.None? <==> Ascending(previous + page)
  {
    hide KeyLess;
    var all := previous + page;
    if previous != [] && page != [] {
      violation := Compare(previous[|previous| - 1], page[0]);
      assert all[|previous| - 1] == previous[|previous| - 1] && all[|previous|] == page[0];
      if violation.Some? {
        return;
      }
    }
    violation := None;
    var i := 0;
    while i + 1 < |page|
      invariant 0 <= i
      invariant forall j | 0 <= j < i && j + 1 < |page| :: KeyLess(page[j], page[j + 1])
    {
      violation := Compare(page[i], page[i + 1]);
      assert all[|previous| + i] == page[i] && all[|previous| + i + 1] == page[i + 1];
      if violation.Some? {
        return;
      }
      i := i + 1;
    }
    violation := None;
    forall i | 0 <= i < |all| - 1 ensures KeyLess(all[i], all[i + 1]) {
      if i >= |previous| {
        assert all[i] == page[i - |previous|] && all[i + 1] == page[i - |previous| + 1];
      }
    }
  }

  // ---- Paging ----

  function Keys(items: seq<Item>): seq<OrderKey> {
    seq(|items|, i requires 0 <= i < |items| => items[i].Key())
  }

  lemma KeysAppend(a: seq<Item>, b: seq<Item>)
    ensures Keys(a + b) == Keys(a) + Keys(b)
  {
  }

  function Min(a: int, b: int): int {
    if a < b then a else b
  }

  /** How many pages a list takes: at least one. */
  function PageCount(total: int, pageSize: int): (n: nat)
    requires pageSize >= 1
    ensures n >= 1
    decreases total
  {
    if total <= pageSize then 1 else 1 + PageCount(total - pageSize, pageSize)
  }

  /** Where page `k` starts: `k * pageSize`. */
  function Offset(pageSize: int, k: nat): nat
    requires pageSize >= 1
  {
    if k == 0 then 0 else Offset(pageSize, k - 1) + pageSize
  }

  lemma {:induction false} OffsetIsProduct(pageSize: int, k: nat)
    requires pageSize >= 1
    ensures Offset(pageSize, k) == k * pageSize
  {
    if k > 0 {
      OffsetIsProduct(pageSize, k - 1);
      assert k * pageSize == (k - 1) * pageSize + pageSize;
    }
  }

  lemma {:induction false} OffsetsGrow(pageSize: int, j: nat, k: nat)
    requires pageSize >= 1 && j < k
    ensures Offset(pageSize, j) + pageSize <= Offset(pageSize, k)
    decreases k
  {
    if j + 1 < k {
      OffsetsGrow(pageSize, j, k - 1);
    }
  }

  /** The page count is the ceiling of total / pageSize, and one for an empty list. */
  lemma {:induction false} PageCountIsCeiling(total: nat, pageSize: int)
    requires pageSize >= 1
    ensures var n := PageCount(total, pageSize); total <= n * pageSize && (n == 1 || (n - 1) * pageSize < total)
  {
    if total > pageSize {
      PageCountIsCeiling(total - pageSize, pageSize);
      var m := PageCount(total - pageSize, pageSize);
      assert (m + 1) * pageSize == m * pageSize + pageSize;
      assert m * pageSize == (m - 1) * pageSize + pageSize;
    }
  }

  /** A page is fetched exactly while the list is not exhausted. */
  lemma {:induction false} MorePages(total: int, pageSize: int, k: nat)
    requires pageSize >= 1
    ensures k < PageCount(total, pageSize) <==> k == 0 || Offset(pageSize, k) < total
    decreases k
  {
    if k > 0 && total > pageSize {
      MorePages(total - pageSize, pageSize, k - 1);
    }
  }

  /** The k-th page of a list, as the server must echo it. */
  function PageOf(list: seq<Item>, pageSize: int, k: nat): Answer
    requires pageSize >= 1 && Offset(pageSize, k) <= |list|
  {
    Page(|list|, pageSize, Offset(pageSize, k), list[Offset(pageSize, k)..Min(Offset(pageSize, k) + pageSize, |list|)])
  }

  /** The server answers every page of one strictly ascending list, and nothing else. */
  ghost predicate Serves(server: nat -> Answer, pageSize: int, list: seq<Item>)
    requires pageSize >= 1
  {
    && Ascending(Keys(list))
    && forall k | 0 <= k < PageCount(|list|, pageSize) ::
         Offset(pageSize, k) <= |list| && server(k) == PageOf(list, pageSize, k)
  }

  /** How many items name a source. */
  function CountSource(items: seq<Item>, source: ScoreSource, onlyZero: bool): nat {
    if items == [] then 0
    else
      var last := items[|items| - 1];
      CountSource(items[..|items| - 1], source, onlyZero)
      + if last.source == source && (!onlyZero || last.effectiveN == 0.0) then 1 else 0
  }

  function At(counts: map<ScoreSource, nat>, source: ScoreSource): nat {
    if source in counts then counts[source] else 0
  }

  method CountPage(
    counts: map<ScoreSource, nat>, zeroCounts: map<ScoreSource, nat>, page: seq<Item>, ghost before: seq<Item>)
    returns (more: map<ScoreSource, nat>, moreZero: map<ScoreSource, nat>)
    requires forall s ::
      At(counts, s) == CountSource(before, s, false) && At(zeroCounts, s) == CountSource(before, s, true)
    ensures forall s ::
      At(more, s) == CountSource(before + page, s, false) && At(moreZero, s) == CountSource(before + page, s, true)
  {
    more, moreZero := counts, zeroCounts;
    assert before + page[..0] == before;
    for k := 0 to |page|
      invariant forall s ::
        At(more, s) == CountSource(before + page[..k], s, false) &&
          At(moreZero, s) == CountSource(before + page[..k], s, true)
    {
      var item := page[k];
      assert (before + page[..k + 1])[..|before| + k] == before + page[..k];
      more := more[item.source := At(more, item.source) + 1];
      if item.effectiveN == 0.0 {
        moreZero := moreZero[item.source := At(moreZero, item.source) + 1];
      }
    }
    assert page[..|page|] == page;
  }

  datatype Scan = Scan(
    keys: seq<OrderKey>, apiTotal: Option<int>, pages: nat,
    sourceCounts: map<ScoreSource, nat>, zeroCounts: map<ScoreSource, nat>, reason: Option<Reason>)

  /** The answer to page `j` is the matching stretch of the items. */
  ghost predicate Matches(answer: Answer, pageSize: int, total: int, items: seq<Item>, j: nat)
    requires pageSize >= 1
  {
    && Offset(pageSize, j) + pageSize <= |items|
    && answer == Page(total, pageSize, Offset(pageSize, j), items[Offset(pageSize, j)..Offset(pageSize, j) + pageSize])
  }

  /** `k` full pages were read, and more must follow. */
  ghost predicate ReadSoFar(server: nat -> Answer, pageSize: int, seen: seq<Item>, total: Option<int>, k: nat)
    requires pageSize >= 1
  {
    && Ascending(Keys(seen)) && |seen| == Offset(pageSize, k)
    && (total.Some? <==> k > 0) && (k > 0 ==> |seen| < total.value)
    && forall j | 0 <= j < k :: Matches(server(j), pageSize, total.value, seen, j)
  }

  lemma {:induction false} SeenIsPrefix(
    server: nat -> Answer, pageSize: int, seen: seq<Item>, total: Option<int>, k: nat, list: seq<Item>, j: nat)
    requires pageSize >= 1 && ReadSoFar(server, pageSize, seen, total, k) && Serves(server, pageSize, list) && j <= k
    ensures j > 0 ==> total == Some(|list|)
    ensures Offset(pageSize, j) <= |seen| && Offset(pageSize, j) <= |list|
    ensures seen[..Offset(pageSize, j)] == list[..Offset(pageSize, j)]
  {
    hide KeyLess, Ascending, PageCount;
    if j < k {
      OffsetsGrow(pageSize, j, k);
    }
    if j > 0 {
      var i := j - 1;
      SeenIsPrefix(server, pageSize, seen, total, k, list, i);
      var from_ := Offset(pageSize, i);
      MorePages(|list|, pageSize, i);
      assert Matches(server(i), pageSize, total.value, seen, i);
      OneMorePage(server(i), pageSize, seen, total.value, list, i);
    }
  }

  lemma OneMorePage(answer: Answer, pageSize: int, seen: seq<Item>, total: int, list: seq<Item>, i: nat)
    requires pageSize >= 1 && Offset(pageSize, i) <= |list| && Matches(answer, pageSize, total, seen, i)
    requires answer == PageOf(list, pageSize, i)
    requires seen[..Offset(pageSize, i)] == list[..Offset(pageSize, i)]
    ensures total == |list| && Offset(pageSize, i + 1) <= |seen| && Offset(pageSize, i + 1) <= |list|
    ensures seen[..Offset(pageSize, i + 1)] == list[..Offset(pageSize, i + 1)]
  {
    var a, b := Offset(pageSize, i), Offset(pageSize, i + 1);
    assert seen[..b] == seen[..a] + seen[a..b] && list[..b] == list[..a] + list[a..b];
  }

  /** What the next page of a served list must show. */
  lemma ServedNext(server: nat -> Answer, pageSize: int, seen: seq<Item>, total: Option<int>, k: nat, list: seq<Item>)
    requires pageSize >= 1 && ReadSoFar(server, pageSize, seen, total, k) && Serves(server, pageSize, list)
    ensures Offset(pageSize, k) <= |list| && server(k) == PageOf(list, pageSize, k)
    ensures (total.Some? ==> total.value == |list|)
    ensures seen + server(k).items == list[..|seen + server(k).items|]
  {
    hide KeyLess, Ascending, PageCount;
    SeenIsPrefix(server, pageSize, seen, total, k, list, k);
    MorePages(|list|, pageSize, k);
    assert seen[..Offset(pageSize, k)] == seen;
  }

  lemma PrefixAscends(list: seq<Item>, n: nat)
    requires n <= |list| && Ascending(Keys(list))
    ensures Ascending(Keys(list[..n]))
  {
    hide KeyLess;
    assert forall i | 0 <= i < n :: Keys(list[..n])[i] == Keys(list)[i];
  }

  /** The last page completes a served list. */
  lemma Complete(server: nat -> Answer, pageSize: int, seen: seq<Item>, total: Option<int>, k: nat)
    requires pageSize >= 1 && ReadSoFar(server, pageSize, seen, total, k)
    requires server(k).Page? && server(k).limit == pageSize && server(k).offset == Offset(pageSize, k)
    requires |server(k).items| <= pageSize && (total.Some? ==> server(k).total == total.value)
    requires |seen + server(k).items| == server(k).total && Ascending(Keys(seen + server(k).items))
    ensures Serves(server, pageSize, seen + server(k).items)
    ensures PageCount(|seen + server(k).items|, pageSize) == k + 1
  {
    hide KeyLess, Ascending, PageCount;
    var list := seen + server(k).items;
    MorePages(|list|, pageSize, k);
    MorePages(|list|, pageSize, k + 1);
    forall j | 0 <= j < PageCount(|list|, pageSize)
      ensures Offset(pageSize, j) <= |list| && server(j) == PageOf(list, pageSize, j)
    {
      if j < k {
        OffsetsGrow(pageSize, j, k);
        assert Matches(server(j), pageSize, total.value, seen, j);
        assert seen[Offset(pageSize, j)..Offset(pageSize, j) + pageSize] ==
          list[Offset(pageSize, j)..Offset(pageSize, j) + pageSize];
      }
    }
  }

  /** Another full page was read. */
  lemma ReadMore(server: nat -> Answer, pageSize: int, seen: seq<Item>, total: Option<int>, k: nat)
    requires pageSize >= 1 && ReadSoFar(server, pageSize, seen, total, k)
    requires server(k).Page? && server(k).limit == pageSize && server(k).offset == Offset(pageSize, k)
    requires |server(k).items| == pageSize && (total.Some? ==> server(k).total == total.value)
    requires |seen + server(k).items| < server(k).total && Ascending(Keys(seen + server(k).items))
    ensures ReadSoFar(server, pageSize, seen + server(k).items, Some(server(k).total), k + 1)
  {
    hide KeyLess, Ascending;
    var more := seen + server(k).items;
    forall j | 0 <= j < k + 1 ensures Matches(server(j), pageSize, server(k).total, more, j) {
      if j < k {
        assert Matches(server(j), pageSize, total.value, seen, j);
        assert seen[Offset(pageSize, j)..Offset(pageSize, j) + pageSize] ==
          more[Offset(pageSize, j)..Offset(pageSize, j) + pageSize];
      }
    }
  }

  /** `_fetch_page` */
  function FetchPage(server: nat -> Answer, pageSize: int, k: nat, offset: int): (r: (Answer, Option<Reason>))
    ensures r.1.None? <==> r.0.Page? && r.0.limit == pageSize && r.0.offset == offset && |r.0.items| <= pageSize
  {
    var answer := server(k);
    match answer
    case BadStatus => (answer, Some(HttpStatus))
    case Unreadable => (answer, Some(InvalidResponse))
    case Page(_, limit, at, items) =>
      (answer, if limit != pageSize || at != offset || |items| > pageSize then Some(InvalidResponse) else None)
  }

  /** Why the walk stops at this page, or None; and whether it is complete. */
  method JudgePage(page: Answer, firstTotal: Option<int>, keys: seq<OrderKey>) returns (reason: Option<Reason>)
    requires page.Page? && Ascending(keys)
    ensures reason.None? <==>
      (firstTotal.Some? ==> page.total == firstTotal.value) && Ascending(keys + Keys(page.items))
    ensures firstTotal.Some? && page.total != firstTotal.value ==> reason == Some(SnapshotChanged)
  {
    if firstTotal.Some? && page.total != firstTotal.value {
      return Some(SnapshotChanged);
    }
    reason := FindOrderViolation(keys, Keys(page.items));
  }

  /** No list is being served. */
  ghost predicate ServesNothing(server: nat -> Answer, pageSize: int)
    requires pageSize >= 1
  {
    forall list :: !Serves(server, pageSize, list)
  }

  lemma StopIsJustified(server: nat -> Answer, pageSize: int, seen: seq<Item>, total: Option<int>, k: nat)
    requires pageSize >= 1 && ReadSoFar(server, pageSize, seen, total, k)
    requires FetchPage(server, pageSize, k, Offset(pageSize, k)).1.Some?
      || (total.Some? && server(k).total != total.value)
      || !Ascending(Keys(seen + server(k).items))
      || |seen + server(k).items| > server(k).total
      || (|seen + server(k).items| < server(k).total && |server(k).items| < pageSize)
    ensures ServesNothing(server, pageSize)
  {
    forall list | Serves(server, pageSize, list) ensures false {
      ServedNext(server, pageSize, seen, total, k, list);
      PrefixAscends(list, |seen + server(k).items|);
    }
  }

  /** `scan_pages`: against any server the walk ends; it reports no reason exactly when the server
      answered every page of one strictly ascending list, and then returns that list. */
  method ScanPages(server: nat -> Answer, pageSize: int) returns (scan: Scan, ghost seen: seq<Item>)
    requires pageSize >= 1
    ensures scan.reason.None? ==> Serves(server, pageSize, seen) && scan.apiTotal == Some(|seen|)
    ensures scan.reason.None? ==> scan.pages == PageCount(|seen|, pageSize)
    ensures scan.reason.Some? ==> ServesNothing(server, pageSize)
    ensures scan.apiTotal.Some? ==> scan.pages <= PageCount(scan.apiTotal.value, pageSize)
    ensures scan.apiTotal.None? ==> scan.pages == 0
    ensures scan.keys == Keys(seen) && Ascending(scan.keys)
    ensures forall s ::
      At(scan.sourceCounts, s) == CountSource(seen, s, false) && At(scan.zeroCounts, s) == CountSource(seen, s, true)
  {
    hide KeyLess, Ascending, CountSource, PageCount, Serves, ServesNothing;
    EmptyScan(server, pageSize);
    var keys: seq<OrderKey>, counts: map<ScoreSource, nat>, zeroCounts: map<ScoreSource, nat> := [], map[], map[];
    var firstTotal: Option<int>, pageIndex: nat := None, 0;
    seen := [];
    while true
      invariant ReadSoFar(server, pageSize, seen, firstTotal, pageIndex) && keys == Keys(seen)
      invariant forall s ::
        At(counts, s) == CountSource(seen, s, false) && At(zeroCounts, s) == CountSource(seen, s, true)
      decreases if firstTotal.Some? then 0 else 1, if firstTotal.Some? then firstTotal.value - |keys| else 0
    {
      OffsetIsProduct(pageSize, pageIndex);
      var (page, failure) := FetchPage(server, pageSize, pageIndex, pageIndex * pageSize);
      PagesSoFar(firstTotal, pageSize, seen, pageIndex, if page.Page? then page.total else 0);
      if failure.Some? {
        StopIsJustified(server, pageSize, seen, firstTotal, pageIndex);
        return Scan(keys, firstTotal, pageIndex, counts, zeroCounts, failure), seen;
      }
      KeysAppend(seen, page.items);
      var violation := JudgePage(page, firstTotal, keys);
      if violation.Some? {
        StopIsJustified(server, pageSize, seen, firstTotal, pageIndex);
        return Scan(keys, if firstTotal.Some? then firstTotal
          else Some(page.total), pageIndex + 1, counts, zeroCounts, violation), seen;
      }
      counts, zeroCounts := CountPage(counts, zeroCounts, page.items, seen);
      keys := keys + Keys(page.items);
      ghost var before := seen;
      seen := seen + page.items;
      if |keys| > page.total {
        StopIsJustified(server, pageSize, before, firstTotal, pageIndex);
        return Scan(keys, Some(page.total), pageIndex + 1, counts, zeroCounts, Some(PageOverrun)), seen;
      }
      if |keys| == page.total {
        Complete(server, pageSize, before, firstTotal, pageIndex);
        return Scan(keys, Some(page.total), pageIndex + 1, counts, zeroCounts, None), seen;
      }
      if |page.items| < pageSize {
        StopIsJustified(server, pageSize, before, firstTotal, pageIndex);
        return Scan(keys, Some(page.total), pageIndex + 1, counts, zeroCounts, Some(ShortPage)), seen;
      }
      ReadMore(server, pageSize, before, firstTotal, pageIndex);
      firstTotal := Some(page.total);
      pageIndex := pageIndex + 1;
    }
  }

  lemma EmptyScan(server: nat -> Answer, pageSize: int)
    requires pageSize >= 1
    ensures ReadSoFar(server, pageSize, [], None, 0)
    ensures forall s :: CountSource([], s, false) == 0 && CountSource([], s, true) == 0
  {
  }

  /** The page about to be fetched is within the announced page count. */
  lemma PagesSoFar(firstTotal: Option<int>, pageSize: int, seen: seq<Item>, k: nat, total: int)
    requires pageSize >= 1 && |seen| == Offset(pageSize, k) && (firstTotal.Some? <==> k > 0)
    requires (k > 0 ==> |seen| < firstTotal.value)
    ensures firstTotal.Some? ==> k + 1 <= PageCount(firstTotal.value, pageSize)
    ensures firstTotal.None? ==> k + 1 <= PageCount(total, pageSize)
  {
    if firstTotal.Some? {
      MorePages(firstTotal.value, pageSize, k);
    }
  }
}
