/** The API's in-process cache: least recently used, short-lived, bounded by total body bytes. */
module ResponseCache {
  import opened Text

  type Bytes = seq<bv8>

  datatype CachedResponse = CachedResponse(expiresAt: real, body: Bytes, headers: map<string, string>, route: string)

  datatype Entry = Entry(key: string, response: CachedResponse)

  // ---- The entries, least recently used first ----

  ghost predicate DistinctKeys(es: seq<Entry>) {
    forall i, j | 0 <= i < j < |es| :: es[i].key != es[j].key
  }

  function Find(es: seq<Entry>, key: string): (r: Option<CachedResponse>)
    ensures r.None? <==> forall e | e in es :: e.key != key
    ensures r.Some? ==> Entry(key, r.value) in es
  {
    if es == [] then None
    else if es[|es| - 1].key == key then Some(es[|es| - 1].response)
    else Find(es[..|es| - 1], key)
  }

  function Without(es: seq<Entry>, key: string): (r: seq<Entry>)
    ensures forall e :: e in r <==> e in es && e.key != key
  {
    if es == [] then []
    else
      var n := |es| - 1;
      assert es == es[..n] + [es[n]];
      Without(es[..n], key) + if es[n].key == key then [] else [es[n]]
  }

  function TotalBytes(es: seq<Entry>): nat {
    if es == [] then 0 else TotalBytes(es[..|es| - 1]) + |es[|es| - 1].response.body|
  }

  /** Drops the least recently used entries until the rest fits. */
  function Trim(es: seq<Entry>, maxBytes: int): seq<Entry> {
    if es == [] || TotalBytes(es) <= maxBytes then es else Trim(es[1..], maxBytes)
  }

  predicate Acceptable(body: Bytes, maxBytes: int) {
    |body| <= maxBytes / 8
  }

  function Stored(es: seq<Entry>, e: Entry, maxBytes: int): seq<Entry> {
    if Acceptable(e.response.body, maxBytes) then Trim(Without(es, e.key) + [e], maxBytes) else es
  }

  function Hit(es: seq<Entry>, key: string, now: real): Option<CachedResponse> {
    var found := Find(es, key);
    if found.Some? && found.value.expiresAt > now then found else None
  }

  /** A hit becomes the most recently used entry; an expired one is dropped. */
  function Used(es: seq<Entry>, key: string, now: real): seq<Entry> {
    match Hit(es, key, now)
    case Some(r) => Without(es, key) + [Entry(key, r)]
    case None => Without(es, key)
  }

  // ---- The object ----

  class ResponseCache {
    const ttlSeconds: real
    const maxBytes: int
    var entries: seq<Entry>
    var bytes: int

    ghost predicate Valid()
      reads this
    {
      DistinctKeys(entries) && bytes == TotalBytes(entries) && (entries == [] || bytes <= maxBytes)
    }

    constructor (ttlSeconds: real, maxBytes: int)
      ensures Valid() && entries == [] && this.ttlSeconds == ttlSeconds && this.maxBytes == maxBytes
    {
      this.ttlSeconds := ttlSeconds;
      this.maxBytes := maxBytes;
      entries, bytes := [], 0;
    }

    method Drop(key: string)
      requires DistinctKeys(entries) && Find(entries, key).Some? && bytes == TotalBytes(entries)
      modifies this
      ensures entries == Without(old(entries), key) && DistinctKeys(entries) && bytes == TotalBytes(entries)
    {
      WithoutBytes(entries, key);
      WithoutDistinct(entries, key);
      bytes := bytes - |Find(entries, key).value.body|;
      entries := Without(entries, key);
    }

    method Get(key: string, now: real) returns (r: Option<CachedResponse>)
      requires Valid()
      modifies this
      ensures Valid() && r == Hit(old(entries), key, now) && entries == Used(old(entries), key, now)
    {
      hide DistinctKeys, Without, Find, TotalBytes;
      WithoutBytes(entries, key);
      var entry := Find(entries, key);
      if entry.None? {
        return None;
      }
      if entry.value.expiresAt <= now {
        Drop(key);
        return None;
      }
      r := entry;
      MoveToEnd(key, entry.value);
    }

    /** `move_to_end` */
    method MoveToEnd(key: string, response: CachedResponse)
      requires Valid() && Find(entries, key) == Some(response)
      modifies this`entries
      ensures Valid() && entries == Without(old(entries), key) + [Entry(key, response)]
    {
      hide DistinctKeys, Without, Find, TotalBytes;
      WithoutBytes(entries, key);
      Readded(entries, Entry(key, response));
      entries := Without(entries, key) + [Entry(key, response)];
    }

    method Put(key: string, body: Bytes, headers: map<string, string>, route: string, now: real)
      requires Valid()
      modifies this
      ensures Valid()
      ensures entries ==
        Stored(old(entries), Entry(key, CachedResponse(now + ttlSeconds, body, headers, route)), maxBytes)
    {
      if |body| > maxBytes / 8 {
        return;
      }
      Insert(Entry(key, CachedResponse(now + ttlSeconds, body, headers, route)));
      Evict();
    }

    /** The entry replaces any older one of its key, at the recent end. */
    method Insert(e: Entry)
      requires DistinctKeys(entries) && bytes == TotalBytes(entries)
      modifies this
      ensures entries == Without(old(entries), e.key) + [e] && DistinctKeys(entries) && bytes == TotalBytes(entries)
    {
      hide DistinctKeys, Without, Find, TotalBytes;
      WithoutBytes(entries, e.key);
      Readded(entries, e);
      if Find(entries, e.key).Some? {
        Drop(e.key);
      }
      entries := entries + [e];
      bytes := bytes + |e.response.body|;
    }

    /** Drops the least recently used entries until the bytes fit. */
    method Evict()
      requires DistinctKeys(entries) && bytes == TotalBytes(entries) && maxBytes >= 0
      modifies this
      ensures Valid() && entries == Trim(old(entries), maxBytes)
    {
      while bytes > maxBytes
        invariant DistinctKeys(entries) && bytes == TotalBytes(entries)
        invariant Trim(entries, maxBytes) == Trim(old(entries), maxBytes)
        decreases |entries|
      {
        HeadWithout(entries);
        Drop(entries[0].key);
      }
    }
  }

  lemma {:induction false} WithoutDistinct(es: seq<Entry>, key: string)
    requires DistinctKeys(es)
    ensures DistinctKeys(Without(es, key))
  {
    if es != [] {
      var n := |es| - 1;
      assert es == es[..n] + [es[n]];
      WithoutDistinct(es[..n], key);
      forall e | e in Without(es[..n], key) ensures e.key != es[n].key {
        var i :| 0 <= i < n && es[i] == e;
      }
    }
  }

  lemma AppendBytes(es: seq<Entry>, e: Entry)
    ensures TotalBytes(es + [e]) == TotalBytes(es) + |e.response.body|
  {
    assert (es + [e])[..|es|] == es;
  }

  /** Taking a key out and adding its entry at the recent end. */
  lemma Readded(es: seq<Entry>, e: Entry)
    requires DistinctKeys(es)
    ensures DistinctKeys(Without(es, e.key) + [e])
    ensures TotalBytes(Without(es, e.key) + [e]) == TotalBytes(Without(es, e.key)) + |e.response.body|
  {
    WithoutDistinct(es, e.key);
    AppendBytes(Without(es, e.key), e);
    hide Without, TotalBytes;
    var rest := Without(es, e.key);
    forall i | 0 <= i < |rest| ensures rest[i].key != e.key {
      assert rest[i] in rest;
    }
  }

  lemma {:induction false} NotThere(es: seq<Entry>, key: string)
    requires forall e | e in es :: e.key != key
    ensures Without(es, key) == es
  {
    if es != [] {
      var n := |es| - 1;
      assert es[n] in es && es == es[..n] + [es[n]];
      NotThere(es[..n], key);
    }
  }

  lemma WithoutAppend(es: seq<Entry>, e: Entry, key: string)
    ensures Without(es + [e], key) == Without(es, key) + if e.key == key then [] else [e]
  {
    assert (es + [e])[..|es|] == es;
  }

  lemma {:induction false} WithoutBytes(es: seq<Entry>, key: string)
    requires DistinctKeys(es)
    ensures Find(es, key).None? ==> Without(es, key) == es
    ensures Find(es, key).Some? ==> TotalBytes(Without(es, key)) == TotalBytes(es) - |Find(es, key).value.body|
  {
    hide Without;
    if Find(es, key).None? {
      NotThere(es, key);
    } else {
      var n := |es| - 1;
      assert es == es[..n] + [es[n]];
      WithoutAppend(es[..n], es[n], key);
      if es[n].key == key {
        Earlier(es, key);
        NotThere(es[..n], key);
        assert Without(es, key) == es[..n];
      } else {
        WithoutBytes(es[..n], key);
        AppendBytes(Without(es[..n], key), es[n]);
      }
    }
  }

  lemma Earlier(es: seq<Entry>, key: string)
    requires DistinctKeys(es) && es != [] && es[|es| - 1].key == key
    ensures forall e | e in es[..|es| - 1] :: e.key != key
  {
    forall e | e in es[..|es| - 1] ensures e.key != key {
      var i :| 0 <= i < |es| - 1 && es[i] == e;
    }
  }

  /** Dropping the key of the oldest entry drops just that entry. */
  lemma {:induction false} HeadWithout(es: seq<Entry>)
    requires DistinctKeys(es) && es != []
    ensures Without(es, es[0].key) == es[1..] && Find(es, es[0].key).Some?
  {
    hide Without, Find;
    var n := |es| - 1;
    assert es[0] in es;
    assert es == es[..n] + [es[n]];
    WithoutAppend(es[..n], es[n], es[0].key);
    if n > 0 {
      HeadWithout(es[..n]);
      assert es[1..] == es[..n][1..] + [es[n]];
    } else {
      NotThere([], es[0].key);
    }
  }
}
