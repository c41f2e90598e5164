/** Python's orders on strings and tuples, and `sorted(...)` over a set: the one strictly
    increasing sequence of its elements. */
module Ordering {
  import opened Text

  /** `a < b` on strings: by code point, a proper prefix first. */
  predicate StrLess(a: string, b: string) {
    b != "" && (a == "" || a[0] < b[0] || (a[0] == b[0] && StrLess(a[1..], b[1..])))
  }

  lemma StrLessIrreflexive(a: string)
    ensures !StrLess(a, a)
  {
  }

  lemma StrLessTransitive(a: string, b: string, c: string)
    requires StrLess(a, b) && StrLess(b, c)
    ensures StrLess(a, c)
  {
    if a != "" && a[0] == b[0] == c[0] {
      StrLessTransitive(a[1..], b[1..], c[1..]);
    }
  }

  lemma {:induction false} StrLessTotal(a: string, b: string)
    ensures a == b || StrLess(a, b) || StrLess(b, a)
  {
    if a != "" && b != "" && a[0] == b[0] {
      StrLessTotal(a[1..], b[1..]);
      assert a == [a[0]] + a[1..] && b == [b[0]] + b[1..];
    }
  }

  ghost predicate StrictTotalOn<T(!new)>(less: (T, T) -> bool, s: set<T>) {
    && (forall a | a in s :: !less(a, a))
    && (forall a, b | a in s && b in s :: a == b || less(a, b) || less(b, a))
    && (forall a, b, c | a in s && b in s && c in s && less(a, b) && less(b, c) :: less(a, c))
  }

  ghost predicate Increasing<T(!new)>(less: (T, T) -> bool, xs: seq<T>) {
    forall i, j | 0 <= i < j < |xs| :: less(xs[i], xs[j])
  }

  function Elements<T>(xs: seq<T>): set<T> {
    set x | x in xs
  }

  /** `sorted(s, key=...)` for keys that are all different. */
  function Sorted<T(!new, ==)>(less: (T, T) -> bool, s: set<T>): (xs: seq<T>)
    requires StrictTotalOn(less, s)
    ensures Elements(xs) == s
    ensures Increasing(less, xs)
    decreases |s|
  {
    if s == {} then [] else
      LeastExists(less, s);
      var m :| m in s && forall x | x in s && x != m :: less(m, x);
      var rest := Sorted(less, s - {m});
      assert Elements([m] + rest) == s by {
        assert forall x :: x in [m] + rest <==> x == m || x in rest;
        assert forall x :: x in rest <==> x in Elements(rest);
      }
      assert forall i | 0 <= i < |rest| :: rest[i] in Elements(rest);
      [m] + rest
  }

  lemma LeastExists<T(!new)>(less: (T, T) -> bool, s: set<T>)
    requires StrictTotalOn(less, s) && s != {}
    ensures exists m :: m in s && forall x | x in s && x != m :: less(m, x)
    decreases |s|
  {
    var a :| a in s;
    var rest := s - {a};
    if rest == {} {
      assert s == {a};
    } else {
      LeastExists(less, rest);
      var m :| m in rest && forall x | x in rest && x != m :: less(m, x);
      var least := if less(a, m) then a else m;
      forall x | x in s && x != least ensures less(least, x) {
      }
    }
  }

  /** Two increasing sequences with the same elements are equal: the order in which a
      collection was gathered cannot show after sorting. */
  lemma {:induction false} SortedUnique<T(!new)>(less: (T, T) -> bool, xs: seq<T>, ys: seq<T>)
    requires StrictTotalOn(less, Elements(xs))
    requires Elements(xs) == Elements(ys)
    requires Increasing(less, xs) && Increasing(less, ys)
    ensures xs == ys
    decreases |xs|
  {
    assert xs == [] <==> Elements(xs) == {} by { NoElements(xs); }
    assert ys == [] <==> Elements(ys) == {} by { NoElements(ys); }
    if xs != [] && ys != [] {
      SameHead(less, xs, ys);
      TailElements(less, xs);
      TailElements(less, ys);
      SortedUnique(less, xs[1..], ys[1..]);
      assert xs == [xs[0]] + xs[1..] && ys == [ys[0]] + ys[1..];
    }
  }

  lemma NoElements<T>(xs: seq<T>)
    ensures Elements(xs) == {} <==> xs == []
  {
    assert xs != [] ==> xs[0] in Elements(xs);
  }

  lemma SameHead<T(!new)>(less: (T, T) -> bool, xs: seq<T>, ys: seq<T>)
    requires StrictTotalOn(less, Elements(xs)) && Elements(xs) == Elements(ys)
    requires Increasing(less, xs) && Increasing(less, ys)
    requires xs != [] && ys != []
    ensures xs[0] == ys[0]
  {
    HeadIsLeast(less, xs, ys[0]);
    HeadIsLeast(less, ys, xs[0]);
  }

  lemma HeadIsLeast<T(!new)>(less: (T, T) -> bool, xs: seq<T>, x: T)
    requires Increasing(less, xs) && xs != []
    requires x in Elements(xs)
    ensures x == xs[0] || less(xs[0], x)
  {
    var i :| 0 <= i < |xs| && xs[i] == x;
  }

  lemma TailElements<T(!new)>(less: (T, T) -> bool, xs: seq<T>)
    requires StrictTotalOn(less, Elements(xs)) && Increasing(less, xs) && xs != []
    ensures Elements(xs[1..]) == Elements(xs) - {xs[0]}
    ensures StrictTotalOn(less, Elements(xs[1..])) && Increasing(less, xs[1..])
  {
    forall x | x in xs[1..] ensures x != xs[0] && x in xs {
      var i :| 0 <= i < |xs[1..]| && xs[1..][i] == x;
      assert less(xs[0], xs[i + 1]);
    }
    forall x | x in Elements(xs) - {xs[0]} ensures x in xs[1..] {
      var i :| 0 <= i < |xs| && xs[i] == x;
      assert xs[1..][i - 1] == x;
    }
  }

  lemma MaxExists(s: set<nat>)
    requires s != {}
    ensures exists m :: m in s && forall x | x in s :: x <= m
    decreases |s|
  {
    var a :| a in s;
    if s != {a} {
      MaxExists(s - {a});
      var m :| m in s - {a} && forall x | x in s - {a} :: x <= m;
      var top := if m < a then a else m;
      forall x | x in s ensures x <= top {
        assert x == a || x in s - {a};
      }
    }
  }

  /** `max(id)` */
  function MaxId(s: set<nat>): (r: Option<nat>)
    ensures r.None? <==> s == {}
    ensures r.Some? ==> r.value in s && forall x | x in s :: x <= r.value
  {
    if s == {} then None
    else
      MaxExists(s);
      var m :| m in s && forall x | x in s :: x <= m;
      Some(m)
  }
}
