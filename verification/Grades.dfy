/** Grade rows and their aggregation, with recency weighting off (the default):
    every weight is 1, so the weighted counts are plain sums. */
module Grades {
  import opened Text

  datatype GradeCounts = GradeCounts(
    a: real, b: real, c: real, d: real, f: real,
    i: real, s: real, u: real, w: real, other: real, total: real)
  {
    /** What the database's check constraints guarantee of a stored row. */
    predicate NonNegative() {
      && a >= 0.0 && b >= 0.0 && c >= 0.0 && d >= 0.0 && f >= 0.0
      && i >= 0.0 && s >= 0.0 && u >= 0.0 && w >= 0.0 && other >= 0.0 && total >= 0.0
    }
  }

  /** Zero in every bucket. The zero is bound by its property: a record written out in literals sends
      the verifier's literal folding into a loop with the sums over its fields. */
  const NO_GRADES: GradeCounts :=
    var zero :| zero == 0.0;
    GradeCounts(zero, zero, zero, zero, zero, zero, zero, zero, zero, zero, zero)

  datatype GradeObservation = GradeObservation(
    termId: nat, termCode: nat, crn: string, counts: GradeCounts, mapped: bool)

  datatype Aggregate = Aggregate(
    counts: GradeCounts,
    completed: real, total: real, withdrawals: real,
    effectiveGradeN: real, effectiveWithdrawalN: real, effectiveN: real,
    sectionCount: nat, termCount: nat, mappedCount: nat)
  {
    predicate HasGradeEvidence() { effectiveGradeN > 0.0 }

    predicate HasWithdrawalEvidence() { effectiveWithdrawalN > 0.0 }

    predicate HasEvidence() { HasGradeEvidence() || HasWithdrawalEvidence() }
  }

  function Min(x: real, y: real): real { if y < x then y else x }

  function Completed(g: GradeCounts): real {
    g.a + g.b + g.c + g.d + g.f
  }

  /** Grade points on the four-point scale. */
  function Points(g: GradeCounts): real {
    4.0 * g.a + 3.0 * g.b + 2.0 * g.c + g.d
  }

  function BucketSum(g: GradeCounts): real {
    Completed(g) + g.i + g.s + g.u + g.w + g.other
  }

  function AddCounts(x: GradeCounts, y: GradeCounts): GradeCounts {
    GradeCounts(x.a + y.a, x.b + y.b, x.c + y.c, x.d + y.d, x.f + y.f,
                x.i + y.i, x.s + y.s, x.u + y.u, x.w + y.w, x.other + y.other, x.total + y.total)
  }

  function SumCounts(obs: seq<GradeObservation>): GradeCounts {
    if obs == [] then NO_GRADES
    else AddCounts(SumCounts(obs[..|obs| - 1]), obs[|obs| - 1].counts)
  }

  function SectionKeys(obs: seq<GradeObservation>): set<(nat, string)> {
    set o | o in obs :: (o.termId, o.crn)
  }

  function MappedKeys(obs: seq<GradeObservation>): set<(nat, string)> {
    set o | o in obs && o.mapped :: (o.termId, o.crn)
  }

  function TermIds(obs: seq<GradeObservation>): set<nat> {
    set o | o in obs :: o.termId
  }

  /** What aggregating a list of observations means. */
  function AggregateOf(obs: seq<GradeObservation>): Aggregate {
    var g := SumCounts(obs);
    Aggregate(g, Completed(g), g.total, g.w, Completed(g), g.total, Min(Completed(g), g.total),
              |SectionKeys(obs)|, |TermIds(obs)|, |MappedKeys(obs)|)
  }

  /** A share of the four-point maximum, or None without a letter grade. */
  function GradeFavorability(g: GradeCounts): (r: Option<real>)
    ensures r.Some? <==> Completed(g) > 0.0
  {
    if Completed(g) <= 0.0 then None else Some(Points(g) / (4.0 * Completed(g)))
  }

  function WithdrawalRate(g: GradeCounts): (r: Option<real>)
    ensures r.Some? <==> g.total > 0.0
  {
    if g.total <= 0.0 then None else Some(g.w / g.total)
  }

  /** One pass with running counters and key sets, for the empty list as for any other. */
  method AggregateGradeObservations(obs: seq<GradeObservation>) returns (r: Aggregate)
    ensures r == AggregateOf(obs)
  {
    NothingCompleted();
    hide SumCounts, Completed, SectionKeys, TermIds, MappedKeys;
    var counts := NO_GRADES;
    var completed, total, withdrawals := 0.0, 0.0, 0.0;
    var sections: set<(nat, string)>, terms: set<nat>, mapped: set<(nat, string)> := {}, {}, {};
    for k := 0 to |obs|
      invariant counts == SumCounts(obs[..k])
      invariant completed == Completed(counts) && total == counts.total && withdrawals == counts.w
      invariant sections == SectionKeys(obs[..k]) && terms == TermIds(obs[..k])
      invariant mapped == MappedKeys(obs[..k])
    {
      var o := obs[k];
      TakeOneMore(obs, k);
      CompletedAdds(counts, o.counts);
      counts := AddCounts(counts, o.counts);
      completed := completed + Completed(o.counts);
      total := total + o.counts.total;
      withdrawals := withdrawals + o.counts.w;
      sections := sections + {(o.termId, o.crn)};
      terms := terms + {o.termId};
      if o.mapped {
        mapped := mapped + {(o.termId, o.crn)};
      }
    }
    assert obs[..|obs|] == obs;
    r := Aggregate(counts, completed, total, withdrawals, Completed(counts), counts.total,
                   Min(Completed(counts), counts.total), |sections|, |terms|, |mapped|);
  }

  lemma NothingCompleted()
    ensures SumCounts([]) == NO_GRADES && Completed(NO_GRADES) == 0.0
    ensures NO_GRADES.total == 0.0 && NO_GRADES.w == 0.0
    ensures SectionKeys([]) == {} && TermIds([]) == {} && MappedKeys([]) == {}
  {
  }

  lemma CompletedAdds(x: GradeCounts, y: GradeCounts)
    ensures Completed(AddCounts(x, y)) == Completed(x) + Completed(y)
  {
  }

  lemma TakeOneMore(obs: seq<GradeObservation>, k: nat)
    requires k < |obs|
    ensures SumCounts(obs[..k + 1]) == AddCounts(SumCounts(obs[..k]), obs[k].counts)
    ensures SectionKeys(obs[..k + 1]) == SectionKeys(obs[..k]) + {(obs[k].termId, obs[k].crn)}
    ensures TermIds(obs[..k + 1]) == TermIds(obs[..k]) + {obs[k].termId}
    ensures MappedKeys(obs[..k + 1]) ==
            MappedKeys(obs[..k]) + (if obs[k].mapped then {(obs[k].termId, obs[k].crn)} else {})
  {
    assert obs[..k + 1] == obs[..k] + [obs[k]];
    assert obs[..k + 1][..k] == obs[..k];
    KeysOfAppend(obs[..k], obs[k]);
  }

  lemma KeysOfAppend(obs: seq<GradeObservation>, o: GradeObservation)
    ensures SectionKeys(obs + [o]) == SectionKeys(obs) + {(o.termId, o.crn)}
    ensures TermIds(obs + [o]) == TermIds(obs) + {o.termId}
    ensures MappedKeys(obs + [o]) == MappedKeys(obs) + (if o.mapped then {(o.termId, o.crn)} else {})
  {
    assert forall x :: x in obs + [o] <==> x in obs || x == o;
  }

  lemma SumAppend(obs: seq<GradeObservation>, o: GradeObservation)
    ensures SumCounts(obs + [o]) == AddCounts(SumCounts(obs), o.counts)
  {
    assert (obs + [o])[..|obs|] == obs;
  }

  // ---- The order in which rows arrive does not matter ----

  lemma {:induction false} SumCountsRemove(obs: seq<GradeObservation>, k: nat)
    requires k < |obs|
    ensures SumCounts(obs) == AddCounts(SumCounts(obs[..k] + obs[k + 1..]), obs[k].counts)
    decreases |obs|
  {
    var n := |obs| - 1;
    var rest := obs[..k] + obs[k + 1..];
    if k == n {
      assert rest == obs[..n];
    } else {
      SumCountsRemove(obs[..n], k);
      var smaller := obs[..n][..k] + obs[..n][k + 1..];
      assert rest[..n - 1] == smaller && rest[n - 1] == obs[n];
      assert SumCounts(rest) == AddCounts(SumCounts(smaller), obs[n].counts);
      AddCountsSwap(SumCounts(smaller), obs[k].counts, obs[n].counts);
    }
  }

  lemma AddCountsSwap(x: GradeCounts, y: GradeCounts, z: GradeCounts)
    ensures AddCounts(AddCounts(x, y), z) == AddCounts(AddCounts(x, z), y)
  {
  }

  lemma {:induction false} SumCountsPermutation(xs: seq<GradeObservation>, ys: seq<GradeObservation>)
    requires multiset(xs) == multiset(ys)
    ensures SumCounts(xs) == SumCounts(ys)
    decreases |xs|
  {
    if xs == [] {
      assert |multiset(ys)| == 0;
    } else {
      var n := |xs| - 1;
      var k := PairUp(xs, ys);
      SumCountsPermutation(xs[..n], ys[..k] + ys[k + 1..]);
      SumCountsRemove(ys, k);
    }
  }

  /** A listing's last row stands somewhere in the other listing; dropping both keeps them equal. */
  lemma PairUp<T>(xs: seq<T>, ys: seq<T>) returns (k: nat)
    requires multiset(xs) == multiset(ys) && xs != []
    ensures k < |ys| && ys[k] == xs[|xs| - 1]
    ensures multiset(xs[..|xs| - 1]) == multiset(ys[..k] + ys[k + 1..])
  {
    var n := |xs| - 1;
    assert xs == xs[..n] + [xs[n]];
    assert xs[n] in multiset(ys);
    k :| 0 <= k < |ys| && ys[k] == xs[n];
    assert ys == ys[..k] + [ys[k]] + ys[k + 1..];
    assert multiset(xs[..n]) == multiset(xs) - multiset{xs[n]};
    assert multiset(ys[..k] + ys[k + 1..]) == multiset(ys) - multiset{ys[k]};
  }

  /** Two listings of the same rows aggregate to the same figures. */
  lemma AggregatePermutation(xs: seq<GradeObservation>, ys: seq<GradeObservation>)
    requires multiset(xs) == multiset(ys)
    ensures AggregateOf(xs) == AggregateOf(ys)
  {
    SumCountsPermutation(xs, ys);
    SameMembers(xs, ys);
    assert SectionKeys(xs) == SectionKeys(ys);
    assert TermIds(xs) == TermIds(ys);
    assert MappedKeys(xs) == MappedKeys(ys);
  }

  lemma SameMembers<T>(xs: seq<T>, ys: seq<T>)
    requires multiset(xs) == multiset(ys)
    ensures forall x :: x in xs <==> x in ys
  {
    assert forall x :: x in xs <==> x in multiset(xs);
    assert forall x :: x in ys <==> x in multiset(ys);
  }
}
