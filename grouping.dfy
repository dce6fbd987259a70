/** The dictionary accumulators the reducers are built from.  A reducer
    walks its rows once, computes a key (always a string: JavaScript object
    keys are strings) and a contribution per row, and keeps one entry per
    key in a plain object.  `Object.values` / `Object.entries` then list
    the entries in the order their keys were first met.

    The meaning of every accumulator is stated through `Select(ks, vs, k)`,
    the contributions of the rows whose key is `k`, in row order. */
module Grouping {
  import opened Seqs

  /** The values among the first `n` whose key is `k`, in order. */
  function SelectUpTo<V>(ks: seq<string>, vs: seq<V>, n: nat, k: string): (r: seq<V>)
    requires n <= |ks| == |vs|
    ensures |r| == CountUpTo(ks, n, k)
  {
    if n == 0 then [] else SelectUpTo(ks, vs, n - 1, k) + (if ks[n - 1] == k then [vs[n - 1]] else [])
  }

  /** How many of the first `n` keys are `k`. */
  function CountUpTo(ks: seq<string>, n: nat, k: string): (c: nat)
    requires n <= |ks|
    ensures c <= n
  {
    if n == 0 then 0 else CountUpTo(ks, n - 1, k) + (if ks[n - 1] == k then 1 else 0)
  }

  /** The total of the values among the first `n` whose key is `k`. */
  function SumUpTo(ks: seq<string>, vs: seq<real>, n: nat, k: string): real
    requires n <= |ks| == |vs|
  {
    if n == 0 then 0.0 else SumUpTo(ks, vs, n - 1, k) + (if ks[n - 1] == k then vs[n - 1] else 0.0)
  }

  /** The running total is the total of the selected values. */
  lemma {:induction false} SumUpToIsSum(ks: seq<string>, vs: seq<real>, n: nat, k: string)
    requires n <= |ks| == |vs|
    ensures SumUpTo(ks, vs, n, k) == Sum(SelectUpTo(ks, vs, n, k))
  {
    if n > 0 {
      SumUpToIsSum(ks, vs, n - 1, k);
      var s := SelectUpTo(ks, vs, n - 1, k);
      if ks[n - 1] == k {
        assert (s + [vs[n - 1]])[..|s|] == s;
      } else {
        assert s + [] == s;
      }
    }
  }

  /** The values whose key is `k`, in order. */
  function Select<V>(ks: seq<string>, vs: seq<V>, k: string): seq<V>
    requires |ks| == |vs|
  {
    SelectUpTo(ks, vs, |ks|, k)
  }

  /** The total of the values whose key is `k`. */
  function Total(ks: seq<string>, vs: seq<real>, k: string): real
    requires |ks| == |vs|
  {
    SumUpTo(ks, vs, |ks|, k)
  }

  /** One more row adds its value to its own key's total and to no
      other. */
  lemma TotalAppend(ks: seq<string>, vs: seq<real>, k: string, v: real, x: string)
    requires |ks| == |vs|
    ensures Total(ks + [k], vs + [v], x) == Total(ks, vs, x) + (if k == x then v else 0.0)
  {
    SumUpToExtend(ks, vs, k, v, |ks|, x);
  }

  lemma {:induction false} SumUpToExtend(ks: seq<string>, vs: seq<real>, k: string, v: real, n: nat, x: string)
    requires n <= |ks| == |vs|
    ensures SumUpTo(ks + [k], vs + [v], n, x) == SumUpTo(ks, vs, n, x)
  {
    if n > 0 {
      SumUpToExtend(ks, vs, k, v, n - 1, x);
    }
  }

  /** The mean of the values whose key is `k`. */
  function GroupMean(ks: seq<string>, vs: seq<real>, k: string): real
    requires |ks| == |vs| && k in ks
  {
    CountPositive(ks, |ks|, k);
    assert ks[..|ks|] == ks;
    Mean(Select(ks, vs, k))
  }

  /** When every value lies in a range, so does every group's mean. */
  lemma GroupMeanWithin(ks: seq<string>, vs: seq<real>, k: string, lo: real, hi: real)
    requires |ks| == |vs| && k in ks
    requires forall i :: 0 <= i < |vs| ==> lo <= vs[i] <= hi
    ensures lo <= GroupMean(ks, vs, k) <= hi
  {
    CountPositive(ks, |ks|, k);
    assert ks[..|ks|] == ks;
    SelectWithin(ks, vs, |ks|, k, lo, hi);
    MeanBounds(Select(ks, vs, k), lo, hi);
  }

  lemma {:induction false} SelectWithin(ks: seq<string>, vs: seq<real>, n: nat, k: string, lo: real, hi: real)
    requires n <= |ks| == |vs|
    requires forall i :: 0 <= i < |vs| ==> lo <= vs[i] <= hi
    ensures forall i :: 0 <= i < |SelectUpTo(ks, vs, n, k)| ==> lo <= SelectUpTo(ks, vs, n, k)[i] <= hi
  {
    if n > 0 {
      SelectWithin(ks, vs, n - 1, k, lo, hi);
    }
  }

  /** How many times `k` occurs in `ks`. */
  function Occurrences(ks: seq<string>, k: string): nat {
    CountUpTo(ks, |ks|, k)
  }

  /** A key occurs among the first `n` exactly when its count there is
      positive. */
  lemma {:induction false} CountPositive(ks: seq<string>, n: nat, k: string)
    requires n <= |ks|
    ensures CountUpTo(ks, n, k) > 0 <==> k in ks[..n]
  {
    if n > 0 {
      CountPositive(ks, n - 1, k);
      assert ks[..n] == ks[..n - 1] + [ks[n - 1]];
    }
  }

  /** The distinct keys among the first `n`, in the order they were
      first met: the key order of an object filled from those rows. */
  function FirstSeen(ks: seq<string>, n: nat): seq<string>
    requires n <= |ks|
  {
    if n == 0 then []
    else
      var r := FirstSeen(ks, n - 1);
      if ks[n - 1] in r then r else r + [ks[n - 1]]
  }

  lemma {:induction false} FirstSeenMembers(ks: seq<string>, n: nat)
    requires n <= |ks|
    ensures NoDups(FirstSeen(ks, n))
    ensures forall k :: k in FirstSeen(ks, n) <==> CountUpTo(ks, n, k) > 0
  {
    if n > 0 {
      FirstSeenMembers(ks, n - 1);
    }
  }

  lemma {:induction false} FirstSeenIsDedup(ks: seq<string>, n: nat)
    requires n <= |ks|
    ensures FirstSeen(ks, n) == Dedup(ks[..n])
  {
    if n > 0 {
      FirstSeenIsDedup(ks, n - 1);
      assert ks[..n] == ks[..n - 1] + [ks[n - 1]];
      DedupAppend(ks[..n - 1], ks[n - 1]);
      var d := Dedup(ks[..n - 1]);
      if ks[n - 1] in ks[..n - 1] {
        var j :| 0 <= j < n - 1 && ks[j] == ks[n - 1];
        assert ks[..n - 1][j] in d;
      }
    }
  }

  /** The group sizes, after the first `n` keys, of the keys in `order`,
      added up. */
  function GroupedCount(order: seq<string>, ks: seq<string>, n: nat): int
    requires n <= |ks|
  {
    if order == [] then 0
    else GroupedCount(order[..|order| - 1], ks, n) + CountUpTo(ks, n, order[|order| - 1])
  }

  /** The group totals, after the first `n` values, of the keys in
      `order`, added up. */
  function GroupedSum(order: seq<string>, ks: seq<string>, vs: seq<real>, n: nat): real
    requires n <= |ks| == |vs|
  {
    if order == [] then 0.0
    else GroupedSum(order[..|order| - 1], ks, vs, n) + SumUpTo(ks, vs, n, order[|order| - 1])
  }

  lemma {:induction false} GroupedCountStep(order: seq<string>, ks: seq<string>, n: nat)
    requires NoDups(order) && n < |ks|
    ensures GroupedCount(order, ks, n + 1) == GroupedCount(order, ks, n) + (if ks[n] in order then 1 else 0)
  {
    if order != [] {
      var init, y := order[..|order| - 1], order[|order| - 1];
      assert order == init + [y];
      assert NoDups(init);
      GroupedCountStep(init, ks, n);
      if ks[n] == y {
        assert y !in init;
      }
    }
  }

  lemma {:induction false} GroupedSumStep(order: seq<string>, ks: seq<string>, vs: seq<real>, n: nat)
    requires NoDups(order) && n < |ks| == |vs|
    ensures GroupedSum(order, ks, vs, n + 1) == GroupedSum(order, ks, vs, n) + (if ks[n] in order then vs[n] else 0.0)
  {
    if order != [] {
      var init, y := order[..|order| - 1], order[|order| - 1];
      assert order == init + [y];
      assert NoDups(init);
      GroupedSumStep(init, ks, vs, n);
      if ks[n] == y {
        assert y !in init;
      }
    }
  }

  lemma {:induction false} CountConservationUpTo(ks: seq<string>, n: nat)
    requires n <= |ks|
    ensures GroupedCount(FirstSeen(ks, n), ks, n) == n
  {
    if n > 0 {
      var x, d := ks[n - 1], FirstSeen(ks, n - 1);
      CountConservationUpTo(ks, n - 1);
      FirstSeenMembers(ks, n - 1);
      GroupedCountStep(d, ks, n - 1);
      if x !in d {
        assert (d + [x])[..|d|] == d;
      }
    }
  }

  /** Partition conservation for counts: the groups of the distinct keys
      together hold every row exactly once. */
  lemma CountConservation(ks: seq<string>)
    ensures GroupedCount(Dedup(ks), ks, |ks|) == |ks|
  {
    CountConservationUpTo(ks, |ks|);
    FirstSeenIsDedup(ks, |ks|);
    assert ks[..|ks|] == ks;
  }

  lemma {:induction false} SumConservationUpTo(ks: seq<string>, vs: seq<real>, n: nat)
    requires n <= |ks| == |vs|
    ensures GroupedSum(FirstSeen(ks, n), ks, vs, n) == Sum(vs[..n])
  {
    if n > 0 {
      var x, d := ks[n - 1], FirstSeen(ks, n - 1);
      SumConservationUpTo(ks, vs, n - 1);
      assert vs[..n] == vs[..n - 1] + [vs[n - 1]];
      FirstSeenMembers(ks, n - 1);
      GroupedSumStep(d, ks, vs, n - 1);
      if x !in d {
        SumUpToIsSum(ks, vs, n - 1, x);
        assert (d + [x])[..|d|] == d;
      }
    }
  }

  /** Partition conservation for sums: the group totals of the distinct
      keys add up to the total of all values. */
  lemma SumConservation(ks: seq<string>, vs: seq<real>)
    requires |ks| == |vs|
    ensures GroupedSum(Dedup(ks), ks, vs, |ks|) == Sum(vs)
  {
    SumConservationUpTo(ks, vs, |ks|);
    FirstSeenIsDedup(ks, |ks|);
    assert ks[..|ks|] == ks && vs[..|vs|] == vs;
  }

  /** `acc[k] = (acc[k] || 0) + 1` over the rows: one counter per key. */
  method GroupCount(ks: seq<string>) returns (order: seq<string>, counts: map<string, nat>)
    ensures order == Dedup(ks)
    ensures forall k :: k in counts <==> k in ks
    ensures forall k :: k in counts ==> counts[k] == Occurrences(ks, k) >= 1
  {
    order, counts := [], map[];
    for i := 0 to |ks|
      invariant order == FirstSeen(ks, i)
      invariant forall k :: k in counts <==> k in order
      invariant forall k :: k !in counts ==> CountUpTo(ks, i, k) == 0
      invariant forall k :: k in counts ==> counts[k] == CountUpTo(ks, i, k) >= 1
    {
      var k := ks[i];
      if k !in counts {
        order := order + [k];
        counts := counts[k := 1];
      } else {
        counts := counts[k := counts[k] + 1];
      }
    }
    FirstSeenIsDedup(ks, |ks|);
    assert ks[..|ks|] == ks;
    forall k
      ensures k in counts <==> k in ks
    {
      CountPositive(ks, |ks|, k);
    }
  }

  /** `if (!acc[k]) acc[k] = {.., total: 0}; acc[k].total += v`: one running
      sum per key. */
  method GroupSum(ks: seq<string>, vs: seq<real>) returns (order: seq<string>, sums: map<string, real>)
    requires |ks| == |vs|
    ensures order == Dedup(ks)
    ensures forall k :: k in sums <==> k in ks
    ensures forall k :: k in sums ==> sums[k] == Total(ks, vs, k) == Sum(Select(ks, vs, k))
  {
    order, sums := [], map[];
    for i := 0 to |ks|
      invariant order == FirstSeen(ks, i)
      invariant forall k :: k in sums <==> k in order
      invariant forall k :: k !in sums ==> CountUpTo(ks, i, k) == 0 && SumUpTo(ks, vs, i, k) == 0.0
      invariant forall k :: k in sums ==> sums[k] == SumUpTo(ks, vs, i, k) && CountUpTo(ks, i, k) >= 1
    {
      var k := ks[i];
      if k !in sums {
        order := order + [k];
        sums := sums[k := 0.0];
      }
      sums := sums[k := sums[k] + vs[i]];
    }
    FirstSeenIsDedup(ks, |ks|);
    assert ks[..|ks|] == ks;
    forall k
      ensures k in sums <==> k in ks
      ensures k in sums ==> sums[k] == Total(ks, vs, k) == Sum(Select(ks, vs, k))
    {
      CountPositive(ks, |ks|, k);
      SumUpToIsSum(ks, vs, |ks|, k);
    }
  }

  /** A running sum and a row counter per key, as the averaging reducers
      keep them. */
  method GroupSumCount(ks: seq<string>, vs: seq<real>) returns (order: seq<string>, sums: map<string, real>, counts: map<string, nat>)
    requires |ks| == |vs|
    ensures order == Dedup(ks)
    ensures forall k :: k in sums <==> k in ks
    ensures sums.Keys == counts.Keys
    ensures forall k :: k in sums ==> sums[k] == Total(ks, vs, k) == Sum(Select(ks, vs, k))
    ensures forall k :: k in counts ==> counts[k] == Occurrences(ks, k) >= 1
  {
    order, sums, counts := [], map[], map[];
    for i := 0 to |ks|
      invariant order == FirstSeen(ks, i)
      invariant forall k :: k in sums <==> k in order
      invariant sums.Keys == counts.Keys
      invariant forall k :: k !in sums ==> CountUpTo(ks, i, k) == 0 && SumUpTo(ks, vs, i, k) == 0.0
      invariant forall k :: k in sums ==> sums[k] == SumUpTo(ks, vs, i, k)
      invariant forall k :: k in counts ==> counts[k] == CountUpTo(ks, i, k) >= 1
    {
      var k := ks[i];
      if k !in sums {
        order := order + [k];
        sums := sums[k := 0.0];
        counts := counts[k := 0];
      }
      sums := sums[k := sums[k] + vs[i]];
      counts := counts[k := counts[k] + 1];
    }
    FirstSeenIsDedup(ks, |ks|);
    assert ks[..|ks|] == ks;
    forall k
      ensures k in sums <==> k in ks
      ensures k in sums ==> sums[k] == Total(ks, vs, k) == Sum(Select(ks, vs, k))
    {
      CountPositive(ks, |ks|, k);
      SumUpToIsSum(ks, vs, |ks|, k);
    }
  }

  /** `if (!acc[k]) acc[k] = []; acc[k].push(v)`: the values of each key
      collected in row order. */
  method GroupCollect<V>(ks: seq<string>, vs: seq<V>) returns (order: seq<string>, groups: map<string, seq<V>>)
    requires |ks| == |vs|
    ensures order == Dedup(ks)
    ensures forall k :: k in groups <==> k in ks
    ensures forall k :: k in groups ==> groups[k] == Select(ks, vs, k) && |groups[k]| >= 1
  {
    order, groups := [], map[];
    for i := 0 to |ks|
      invariant order == FirstSeen(ks, i)
      invariant forall k :: k in groups <==> k in order
      invariant forall k :: k !in groups ==> CountUpTo(ks, i, k) == 0
      invariant forall k :: k in groups ==> groups[k] == SelectUpTo(ks, vs, i, k) && |groups[k]| >= 1
    {
      var k := ks[i];
      if k !in groups {
        order := order + [k];
        groups := groups[k := [vs[i]]];
      } else {
        groups := groups[k := groups[k] + [vs[i]]];
      }
    }
    FirstSeenIsDedup(ks, |ks|);
    assert ks[..|ks|] == ks;
    forall k
      ensures k in groups <==> k in ks
    {
      CountPositive(ks, |ks|, k);
    }
  }

  /** Entries listed one per key of `order`, each measuring its key's
      group size, add up to the grouped count. */
  lemma {:induction false} EntriesCount<E>(order: seq<string>, ks: seq<string>, es: seq<E>, f: E -> int)
    requires |es| == |order|
    requires forall i :: 0 <= i < |es| ==> f(es[i]) == Occurrences(ks, order[i])
    ensures SumOf(es, f) == GroupedCount(order, ks, |ks|)
  {
    if es != [] {
      EntriesCount(order[..|order| - 1], ks, es[..|es| - 1], f);
    }
  }

  /** Entries listed one per key of `order`, each measuring its key's
      group total, add up to the grouped sum. */
  lemma {:induction false} EntriesSum<E>(order: seq<string>, ks: seq<string>, vs: seq<real>, es: seq<E>, f: E -> real)
    requires |ks| == |vs| && |es| == |order|
    requires forall i :: 0 <= i < |es| ==> f(es[i]) == Total(ks, vs, order[i])
    ensures SumOfReal(es, f) == GroupedSum(order, ks, vs, |ks|)
  {
    if es != [] {
      EntriesSum(order[..|order| - 1], ks, vs, es[..|es| - 1], f);
    }
  }
}
