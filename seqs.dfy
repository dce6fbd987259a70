/** Sequence operations that the dashboard's components reach for through
    JavaScript's array methods: `filter`, de-duplication through a `Set`,
    sums through `reduce`, and `sort` with a comparator.  Every recursive
    definition here peels off the LAST element, so that a loop which has
    processed `s[..i]` can be related to the definition on `s[..i+1]`. */
module Seqs {

  // ---------------------------------------------------------------------
  // filter

  /** `s.filter(p)`: the elements of `s` satisfying `p`, in order. */
  function Filter<T>(s: seq<T>, p: T -> bool): (r: seq<T>)
    ensures |r| <= |s|
    ensures forall i :: 0 <= i < |r| ==> r[i] in s && p(r[i])
    ensures forall i :: 0 <= i < |s| && p(s[i]) ==> s[i] in r
  {
    if s == [] then []
    else
      var r := Filter(s[..|s| - 1], p);
      assert s == s[..|s| - 1] + [s[|s| - 1]];
      if p(s[|s| - 1]) then r + [s[|s| - 1]] else r
  }

  /** `a` is an order-preserving subsequence of `b`. */
  ghost predicate IsSubsequence<T>(a: seq<T>, b: seq<T>)
    decreases |b|
  {
    |a| <= |b| &&
    (a == [] ||
     (b != [] &&
      ((a[|a| - 1] == b[|b| - 1] && IsSubsequence(a[..|a| - 1], b[..|b| - 1])) ||
       IsSubsequence(a, b[..|b| - 1]))))
  }

  lemma {:induction false} FilterAppend<T>(s: seq<T>, x: T, p: T -> bool)
    ensures Filter(s + [x], p) == if p(x) then Filter(s, p) + [x] else Filter(s, p)
  {
    assert (s + [x])[..|s|] == s;
  }

  /** Filtering distributes over concatenation. */
  lemma {:induction false} FilterConcat<T>(s: seq<T>, t: seq<T>, p: T -> bool)
    ensures Filter(s + t, p) == Filter(s, p) + Filter(t, p)
  {
    if t != [] {
      var init, x := t[..|t| - 1], t[|t| - 1];
      assert t == init + [x];
      assert s + t == (s + init) + [x];
      FilterConcat(s, init, p);
      FilterAppend(s + init, x, p);
      FilterAppend(init, x, p);
      if p(x) {
        assert Filter(s, p) + (Filter(init, p) + [x]) == (Filter(s, p) + Filter(init, p)) + [x];
      }
    } else {
      assert s + t == s;
    }
  }

  /** Filtering keeps the surviving elements in their original order. */
  lemma {:induction false} FilterIsSubsequence<T>(s: seq<T>, p: T -> bool)
    ensures IsSubsequence(Filter(s, p), s)
  {
    if s != [] {
      var init := s[..|s| - 1];
      FilterIsSubsequence(init, p);
      assert s == init + [s[|s| - 1]];
      FilterAppend(init, s[|s| - 1], p);
      SubsequenceOfLonger(Filter(init, p), init, s[|s| - 1]);
    }
  }

  lemma {:induction false} SubsequenceOfLonger<T>(a: seq<T>, b: seq<T>, x: T)
    requires IsSubsequence(a, b)
    ensures IsSubsequence(a, b + [x]) && IsSubsequence(a + [x], b + [x])
  {
    assert (b + [x])[..|b|] == b;
    assert (a + [x])[..|a|] == a;
  }

  /** A stronger predicate keeps a subsequence of what a weaker one keeps. */
  lemma {:induction false} FilterMonotone<T>(s: seq<T>, p: T -> bool, q: T -> bool)
    requires forall x :: x in s && p(x) ==> q(x)
    ensures IsSubsequence(Filter(s, p), Filter(s, q))
  {
    if s != [] {
      var init, x := s[..|s| - 1], s[|s| - 1];
      assert s == init + [x];
      FilterMonotone(init, p, q);
      FilterAppend(init, x, p);
      FilterAppend(init, x, q);
      if q(x) {
        SubsequenceOfLonger(Filter(init, p), Filter(init, q), x);
      }
    }
  }

  /** A predicate that every element satisfies keeps the whole sequence. */
  lemma {:induction false} FilterKeepsAll<T>(s: seq<T>, p: T -> bool)
    requires forall x :: x in s ==> p(x)
    ensures Filter(s, p) == s
  {
    if s != [] {
      FilterKeepsAll(s[..|s| - 1], p);
      assert s == s[..|s| - 1] + [s[|s| - 1]];
    }
  }

  /** Two predicates that agree on the elements filter alike. */
  lemma {:induction false} FilterExtensional<T>(s: seq<T>, p: T -> bool, q: T -> bool)
    requires forall x :: x in s ==> (p(x) <==> q(x))
    ensures Filter(s, p) == Filter(s, q)
  {
    if s != [] {
      FilterExtensional(s[..|s| - 1], p, q);
    }
  }

  /** Filtering twice is filtering once by the conjunction. */
  lemma {:induction false} FilterFilter<T>(s: seq<T>, p: T -> bool, q: T -> bool, both: T -> bool)
    requires forall x :: x in s ==> (both(x) <==> p(x) && q(x))
    ensures Filter(Filter(s, p), q) == Filter(s, both)
  {
    if s != [] {
      var init, x := s[..|s| - 1], s[|s| - 1];
      assert s == init + [x];
      FilterFilter(init, p, q, both);
      FilterAppend(init, x, p);
      FilterAppend(Filter(init, p), x, q);
      FilterAppend(init, x, both);
    }
  }

  /** How many elements of `s` satisfy `p`: `s.filter(p).length`. */
  function CountWhere<T>(s: seq<T>, p: T -> bool): (n: nat)
    ensures n <= |s|
    ensures n == |Filter(s, p)|
  {
    if s == [] then 0
    else CountWhere(s[..|s| - 1], p) + (if p(s[|s| - 1]) then 1 else 0)
  }

  // ---------------------------------------------------------------------
  // de-duplication through a Set

  predicate NoDups<T(==)>(s: seq<T>) {
    forall i, j :: 0 <= i < j < |s| ==> s[i] != s[j]
  }

  /** Position of the first occurrence of `x` in `s`. */
  function IndexOf<T(==)>(s: seq<T>, x: T): (k: nat)
    requires x in s
    ensures k < |s| && s[k] == x && x !in s[..k]
  {
    if s[0] == x then 0 else 1 + IndexOf(s[1..], x)
  }

  /** `[...new Set(s)]`: each distinct element once, in the order in which
      it first occurs in `s`. */
  function Dedup<T(==)>(s: seq<T>): (r: seq<T>)
    ensures NoDups(r)
    ensures |r| <= |s|
    ensures forall i :: 0 <= i < |r| ==> r[i] in s
    ensures forall i :: 0 <= i < |s| ==> s[i] in r
  {
    if s == [] then []
    else
      var r := Dedup(s[..|s| - 1]);
      assert s == s[..|s| - 1] + [s[|s| - 1]];
      if s[|s| - 1] in r then r else r + [s[|s| - 1]]
  }

  lemma {:induction false} DedupAppend<T>(s: seq<T>, x: T)
    ensures Dedup(s + [x]) == if x in s then Dedup(s) else Dedup(s) + [x]
  {
    assert (s + [x])[..|s|] == s;
  }

  lemma {:induction false} IndexOfAppend<T>(s: seq<T>, x: T, y: T)
    requires y in s
    ensures IndexOf(s + [x], y) == IndexOf(s, y)
  {
    if s[0] != y {
      assert (s + [x])[1..] == s[1..] + [x];
      IndexOfAppend(s[1..], x, y);
    }
  }

  lemma {:induction false} IndexOfLast<T>(s: seq<T>, x: T)
    requires x !in s
    ensures IndexOf(s + [x], x) == |s|
  {
    if s != [] {
      assert (s + [x])[1..] == s[1..] + [x];
      IndexOfLast(s[1..], x);
    }
  }

  /** The distinct elements come out in order of first occurrence. */
  lemma {:induction false} DedupFirstOccurrenceOrder<T>(s: seq<T>)
    ensures forall i, j :: 0 <= i < j < |Dedup(s)| ==>
      IndexOf(s, Dedup(s)[i]) < IndexOf(s, Dedup(s)[j])
  {
    if s != [] {
      var init, x := s[..|s| - 1], s[|s| - 1];
      assert s == init + [x];
      DedupFirstOccurrenceOrder(init);
      DedupAppend(init, x);
      var d, d0 := Dedup(s), Dedup(init);
      forall i, j | 0 <= i < j < |d|
        ensures IndexOf(s, d[i]) < IndexOf(s, d[j])
      {
        IndexOfAppend(init, x, d[i]);
        if j < |d0| {
          IndexOfAppend(init, x, d[j]);
        } else {
          IndexOfLast(init, x);
        }
      }
    }
  }

  /** Dropping elements before or after de-duplicating gives the same list
      (`[...new Set(s.filter(p))]` equals `[...new Set(s)].filter(p)`). */
  lemma {:induction false} DedupFilterCommute<T>(s: seq<T>, p: T -> bool)
    ensures Filter(Dedup(s), p) == Dedup(Filter(s, p))
  {
    if s != [] {
      var init, x := s[..|s| - 1], s[|s| - 1];
      assert s == init + [x];
      DedupFilterCommute(init, p);
      DedupAppend(init, x);
      FilterAppend(init, x, p);
      if p(x) {
        DedupAppend(Filter(init, p), x);
        if x !in init {
          FilterAppend(Dedup(init), x, p);
        }
      } else if x !in init {
        FilterAppend(Dedup(init), x, p);
      }
    }
  }

  // ---------------------------------------------------------------------
  // sums through reduce

  /** `s.reduce((acc, x) => acc + f(x), 0)` over integers. */
  function SumOf<T>(s: seq<T>, f: T -> int): int {
    if s == [] then 0 else SumOf(s[..|s| - 1], f) + f(s[|s| - 1])
  }

  /** `s.reduce((a, b) => a + b, 0)` over numbers. */
  function Sum(s: seq<real>): real {
    if s == [] then 0.0 else Sum(s[..|s| - 1]) + s[|s| - 1]
  }

  lemma {:induction false} SumOfAppend<T>(s: seq<T>, t: seq<T>, f: T -> int)
    ensures SumOf(s + t, f) == SumOf(s, f) + SumOf(t, f)
  {
    if t == [] {
      assert s + t == s;
    } else {
      assert (s + t)[..|s + t| - 1] == s + t[..|t| - 1];
      assert (s + t)[|s + t| - 1] == t[|t| - 1];
      SumOfAppend(s, t[..|t| - 1], f);
    }
  }

  lemma {:induction false} SumAppend(s: seq<real>, t: seq<real>)
    ensures Sum(s + t) == Sum(s) + Sum(t)
  {
    if t == [] {
      assert s + t == s;
    } else {
      assert (s + t)[..|s + t| - 1] == s + t[..|t| - 1];
      assert (s + t)[|s + t| - 1] == t[|t| - 1];
      SumAppend(s, t[..|t| - 1]);
    }
  }

  /** Every term between `lo` and `hi` puts the sum between `|s|` times
      each. */
  lemma {:induction false} SumBounds(s: seq<real>, lo: real, hi: real)
    requires forall i :: 0 <= i < |s| ==> lo <= s[i] <= hi
    ensures |s| as real * lo <= Sum(s) <= |s| as real * hi
  {
    if s != [] {
      SumBounds(s[..|s| - 1], lo, hi);
    }
  }

  /** `s.reduce((a, b) => a + b, 0) / s.length`. */
  function Mean(s: seq<real>): real
    requires |s| > 0
  {
    Sum(s) / |s| as real
  }

  /** The mean lies between the smallest and the largest term. */
  lemma MeanBounds(s: seq<real>, lo: real, hi: real)
    requires |s| > 0
    requires forall i :: 0 <= i < |s| ==> lo <= s[i] <= hi
    ensures lo <= Mean(s) <= hi
  {
    SumBounds(s, lo, hi);
    var n := |s| as real;
    assert Mean(s) * n == Sum(s);
  }

  /** `s.reduce((acc, x) => acc + f(x), 0)` over numbers. */
  function SumOfReal<T>(s: seq<T>, f: T -> real): real {
    if s == [] then 0.0 else SumOfReal(s[..|s| - 1], f) + f(s[|s| - 1])
  }

  lemma {:induction false} SumOfRealAppend<T>(s: seq<T>, t: seq<T>, f: T -> real)
    ensures SumOfReal(s + t, f) == SumOfReal(s, f) + SumOfReal(t, f)
  {
    if t == [] {
      assert s + t == s;
    } else {
      assert (s + t)[..|s + t| - 1] == s + t[..|t| - 1];
      assert (s + t)[|s + t| - 1] == t[|t| - 1];
      SumOfRealAppend(s, t[..|t| - 1], f);
    }
  }

  /** Order does not matter to a sum of numbers either. */
  lemma {:induction false} SumOfRealPermutation<T>(s: seq<T>, t: seq<T>, f: T -> real)
    requires multiset(s) == multiset(t)
    ensures SumOfReal(s, f) == SumOfReal(t, f)
    decreases |s|
  {
    if s == [] {
      assert |t| == |multiset(t)|;
    } else {
      var x := s[|s| - 1];
      assert x in multiset(s);
      var k :| 0 <= k < |t| && t[k] == x;
      MultisetRemove(s, t, k);
      SumOfRealPermutation(s[..|s| - 1], t[..k] + t[k + 1..], f);
      SumOfRealRemove(t, k, f);
    }
  }

  lemma {:induction false} SumOfRealRemove<T>(t: seq<T>, k: nat, f: T -> real)
    requires k < |t|
    ensures SumOfReal(t, f) == SumOfReal(t[..k] + t[k + 1..], f) + f(t[k])
  {
    assert t == t[..k] + ([t[k]] + t[k + 1..]);
    SumOfRealAppend(t[..k], [t[k]] + t[k + 1..], f);
    SumOfRealAppend([t[k]], t[k + 1..], f);
    SumOfRealAppend(t[..k], t[k + 1..], f);
    assert SumOfReal([t[k]], f) == f(t[k]) by {
      assert [t[k]][..0] == [];
    }
  }

  /** Summing is insensitive to order: a permutation has the same sum. */
  lemma {:induction false} SumOfPermutation<T>(s: seq<T>, t: seq<T>, f: T -> int)
    requires multiset(s) == multiset(t)
    ensures SumOf(s, f) == SumOf(t, f)
    decreases |s|
  {
    if s == [] {
      assert |t| == |multiset(t)|;
    } else {
      var x := s[|s| - 1];
      assert x in multiset(s);
      var k :| 0 <= k < |t| && t[k] == x;
      MultisetRemove(s, t, k);
      SumOfPermutation(s[..|s| - 1], t[..k] + t[k + 1..], f);
      SumOfRemove(t, k, f);
    }
  }

  lemma {:induction false} MultisetRemove<T>(s: seq<T>, t: seq<T>, k: nat)
    requires multiset(s) == multiset(t) && s != [] && k < |t| && t[k] == s[|s| - 1]
    ensures multiset(s[..|s| - 1]) == multiset(t[..k] + t[k + 1..])
  {
    var x := t[k];
    assert s == s[..|s| - 1] + [x];
    assert t == t[..k] + [x] + t[k + 1..];
    assert multiset(s[..|s| - 1]) == multiset(s) - multiset{x};
    assert multiset(t[..k] + t[k + 1..]) == multiset(t) - multiset{x};
  }

  lemma {:induction false} SumOfRemove<T>(t: seq<T>, k: nat, f: T -> int)
    requires k < |t|
    ensures SumOf(t, f) == SumOf(t[..k] + t[k + 1..], f) + f(t[k])
  {
    assert t == t[..k] + ([t[k]] + t[k + 1..]);
    SumOfAppend(t[..k], [t[k]] + t[k + 1..], f);
    SumOfAppend([t[k]], t[k + 1..], f);
    SumOfAppend(t[..k], t[k + 1..], f);
    assert SumOf([t[k]], f) == f(t[k]) by {
      assert [t[k]][..0] == [];
    }
  }

  /** A permutation of a duplicate-free sequence is duplicate-free. */
  lemma {:induction false} PermutationNoDups<T>(s: seq<T>, t: seq<T>)
    requires multiset(s) == multiset(t) && NoDups(s)
    ensures NoDups(t)
  {
    forall i, j | 0 <= i < j < |t|
      ensures t[i] != t[j]
    {
      if t[i] == t[j] {
        assert t == t[..i] + [t[i]] + t[i + 1..j] + [t[j]] + t[j + 1..];
        assert multiset(t)[t[i]] >= 2;
        NoDupsCount(s, t[i]);
        assert false;
      }
    }
  }

  lemma {:induction false} NoDupsCount<T>(s: seq<T>, x: T)
    requires NoDups(s)
    ensures multiset(s)[x] <= 1
  {
    if s != [] {
      var init := s[..|s| - 1];
      assert s == init + [s[|s| - 1]];
      NoDupsCount(init, x);
      if s[|s| - 1] == x {
        assert x !in init;
      }
    }
  }

  // ---------------------------------------------------------------------
  // sort with a comparator

  /** `cmp` gives opposite answers when its arguments are swapped, on the
      elements of `s` (JavaScript's sort asks this of a comparator). */
  ghost predicate Antisymmetric<T>(s: seq<T>, cmp: (T, T) -> int) {
    forall a, b :: a in s && b in s ==> cmp(a, b) == -cmp(b, a)
  }

  /** Neighbours are in comparator order: `cmp(s[i-1], s[i]) <= 0`. */
  predicate SortedBy<T>(s: seq<T>, cmp: (T, T) -> int) {
    forall i :: 0 < i < |s| ==> cmp(s[i - 1], s[i]) <= 0
  }

  /** Inserts `x` after the last element that does not compare greater than
      it, scanning from the right, so equal elements keep their order. */
  function Insert<T>(x: T, s: seq<T>, cmp: (T, T) -> int): (r: seq<T>)
    ensures multiset(r) == multiset(s) + multiset{x}
    ensures |r| == |s| + 1
  {
    if s == [] then [x]
    else if cmp(x, s[|s| - 1]) < 0 then
      assert s == s[..|s| - 1] + [s[|s| - 1]];
      Insert(x, s[..|s| - 1], cmp) + [s[|s| - 1]]
    else s + [x]
  }

  /** `s.sort(cmp)` with a stable sort: insertion sort of the elements
      taken left to right. */
  function SortWith<T>(s: seq<T>, cmp: (T, T) -> int): (r: seq<T>)
    ensures multiset(r) == multiset(s)
    ensures |r| == |s|
  {
    if s == [] then []
    else
      assert s == s[..|s| - 1] + [s[|s| - 1]];
      Insert(s[|s| - 1], SortWith(s[..|s| - 1], cmp), cmp)
  }

  lemma {:induction false} InsertSorted<T>(x: T, s: seq<T>, cmp: (T, T) -> int)
    requires SortedBy(s, cmp)
    requires forall b :: b in s ==> cmp(x, b) == -cmp(b, x)
    ensures SortedBy(Insert(x, s, cmp), cmp)
    ensures Insert(x, s, cmp)[|s|] == x || Insert(x, s, cmp)[|s|] == s[|s| - 1]
    decreases |s|, 1
  {
    if s != [] && cmp(x, s[|s| - 1]) < 0 {
      InsertBeforeLast(x, s, cmp);
    } else if s != [] {
      assert Insert(x, s, cmp) == s + [x];
      assert cmp(s[|s| - 1], x) == -cmp(x, s[|s| - 1]);
      SortedAppend(s, x, cmp);
    }
  }

  /** `x` goes in before the last element, which stays last. */
  lemma {:induction false} InsertBeforeLast<T>(x: T, s: seq<T>, cmp: (T, T) -> int)
    requires s != [] && cmp(x, s[|s| - 1]) < 0
    requires SortedBy(s, cmp)
    requires forall b :: b in s ==> cmp(x, b) == -cmp(b, x)
    ensures SortedBy(Insert(x, s, cmp), cmp)
    ensures Insert(x, s, cmp)[|s|] == s[|s| - 1]
    decreases |s|, 0
  {
    var init, last := s[..|s| - 1], s[|s| - 1];
    assert Insert(x, s, cmp) == Insert(x, init, cmp) + [last];
    SortedPrefix(s, cmp);
    assert forall b :: b in init ==> b in s;
    InsertSorted(x, init, cmp);
    var r := Insert(x, init, cmp);
    if r[|init|] != x {
      assert cmp(s[|s| - 2], s[|s| - 1]) <= 0;
    }
    SortedAppend(r, last, cmp);
  }

  lemma SortedPrefix<T>(s: seq<T>, cmp: (T, T) -> int)
    requires s != [] && SortedBy(s, cmp)
    ensures SortedBy(s[..|s| - 1], cmp)
  {
  }

  lemma SortedAppend<T>(r: seq<T>, y: T, cmp: (T, T) -> int)
    requires SortedBy(r, cmp)
    requires r != [] ==> cmp(r[|r| - 1], y) <= 0
    ensures SortedBy(r + [y], cmp)
  {
    forall i | 0 < i < |r| + 1
      ensures cmp((r + [y])[i - 1], (r + [y])[i]) <= 0
    {
      if i < |r| {
        assert (r + [y])[i - 1] == r[i - 1] && (r + [y])[i] == r[i];
      }
    }
  }

  /** The comparator sort leaves neighbours in comparator order whenever the
      comparator is antisymmetric on the elements. */
  lemma {:induction false} SortWithSorted<T>(s: seq<T>, cmp: (T, T) -> int)
    requires Antisymmetric(s, cmp)
    ensures SortedBy(SortWith(s, cmp), cmp)
  {
    if s != [] {
      var init := s[..|s| - 1];
      assert s == init + [s[|s| - 1]];
      SortWithSorted(init, cmp);
      var sorted := SortWith(init, cmp);
      forall b | b in sorted
        ensures cmp(s[|s| - 1], b) == -cmp(b, s[|s| - 1])
      {
        assert b in multiset(sorted);
      }
      InsertSorted(s[|s| - 1], sorted, cmp);
    }
  }

  /** For a comparator that subtracts integer keys, neighbour order is
      global order. */
  lemma {:induction false} SortedByKey<T>(s: seq<T>, key: T -> int)
    requires forall i :: 0 < i < |s| ==> key(s[i - 1]) <= key(s[i])
    ensures forall i, j :: 0 <= i <= j < |s| ==> key(s[i]) <= key(s[j])
  {
    if s != [] {
      var init := s[..|s| - 1];
      SortedByKey(init, key);
      forall i, j | 0 <= i <= j < |s|
        ensures key(s[i]) <= key(s[j])
      {
        if j == |s| - 1 && i < j {
          assert key(init[i]) <= key(init[j - 1]);
        } else if i < j {
          assert key(init[i]) <= key(init[j]);
        }
      }
    }
  }
}
