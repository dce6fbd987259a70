/** The pipeline several charts share: group the rows by a key into one
    `{ key, total }` object per distinct key (`Object.values` of the
    reduce), sort those objects by a comparator on their keys, and
    possibly round each total with `toFixed(2)`. */
module Entries {
  import opened Seqs
  import opened Cells
  import opened Grouping

  /** One object of the grouped data: its key and its total. */
  datatype Entry = Entry(key: string, value: real)

  function EntryValue(e: Entry): real {
    e.value
  }

  /** A comparator on keys, lifted to the entries. */
  function OnKeys(cmp: (string, string) -> int): (Entry, Entry) -> int {
    (a: Entry, b: Entry) => cmp(a.key, b.key)
  }

  /** `Object.values(groupedData)`: one entry per key of `order`. */
  method EntriesOf(order: seq<string>, ks: seq<string>, vs: seq<real>, sums: map<string, real>) returns (entries: seq<Entry>)
    requires |ks| == |vs|
    requires forall i :: 0 <= i < |order| ==> order[i] in sums && sums[order[i]] == Total(ks, vs, order[i])
    ensures |entries| == |order|
    ensures forall i :: 0 <= i < |order| ==> entries[i] == Entry(order[i], Total(ks, vs, order[i]))
  {
    entries := [];
    for i := 0 to |order|
      invariant |entries| == i
      invariant forall p :: 0 <= p < i ==> entries[p] == Entry(order[p], Total(ks, vs, order[p]))
    {
      entries := entries + [Entry(order[i], sums[order[i]])];
    }
  }

  /** What the grouped and sorted entries of keys `ks` and contributions
      `vs` are: one entry per distinct key, each holding its key's total,
      the keys distinct and each key of a row present. */
  ghost predicate GroupedEntries(s: seq<Entry>, ks: seq<string>, vs: seq<real>)
    requires |ks| == |vs|
  {
    |s| == |Dedup(ks)| &&
    (forall i :: 0 <= i < |s| ==> s[i].key in ks && s[i].value == Total(ks, vs, s[i].key)) &&
    (forall k :: k in ks ==> exists i :: 0 <= i < |s| && s[i].key == k) &&
    (forall i, j :: 0 <= i < j < |s| ==> s[i].key != s[j].key)
  }

  /** The reduce over the rows and the sort: the entries are grouped as
      above, in comparator order, and nothing is gained or lost. */
  method GroupAndSort(ks: seq<string>, vs: seq<real>, cmp: (string, string) -> int) returns (sorted: seq<Entry>)
    requires |ks| == |vs|
    requires forall a, b :: cmp(a, b) == -cmp(b, a)
    ensures GroupedEntries(sorted, ks, vs)
    ensures SortedBy(sorted, OnKeys(cmp))
    ensures SumOfReal(sorted, EntryValue) == Sum(vs)
  {
    var order, sums := GroupSum(ks, vs);
    var entries := EntriesOf(order, ks, vs, sums);
    sorted := SortWith(entries, OnKeys(cmp));
    assert forall a, b :: OnKeys(cmp)(a, b) == cmp(a.key, b.key);
    SortWithSorted(entries, OnKeys(cmp));
    EntriesSum(order, ks, vs, entries, EntryValue);
    SumConservation(ks, vs);
    SumOfRealPermutation(entries, sorted, EntryValue);
    SortedEntries(order, ks, vs, entries, sorted);
  }

  /** The total of each key of `keys`, in that order. */
  function Totals(ks: seq<string>, vs: seq<real>, keys: seq<string>): (r: seq<real>)
    requires |ks| == |vs|
    ensures |r| == |keys|
    ensures forall i :: 0 <= i < |keys| ==> r[i] == Total(ks, vs, keys[i])
  {
    seq(|keys|, i requires 0 <= i < |keys| => Total(ks, vs, keys[i]))
  }

  /** `Object.keys(grouped).sort(cmp).map(k => grouped[k])` adds up to
      all the values: listing the totals in the sorted order of their keys
      loses and gains nothing. */
  lemma SortedTotalsSum(ks: seq<string>, vs: seq<real>, cmp: (string, string) -> int)
    requires |ks| == |vs|
    ensures Sum(Totals(ks, vs, SortWith(Dedup(ks), cmp))) == Sum(vs)
  {
    var order := Dedup(ks);
    var es := seq(|order|, i requires 0 <= i < |order| => Entry(order[i], Total(ks, vs, order[i])));
    var sorted := SortWith(es, OnKeys(cmp));
    SortedValues(ks, vs, es, cmp);
    EntriesSum(order, ks, vs, es, EntryValue);
    SumConservation(ks, vs);
    SumOfRealPermutation(es, sorted, EntryValue);
    ValuesSum(sorted);
  }

  lemma SortedValues(ks: seq<string>, vs: seq<real>, es: seq<Entry>, cmp: (string, string) -> int)
    requires |ks| == |vs| && |es| == |Dedup(ks)|
    requires forall i :: 0 <= i < |es| ==> es[i] == Entry(Dedup(ks)[i], Total(ks, vs, Dedup(ks)[i]))
    ensures Values(SortWith(es, OnKeys(cmp))) == Totals(ks, vs, SortWith(Dedup(ks), cmp))
  {
    var sorted := SortWith(es, OnKeys(cmp));
    var keys := SortWith(Dedup(ks), cmp);
    SortOrder(Dedup(ks), es, cmp);
    forall i | 0 <= i < |sorted|
      ensures sorted[i].value == Total(ks, vs, keys[i])
    {
      assert sorted[i] in multiset(es);
      assert sorted[i].key == keys[i];
    }
  }

  lemma SortOrder(order: seq<string>, entries: seq<Entry>, cmp: (string, string) -> int)
    requires |entries| == |order|
    requires forall i :: 0 <= i < |order| ==> entries[i].key == order[i]
    ensures Keys(SortWith(entries, OnKeys(cmp))) == SortWith(order, cmp)
  {
    assert Keys(entries) == order;
    SortKeys(entries, cmp);
  }

  /** The keys of the entries, in order. */
  function Keys(s: seq<Entry>): (r: seq<string>)
    ensures |r| == |s|
    ensures forall i :: 0 <= i < |s| ==> r[i] == s[i].key
  {
    seq(|s|, i requires 0 <= i < |s| => s[i].key)
  }

  /** Sorting entries by a comparator on their keys puts the keys where
      sorting the keys alone would: `Object.keys(o).sort(cmp)` followed by
      a lookup of each key lists what sorting the key/value pairs does. */
  lemma {:induction false} SortKeys(s: seq<Entry>, cmp: (string, string) -> int)
    ensures Keys(SortWith(s, OnKeys(cmp))) == SortWith(Keys(s), cmp)
  {
    if s != [] {
      var init := s[..|s| - 1];
      SortKeys(init, cmp);
      assert Keys(s)[..|s| - 1] == Keys(init);
      InsertKeys(s[|s| - 1], SortWith(init, OnKeys(cmp)), cmp);
    }
  }

  lemma {:induction false} InsertKeys(x: Entry, s: seq<Entry>, cmp: (string, string) -> int)
    ensures Keys(Insert(x, s, OnKeys(cmp))) == Insert(x.key, Keys(s), cmp)
    decreases |s|, 1
  {
    if s != [] {
      OnKeysApply(cmp, x, s[|s| - 1]);
      if cmp(x.key, s[|s| - 1].key) < 0 {
        InsertKeysBefore(x, s, cmp);
      } else {
        InsertKeysAfter(x, s, cmp);
      }
    }
  }

  lemma InsertKeysAfter(x: Entry, s: seq<Entry>, cmp: (string, string) -> int)
    requires s != [] && cmp(x.key, s[|s| - 1].key) >= 0
    ensures Keys(Insert(x, s, OnKeys(cmp))) == Insert(x.key, Keys(s), cmp)
  {
    OnKeysApply(cmp, x, s[|s| - 1]);
    assert Keys(s)[|s| - 1] == s[|s| - 1].key;
    assert Insert(x, s, OnKeys(cmp)) == s + [x];
    assert Insert(x.key, Keys(s), cmp) == Keys(s) + [x.key];
    KeysAppend(s, x);
  }

  lemma {:induction false} InsertKeysBefore(x: Entry, s: seq<Entry>, cmp: (string, string) -> int)
    requires s != [] && cmp(x.key, s[|s| - 1].key) < 0
    ensures Keys(Insert(x, s, OnKeys(cmp))) == Insert(x.key, Keys(s), cmp)
    decreases |s|, 0
  {
    var init, last := s[..|s| - 1], s[|s| - 1];
    OnKeysApply(cmp, x, last);
    assert Insert(x, s, OnKeys(cmp)) == Insert(x, init, OnKeys(cmp)) + [last];
    assert Keys(s)[..|s| - 1] == Keys(init);
    assert Insert(x.key, Keys(s), cmp) == Insert(x.key, Keys(init), cmp) + [last.key];
    InsertKeys(x, init, cmp);
    KeysAppend(Insert(x, init, OnKeys(cmp)), last);
  }

  lemma KeysAppend(s: seq<Entry>, e: Entry)
    ensures Keys(s + [e]) == Keys(s) + [e.key]
  {
  }

  lemma OnKeysApply(cmp: (string, string) -> int, a: Entry, b: Entry)
    ensures OnKeys(cmp)(a, b) == cmp(a.key, b.key)
  {
  }


  lemma SortedEntries(order: seq<string>, ks: seq<string>, vs: seq<real>, entries: seq<Entry>, sorted: seq<Entry>)
    requires |ks| == |vs| && order == Dedup(ks)
    requires |entries| == |order|
    requires forall i :: 0 <= i < |order| ==> entries[i] == Entry(order[i], Total(ks, vs, order[i]))
    requires multiset(sorted) == multiset(entries)
    ensures GroupedEntries(sorted, ks, vs)
  {
    assert |sorted| == |multiset(sorted)| == |entries|;
    SortedTotals(order, ks, vs, entries, sorted);
    SortedKeysPresent(order, ks, vs, entries, sorted);
    SortedKeysDistinct(order, ks, vs, entries, sorted);
  }

  lemma SortedTotals(order: seq<string>, ks: seq<string>, vs: seq<real>, entries: seq<Entry>, sorted: seq<Entry>)
    requires |ks| == |vs| && order == Dedup(ks)
    requires |entries| == |order|
    requires forall i :: 0 <= i < |order| ==> entries[i] == Entry(order[i], Total(ks, vs, order[i]))
    requires multiset(sorted) == multiset(entries)
    ensures forall i :: 0 <= i < |sorted| ==> sorted[i].key in ks && sorted[i].value == Total(ks, vs, sorted[i].key)
  {
    forall i | 0 <= i < |sorted|
      ensures sorted[i].key in ks && sorted[i].value == Total(ks, vs, sorted[i].key)
    {
      assert sorted[i] in multiset(entries);
    }
  }

  lemma SortedKeysPresent(order: seq<string>, ks: seq<string>, vs: seq<real>, entries: seq<Entry>, sorted: seq<Entry>)
    requires |ks| == |vs| && order == Dedup(ks)
    requires |entries| == |order|
    requires forall i :: 0 <= i < |order| ==> entries[i] == Entry(order[i], Total(ks, vs, order[i]))
    requires multiset(sorted) == multiset(entries)
    ensures forall k :: k in ks ==> exists i :: 0 <= i < |sorted| && sorted[i].key == k
  {
    forall k | k in ks
      ensures exists i :: 0 <= i < |sorted| && sorted[i].key == k
    {
      var p := IndexOf(order, k);
      assert entries[p] in multiset(sorted);
    }
  }

  lemma SortedKeysDistinct(order: seq<string>, ks: seq<string>, vs: seq<real>, entries: seq<Entry>, sorted: seq<Entry>)
    requires |ks| == |vs| && order == Dedup(ks)
    requires |entries| == |order|
    requires forall i :: 0 <= i < |order| ==> entries[i] == Entry(order[i], Total(ks, vs, order[i]))
    requires multiset(sorted) == multiset(entries)
    ensures forall i, j :: 0 <= i < j < |sorted| ==> sorted[i].key != sorted[j].key
  {
    assert NoDups(entries) by {
      forall i, j | 0 <= i < j < |entries|
        ensures entries[i] != entries[j]
      {
        assert entries[i].key == order[i];
      }
    }
    PermutationNoDups(entries, sorted);
    forall i, j | 0 <= i < j < |sorted|
      ensures sorted[i].key != sorted[j].key
    {
      assert sorted[i] in multiset(entries) && sorted[j] in multiset(entries);
    }
  }


  // ---------------------------------------------------------------------
  // rounding to cents

  /** `parseFloat(x.toFixed(2))` (or `+x.toFixed(2)`): `x` to the nearest
      hundredth, halves away from zero. */
  function Fixed2(x: real): (r: real)
    ensures x - 0.005 <= r <= x + 0.005
    ensures (r * 100.0).Floor as real == r * 100.0
  {
    var cents := if x >= 0.0 then Round(x * 100.0) else -Round(-x * 100.0);
    assert x * 100.0 - 0.5 <= cents as real <= x * 100.0 + 0.5;
    var r := cents as real / 100.0;
    assert r * 100.0 == cents as real;
    assert (cents as real).Floor == cents;
    r
  }

  /** `.map(...)` rounding every total. */
  function Rounded(s: seq<Entry>): (r: seq<Entry>)
    ensures |r| == |s|
    ensures forall i :: 0 <= i < |s| ==> r[i] == Entry(s[i].key, Fixed2(s[i].value))
  {
    seq(|s|, i requires 0 <= i < |s| => Entry(s[i].key, Fixed2(s[i].value)))
  }

  /** Rounding each entry moves the sum by at most half a cent per
      entry. */
  lemma {:induction false} RoundedSum(s: seq<Entry>)
    ensures SumOfReal(s, EntryValue) - 0.005 * |s| as real <= SumOfReal(Rounded(s), EntryValue)
    ensures SumOfReal(Rounded(s), EntryValue) <= SumOfReal(s, EntryValue) + 0.005 * |s| as real
  {
    if s != [] {
      var init := s[..|s| - 1];
      RoundedSum(init);
      assert Rounded(s)[..|s| - 1] == Rounded(init);
    }
  }

  /** The values of the entries, in order. */
  function Values(s: seq<Entry>): (r: seq<real>)
    ensures |r| == |s|
    ensures forall i :: 0 <= i < |s| ==> r[i] == s[i].value
  {
    seq(|s|, i requires 0 <= i < |s| => s[i].value)
  }

  lemma {:induction false} ValuesSum(s: seq<Entry>)
    ensures Sum(Values(s)) == SumOfReal(s, EntryValue)
  {
    if s != [] {
      ValuesSum(s[..|s| - 1]);
      assert Values(s)[..|s| - 1] == Values(s[..|s| - 1]);
    }
  }

  /** Rounding each of several numbers to cents moves their sum by at most
      half a cent per number. */
  lemma {:induction false} Fixed2Sum(xs: seq<real>, ys: seq<real>)
    requires |ys| == |xs|
    requires forall i :: 0 <= i < |xs| ==> ys[i] == Fixed2(xs[i])
    ensures Sum(xs) - 0.005 * |xs| as real <= Sum(ys) <= Sum(xs) + 0.005 * |xs| as real
  {
    if xs != [] {
      Fixed2Sum(xs[..|xs| - 1], ys[..|ys| - 1]);
      assert xs == xs[..|xs| - 1] + [xs[|xs| - 1]];
      assert ys == ys[..|ys| - 1] + [ys[|ys| - 1]];
    }
  }

  /** Rounding keeps the keys, so it keeps their order and the grouping
      (with each total now rounded). */
  lemma RoundedEntries(sorted: seq<Entry>, ks: seq<string>, vs: seq<real>, cmp: (string, string) -> int)
    requires |ks| == |vs|
    requires GroupedEntries(sorted, ks, vs)
    requires SortedBy(sorted, OnKeys(cmp))
    ensures var r := Rounded(sorted);
      SortedBy(r, OnKeys(cmp)) &&
      (forall i :: 0 <= i < |r| ==> r[i].key in ks && r[i].value == Fixed2(Total(ks, vs, r[i].key))) &&
      (forall k :: k in ks ==> exists i :: 0 <= i < |r| && r[i].key == k) &&
      (forall i, j :: 0 <= i < j < |r| ==> r[i].key != r[j].key)
  {
    RoundedKeys(sorted);
    RoundedOrder(sorted, cmp);
  }

  /** Rounding leaves the keys as they were. */
  lemma RoundedKeys(sorted: seq<Entry>)
    ensures Keys(Rounded(sorted)) == Keys(sorted)
  {
  }

  lemma RoundedOrder(sorted: seq<Entry>, cmp: (string, string) -> int)
    requires SortedBy(sorted, OnKeys(cmp))
    ensures SortedBy(Rounded(sorted), OnKeys(cmp))
  {
    var r := Rounded(sorted);
    forall i | 0 < i < |r|
      ensures OnKeys(cmp)(r[i - 1], r[i]) <= 0
    {
      assert OnKeys(cmp)(sorted[i - 1], sorted[i]) <= 0;
      assert OnKeys(cmp)(sorted[i - 1], sorted[i]) == cmp(sorted[i - 1].key, sorted[i].key);
      assert OnKeys(cmp)(r[i - 1], r[i]) == cmp(r[i - 1].key, r[i].key);
    }
  }

}
