/** The count-by-column reducer behind the device and gender pie charts,
    and the colour cycling of their slices. */
module PieCounts {
  import opened Seqs
  import opened Cells
  import opened Grouping

  datatype Slice = Slice(name: string, value: nat)

  /** The gender chart's two slice colours. */
  const GenderColors: seq<string> := ["#ff6384", "#36a2eb"]

  /** The object key each row is counted under: `String(row[field])`. */
  function Keys(data: seq<Row>, field: string): (ks: seq<string>)
    ensures |ks| == |data|
    ensures forall i :: 0 <= i < |data| ==> ks[i] == KeyText(Get(data[i], field))
  {
    seq(|data|, i requires 0 <= i < |data| => KeyText(Get(data[i], field)))
  }

  function SliceValue(s: Slice): int {
    s.value
  }

  /** One slice per key of `order`, valued by that key's number of rows. */
  function Tally(ks: seq<string>, order: seq<string>): (r: seq<Slice>)
    ensures |r| == |order|
    ensures forall i :: 0 <= i < |order| ==> r[i] == Slice(order[i], Occurrences(ks, order[i]))
  {
    seq(|order|, i requires 0 <= i < |order| => Slice(order[i], Occurrences(ks, order[i])))
  }

  /** `data.reduce((acc, row) => { acc[row[field]] = (acc[row[field]] || 0)
      + 1; ... }, {})`, then one slice per entry, in the order the keys
      first occur. */
  method CountSlices(data: seq<Row>, field: string) returns (slices: seq<Slice>)
    ensures slices == Tally(Keys(data, field), Dedup(Keys(data, field)))
  {
    var ks := Keys(data, field);
    var order, counts := GroupCount(ks);
    slices := SlicesOf(ks, order, counts);
  }

  /** `Object.entries(counts).map(([key, val]) => ({name: key, value: val}))`. */
  method SlicesOf(ks: seq<string>, order: seq<string>, counts: map<string, nat>) returns (slices: seq<Slice>)
    requires forall k :: k in order ==> k in counts && counts[k] == Occurrences(ks, k)
    ensures slices == Tally(ks, order)
  {
    slices := [];
    for j := 0 to |order|
      invariant |slices| == j
      invariant forall t :: 0 <= t < j ==> slices[t] == Slice(order[t], Occurrences(ks, order[t]))
    {
      slices := slices + [Slice(order[j], counts[order[j]])];
    }
  }

  /** The slices partition the rows: one per distinct key, each of value
      at least one, the values adding up to the number of rows; no data
      gives no slices. */
  lemma SlicesPartition(data: seq<Row>, field: string)
    ensures var slices := Tally(Keys(data, field), Dedup(Keys(data, field)));
      SumOf(slices, SliceValue) == |data| &&
      (forall i :: 0 <= i < |slices| ==> slices[i].value >= 1) &&
      (forall i :: 0 <= i < |data| ==> HasSlice(slices, KeyText(Get(data[i], field)))) &&
      (data == [] ==> slices == [])
  {
    SlicesTotal(Keys(data, field));
    SlicesPositive(Keys(data, field));
    SlicesCoverRows(data, field);
  }

  /** The slice counts add up to the number of keys. */
  lemma SlicesTotal(ks: seq<string>)
    ensures SumOf(Tally(ks, Dedup(ks)), SliceValue) == |ks|
  {
    var order := Dedup(ks);
    var slices := Tally(ks, order);
    EntriesCount(order, ks, slices, SliceValue);
    CountConservation(ks);
    assert SumOf(slices, SliceValue) == GroupedCount(order, ks, |ks|);
  }

  /** Every slice counts at least one key. */
  lemma SlicesPositive(ks: seq<string>)
    ensures forall i :: 0 <= i < |Tally(ks, Dedup(ks))| ==> Tally(ks, Dedup(ks))[i].value >= 1
  {
    var order := Dedup(ks);
    var slices := Tally(ks, order);
    forall i | 0 <= i < |slices|
      ensures slices[i].value >= 1
    {
      CountPositive(ks, |ks|, order[i]);
      assert ks[..|ks|] == ks;
    }
  }

  /** Some slice is named `k`. */
  ghost predicate HasSlice(slices: seq<Slice>, k: string) {
    exists j :: 0 <= j < |slices| && slices[j].name == k
  }

  /** Every row's key has its slice. */
  lemma SlicesCoverRows(data: seq<Row>, field: string)
    ensures forall i :: 0 <= i < |data| ==>
      HasSlice(Tally(Keys(data, field), Dedup(Keys(data, field))), KeyText(Get(data[i], field)))
  {
    var ks := Keys(data, field);
    var order := Dedup(ks);
    var slices := Tally(ks, order);
    forall i | 0 <= i < |data|
      ensures HasSlice(slices, ks[i])
    {
      assert ks[i] in order;
      var j :| 0 <= j < |order| && order[j] == ks[i];
      assert slices[j].name == ks[i];
    }
  }

  /** `COLORS[index % COLORS.length]` for each of `n` slices. */
  function Cycle(palette: seq<string>, n: nat): (r: seq<string>)
    requires |palette| > 0
    ensures |r| == n
    ensures forall i :: 0 <= i < n ==> r[i] == palette[i % |palette|]
  {
    seq(n, i requires 0 <= i < n => palette[i % |palette|])
  }

  /** Two indices fewer than `m` apart leave different remainders. */
  lemma ModApart(i: nat, j: nat, m: nat)
    requires i < j < i + m
    ensures i % m != j % m
  {
    var q := j / m - i / m;
    assert j - i == q * m + (j % m - i % m);
  }

  /** With a palette of distinct colours, any two slices fewer than
      `|palette|` apart have different colours. */
  lemma CycleNeighbours(palette: seq<string>, n: nat)
    requires |palette| > 0 && NoDups(palette)
    ensures forall i, j :: 0 <= i < j < n && j - i < |palette| ==>
      Cycle(palette, n)[i] != Cycle(palette, n)[j]
  {
    var m := |palette|;
    var c := Cycle(palette, n);
    forall i, j | 0 <= i < j < n && j - i < m
      ensures c[i] != c[j]
    {
      ModApart(i, j, m);
    }
  }
}

