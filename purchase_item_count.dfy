/** Purchased items per fan level: a row counts 1 when its
    `Purchase_Item` is set and is not `'None'`, the counts are summed per
    level and the levels sorted. */
module PurchaseItemCountByFanLevel {
  import opened Wrappers
  import opened Seqs
  import opened Cells
  import opened Text
  import opened Grouping
  import opened Entries
  import opened FanLevels

  /** `item.Purchase_Item && item.Purchase_Item !== 'None'`. */
  predicate HasPurchase(row: Row) {
    Truthy(Get(row, "Purchase_Item")) && Get(row, "Purchase_Item") != Str("None")
  }

  /** What each row adds: 1 or 0. */
  function Flags(data: seq<Row>): (vs: seq<real>)
    ensures |vs| == |data|
    ensures forall i :: 0 <= i < |data| ==> vs[i] == if HasPurchase(data[i]) then 1.0 else 0.0
  {
    seq(|data|, i requires 0 <= i < |data| => if HasPurchase(data[i]) then 1.0 else 0.0)
  }

  /** The flags add up to the number of rows with a purchase. */
  lemma {:induction false} FlagsCount(data: seq<Row>)
    ensures Sum(Flags(data)) == CountWhere(data, HasPurchase) as real
  {
    if data != [] {
      var init := data[..|data| - 1];
      FlagsCount(init);
      assert Flags(data)[..|data| - 1] == Flags(init);
    }
  }

  /** A level's count lies between 0 and the number of its rows. */
  lemma {:induction false} CountWithinGroup(ks: seq<string>, data: seq<Row>, n: nat, k: string)
    requires n <= |ks| == |data|
    ensures 0.0 <= SumUpTo(ks, Flags(data), n, k) <= CountUpTo(ks, n, k) as real
  {
    if n > 0 {
      CountWithinGroup(ks, data, n - 1, k);
    }
  }

  /** `chartData`: no rows give no bars; otherwise one bar per distinct
      level, in comparator order, each counting its level's rows with a
      purchase, never more than the level's rows, and all the counts
      together the rows with a purchase. */
  method ChartData(data: seq<Row>) returns (chart: seq<Entry>)
    ensures data == [] ==> chart == []
    ensures |chart| == |Dedup(LevelKeys(data))|
    ensures SortedBy(chart, OnKeys(CompareLevels))
    ensures forall i :: 0 <= i < |chart| ==>
      (chart[i].key in LevelKeys(data) &&
       chart[i].value == Total(LevelKeys(data), Flags(data), chart[i].key) &&
       0.0 <= chart[i].value <= Occurrences(LevelKeys(data), chart[i].key) as real)
    ensures forall k :: k in LevelKeys(data) ==> exists i :: 0 <= i < |chart| && chart[i].key == k
    ensures forall i, j :: 0 <= i < j < |chart| ==> chart[i].key != chart[j].key
    ensures SumOfReal(chart, EntryValue) == CountWhere(data, HasPurchase) as real
  {
    if |data| == 0 {
      return [];
    }
    CompareLevelsAntisymmetric();
    chart := GroupAndSort(LevelKeys(data), Flags(data), CompareLevels);
    ItemCounts(chart, data);
  }

  /** What the grouped counts say about the rows. */
  lemma ItemCounts(chart: seq<Entry>, data: seq<Row>)
    requires GroupedEntries(chart, LevelKeys(data), Flags(data))
    requires SumOfReal(chart, EntryValue) == Sum(Flags(data))
    ensures |chart| == |Dedup(LevelKeys(data))|
    ensures forall i :: 0 <= i < |chart| ==>
      (chart[i].key in LevelKeys(data) &&
       chart[i].value == Total(LevelKeys(data), Flags(data), chart[i].key) &&
       0.0 <= chart[i].value <= Occurrences(LevelKeys(data), chart[i].key) as real)
    ensures forall k :: k in LevelKeys(data) ==> exists i :: 0 <= i < |chart| && chart[i].key == k
    ensures forall i, j :: 0 <= i < j < |chart| ==> chart[i].key != chart[j].key
    ensures SumOfReal(chart, EntryValue) == CountWhere(data, HasPurchase) as real
  {
    FlagsCount(data);
    CountsWithinGroups(chart, data);
  }

  lemma CountsWithinGroups(chart: seq<Entry>, data: seq<Row>)
    requires forall i :: 0 <= i < |chart| ==> chart[i].value == Total(LevelKeys(data), Flags(data), chart[i].key)
    ensures forall i :: 0 <= i < |chart| ==> 0.0 <= chart[i].value <= Occurrences(LevelKeys(data), chart[i].key) as real
  {
    forall i | 0 <= i < |chart|
      ensures 0.0 <= chart[i].value <= Occurrences(LevelKeys(data), chart[i].key) as real
    {
      CountWithinGroup(LevelKeys(data), data, |data|, chart[i].key);
    }
  }

  datatype Tick = Thousands(text: string) | Plain(value: real)

  /** `formatValue`: from 1000 up, thousands with one decimal and `K`. */
  function FormatValue(value: real): (t: Tick)
    ensures t.Plain? <==> value < 1000.0
    ensures t.Plain? ==> t.value == value
    ensures t.Thousands? ==> |t.text| >= 4 && t.text[|t.text| - 1] == 'K' && t.text[..|t.text| - 1] == Fixed1(value / 1000.0)
  {
    if value >= 1000.0 then Thousands(Fixed1(value / 1000.0) + "K") else Plain(value)
  }
}
