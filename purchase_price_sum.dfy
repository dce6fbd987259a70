/** Total purchase value per fan level: `parseFloat(Purchase_Price) || 0`
    summed per level, the levels sorted, each total then rounded to cents
    with `parseFloat(total.toFixed(2))`. */
module PurchasePriceSumByFanLevel {
  import opened Wrappers
  import opened Seqs
  import opened Cells
  import opened Text
  import opened Grouping
  import opened Entries
  import opened FanLevels

  /** What each row adds: `parseFloat(item.Purchase_Price) || 0`. */
  function Prices(data: seq<Row>): seq<real> {
    ColumnOrZero(data, "Purchase_Price")
  }

  /** `chartData`: no rows give no bars; otherwise one bar per distinct
      level, in comparator order, each holding its level's total rounded
      to cents, the bars adding up to the total of all prices up to half a
      cent per bar. */
  method ChartData(data: seq<Row>) returns (chart: seq<Entry>)
    ensures data == [] ==> chart == []
    ensures |chart| == |Dedup(LevelKeys(data))|
    ensures SortedBy(chart, OnKeys(CompareLevels))
    ensures forall i :: 0 <= i < |chart| ==>
      (chart[i].key in LevelKeys(data) &&
       chart[i].value == Fixed2(Total(LevelKeys(data), Prices(data), chart[i].key)))
    ensures forall k :: k in LevelKeys(data) ==> exists i :: 0 <= i < |chart| && chart[i].key == k
    ensures forall i, j :: 0 <= i < j < |chart| ==> chart[i].key != chart[j].key
    ensures Sum(Prices(data)) - 0.005 * |chart| as real <= SumOfReal(chart, EntryValue) <= Sum(Prices(data)) + 0.005 * |chart| as real
  {
    if |data| == 0 {
      return [];
    }
    var ks, vs := LevelKeys(data), Prices(data);
    CompareLevelsAntisymmetric();
    var sorted := GroupAndSort(ks, vs, CompareLevels);
    chart := Rounded(sorted);
    RoundedSum(sorted);
    RoundedEntries(sorted, ks, vs, CompareLevels);
  }

  /** `formatCurrency` */
  function FormatCurrency(value: real): (r: string)
    ensures value >= 1000.0 ==> |r| >= 4 && r[..|r| - 1] == Fixed1(value / Scale(value))
    ensures value >= 1000000.0 ==> r[|r| - 1] == 'M'
    ensures 1000.0 <= value < 1000000.0 ==> r[|r| - 1] == 'K'
    ensures value < 1000.0 ==> r == NumText(value)
  {
    if value >= 1000000.0 then Fixed1(value / 1000000.0) + "M"
    else if value >= 1000.0 then Fixed1(value / 1000.0) + "K"
    else NumText(value)
  }

  /** The unit a tooltip amount is written in. */
  function Scale(value: real): real {
    if value >= 1000000.0 then 1000000.0 else if value >= 1000.0 then 1000.0 else 1.0
  }

  /** A large amount is written as tenths of its unit that lie within half
      a tenth of the amount. */
  lemma FormatCurrencyClose(value: real)
    requires value >= 1000.0
    ensures var t := Round(value / Scale(value) * 10.0);
      t >= 0 && value - 0.05 * Scale(value) < t as real / 10.0 * Scale(value) <= value + 0.05 * Scale(value)
  {
    var u := Scale(value);
    var t := Round(value / u * 10.0);
    assert value / u - 0.05 < t as real / 10.0 <= value / u + 0.05;
    assert (value / u) * u == value;
    MulBetween(value / u - 0.05, t as real / 10.0, value / u + 0.05, u);
  }

  lemma MulBetween(lo: real, x: real, hi: real, u: real)
    requires lo < x <= hi && u > 0.0
    ensures lo * u < x * u <= hi * u
  {
  }
}
