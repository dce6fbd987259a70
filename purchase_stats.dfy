/** Purchase value per item: `parseFloat(Purchase_Price) || 0` summed per
    `Purchase_Item || 'None'`, followed by one more bar holding the total
    of all items. */
module PurchaseStatsChart {
  import opened Wrappers
  import opened Seqs
  import opened Cells
  import opened Grouping
  import PurchasePriceSumByFanLevel

  /** `item.Purchase_Item || 'None'`, as the object key. */
  function ItemKey(row: Row): string {
    KeyOr(Get(row, "Purchase_Item"), "None")
  }

  function ItemKeys(data: seq<Row>): (ks: seq<string>)
    ensures |ks| == |data|
    ensures forall i :: 0 <= i < |data| ==> ks[i] == ItemKey(data[i])
  {
    seq(|data|, i requires 0 <= i < |data| => ItemKey(data[i]))
  }

  /** What each row adds: `parseFloat(item.Purchase_Price) || 0`. */
  function Prices(data: seq<Row>): seq<real> {
    ColumnOrZero(data, "Purchase_Price")
  }

  /** `{ item, increase }` per item, and the closing `{ item: 'Total', total }`. */
  datatype Bar = Increase(item: string, increase: real) | TotalBar(total: real)

  function IncreaseOf(b: Bar): real {
    if b.Increase? then b.increase else 0.0
  }

  /** `Object.values(groupedData)`. */
  method ItemBars(order: seq<string>, ks: seq<string>, vs: seq<real>, sums: map<string, real>) returns (bars: seq<Bar>)
    requires |ks| == |vs|
    requires forall i :: 0 <= i < |order| ==> order[i] in sums && sums[order[i]] == Total(ks, vs, order[i])
    ensures |bars| == |order|
    ensures forall i :: 0 <= i < |order| ==> bars[i] == Increase(order[i], Total(ks, vs, order[i]))
  {
    bars := [];
    for i := 0 to |order|
      invariant |bars| == i
      invariant forall p :: 0 <= p < i ==> bars[p] == Increase(order[p], Total(ks, vs, order[p]))
    {
      bars := bars + [Increase(order[i], sums[order[i]])];
    }
  }

  /** `chartData`: no rows give no bars; otherwise one bar per distinct
      item in the order the items first occur, each holding its item's
      total, and a last bar holding the total of all prices. */
  method ChartData(data: seq<Row>) returns (chart: seq<Bar>)
    ensures data == [] ==> chart == []
    ensures data != [] ==> |chart| == |Dedup(ItemKeys(data))| + 1
    ensures data != [] ==> forall i :: 0 <= i < |chart| - 1 ==>
      chart[i] == Increase(Dedup(ItemKeys(data))[i], Total(ItemKeys(data), Prices(data), Dedup(ItemKeys(data))[i]))
    ensures data != [] ==> chart[|chart| - 1] == TotalBar(Sum(Prices(data)))
  {
    if |data| == 0 {
      return [];
    }
    var ks, vs := ItemKeys(data), Prices(data);
    var order, sums := GroupSum(ks, vs);
    var bars := ItemBars(order, ks, vs, sums);
    var total := SumOfReal(bars, IncreaseOf);
    BarsTotal(ks, vs, bars);
    chart := bars + [TotalBar(total)];
  }

  /** The item bars add up to all the prices. */
  lemma BarsTotal(ks: seq<string>, vs: seq<real>, bars: seq<Bar>)
    requires |ks| == |vs| && |bars| == |Dedup(ks)|
    requires forall i :: 0 <= i < |bars| ==> bars[i] == Increase(Dedup(ks)[i], Total(ks, vs, Dedup(ks)[i]))
    ensures SumOfReal(bars, IncreaseOf) == Sum(vs)
  {
    EntriesSum(Dedup(ks), ks, vs, bars, IncreaseOf);
    SumConservation(ks, vs);
  }

  datatype Tick = Scaled(text: string) | Plain(value: real)

  /** `formatValue`: amounts from 1000 up are written as the tooltip of
      the fan-level chart writes them, smaller ones as they are. */
  function FormatValue(value: real): (t: Tick)
    ensures t.Plain? <==> value < 1000.0
    ensures t.Plain? ==> t.value == value
    ensures t.Scaled? ==> t.text == PurchasePriceSumByFanLevel.FormatCurrency(value)
  {
    if value >= 1000.0 then Scaled(PurchasePriceSumByFanLevel.FormatCurrency(value)) else Plain(value)
  }
}
