/** The contest page's combined chart: device counts for the pie, the
    rounded purchase total shown in its centre, and the purchase matrix of
    the stacked bars (one bar per contest, one segment per item type, each
    segment the purchase total of the rows with that contest and item). */
module Chart1 {
  import opened Wrappers
  import opened Seqs
  import opened Text
  import opened Cells
  import opened Filtering

  const Colors: seq<string> := ["#00C49F", "#FFBB28", "#FF8042", "#0088FE", "#8884d8"]

  const ContestId: string := "Contest_ID"
  const ItemPurchased: string := "Item_Purchased"
  const PurchaseValue: string := "Purchase_Value"

  /** `Math.round(total)` of the purchase sum: NaN (`None`) exactly when a
      row holds an unreadable value, otherwise within one half of the sum
      of the rows' values. */
  function TotalValue(data: seq<Row>): (t: Option<int>)
    ensures t.None? <==> exists i :: 0 <= i < |data| && Unreadable(Get(data[i], PurchaseValue))
    ensures t.Some? ==>
      Sum(FieldValues(data, PurchaseValue)) - 0.5 < t.value as real <= Sum(FieldValues(data, PurchaseValue)) + 0.5
  {
    RoundNaN(FieldTotal(data, PurchaseValue))
  }

  /** The default `sort()`: by the text of the values, code unit by code
      unit. */
  function ByText(a: Cell, b: Cell): int {
    StrCompare(KeyText(a), KeyText(b))
  }

  /** `contestIds` after `contestIds.sort()`. */
  function ContestIds(data: seq<Row>): seq<Cell> {
    SortWith(UniqueValues(data, ContestId), ByText)
  }

  /** The sorted contest ids are the distinct truthy ids, each once, in
      ascending order of their text. */
  lemma ContestIdsSorted(data: seq<Row>)
    ensures multiset(ContestIds(data)) == multiset(UniqueValues(data, ContestId))
    ensures NoDups(ContestIds(data))
    ensures forall x :: x in ContestIds(data) ==> Truthy(x)
    ensures forall i, j :: 0 <= i < j < |ContestIds(data)| ==>
      StrCompare(KeyText(ContestIds(data)[i]), KeyText(ContestIds(data)[j])) <= 0
  {
    var u := UniqueValues(data, ContestId);
    var s := ContestIds(data);
    forall a, b | a in u && b in u
      ensures ByText(a, b) == -ByText(b, a)
    {
      StrCompareAntisymmetric(KeyText(a), KeyText(b));
    }
    SortWithSorted(u, ByText);
    PermutationNoDups(u, s);
    forall x | x in s
      ensures Truthy(x)
    {
      assert x in multiset(u);
    }
    SortedTextOrder(s);
  }

  /** Neighbour order by text is global order. */
  lemma {:induction false} SortedTextOrder(s: seq<Cell>)
    requires SortedBy(s, ByText)
    ensures forall i, j :: 0 <= i < j < |s| ==> StrCompare(KeyText(s[i]), KeyText(s[j])) <= 0
  {
    if s != [] {
      var init := s[..|s| - 1];
      SortedTextOrder(init);
      forall i, j | 0 <= i < j < |s|
        ensures StrCompare(KeyText(s[i]), KeyText(s[j])) <= 0
      {
        if j == |s| - 1 && i < j - 1 {
          assert StrCompare(KeyText(init[i]), KeyText(init[j - 1])) <= 0;
          StrCompareAtMostTransitive(KeyText(s[i]), KeyText(s[j - 1]), KeyText(s[j]));
        } else if j < |s| - 1 {
          assert StrCompare(KeyText(init[i]), KeyText(init[j])) <= 0;
        }
      }
    }
  }

  /** `data.filter(row => row.Contest_ID === contestId && row.Item_Purchased
      === itemType)`. */
  function PairRows(data: seq<Row>, id: Cell, item: Cell): (r: seq<Row>)
    ensures forall row :: row in r <==>
      row in data && Get(row, ContestId) == id && Get(row, ItemPurchased) == item
  {
    Filter(data, row => Get(row, ContestId) == id && Get(row, ItemPurchased) == item)
  }

  /** A row whose id or item is falsy lands in no segment of the chart,
      whose ids and items are all truthy. */
  lemma FalsyRowsUncounted(data: seq<Row>, id: Cell, item: Cell, row: Row)
    requires Truthy(id) && Truthy(item)
    requires !Truthy(Get(row, ContestId)) || !Truthy(Get(row, ItemPurchased))
    ensures row !in PairRows(data, id, item)
  {
  }

  /** The value of one cell of a bar: the contest id, or a segment's sum. */
  datatype BarValue = IdValue(id: Cell) | Amount(sum: Option<real>)

  /** `rowData` after the `forEach` over the item types: `{Contest_ID:
      contestId}`, then one key per item type, a later item overwriting an
      earlier one with the same text. */
  function BarRowSpec(data: seq<Row>, id: Cell, items: seq<Cell>): map<string, BarValue> {
    if items == [] then map[ContestId := IdValue(id)]
    else
      var item := items[|items| - 1];
      BarRowSpec(data, id, items[..|items| - 1])[KeyText(item) := Segment(data, id, item)]
  }

  /** One segment: the purchase total of the contest's rows for the item. */
  function Segment(data: seq<Row>, id: Cell, item: Cell): BarValue {
    Amount(FieldTotal(PairRows(data, id, item), PurchaseValue))
  }

  /** The bar of one contest. */
  method BarRow(data: seq<Row>, id: Cell, items: seq<Cell>) returns (rowData: map<string, BarValue>)
    ensures rowData == BarRowSpec(data, id, items)
  {
    rowData := map[ContestId := IdValue(id)];
    for j := 0 to |items|
      invariant rowData == BarRowSpec(data, id, items[..j])
    {
      var itemType := items[j];
      var relevantRows := PairRows(data, id, itemType);
      var sum := FieldSum(relevantRows, PurchaseValue);
      assert items[..j + 1][..j] == items[..j];
      assert Amount(sum) == Segment(data, id, itemType);
      rowData := rowData[KeyText(itemType) := Amount(sum)];
    }
    assert items[..|items|] == items;
  }

  /** Some item type of `items` has the text `k`. */
  ghost predicate HasItemText(items: seq<Cell>, k: string) {
    exists i :: 0 <= i < |items| && KeyText(items[i]) == k
  }

  lemma ItemTextAppend(init: seq<Cell>, last: Cell, k: string)
    ensures HasItemText(init + [last], k) <==> HasItemText(init, k) || KeyText(last) == k
  {
    var items := init + [last];
    if HasItemText(items, k) && KeyText(last) != k {
      var i :| 0 <= i < |items| && KeyText(items[i]) == k;
      assert KeyText(init[i]) == k;
    }
    if HasItemText(init, k) {
      var i :| 0 <= i < |init| && KeyText(init[i]) == k;
      assert KeyText(items[i]) == k;
    }
    if KeyText(last) == k {
      assert KeyText(items[|init|]) == k;
    }
  }

  /** A bar's keys are `'Contest_ID'` and the texts of the item types. */
  lemma {:induction false} BarRowKeys(data: seq<Row>, id: Cell, items: seq<Cell>)
    ensures forall k :: k in BarRowSpec(data, id, items) <==> k == ContestId || HasItemText(items, k)
  {
    if items != [] {
      var init, last := items[..|items| - 1], items[|items| - 1];
      BarRowKeys(data, id, init);
      assert items == init + [last];
      forall k
        ensures HasItemText(items, k) <==> HasItemText(init, k) || KeyText(last) == k
      {
        ItemTextAppend(init, last, k);
      }
    }
  }

  /** When no item type has the text `'Contest_ID'`, a bar keeps its
      contest id. */
  lemma {:induction false} BarRowContestId(data: seq<Row>, id: Cell, items: seq<Cell>)
    requires forall i :: 0 <= i < |items| ==> KeyText(items[i]) != ContestId
    ensures ContestId in BarRowSpec(data, id, items) && BarRowSpec(data, id, items)[ContestId] == IdValue(id)
  {
    if items != [] {
      var init := items[..|items| - 1];
      assert forall i :: 0 <= i < |init| ==> init[i] == items[i];
      BarRowContestId(data, id, init);
    }
  }

  /** When the item types have distinct texts, a bar holds, for each item
      type, that type's purchase total for the contest. */
  lemma {:induction false} BarRowCells(data: seq<Row>, id: Cell, items: seq<Cell>)
    requires forall i, j :: 0 <= i < j < |items| ==> KeyText(items[i]) != KeyText(items[j])
    ensures forall i :: 0 <= i < |items| ==> HoldsCell(BarRowSpec(data, id, items), data, id, items[i])
  {
    if items != [] {
      var init, last := items[..|items| - 1], items[|items| - 1];
      assert forall i :: 0 <= i < |init| ==> init[i] == items[i];
      BarRowCells(data, id, init);
      var m := BarRowSpec(data, id, init);
      var k, v := KeyText(last), Segment(data, id, last);
      assert BarRowSpec(data, id, items) == m[k := v];
      forall i | 0 <= i < |items|
        ensures HoldsCell(m[k := v], data, id, items[i])
      {
        if i < |init| {
          assert HoldsCell(m, data, id, init[i]);
          UpdateKeepsCell(m, k, v, data, id, items[i]);
        }
      }
    }
  }

  /** The bar `m` holds the purchase total of `item` under its text. */
  ghost predicate HoldsCell(m: map<string, BarValue>, data: seq<Row>, id: Cell, item: Cell) {
    KeyText(item) in m && m[KeyText(item)] == Segment(data, id, item)
  }

  lemma UpdateKeepsCell(m: map<string, BarValue>, k: string, v: BarValue, data: seq<Row>, id: Cell, item: Cell)
    requires HoldsCell(m, data, id, item) && KeyText(item) != k
    ensures HoldsCell(m[k := v], data, id, item)
  {
  }

  /** `contestIds.map(contestId => ...)`: one bar per contest id, in
      sorted order, over all the item types. */
  method BarData(data: seq<Row>) returns (barData: seq<map<string, BarValue>>)
    ensures |barData| == |ContestIds(data)|
    ensures forall i :: 0 <= i < |barData| ==>
      barData[i] == BarRowSpec(data, ContestIds(data)[i], UniqueValues(data, ItemPurchased))
  {
    barData := Bars(data, ContestIds(data), UniqueValues(data, ItemPurchased));
  }

  method Bars(data: seq<Row>, contestIds: seq<Cell>, itemTypes: seq<Cell>) returns (barData: seq<map<string, BarValue>>)
    ensures |barData| == |contestIds|
    ensures forall i :: 0 <= i < |barData| ==> barData[i] == BarRowSpec(data, contestIds[i], itemTypes)
  {
    barData := [];
    for i := 0 to |contestIds|
      invariant |barData| == i
      invariant forall t :: 0 <= t < i ==> barData[t] == BarRowSpec(data, contestIds[t], itemTypes)
    {
      var rowData := BarRow(data, contestIds[i], itemTypes);
      barData := barData + [rowData];
    }
  }

  /** `colorMap` after the `forEach`: item type `index` gets
      `COLORS[index % 5]`, a later item overwriting an earlier one with the
      same text. */
  function ColorSpec(items: seq<Cell>): map<string, string> {
    if items == [] then map[]
    else ColorSpec(items[..|items| - 1])[KeyText(items[|items| - 1]) := Colors[(|items| - 1) % |Colors|]]
  }

  method ColorMap(items: seq<Cell>) returns (colorMap: map<string, string>)
    ensures colorMap == ColorSpec(items)
  {
    colorMap := map[];
    for index := 0 to |items|
      invariant colorMap == ColorSpec(items[..index])
    {
      assert items[..index + 1][..index] == items[..index];
      colorMap := colorMap[KeyText(items[index]) := Colors[index % |Colors|]];
    }
    assert items[..|items|] == items;
  }

  /** With item types of distinct texts, item `i` is mapped to
      `COLORS[i % 5]`. */
  lemma {:induction false} ColorSpecCycles(items: seq<Cell>)
    requires forall i, j :: 0 <= i < j < |items| ==> KeyText(items[i]) != KeyText(items[j])
    ensures forall i :: 0 <= i < |items| ==>
      KeyText(items[i]) in ColorSpec(items) && ColorSpec(items)[KeyText(items[i])] == Colors[i % |Colors|]
  {
    if items != [] {
      var init := items[..|items| - 1];
      ColorSpecCycles(init);
      forall i | 0 <= i < |items| - 1
        ensures KeyText(items[i]) in ColorSpec(items) && ColorSpec(items)[KeyText(items[i])] == Colors[i % |Colors|]
      {
        assert init[i] == items[i];
      }
    }
  }
}
