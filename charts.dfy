/** The contest page's two charts: one bar pair per row (users and
    registrations), and a half-doughnut of the returning and new users
    with their total in the middle. */
module ContestCharts {
  import opened Wrappers
  import opened Seqs
  import opened Cells
  import opened Text

  const Colors: seq<string> := ["#4ADE80", "#FFC107"]
  const ReturningUsers: string := "Returning_Users (%)"
  const NewUsers: string := "New_Users (%)"

  datatype Bar = Bar(name: Cell, userCount: Option<int>, totalRegistrations: Option<int>)

  /** `data.map(d => ({ name, User_Count: parseInt(...), ... }))`: one bar
      per row, in row order. */
  function BarData(data: seq<Row>): (bars: seq<Bar>)
    ensures |bars| == |data|
    ensures forall i :: 0 <= i < |data| ==> bars[i].name == Get(data[i], "Contest_Name")
  {
    seq(|data|, i requires 0 <= i < |data| =>
      Bar(Get(data[i], "Contest_Name"),
          ParseInt(Get(data[i], "User_Count")),
          ParseInt(Get(data[i], "Total_Registrations"))))
  }

  /** The bar's entry for one of the two count columns. */
  function CountOn(bar: Bar, field: string): Option<int> {
    if field == "User_Count" then bar.userCount else bar.totalRegistrations
  }

  /** A count written as a plain decimal, in either count column, reads
      back as that count on its bar, whether the parser kept it as text or
      typed it as a number. */
  lemma BarDataReads(data: seq<Row>, i: nat, field: string, count: nat)
    requires i < |data|
    requires field == "User_Count" || field == "Total_Registrations"
    requires Get(data[i], field) in {Str(NatText(count)), Num(count as real)}
    ensures CountOn(BarData(data)[i], field) == Some(count)
  {
    var c := Get(data[i], field);
    assert CountOn(BarData(data)[i], field) == ParseInt(c);
    if c == Str(NatText(count)) {
      IntTextParses(count);
      assert IntText(count) == NatText(count);
    } else {
      assert (count as real).Floor == count;
    }
  }

  datatype Slice = Slice(name: string, value: Option<real>)

  /** The two slices: the `parseFloat(x || 0)` sums of the two columns. */
  function PieData(data: seq<Row>): (slices: seq<Slice>)
    ensures |slices| == 2
    ensures slices[0] == Slice("Sum of Returning_Users (%)", FieldTotal(data, ReturningUsers))
    ensures slices[1] == Slice("Sum of New_Users (%)", FieldTotal(data, NewUsers))
  {
    [Slice("Sum of Returning_Users (%)", FieldTotal(data, ReturningUsers)),
     Slice("Sum of New_Users (%)", FieldTotal(data, NewUsers))]
  }

  /** `pieData.reduce((sum, item) => sum + item.value, 0)`. */
  function SliceTotal(slices: seq<Slice>): Option<real> {
    if slices == [] then Some(0.0)
    else AddNaN(SliceTotal(slices[..|slices| - 1]), slices[|slices| - 1].value)
  }

  /** The number in the middle of the doughnut. */
  function TotalValue(data: seq<Row>): Option<real> {
    SliceTotal(PieData(data))
  }

  /** The two columns added row by row. */
  function RowTotals(data: seq<Row>): (vs: seq<real>)
    ensures |vs| == |data|
  {
    var r := FieldValues(data, ReturningUsers);
    var n := FieldValues(data, NewUsers);
    seq(|data|, i requires 0 <= i < |data| => r[i] + n[i])
  }

  lemma {:induction false} SumPairs(a: seq<real>, b: seq<real>, c: seq<real>)
    requires |a| == |b| == |c|
    requires forall i :: 0 <= i < |c| ==> c[i] == a[i] + b[i]
    ensures Sum(c) == Sum(a) + Sum(b)
  {
    if c != [] {
      var k := |c| - 1;
      SumPairs(a[..k], b[..k], c[..k]);
    }
  }

  /** The total in the middle is NaN exactly when a row holds an
      unreadable value in either column; otherwise it is what every row
      contributes to both slices together. */
  lemma TotalIsRowSum(data: seq<Row>)
    ensures TotalValue(data).None? <==>
      exists i :: 0 <= i < |data| && (Unreadable(Get(data[i], ReturningUsers)) || Unreadable(Get(data[i], NewUsers)))
    ensures TotalValue(data).Some? ==> TotalValue(data).value == Sum(RowTotals(data))
  {
    var p := PieData(data);
    assert p[..1][..0] == [];
    assert p[..|p| - 1] == p[..1];
    assert SliceTotal(p[..1]) == AddNaN(Some(0.0), p[0].value);
    assert SliceTotal(p) == AddNaN(AddNaN(Some(0.0), p[0].value), p[1].value);
    if TotalValue(data).Some? {
      SumPairs(FieldValues(data, ReturningUsers), FieldValues(data, NewUsers), RowTotals(data));
    }
  }

  /** No rows give no bars, two zero slices and a zero total. */
  lemma EmptyCharts()
    ensures BarData([]) == []
    ensures PieData([])[0].value == Some(0.0) && PieData([])[1].value == Some(0.0)
    ensures TotalValue([]) == Some(0.0)
  {
    TotalIsRowSum([]);
  }
}
