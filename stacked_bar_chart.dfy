/** The customer-journey chart: the rows of the third market file grouped
    by week, five metrics summed per week (`Number(x) || 0`), and the
    weeks sorted by the number in their label. */
module StackedBarChart {
  import opened Wrappers
  import opened Seqs
  import opened Cells
  import opened Text
  import opened Grouping

  /** The five stacked metrics, in the order of the bars. */
  const Metrics: seq<string> := ["Visitors", "Onboarding", "Uniq", "Engage", "Churn"]

  /** One week's entry: its label and the total of each metric, `totals[j]`
      holding the field named `Metrics[j]`. */
  datatype WeekBar = WeekBar(week: string, totals: seq<real>)

  /** The key of a row: `String(row.Week || 0)`. */
  function WeekKey(row: Row): string {
    KeyOr(Get(row, "Week"), "0")
  }

  function WeekKeys(data: seq<Row>): (ks: seq<string>)
    ensures |ks| == |data|
  {
    seq(|data|, i requires 0 <= i < |data| => WeekKey(data[i]))
  }

  /** What each row adds to one metric: `Number(row[m]) || 0`. */
  function MetricValues(data: seq<Row>, m: string): (vs: seq<real>)
    ensures |vs| == |data|
  {
    seq(|data|, i requires 0 <= i < |data| => NumberOrZero(Get(data[i], m)))
  }

  /** The total of metric `j` on a week's bar. */
  function Column(j: nat): WeekBar -> real {
    (b: WeekBar) => if j < |b.totals| then b.totals[j] else 0.0
  }

  /** `parseInt(label.split(' ')[1])`; `None` is NaN. */
  function WeekNumber(title: string): Option<int> {
    var second := SplitSecond(title);
    if second.Some? then ParseIntAnyRadix(second.value) else None
  }

  /** `weekA - weekB`; a NaN difference counts as 0, as the sort reads
      it. */
  function ByWeek(a: WeekBar, b: WeekBar): int {
    var x, y := WeekNumber(a.week), WeekNumber(b.week);
    if x.Some? && y.Some? then x.value - y.value else 0
  }

  function WeekOrder(b: WeekBar): int {
    var n := WeekNumber(b.week);
    if n.Some? then n.value else 0
  }

  /** One metric's grouping: `sums[k]` is the week's total of metric `j`. */
  method MetricSums(ks: seq<string>, data: seq<Row>, j: nat) returns (order: seq<string>, sums: map<string, real>)
    requires j < |Metrics| && |ks| == |data|
    ensures order == Dedup(ks)
    ensures Grouped(order, ks, data, j, sums)
  {
    order, sums := GroupSum(ks, MetricValues(data, Metrics[j]));
  }

  /** `sums` holds the total of metric `j` of every week in `order`. */
  predicate Grouped(order: seq<string>, ks: seq<string>, data: seq<Row>, j: nat, sums: map<string, real>)
    requires j < |Metrics| && |ks| == |data|
  {
    forall i :: 0 <= i < |order| ==>
      order[i] in sums && sums[order[i]] == Total(ks, MetricValues(data, Metrics[j]), order[i])
  }

  /** The bars of the weeks in `order`, from the five groupings. */
  method BarsOf(order: seq<string>, ks: seq<string>, data: seq<Row>,
                s0: map<string, real>, s1: map<string, real>, s2: map<string, real>,
                s3: map<string, real>, s4: map<string, real>) returns (bars: seq<WeekBar>)
    requires |ks| == |data|
    requires Grouped(order, ks, data, 0, s0) && Grouped(order, ks, data, 1, s1)
    requires Grouped(order, ks, data, 2, s2) && Grouped(order, ks, data, 3, s3)
    requires Grouped(order, ks, data, 4, s4)
    ensures |bars| == |order|
    ensures forall i :: 0 <= i < |order| ==> bars[i].week == "Week " + order[i]
    ensures forall i, j :: 0 <= i < |order| && 0 <= j < |Metrics| ==>
      Column(j)(bars[i]) == Total(ks, MetricValues(data, Metrics[j]), order[i])
  {
    bars := [];
    for i := 0 to |order|
      invariant |bars| == i
      invariant forall p :: 0 <= p < i ==> bars[p].week == "Week " + order[p]
      invariant forall p, j :: 0 <= p < i && 0 <= j < |Metrics| ==>
        Column(j)(bars[p]) == Total(ks, MetricValues(data, Metrics[j]), order[p])
    {
      var k := order[i];
      var totals := [s0[k], s1[k], s2[k], s3[k], s4[k]];
      forall j | 0 <= j < |Metrics|
        ensures totals[j] == Total(ks, MetricValues(data, Metrics[j]), k)
      {
        if j == 0 {} else if j == 1 {} else if j == 2 {} else if j == 3 {} else {}
      }
      bars := bars + [WeekBar("Week " + k, totals)];
    }
  }

  /** `Object.values(groupedByWeek)`: one bar per distinct week, in the
      order the weeks first occur, each metric summed over the week's
      rows. */
  method GroupByWeek(data: seq<Row>) returns (bars: seq<WeekBar>)
    ensures |bars| == |Dedup(WeekKeys(data))|
    ensures forall i :: 0 <= i < |bars| ==> bars[i].week == "Week " + Dedup(WeekKeys(data))[i]
    ensures forall i, j :: 0 <= i < |bars| && 0 <= j < |Metrics| ==>
      Column(j)(bars[i]) == Total(WeekKeys(data), MetricValues(data, Metrics[j]), Dedup(WeekKeys(data))[i])
  {
    var ks := WeekKeys(data);
    var order, s0 := MetricSums(ks, data, 0);
    var _, s1 := MetricSums(ks, data, 1);
    var _, s2 := MetricSums(ks, data, 2);
    var _, s3 := MetricSums(ks, data, 3);
    var _, s4 := MetricSums(ks, data, 4);
    bars := BarsOf(order, ks, data, s0, s1, s2, s3, s4);
  }

  /** `processData`: the weekly bars sorted by week number. */
  method ProcessData(data: seq<Row>) returns (chart: seq<WeekBar>)
    ensures |chart| == |Dedup(WeekKeys(data))|
    ensures SortedBy(chart, ByWeek)
    ensures forall j :: 0 <= j < |Metrics| ==> SumOfReal(chart, Column(j)) == Sum(MetricValues(data, Metrics[j]))
    ensures forall k :: k in WeekKeys(data) <==> exists i :: 0 <= i < |chart| && chart[i].week == "Week " + k
    ensures forall i :: 0 <= i < |chart| ==> HoldsWeek(data, chart[i])
    ensures forall i, j :: 0 <= i < j < |chart| ==> chart[i].week != chart[j].week
  {
    var bars := GroupByWeek(data);
    chart := SortWith(bars, ByWeek);
    SortWithSorted(bars, ByWeek);
    ColumnsConserved(data, bars, chart);
    WeeksCharted(WeekKeys(data), bars, chart);
    SortedBarsHoldTotals(data, bars, chart);
  }

  /** `b` is the bar of some week of the rows: labelled `Week k`, each
      metric the week's total. */
  ghost predicate HoldsWeek(data: seq<Row>, b: WeekBar) {
    exists k :: k in WeekKeys(data) && b.week == "Week " + k &&
      forall j :: 0 <= j < |Metrics| ==> Column(j)(b) == Total(WeekKeys(data), MetricValues(data, Metrics[j]), k)
  }

  /** Reordering the weekly bars keeps every bar the bar of its own week,
      and no week is charted twice. */
  lemma SortedBarsHoldTotals(data: seq<Row>, bars: seq<WeekBar>, chart: seq<WeekBar>)
    requires |bars| == |Dedup(WeekKeys(data))|
    requires forall i :: 0 <= i < |bars| ==> bars[i].week == "Week " + Dedup(WeekKeys(data))[i]
    requires forall i, j :: 0 <= i < |bars| && 0 <= j < |Metrics| ==>
      Column(j)(bars[i]) == Total(WeekKeys(data), MetricValues(data, Metrics[j]), Dedup(WeekKeys(data))[i])
    requires multiset(chart) == multiset(bars)
    ensures forall i :: 0 <= i < |chart| ==> HoldsWeek(data, chart[i])
    ensures forall i, j :: 0 <= i < j < |chart| ==> chart[i].week != chart[j].week
  {
    var order := Dedup(WeekKeys(data));
    forall i | 0 <= i < |chart|
      ensures HoldsWeek(data, chart[i])
    {
      assert chart[i] in multiset(bars);
      var p :| 0 <= p < |bars| && bars[p] == chart[i];
      assert order[p] in WeekKeys(data);
    }
    DistinctLabels(order, bars, chart);
  }

  /** Bars labelled by distinct weeks keep distinct labels when reordered. */
  lemma DistinctLabels(order: seq<string>, bars: seq<WeekBar>, chart: seq<WeekBar>)
    requires NoDups(order) && |bars| == |order|
    requires forall i :: 0 <= i < |bars| ==> bars[i].week == "Week " + order[i]
    requires multiset(chart) == multiset(bars)
    ensures forall i, j :: 0 <= i < j < |chart| ==> chart[i].week != chart[j].week
  {
    forall p, q | 0 <= p < q < |bars|
      ensures bars[p].week != bars[q].week
    {
      if bars[p].week == bars[q].week {
        WeekLabelInjective(order[p], order[q]);
      }
    }
    PermutationNoDups(bars, chart);
    forall i, j | 0 <= i < j < |chart|
      ensures chart[i].week != chart[j].week
    {
      assert chart[i] in multiset(bars) && chart[j] in multiset(bars);
      var p :| 0 <= p < |bars| && bars[p] == chart[i];
      var q :| 0 <= q < |bars| && bars[q] == chart[j];
      assert p != q;
    }
  }

  /** Distinct weeks get distinct labels. */
  lemma WeekLabelInjective(a: string, b: string)
    requires "Week " + a == "Week " + b
    ensures a == b
  {
    assert ("Week " + a)[5..] == a;
    assert ("Week " + b)[5..] == b;
  }

  /** Reordering the bars keeps each metric's total over the chart equal
      to the metric's total over the rows. */
  lemma ColumnsConserved(data: seq<Row>, bars: seq<WeekBar>, chart: seq<WeekBar>)
    requires |bars| == |Dedup(WeekKeys(data))|
    requires forall i, j :: 0 <= i < |bars| && 0 <= j < |Metrics| ==>
      Column(j)(bars[i]) == Total(WeekKeys(data), MetricValues(data, Metrics[j]), Dedup(WeekKeys(data))[i])
    requires multiset(chart) == multiset(bars)
    ensures forall j :: 0 <= j < |Metrics| ==> SumOfReal(chart, Column(j)) == Sum(MetricValues(data, Metrics[j]))
  {
    var ks := WeekKeys(data);
    forall j | 0 <= j < |Metrics|
      ensures SumOfReal(chart, Column(j)) == Sum(MetricValues(data, Metrics[j]))
    {
      var vs := MetricValues(data, Metrics[j]);
      EntriesSum(Dedup(ks), ks, vs, bars, Column(j));
      SumConservation(ks, vs);
      SumOfRealPermutation(bars, chart, Column(j));
    }
  }

  /** A week is charted exactly when some row falls in it. */
  lemma WeeksCharted(ks: seq<string>, bars: seq<WeekBar>, chart: seq<WeekBar>)
    requires |bars| == |Dedup(ks)|
    requires forall i :: 0 <= i < |bars| ==> bars[i].week == "Week " + Dedup(ks)[i]
    requires multiset(chart) == multiset(bars)
    ensures forall k :: k in ks <==> exists i :: 0 <= i < |chart| && chart[i].week == "Week " + k
  {
    forall k
      ensures k in ks <==> exists i :: 0 <= i < |chart| && chart[i].week == "Week " + k
    {
      if k in ks {
        var p := IndexOf(Dedup(ks), k);
        assert bars[p] in multiset(chart);
      }
      if i :| 0 <= i < |chart| && chart[i].week == "Week " + k {
        assert chart[i] in multiset(bars);
        var p :| 0 <= p < |bars| && bars[p] == chart[i];
        assert "Week " + Dedup(ks)[p] == "Week " + k;
        assert ("Week " + Dedup(ks)[p])[5..] == Dedup(ks)[p];
        assert ("Week " + k)[5..] == k;
      }
    }
  }

  lemma {:induction false} IndexOfAfter(p: string, t: string)
    requires ' ' !in p
    ensures ' ' in p + " " + t && Seqs.IndexOf(p + " " + t, ' ') == |p|
  {
    var s := p + " " + t;
    assert s[|p|] == ' ';
    if p != [] {
      assert s[1..] == p[1..] + " " + t;
      IndexOfAfter(p[1..], t);
    }
  }

  lemma NoSpaceInIntText(n: int)
    ensures ' ' !in IntText(n)
  {
    var d := NatText(if n < 0 then -n else n);
    assert !IsDigit(' ');
    assert ' ' !in d;
    if n < 0 {
      assert IntText(n) == "-" + d;
    }
  }

  /** The label of an integer week reads back as that week's number. */
  lemma WeekNumberReads(n: int)
    ensures WeekNumber("Week " + IntText(n)) == Some(n)
  {
    var t := IntText(n);
    NoSpaceInIntText(n);
    IndexOfAfter("Week", t);
    assert "Week " + t == "Week" + " " + t;
    assert ("Week " + t)[5..] == t;
    IntTextParses(n);
  }

  /** When every week label carries a number, neighbour order is global:
      the weeks appear in ascending numeric order. */
  lemma ChartAscending(chart: seq<WeekBar>)
    requires SortedBy(chart, ByWeek)
    requires forall i :: 0 <= i < |chart| ==> WeekNumber(chart[i].week).Some?
    ensures forall i, j :: 0 <= i <= j < |chart| ==> WeekOrder(chart[i]) <= WeekOrder(chart[j])
  {
    forall i | 0 < i < |chart|
      ensures WeekOrder(chart[i - 1]) <= WeekOrder(chart[i])
    {
      assert ByWeek(chart[i - 1], chart[i]) <= 0;
    }
    SortedByKey(chart, WeekOrder);
  }

  datatype Tick = Thousands(text: string) | Plain(value: real)

  /** `formatYAxis`: from 1000 up, the value in thousands with a `K`. */
  function FormatYAxis(value: real): (t: Tick)
    ensures t.Plain? <==> value < 1000.0
    ensures t.Plain? ==> t.value == value
  {
    if value >= 1000.0 then Thousands(NumText(value / 1000.0) + "K") else Plain(value)
  }

  /** A whole number of thousands is written as that number and `K`. */
  lemma FormatWholeThousands(n: nat)
    requires n >= 1
    ensures FormatYAxis(1000.0 * n as real) == Thousands(NatText(n) + "K")
  {
    assert 1000.0 * n as real / 1000.0 == n as real;
    WholeNumText(n);
  }
}
