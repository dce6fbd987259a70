/** Hours per week: `parseFloat(Week_Time_Spent_Hours) || 0` summed per
    `Week || 'Unknown'`, the weeks sorted by the number after `'Week '`
    (0 when there is none), each total rounded to cents. */
module WeeklyTimeSpentLineChart {
  import opened Wrappers
  import opened Seqs
  import opened Cells
  import opened Text
  import opened Grouping
  import opened Entries

  /** `item.Week || 'Unknown'`, as the object key. */
  function WeekKey(row: Row): string {
    KeyOr(Get(row, "Week"), "Unknown")
  }

  function WeekKeys(data: seq<Row>): (ks: seq<string>)
    ensures |ks| == |data|
    ensures forall i :: 0 <= i < |data| ==> ks[i] == WeekKey(data[i])
  {
    seq(|data|, i requires 0 <= i < |data| => WeekKey(data[i]))
  }

  /** What each row adds: `parseFloat(item.Week_Time_Spent_Hours) || 0`. */
  function Hours(data: seq<Row>): seq<real> {
    ColumnOrZero(data, "Week_Time_Spent_Hours")
  }

  /** `parseInt(week.replace('Week ', ''), 10) || 0`. */
  function WeekNumber(week: string): int {
    ParseIntText(RemoveFirst(week, "Week ")).GetOr(0)
  }

  /** `weekNumA - weekNumB`. */
  function CompareWeeks(a: string, b: string): int {
    WeekNumber(a) - WeekNumber(b)
  }

  lemma CompareWeeksAntisymmetric()
    ensures forall a, b :: CompareWeeks(a, b) == -CompareWeeks(b, a)
  {
  }

  function KeyNumber(e: Entry): int {
    WeekNumber(e.key)
  }

  /** `Week n` sorts as `n`. */
  lemma WeekNumberReads(n: nat)
    ensures WeekNumber("Week " + NatText(n)) == n
  {
    var s := "Week " + NatText(n);
    assert s[..5] == "Week ";
    assert s[5..] == NatText(n);
    NatTextParses(n);
  }

  /** `chartData`: no rows give no points; otherwise one point per
      distinct week, in comparator order (`Ascending` says what that means
      along the whole line), each point holding its week's hours rounded
      to cents, the points adding up to all the hours up to half a cent
      per point. */
  method ChartData(data: seq<Row>) returns (chart: seq<Entry>)
    ensures data == [] ==> chart == []
    ensures |chart| == |Dedup(WeekKeys(data))|
    ensures SortedBy(chart, OnKeys(CompareWeeks))
    ensures forall i :: 0 <= i < |chart| ==>
      (chart[i].key in WeekKeys(data) &&
       chart[i].value == Fixed2(Total(WeekKeys(data), Hours(data), chart[i].key)))
    ensures forall k :: k in WeekKeys(data) ==> exists i :: 0 <= i < |chart| && chart[i].key == k
    ensures forall i, j :: 0 <= i < j < |chart| ==> chart[i].key != chart[j].key
    ensures Sum(Hours(data)) - 0.005 * |chart| as real <= SumOfReal(chart, EntryValue) <= Sum(Hours(data)) + 0.005 * |chart| as real
  {
    if |data| == 0 {
      return [];
    }
    var sorted := WeekTotals(data);
    chart := Rounded(sorted);
    RoundedWeeks(sorted, data);
  }

  /** The reduce and the sort by week number, before rounding. */
  method WeekTotals(data: seq<Row>) returns (sorted: seq<Entry>)
    ensures GroupedEntries(sorted, WeekKeys(data), Hours(data))
    ensures SortedBy(sorted, OnKeys(CompareWeeks))
    ensures SumOfReal(sorted, EntryValue) == Sum(Hours(data))
  {
    CompareWeeksAntisymmetric();
    sorted := GroupAndSort(WeekKeys(data), Hours(data), CompareWeeks);
  }

  /** Rounding the sorted weeks keeps them grouped and in week order. */
  lemma RoundedWeeks(sorted: seq<Entry>, data: seq<Row>)
    requires GroupedEntries(sorted, WeekKeys(data), Hours(data))
    requires SortedBy(sorted, OnKeys(CompareWeeks))
    requires SumOfReal(sorted, EntryValue) == Sum(Hours(data))
    ensures var r := Rounded(sorted);
      |r| == |Dedup(WeekKeys(data))| &&
      SortedBy(r, OnKeys(CompareWeeks)) &&
      (forall i :: 0 <= i < |r| ==> r[i].key in WeekKeys(data) && r[i].value == Fixed2(Total(WeekKeys(data), Hours(data), r[i].key))) &&
      (forall k :: k in WeekKeys(data) ==> exists i :: 0 <= i < |r| && r[i].key == k) &&
      (forall i, j :: 0 <= i < j < |r| ==> r[i].key != r[j].key) &&
      Sum(Hours(data)) - 0.005 * |r| as real <= SumOfReal(r, EntryValue) <= Sum(Hours(data)) + 0.005 * |r| as real
  {
    RoundedSum(sorted);
    RoundedEntries(sorted, WeekKeys(data), Hours(data), CompareWeeks);
  }

  /** Sorting by the difference of week numbers orders the whole line. */
  lemma Ascending(chart: seq<Entry>)
    requires SortedBy(chart, OnKeys(CompareWeeks))
    ensures forall i, j :: 0 <= i <= j < |chart| ==> WeekNumber(chart[i].key) <= WeekNumber(chart[j].key)
  {
    forall i | 0 < i < |chart|
      ensures KeyNumber(chart[i - 1]) <= KeyNumber(chart[i])
    {
      assert OnKeys(CompareWeeks)(chart[i - 1], chart[i]) <= 0;
      assert OnKeys(CompareWeeks)(chart[i - 1], chart[i]) == CompareWeeks(chart[i - 1].key, chart[i].key);
    }
    SortedByKey(chart, KeyNumber);
  }
}
