/** Hours per day: the rows whose `Daily_Time_Spent_Hours` reads as a
    number, summed per `Date`, the dates in the default `sort()` order and
    each day's total rounded to cents. */
module DailyTimeChart {
  import opened Wrappers
  import opened Seqs
  import opened Cells
  import opened Text
  import opened Grouping
  import opened Entries

  /** `parseFloat(row.Daily_Time_Spent_Hours)`, `None` for NaN. */
  function Reading(row: Row): Option<real> {
    ParseFloat(Get(row, "Daily_Time_Spent_Hours"))
  }

  /** `!isNaN(timeSpent)`. */
  predicate HasHours(row: Row) {
    Reading(row).Some?
  }

  /** The rows the `forEach` adds up. */
  function Readings(data: seq<Row>): seq<Row> {
    Filter(data, HasHours)
  }

  /** `row.Date`, as the object key. */
  function Date(row: Row): string {
    KeyText(Get(row, "Date"))
  }

  function DateKeys(rows: seq<Row>): (ks: seq<string>)
    ensures |ks| == |rows|
    ensures forall i :: 0 <= i < |rows| ==> ks[i] == Date(rows[i])
  {
    seq(|rows|, i requires 0 <= i < |rows| => Date(rows[i]))
  }

  /** What each row adds: its hours, read as a number. */
  function Hours(rows: seq<Row>): (vs: seq<real>)
    ensures |vs| == |rows|
  {
    seq(|rows|, i requires 0 <= i < |rows| => Reading(rows[i]).GetOr(0.0))
  }

  /** `dates` and `timeValues`: the distinct dates of the readable rows
      sorted as text, each once, ascending; beside each date its hours
      rounded to cents; the values adding up to all the readable hours up
      to half a cent per date. */
  method ChartData(data: seq<Row>) returns (dates: seq<string>, timeValues: seq<real>)
    ensures dates == SortStrings(Dedup(DateKeys(Readings(data))))
    ensures forall i, j :: 0 <= i < j < |dates| ==> StrCompare(dates[i], dates[j]) < 0
    ensures forall d :: d in dates <==> Carries(data, HasHours, d)
    ensures |timeValues| == |dates|
    ensures forall i :: 0 <= i < |dates| ==>
      timeValues[i] == Fixed2(Total(DateKeys(Readings(data)), Hours(Readings(data)), dates[i]))
    ensures var total := Sum(Hours(Readings(data)));
      total - 0.005 * |dates| as real <= Sum(timeValues) <= total + 0.005 * |dates| as real
  {
    var rows := Readings(data);
    var ks, vs := DateKeys(rows), Hours(rows);
    var order, grouped := GroupSum(ks, vs);
    dates := SortStrings(order);
    SortedDates(ks, dates);
    DatesOfRows(data, HasHours, dates);
    timeValues := RoundedTotals(dates, ks, vs, grouped);
    TotalsConserved(ks, vs, dates, timeValues);
  }

  /** `dates.map(date => grouped[date].toFixed(2))`. */
  method RoundedTotals(dates: seq<string>, ks: seq<string>, vs: seq<real>, grouped: map<string, real>) returns (values: seq<real>)
    requires |ks| == |vs|
    requires forall i :: 0 <= i < |dates| ==> dates[i] in grouped && grouped[dates[i]] == Total(ks, vs, dates[i])
    ensures |values| == |dates|
    ensures forall i :: 0 <= i < |dates| ==> values[i] == Fixed2(Total(ks, vs, dates[i]))
  {
    values := [];
    for i := 0 to |dates|
      invariant |values| == i
      invariant forall p :: 0 <= p < i ==> values[p] == Fixed2(Total(ks, vs, dates[p]))
    {
      values := values + [Fixed2(grouped[dates[i]])];
    }
  }

  /** The rounded day totals add up to all the hours, up to half a cent a
      day. */
  lemma TotalsConserved(ks: seq<string>, vs: seq<real>, dates: seq<string>, values: seq<real>)
    requires |ks| == |vs| && dates == SortStrings(Dedup(ks))
    requires |values| == |dates|
    requires forall i :: 0 <= i < |dates| ==> values[i] == Fixed2(Total(ks, vs, dates[i]))
    ensures Sum(vs) - 0.005 * |dates| as real <= Sum(values) <= Sum(vs) + 0.005 * |dates| as real
  {
    SortedTotalsSum(ks, vs, StrCompare);
    Fixed2Sum(Totals(ks, vs, dates), values);
  }

  /** The sorted distinct dates ascend strictly. */
  lemma SortedDates(ks: seq<string>, dates: seq<string>)
    requires dates == SortStrings(Dedup(ks))
    ensures forall i, j :: 0 <= i < j < |dates| ==> StrCompare(dates[i], dates[j]) < 0
    ensures multiset(dates) == multiset(Dedup(ks))
    ensures forall i :: 0 <= i < |dates| ==> dates[i] in ks
  {
    SortStringsOrdered(Dedup(ks));
    Distinct(dates);
    forall i | 0 <= i < |dates|
      ensures dates[i] in ks
    {
      assert dates[i] in multiset(Dedup(ks));
    }
  }

  lemma Distinct(dates: seq<string>)
    requires NoDups(dates)
    requires forall i, j :: 0 <= i < j < |dates| ==> StrCompare(dates[i], dates[j]) <= 0
    ensures forall i, j :: 0 <= i < j < |dates| ==> StrCompare(dates[i], dates[j]) < 0
  {
    forall i, j | 0 <= i < j < |dates|
      ensures StrCompare(dates[i], dates[j]) < 0
    {
      StrCompareZero(dates[i], dates[j]);
    }
  }

  /** Some row of `data` that `keep` keeps has date `d`. */
  ghost predicate Carries(data: seq<Row>, keep: Row -> bool, d: string) {
    exists i :: 0 <= i < |data| && keep(data[i]) && Date(data[i]) == d
  }

  /** A date is charted exactly when some kept row carries it. */
  lemma DatesOfRows(data: seq<Row>, keep: Row -> bool, dates: seq<string>)
    requires multiset(dates) == multiset(Dedup(DateKeys(Filter(data, keep))))
    ensures forall d :: d in dates <==> Carries(data, keep, d)
  {
    forall d
      ensures d in dates <==> Carries(data, keep, d)
    {
      SameMembers(dates, DateKeys(Filter(data, keep)), d);
      KeyOfRow(data, keep, d);
    }
  }

  lemma SameMembers(dates: seq<string>, ks: seq<string>, d: string)
    requires multiset(dates) == multiset(Dedup(ks))
    ensures d in dates <==> d in ks
  {
    assert d in dates <==> d in multiset(Dedup(ks));
  }

  lemma KeyOfRow(data: seq<Row>, keep: Row -> bool, d: string)
    ensures d in DateKeys(Filter(data, keep)) <==> Carries(data, keep, d)
  {
    var rows := Filter(data, keep);
    var ks := DateKeys(rows);
    if d in ks {
      var p :| 0 <= p < |ks| && ks[p] == d;
      assert rows[p] in data;
      var i :| 0 <= i < |data| && data[i] == rows[p];
      assert keep(data[i]) && Date(data[i]) == d;
    }
    if Carries(data, keep, d) {
      var i :| 0 <= i < |data| && keep(data[i]) && Date(data[i]) == d;
      assert data[i] in rows;
      var p :| 0 <= p < |rows| && rows[p] == data[i];
      assert ks[p] == d;
    }
  }

  /** A row whose hours do not read as a number changes nothing. */
  lemma UnreadableRowIgnored(data: seq<Row>, row: Row)
    requires !HasHours(row)
    ensures Readings(data + [row]) == Readings(data)
  {
    FilterAppend(data, row, HasHours);
  }

  /** A readable row adds its hours to its date's total. */
  lemma ReadableRowCounted(data: seq<Row>, row: Row)
    requires HasHours(row)
    ensures var rows := Readings(data + [row]);
      var d := Date(row);
      Total(DateKeys(rows), Hours(rows), d) ==
        Total(DateKeys(Readings(data)), Hours(Readings(data)), d) + Reading(row).value
  {
    FilterAppend(data, row, HasHours);
    var before := Readings(data);
    ColumnsAppend(before, row);
    TotalAppend(DateKeys(before), Hours(before), Date(row), Reading(row).value, Date(row));
  }

  lemma ColumnsAppend(rows: seq<Row>, row: Row)
    ensures DateKeys(rows + [row]) == DateKeys(rows) + [Date(row)]
    ensures Hours(rows + [row]) == Hours(rows) + [Reading(row).GetOr(0.0)]
  {
    assert (rows + [row])[|rows|] == row;
  }
}
