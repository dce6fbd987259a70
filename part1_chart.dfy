/** Average fan level index per day: the readable `Fan_Level_Index1`
    values collected per `Date`, the dates in the default `sort()` order
    and each day's mean rounded to cents. */
module Part1Chart {
  import opened Wrappers
  import opened Seqs
  import opened Cells
  import opened Text
  import opened Grouping
  import opened Entries
  import DailyTimeChart

  /** `parseFloat(row.Fan_Level_Index1)`, `None` for NaN. */
  function Reading(row: Row): Option<real> {
    ParseFloat(Get(row, "Fan_Level_Index1"))
  }

  /** `!isNaN(index)`. */
  predicate HasIndex(row: Row) {
    Reading(row).Some?
  }

  /** The rows whose index is pushed. */
  function Readings(data: seq<Row>): seq<Row> {
    Filter(data, HasIndex)
  }

  function DateKeys(rows: seq<Row>): seq<string> {
    DailyTimeChart.DateKeys(rows)
  }

  /** The index each kept row pushes. */
  function Indices(rows: seq<Row>): (vs: seq<real>)
    ensures |vs| == |rows|
    ensures forall i :: 0 <= i < |rows| ==> vs[i] == Reading(rows[i]).GetOr(0.0)
  {
    seq(|rows|, i requires 0 <= i < |rows| => Reading(rows[i]).GetOr(0.0))
  }

  /** `dates` and `averages`: the distinct dates of the rows with a
      readable index, sorted as text, each once, ascending; beside each
      date the mean of its indices rounded to cents. */
  method ChartData(data: seq<Row>) returns (dates: seq<string>, averages: seq<real>)
    ensures dates == SortStrings(Dedup(DateKeys(Readings(data))))
    ensures forall i, j :: 0 <= i < j < |dates| ==> StrCompare(dates[i], dates[j]) < 0
    ensures forall d :: d in dates <==> DailyTimeChart.Carries(data, HasIndex, d)
    ensures |averages| == |dates|
    ensures forall i :: 0 <= i < |dates| ==>
      dates[i] in DateKeys(Readings(data)) &&
      averages[i] == Fixed2(GroupMean(DateKeys(Readings(data)), Indices(Readings(data)), dates[i]))
  {
    var rows := Readings(data);
    var ks, vs := DateKeys(rows), Indices(rows);
    var order, grouped := GroupCollect(ks, vs);
    dates := SortStrings(order);
    DailyTimeChart.SortedDates(ks, dates);
    DailyTimeChart.DatesOfRows(data, HasIndex, dates);
    averages := Averages(dates, ks, vs, grouped);
  }

  /** `dates.map(...)`: the mean of each date's indices, to cents. */
  method Averages(dates: seq<string>, ks: seq<string>, vs: seq<real>, grouped: map<string, seq<real>>) returns (averages: seq<real>)
    requires |ks| == |vs|
    requires forall k :: k in grouped <==> k in ks
    requires forall k :: k in grouped ==> grouped[k] == Select(ks, vs, k) && |grouped[k]| >= 1
    requires forall i :: 0 <= i < |dates| ==> dates[i] in ks
    ensures |averages| == |dates|
    ensures forall i :: 0 <= i < |dates| ==> averages[i] == Fixed2(GroupMean(ks, vs, dates[i]))
  {
    averages := [];
    for i := 0 to |dates|
      invariant |averages| == i
      invariant forall p :: 0 <= p < i ==> averages[p] == Fixed2(GroupMean(ks, vs, dates[p]))
    {
      var group := grouped[dates[i]];
      averages := averages + [Fixed2(Sum(group) / |group| as real)];
    }
  }

  /** When every readable index lies in a range, every plotted average
      lies in it too, give or take the half cent of rounding. */
  lemma AveragesWithin(data: seq<Row>, dates: seq<string>, averages: seq<real>, lo: real, hi: real)
    requires forall i :: 0 <= i < |data| && HasIndex(data[i]) ==> lo <= Reading(data[i]).value <= hi
    requires |averages| == |dates|
    requires forall i :: 0 <= i < |dates| ==>
      dates[i] in DateKeys(Readings(data)) &&
      averages[i] == Fixed2(GroupMean(DateKeys(Readings(data)), Indices(Readings(data)), dates[i]))
    ensures forall i :: 0 <= i < |averages| ==> lo - 0.005 <= averages[i] <= hi + 0.005
  {
    var rows := Readings(data);
    var ks, vs := DateKeys(rows), Indices(rows);
    forall p | 0 <= p < |vs|
      ensures lo <= vs[p] <= hi
    {
      assert rows[p] in data && HasIndex(rows[p]);
    }
    forall i | 0 <= i < |dates|
      ensures lo - 0.005 <= averages[i] <= hi + 0.005
    {
      GroupMeanWithin(ks, vs, dates[i], lo, hi);
    }
  }

  /** A row whose index does not read as a number changes nothing. */
  lemma UnreadableRowIgnored(data: seq<Row>, row: Row)
    requires !HasIndex(row)
    ensures Readings(data + [row]) == Readings(data)
  {
    FilterAppend(data, row, HasIndex);
  }
}
