/** The engagement chart: its own five-field filter map, and the average
    time spent per age over the rows that map keeps. */
module EngagementChart {
  import opened Wrappers
  import opened Seqs
  import opened Cells
  import opened Filtering
  import opened Grouping
  import opened Entries

  /** The filter map before any selection: five fields, all `''`. */
  const InitialFilters: Filters :=
    map["City" := "", "Gender" := "", "Sport" := "", "Engagement" := "", "Logs" := ""]

  /** Before any selection the chart averages every timed row: its age
      groups are those of all the loaded rows. */
  lemma InitialChartCoversAll(rows: seq<Row>)
    ensures TimedRows(FilterRows(rows, InitialFilters)) == TimedRows(rows)
    ensures Dedup(AgeKeys(FilterRows(rows, InitialFilters))) == Dedup(AgeKeys(rows))
  {
    FilterRowsIdentity(rows, InitialFilters);
  }

  /** `!isNaN(row.Age) && !isNaN(parseInt(row.TimeSpent))`: `isNaN`
      coerces with `Number`, so an empty Age passes as 0 and a missing one
      does not. */
  predicate Timed(row: Row) {
    ToNumber(Get(row, "Age")).Some? && ParseInt(Get(row, "TimeSpent")).Some?
  }

  /** The rows that reach an age group. */
  function TimedRows(rows: seq<Row>): (r: seq<Row>)
    ensures forall row :: row in r <==> row in rows && Timed(row)
    ensures forall i :: 0 <= i < |r| ==> Timed(r[i])
  {
    Filter(rows, Timed)
  }

  /** The age group each timed row joins: the text of its Age cell. */
  function AgeKeys(rows: seq<Row>): (ks: seq<string>)
    ensures |ks| == |TimedRows(rows)|
  {
    var t := TimedRows(rows);
    seq(|t|, i requires 0 <= i < |t| => KeyText(Get(t[i], "Age")))
  }

  /** The time each timed row contributes: `parseInt(row.TimeSpent)`. */
  function TimeValues(rows: seq<Row>): (vs: seq<real>)
    ensures |vs| == |TimedRows(rows)|
  {
    var t := TimedRows(rows);
    seq(|t|, i requires 0 <= i < |t| => ParseInt(Get(t[i], "TimeSpent")).value as real)
  }

  /** The chart's labels and values: one label per age in the order the
      ages first occur, and for each the mean of its group's times rounded
      to cents (`toFixed(2)`); no group is empty, so every mean is
      defined. */
  method AgeAverages(filtered: seq<Row>) returns (labels: seq<string>, data: seq<real>)
    ensures labels == Dedup(AgeKeys(filtered))
    ensures |data| == |labels|
    ensures forall j :: 0 <= j < |labels| ==>
      |Select(AgeKeys(filtered), TimeValues(filtered), labels[j])| >= 1 &&
      data[j] == Fixed2(Mean(Select(AgeKeys(filtered), TimeValues(filtered), labels[j])))
  {
    var keys, times := AgeKeys(filtered), TimeValues(filtered);
    var ageGroups;
    labels, ageGroups := GroupCollect(keys, times);
    data := [];
    for j := 0 to |labels|
      invariant |data| == j
      invariant forall t :: 0 <= t < j ==>
        |Select(keys, times, labels[t])| >= 1 && data[t] == Fixed2(Mean(Select(keys, times, labels[t])))
    {
      assert labels[j] in keys;
      data := data + [Fixed2(Mean(ageGroups[labels[j]]))];
    }
  }

  /** Every timed row lands in exactly one age group: the group sizes add
      up to the number of timed rows. */
  lemma AgeGroupsPartition(rows: seq<Row>)
    ensures GroupedCount(Dedup(AgeKeys(rows)), AgeKeys(rows), |AgeKeys(rows)|) == |TimedRows(rows)|
  {
    CountConservation(AgeKeys(rows));
  }
}
