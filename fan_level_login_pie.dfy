/** Average weekly logins per fan level: `parseFloat(Week_Logins) || 0`
    summed and counted per level, each level's slice holding the average
    rounded to cents, the slices coloured round a six-colour palette. */
module FanLevelLoginPieChart {
  import opened Wrappers
  import opened Seqs
  import opened Cells
  import opened Grouping
  import opened Entries
  import opened FanLevels
  import PieCounts

  const Colors: seq<string> := ["#10b981", "#3b82f6", "#f59e0b", "#ec4899", "#8b5cf6", "#ef4444"]

  /** What each row adds: `parseFloat(item.Week_Logins) || 0`. */
  function Logins(data: seq<Row>): seq<real> {
    ColumnOrZero(data, "Week_Logins")
  }

  /** `{ name, value }`. */
  datatype Slice = Slice(name: string, value: real)

  /** `Object.values(groupedData).map(...)`. */
  method Averages(order: seq<string>, ks: seq<string>, vs: seq<real>, sums: map<string, real>, counts: map<string, nat>)
    returns (slices: seq<Slice>)
    requires |ks| == |vs|
    requires forall i :: 0 <= i < |order| ==> order[i] in ks
    requires forall k :: k in ks ==> k in sums && k in counts
    requires forall k :: k in sums ==> sums[k] == Sum(Select(ks, vs, k))
    requires forall k :: k in counts ==> counts[k] == Occurrences(ks, k)
    ensures |slices| == |order|
    ensures forall i :: 0 <= i < |order| ==> slices[i] == Slice(order[i], Fixed2(GroupMean(ks, vs, order[i])))
  {
    slices := [];
    for i := 0 to |order|
      invariant |slices| == i
      invariant forall p :: 0 <= p < i ==> slices[p] == Slice(order[p], Fixed2(GroupMean(ks, vs, order[p])))
    {
      var k := order[i];
      CountPositive(ks, |ks|, k);
      assert ks[..|ks|] == ks;
      assert |Select(ks, vs, k)| == counts[k] > 0;
      var value := if counts[k] > 0 then Fixed2(sums[k] / counts[k] as real) else 0.0;
      assert value == Fixed2(GroupMean(ks, vs, k));
      slices := slices + [Slice(k, value)];
    }
  }

  /** `chartData`: no rows give no slices; otherwise one slice per
      distinct level in the order the levels first occur, each holding the
      level's average rounded to cents. */
  method ChartData(data: seq<Row>) returns (chart: seq<Slice>)
    ensures data == [] ==> chart == []
    ensures data != [] ==> |chart| == |Dedup(LevelKeys(data))|
    ensures data != [] ==> forall i :: 0 <= i < |chart| ==>
      (chart[i].name == Dedup(LevelKeys(data))[i] &&
       chart[i].value == Fixed2(GroupMean(LevelKeys(data), Logins(data), chart[i].name)))
  {
    if |data| == 0 {
      return [];
    }
    var ks, vs := LevelKeys(data), Logins(data);
    var order, sums, counts := GroupSumCount(ks, vs);
    chart := Averages(order, ks, vs, sums, counts);
  }

  /** `COLORS[index % COLORS.length]` for each slice. */
  function SliceColors(n: nat): (r: seq<string>)
    ensures |r| == n
    ensures forall i :: 0 <= i < n ==> r[i] == Colors[i % 6]
  {
    PieCounts.Cycle(Colors, n)
  }

  /** Any six consecutive slices have six different colours. */
  lemma SliceColorsDiffer(n: nat)
    ensures forall i, j :: 0 <= i < j < n && j - i < 6 ==> SliceColors(n)[i] != SliceColors(n)[j]
  {
    PieCounts.CycleNeighbours(Colors, n);
  }
}
