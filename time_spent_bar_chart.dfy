/** The contest page's time-spent bars: per contest, the sum of the rows'
    hours, each rounded to a whole number first.  A row whose hours do not
    read as a number makes its contest's running total NaN, and since
    `NaN || 0` is 0 the next row of that contest starts the total afresh. */
module TimeSpentBarChart {
  import opened Wrappers
  import opened Seqs
  import opened Cells
  import opened Grouping

  const ContestId: string := "Contest_ID"
  const TimeSpentHours: string := "Time_Spent_Hours"

  /** `if (!row.Contest_ID) return;`. */
  predicate HasContest(row: Row) {
    Truthy(Get(row, ContestId))
  }

  /** `Math.round(parseFloat(row.Time_Spent_Hours || 0))`; `None` is NaN. */
  function RoundedHours(row: Row): Option<int> {
    RoundNaN(FloatOfFalsyZero(Get(row, TimeSpentHours)))
  }

  /** `(total || 0) + hours`: a NaN or absent total counts as 0. */
  function Step(total: Option<int>, hours: Option<int>): Option<int> {
    var base := if total.Some? then total.value else 0;
    if hours.Some? then Some(base + hours.value) else None
  }

  /** The total a contest ends with after the rounded hours `hs` of its
      rows, in order. */
  function Running(hs: seq<Option<int>>): Option<int> {
    if hs == [] then Some(0) else Step(Running(hs[..|hs| - 1]), hs[|hs| - 1])
  }

  /** The same total after the first `n` rows, for the rows of contest `k`. */
  function RunningUpTo(ks: seq<string>, hs: seq<Option<int>>, n: nat, k: string): Option<int>
    requires n <= |ks| == |hs|
  {
    if n == 0 then Some(0)
    else if ks[n - 1] == k then Step(RunningUpTo(ks, hs, n - 1, k), hs[n - 1])
    else RunningUpTo(ks, hs, n - 1, k)
  }

  lemma {:induction false} RunningUpToIsRunning(ks: seq<string>, hs: seq<Option<int>>, n: nat, k: string)
    requires n <= |ks| == |hs|
    ensures RunningUpTo(ks, hs, n, k) == Running(SelectUpTo(ks, hs, n, k))
  {
    if n > 0 {
      RunningUpToIsRunning(ks, hs, n - 1, k);
      var s := SelectUpTo(ks, hs, n - 1, k);
      if ks[n - 1] == k {
        assert (s + [hs[n - 1]])[..|s|] == s;
      } else {
        assert s + [] == s;
      }
    }
  }

  /** The rows with a contest. */
  function Counted(data: seq<Row>): seq<Row> {
    Filter(data, HasContest)
  }

  /** The key of each counted row: `String(row.Contest_ID)`. */
  function ContestKeys(data: seq<Row>): (ks: seq<string>)
    ensures |ks| == |Counted(data)|
  {
    var c := Counted(data);
    seq(|c|, i requires 0 <= i < |c| => KeyText(Get(c[i], ContestId)))
  }

  function ContestHours(data: seq<Row>): (hs: seq<Option<int>>)
    ensures |hs| == |Counted(data)|
  {
    var c := Counted(data);
    seq(|c|, i requires 0 <= i < |c| => RoundedHours(c[i]))
  }

  /** The `forEach` over the counted rows: contest keys `ks`, rounded
      hours `hs`. */
  method RunningTotals(ks: seq<string>, hs: seq<Option<int>>) returns (order: seq<string>, result: map<string, Option<int>>)
    requires |ks| == |hs|
    ensures order == Dedup(ks)
    ensures forall k :: k in result <==> k in ks
    ensures forall k :: k in result ==> result[k] == Running(Select(ks, hs, k))
  {
    order, result := [], map[];
    for i := 0 to |ks|
      invariant order == FirstSeen(ks, i)
      invariant forall k :: k in result <==> k in order
      invariant forall k :: k !in result ==> CountUpTo(ks, i, k) == 0 && RunningUpTo(ks, hs, i, k) == Some(0)
      invariant forall k :: k in result ==> result[k] == RunningUpTo(ks, hs, i, k)
    {
      var k := ks[i];
      var total := if k in result then result[k] else Some(0);
      if k !in result {
        order := order + [k];
      }
      result := result[k := Step(total, hs[i])];
    }
    FirstSeenIsDedup(ks, |ks|);
    assert ks[..|ks|] == ks;
    forall k
      ensures k in result <==> k in ks
      ensures k in result ==> result[k] == Running(Select(ks, hs, k))
    {
      FirstSeenMembers(ks, |ks|);
      CountPositive(ks, |ks|, k);
      RunningUpToIsRunning(ks, hs, |ks|, k);
    }
  }

  /** The `result` object: one bar per distinct truthy contest, in the
      order the contests first occur, each holding its running total. */
  method TimeSpentByContest(data: seq<Row>) returns (order: seq<string>, result: map<string, Option<int>>)
    ensures order == Dedup(ContestKeys(data))
    ensures forall k :: k in result <==> k in ContestKeys(data)
    ensures forall k :: k in result ==> result[k] == Running(Select(ContestKeys(data), ContestHours(data), k))
  {
    order, result := RunningTotals(ContestKeys(data), ContestHours(data));
  }

  function Value(h: Option<int>): int {
    if h.Some? then h.value else 0
  }

  /** Without unreadable hours, a contest's total is the sum of its rows'
      rounded hours. */
  lemma {:induction false} RunningSums(hs: seq<Option<int>>)
    requires forall i :: 0 <= i < |hs| ==> hs[i].Some?
    ensures Running(hs) == Some(SumOf(hs, Value))
  {
    if hs != [] {
      RunningSums(hs[..|hs| - 1]);
    }
  }

  /** An unreadable row makes the total NaN, and the rows after it start
      over: the total is theirs alone. */
  lemma {:induction false} RunningRestarts(hs: seq<Option<int>>, rest: seq<Option<int>>)
    ensures Running(hs + [None]) == None
    ensures rest != [] ==> Running(hs + [None] + rest) == Running([Some(0)] + rest)
  {
    assert (hs + [None])[..|hs|] == hs;
    if rest != [] {
      var init := rest[..|rest| - 1];
      RunningRestarts(hs, init);
      assert (hs + [None] + rest)[..|hs| + 1 + |init|] == hs + [None] + init;
      assert ([Some(0)] + rest)[..1 + |init|] == [Some(0)] + init;
      if init == [] {
        assert hs + [None] + init == hs + [None];
        assert [Some(0)] + init == [Some(0)];
        assert [Some(0)][..0] == [];
        assert Running([Some(0)]) == Some(0);
      }
    }
  }
}
