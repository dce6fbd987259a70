/** The drill-down navigator of the micro-marketing page.  The rows are
    counted ("Count of UID"), split by Gender, then Sport, City, Engagement
    and Logs; clicking a child descends one level, "back" climbs one and
    "reset" returns to the top.  Every state is re-derived from the rows
    and the path of labels clicked so far. */
module HierarchicalFlowchart {
  import opened Seqs
  import opened Cells
  import opened Text
  import opened Grouping

  /** The fields of hierarchy levels 1..5; level 0 is the root. */
  const Fields: seq<string> := ["Gender", "Sport", "City", "Engagement", "Logs"]

  /** `hierarchyLevels.length - 1`. */
  const LastLevel: nat := 5

  const RootName: string := "Count of UID"

  datatype Node = Node(name: string, value: nat, level: nat)

  // ---------------------------------------------------------------------
  // the path filter

  /** The key a row is grouped under when the children of level `level`
      are built: `String(item[field] || 'Unknown')`. */
  function Label(row: Row, level: nat): string
    requires level < LastLevel
  {
    KeyOr(Get(row, Fields[level]), "Unknown")
  }

  /** The labels of the rows at one level, in row order. */
  function LabelsAt(rows: seq<Row>, level: nat): (ls: seq<string>)
    requires level < LastLevel
    ensures |ls| == |rows|
    ensures forall i :: 0 <= i < |rows| ==> ls[i] == Label(rows[i], level)
  {
    seq(|rows|, i requires 0 <= i < |rows| => Label(rows[i], level))
  }

  /** One step of the path filter: the rows whose label at `level` is
      `name`. */
  function OnPath(rows: seq<Row>, level: nat, name: string): seq<Row>
    requires level < LastLevel
  {
    Filter(rows, row => Label(row, level) == name)
  }

  /** The rows under the node reached by `path`, filtered one level at a
      time.  A row is compared by the label it was grouped under, so the
      node reached by clicking a child holds exactly that child's rows. */
  function PathRows(rows: seq<Row>, path: seq<string>): seq<Row>
    requires |path| <= LastLevel
  {
    if path == [] then rows
    else OnPath(PathRows(rows, path[..|path| - 1]), |path| - 1, path[|path| - 1])
  }

  /** Filtering down one more level of a path. */
  lemma PathRowsStep(rows: seq<Row>, path: seq<string>, i: nat)
    requires i < |path| <= LastLevel
    ensures PathRows(rows, path[..i + 1]) == OnPath(PathRows(rows, path[..i]), i, path[i])
  {
    assert path[..i + 1][..i] == path[..i];
  }

  /** A row lies under `path` when its label at every level of the path is
      that level's entry. */
  predicate Reaches(row: Row, path: seq<string>)
    requires |path| <= LastLevel
  {
    forall i :: 0 <= i < |path| ==> Label(row, i) == path[i]
  }

  /** The level-by-level filter keeps exactly the rows that reach the
      path, in their original order. */
  lemma {:induction false} PathRowsReach(rows: seq<Row>, path: seq<string>)
    requires |path| <= LastLevel
    ensures PathRows(rows, path) == Filter(rows, row => Reaches(row, path))
  {
    if path == [] {
      FilterKeepsAll(rows, row => Reaches(row, path));
    } else {
      var init, lvl := path[..|path| - 1], |path| - 1;
      PathRowsReach(rows, init);
      forall row | row in rows
        ensures Reaches(row, path) <==> Reaches(row, init) && Label(row, lvl) == path[lvl]
      {
        ReachesExtend(row, path);
      }
      FilterFilter(rows, row => Reaches(row, init), row => Label(row, lvl) == path[lvl],
        row => Reaches(row, path));
    }
  }

  /** A row reaches a path when it reaches the path's parent and carries
      the path's last label. */
  lemma ReachesExtend(row: Row, path: seq<string>)
    requires 0 < |path| <= LastLevel
    ensures Reaches(row, path) <==>
      Reaches(row, path[..|path| - 1]) && Label(row, |path| - 1) == path[|path| - 1]
  {
    var init, lvl := path[..|path| - 1], |path| - 1;
    if Reaches(row, init) && Label(row, lvl) == path[lvl] {
      forall i | 0 <= i < |path|
        ensures Label(row, i) == path[i]
      {
        if i < lvl {
          assert Label(row, i) == init[i];
        }
      }
    }
    if Reaches(row, path) {
      forall i | 0 <= i < |init|
        ensures Label(row, i) == init[i]
      {
        assert Label(row, i) == path[i];
      }
    }
  }

  /** The as-written drill-down filter, `item[field] === path[i]` at every
      level: the stored cell is compared with the label, which is always a
      string. */
  function StrictPathRows(rows: seq<Row>, path: seq<string>): (r: seq<Row>)
    requires |path| <= LastLevel
    ensures forall i :: 0 <= i < |r| ==>
      forall j :: 0 <= j < |path| ==> Get(r[i], Fields[j]) == Str(path[j])
  {
    Filter(rows, row => StrictReaches(row, path))
  }

  /** The as-written test of one row: each path field holds the path's
      entry as a string. */
  predicate StrictReaches(row: Row, path: seq<string>)
    requires |path| <= LastLevel
  {
    forall j :: 0 <= j < |path| ==> Get(row, Fields[j]) == Str(path[j])
  }

  // ---------------------------------------------------------------------
  // nodes and children

  /** The node shown for `path`: named after the last label clicked (the
      root's fixed name at level 0), valued by the number of rows under it. */
  function NodeAt(rows: seq<Row>, path: seq<string>): (n: Node)
    requires |path| <= LastLevel
    ensures n.level == |path|
    ensures n.value == |PathRows(rows, path)|
    ensures n.name == if path == [] then RootName else path[|path| - 1]
  {
    Node(if path == [] then RootName else path[|path| - 1], |PathRows(rows, path)|, |path|)
  }

  /** One node per distinct label, in the order the labels were first met,
      valued by its group's size. */
  function Entries(labels: seq<string>, order: seq<string>, level: nat): (es: seq<Node>)
    ensures |es| == |order|
    ensures forall j :: 0 <= j < |order| ==>
      es[j] == Node(order[j], Occurrences(labels, order[j]), level)
  {
    seq(|order|, j requires 0 <= j < |order| => Node(order[j], Occurrences(labels, order[j]), level))
  }

  /** `(a, b) => b.value - a.value`. */
  function ByValueDesc(a: Node, b: Node): int {
    b.value - a.value
  }

  function NegValue(n: Node): int {
    -(n.value as int)
  }

  function NodeValue(n: Node): int {
    n.value
  }

  /** The children of a node at `level` over its rows: the groups of the
      next field, sorted by descending size. */
  function Children(rows: seq<Row>, level: nat): seq<Node>
    requires level < LastLevel
  {
    var labels := LabelsAt(rows, level);
    SortWith(Entries(labels, Dedup(labels), level + 1), ByValueDesc)
  }

  /** The children shown for `path`: none at the last level. */
  function ChildrenAt(rows: seq<Row>, path: seq<string>): (cs: seq<Node>)
    requires |path| <= LastLevel
    ensures |path| == LastLevel ==> cs == []
    ensures |path| < LastLevel ==> cs == Children(PathRows(rows, path), |path|)
  {
    if |path| < LastLevel then Children(PathRows(rows, path), |path|) else []
  }

  /** Each child is the group of one label actually present, valued by
      its number of rows, which is at least one. */
  lemma ChildrenAreGroups(rows: seq<Row>, level: nat)
    requires level < LastLevel
    ensures forall c :: c in Children(rows, level) ==>
      c.level == level + 1 && c.name in LabelsAt(rows, level) &&
      c.value == Occurrences(LabelsAt(rows, level), c.name) >= 1
  {
    var labels := LabelsAt(rows, level);
    var es := Entries(labels, Dedup(labels), level + 1);
    var cs := Children(rows, level);
    forall c | c in cs
      ensures c.level == level + 1 && c.name in labels && c.value == Occurrences(labels, c.name) >= 1
    {
      assert c in multiset(es);
      CountPositive(labels, |labels|, c.name);
      assert labels[..|labels|] == labels;
    }
  }

  /** Every label present among the rows has its child. */
  lemma ChildrenCoverLabels(rows: seq<Row>, level: nat)
    requires level < LastLevel
    ensures forall i :: 0 <= i < |rows| ==>
      exists c :: c in Children(rows, level) && c.name == Label(rows[i], level)
  {
    var labels := LabelsAt(rows, level);
    var order := Dedup(labels);
    var es := Entries(labels, order, level + 1);
    var cs := Children(rows, level);
    forall i | 0 <= i < |rows|
      ensures exists c :: c in cs && c.name == Label(rows[i], level)
    {
      assert labels[i] in order;
      var j :| 0 <= j < |order| && order[j] == labels[i];
      assert es[j] in multiset(cs);
    }
  }

  /** No two children share a name. */
  lemma ChildrenDistinct(rows: seq<Row>, level: nat)
    requires level < LastLevel
    ensures forall i, j :: 0 <= i < j < |Children(rows, level)| ==>
      Children(rows, level)[i].name != Children(rows, level)[j].name
  {
    var labels := LabelsAt(rows, level);
    var order := Dedup(labels);
    var es := Entries(labels, order, level + 1);
    var cs := Children(rows, level);
    assert NoDups(es) by {
      forall i, j | 0 <= i < j < |es|
        ensures es[i] != es[j]
      {
        assert order[i] != order[j];
      }
    }
    PermutationNoDups(es, cs);
    forall i, j | 0 <= i < j < |cs|
      ensures cs[i].name != cs[j].name
    {
      assert cs[i] in multiset(es) && cs[j] in multiset(es);
      var a :| 0 <= a < |es| && es[a] == cs[i];
      var b :| 0 <= b < |es| && es[b] == cs[j];
    }
  }

  /** The children partition the node's rows: their values add up to the
      number of rows. */
  lemma ChildrenPartition(rows: seq<Row>, level: nat)
    requires level < LastLevel
    ensures SumOf(Children(rows, level), NodeValue) == |rows|
  {
    var labels := LabelsAt(rows, level);
    var order := Dedup(labels);
    var es := Entries(labels, order, level + 1);
    EntriesCount(order, labels, es, NodeValue);
    CountConservation(labels);
    SumOfPermutation(es, Children(rows, level), NodeValue);
  }

  /** The children are in descending order of value. */
  lemma ChildrenDescending(rows: seq<Row>, level: nat)
    requires level < LastLevel
    ensures forall i, j :: 0 <= i <= j < |Children(rows, level)| ==>
      Children(rows, level)[i].value >= Children(rows, level)[j].value
  {
    var labels := LabelsAt(rows, level);
    var es := Entries(labels, Dedup(labels), level + 1);
    SortWithSorted(es, ByValueDesc);
    var cs := Children(rows, level);
    SortedByKey(cs, NegValue);
  }

  /** Filtering the rows on one label keeps as many rows as that label's
      group holds. */
  lemma {:induction false} OnPathCount(rows: seq<Row>, level: nat, name: string, n: nat)
    requires level < LastLevel && n <= |rows|
    ensures |OnPath(rows[..n], level, name)| == CountUpTo(LabelsAt(rows, level), n, name)
  {
    if n > 0 {
      assert rows[..n] == rows[..n - 1] + [rows[n - 1]];
      OnPathCount(rows, level, name, n - 1);
      OnPathAppend(rows[..n - 1], rows[n - 1], level, name);
      assert LabelsAt(rows, level)[n - 1] == Label(rows[n - 1], level);
    }
  }

  lemma OnPathAppend(rows: seq<Row>, row: Row, level: nat, name: string)
    requires level < LastLevel
    ensures |OnPath(rows + [row], level, name)| ==
      |OnPath(rows, level, name)| + (if Label(row, level) == name then 1 else 0)
  {
    FilterAppend(rows, row, row => Label(row, level) == name);
  }

  /** Clicking a child reaches a node holding exactly the child's rows:
      its value is the child's value. */
  lemma DrillValueMatchesChild(rows: seq<Row>, path: seq<string>, child: Node)
    requires |path| < LastLevel
    requires child in ChildrenAt(rows, path)
    ensures NodeAt(rows, path + [child.name]) == Node(child.name, child.value, child.level)
  {
    var here := PathRows(rows, path);
    ChildrenAreGroups(here, |path|);
    var p := path + [child.name];
    assert p[..|p| - 1] == path;
    OnPathCount(here, |path|, child.name, |here|);
    assert here[..|here|] == here;
  }

  /** With the as-written strict filter, the drilled node and the clicked
      child disagree: a row without a Gender is shown under an 'Unknown'
      child of value 1, but no row's Gender equals the string 'Unknown'. */
  lemma StrictDrillLosesUnknown()
    ensures var rows := [map["Sport" := Str("Cricket")]];
      Node("Unknown", 1, 1) in ChildrenAt(rows, []) &&
      |StrictPathRows(rows, ["Unknown"])| == 0
  {
    var rows: seq<Row> := [map["Sport" := Str("Cricket")]];
    var labels := LabelsAt(rows, 0);
    assert labels == ["Unknown"];
    assert Dedup(labels) == ["Unknown"];
    assert Occurrences(labels, "Unknown") == 1;
    assert Entries(labels, ["Unknown"], 1) == [Node("Unknown", 1, 1)];
    assert rows[..0] == [];
    assert !StrictReaches(rows[0], ["Unknown"]);
  }

  /** The same for a numerically typed cell: a Gender read as the number 1
      is shown under the child '1', which no cell strictly equals. */
  lemma StrictDrillLosesNumbers()
    ensures var rows := [map["Gender" := Num(1.0)]];
      Node("1", 1, 1) in ChildrenAt(rows, []) &&
      |StrictPathRows(rows, ["1"])| == 0
  {
    var rows: seq<Row> := [map["Gender" := Num(1.0)]];
    assert NumText(1.0) == "1" by {
      assert (1.0).Floor == 1;
    }
    var labels := LabelsAt(rows, 0);
    assert labels == ["1"];
    assert Dedup(labels) == ["1"];
    assert Occurrences(labels, "1") == 1;
    assert Entries(labels, ["1"], 1) == [Node("1", 1, 1)];
    assert rows[..0] == [];
  }

  /** Where every cell on the path's fields is a string and no entry of
      the path is 'Unknown', the strict filter and the label filter agree. */
  lemma StrictAgreesOnStrings(rows: seq<Row>, path: seq<string>)
    requires |path| <= LastLevel
    requires "Unknown" !in path && "" !in path
    requires forall row, j :: row in rows && 0 <= j < |path| ==> Get(row, Fields[j]).Str?
    ensures StrictPathRows(rows, path) == PathRows(rows, path)
  {
    PathRowsReach(rows, path);
    forall row | row in rows
      ensures StrictReaches(row, path) <==> Reaches(row, path)
    {
      if Reaches(row, path) {
        forall j | 0 <= j < |path|
          ensures Get(row, Fields[j]) == Str(path[j])
        {
          assert Label(row, j) == path[j];
          assert path[j] in path;
        }
      }
      if StrictReaches(row, path) {
        forall j | 0 <= j < |path|
          ensures Label(row, j) == path[j]
        {
          assert path[j] in path;
        }
      }
    }
    FilterExtensional(rows, row => StrictReaches(row, path), row => Reaches(row, path));
  }

  /** A label is never the empty text: a falsy cell is grouped under
      'Unknown', and the text of a truthy cell is not empty. */
  lemma LabelNonEmpty(row: Row, level: nat)
    requires level < LastLevel
    ensures Label(row, level) != ""
  {
    var c := Get(row, Fields[level]);
    if c.Num? && Truthy(c) {
      var x := if c.n < 0.0 then -c.n else c.n;
      assert |NatText(x.Floor)| >= 1;
    }
  }

  /** A row the strict filter keeps carries the path's labels, as long as
      no entry of the path is empty (no label is, by `LabelNonEmpty`). */
  lemma StrictRowReaches(row: Row, path: seq<string>)
    requires |path| <= LastLevel && "" !in path
    requires StrictReaches(row, path)
    ensures Reaches(row, path)
  {
    forall j | 0 <= j < |path|
      ensures Label(row, j) == path[j]
    {
      assert path[j] in path;
    }
  }

  /** The as-written filter keeps a subsequence of the rows the labels
      lead to, so the value the program shows never exceeds the value the
      labels give. */
  lemma StrictWithinPathRows(rows: seq<Row>, path: seq<string>)
    requires |path| <= LastLevel && "" !in path
    ensures IsSubsequence(StrictPathRows(rows, path), PathRows(rows, path))
    ensures |StrictPathRows(rows, path)| <= |PathRows(rows, path)|
  {
    PathRowsReach(rows, path);
    forall row | row in rows && StrictReaches(row, path)
      ensures Reaches(row, path)
    {
      StrictRowReaches(row, path);
    }
    FilterMonotone(rows, row => StrictReaches(row, path), row => Reaches(row, path));
  }

  /** One more level of the as-written filter filters the rows of the
      path so far by the next field's cell. */
  lemma StrictPathRowsStep(rows: seq<Row>, path: seq<string>, name: string)
    requires |path| < LastLevel
    ensures StrictPathRows(rows, path + [name]) ==
      Filter(StrictPathRows(rows, path), row => Get(row, Fields[|path|]) == Str(name))
  {
    var p := path + [name];
    forall row | row in rows
      ensures StrictReaches(row, p) <==> StrictReaches(row, path) && Get(row, Fields[|path|]) == Str(name)
    {
      if StrictReaches(row, path) && Get(row, Fields[|path|]) == Str(name) {
        forall j | 0 <= j < |p|
          ensures Get(row, Fields[j]) == Str(p[j])
        {
          if j < |path| {
            assert p[j] == path[j];
          }
        }
      }
      if StrictReaches(row, p) {
        forall j | 0 <= j < |path|
          ensures Get(row, Fields[j]) == Str(path[j])
        {
          assert p[j] == path[j];
        }
        assert p[|path|] == name;
      }
    }
    FilterFilter(rows, row => StrictReaches(row, path), row => Get(row, Fields[|path|]) == Str(name),
      row => StrictReaches(row, p));
  }

  /** The program as written: its children are grouped from the strictly
      filtered rows, and clicking one of them shows a node whose value
      is at most that child's value.  The value is lower exactly when
      some of the child's rows hold a number or a falsy cell. */
  lemma StrictDrillAtMostChild(rows: seq<Row>, path: seq<string>, child: Node)
    requires |path| < LastLevel
    requires child in Children(StrictPathRows(rows, path), |path|)
    ensures |StrictPathRows(rows, path + [child.name])| <= child.value
  {
    var here, lvl := StrictPathRows(rows, path), |path|;
    ChildrenAreGroups(here, lvl);
    var labels := LabelsAt(here, lvl);
    var i :| 0 <= i < |labels| && labels[i] == child.name;
    LabelNonEmpty(here[i], lvl);
    StrictPathRowsStep(rows, path, child.name);
    FilterMonotone(here, row => Get(row, Fields[lvl]) == Str(child.name), row => Label(row, lvl) == child.name);
    OnPathCount(here, lvl, child.name, |here|);
    assert here[..|here|] == here;
  }

  // ---------------------------------------------------------------------
  // formatting

  /** Comma grouping of a digit string, three digits per group from the
      right. */
  function Group3(s: string): (r: string)
    ensures |s| >= 1 ==> |r| == |s| + (|s| - 1) / 3
  {
    if |s| <= 3 then s else Group3(s[..|s| - 3]) + "," + s[|s| - 3..]
  }

  /** `num.toString()` with a comma before every group of three digits that
      ends the number. */
  function FormatNumber(n: nat): string {
    Group3(NatText(n))
  }

  function NotComma(c: char): bool {
    c != ','
  }

  /** Removing the commas from a grouped digit string gives the digits
      back. */
  lemma {:induction false} Group3Digits(s: string)
    requires AllDigits(s)
    ensures Filter(Group3(s), NotComma) == s
  {
    if |s| <= 3 {
      FilterKeepsAll(s, NotComma);
    } else {
      var head, tail := s[..|s| - 3], s[|s| - 3..];
      assert head + tail == s;
      Group3Digits(head);
      var g := Group3(head);
      assert Group3(s) == (g + [',']) + tail;
      FilterAppend(g, ',', NotComma);
      FilterKeepsAll(tail, NotComma);
      FilterConcat(g + [','], tail, NotComma);
    }
  }

  /** The comma layout of a grouped digit string: a comma exactly at the
      positions a multiple of four from the end, and none first. */
  predicate CommaLayout(r: string) {
    |r| % 4 != 0 &&
    forall p :: 0 <= p < |r| ==> (r[p] == ',' <==> (|r| - p) % 4 == 0)
  }

  lemma CommaLayoutStep(g: string, tail: string)
    requires CommaLayout(g) && AllDigits(tail) && |tail| == 3
    ensures CommaLayout(g + [','] + tail)
  {
    var r := g + [','] + tail;
    forall p | 0 <= p < |r|
      ensures r[p] == ',' <==> (|r| - p) % 4 == 0
    {
      if p < |g| {
        assert r[p] == g[p];
        assert |r| - p == (|g| - p) + 4;
      } else if p > |g| {
        assert r[p] == tail[p - |g| - 1];
        assert IsDigit(tail[p - |g| - 1]);
      }
    }
  }

  /** Every group has three digits except the first, which has one to
      three. */
  lemma {:induction false} Group3Commas(s: string)
    requires |s| >= 1 && AllDigits(s)
    ensures CommaLayout(Group3(s))
  {
    if |s| > 3 {
      var head, tail := s[..|s| - 3], s[|s| - 3..];
      Group3Commas(head);
      assert Group3(s) == Group3(head) + [','] + tail;
      CommaLayoutStep(Group3(head), tail);
    } else {
      assert forall p :: 0 <= p < |s| ==> IsDigit(s[p]);
    }
  }

  /** The formatted number, commas removed, is `num.toString()`. */
  lemma FormatNumberDigits(n: nat)
    ensures Filter(FormatNumber(n), NotComma) == NatText(n)
    ensures CommaLayout(FormatNumber(n))
  {
    Group3Digits(NatText(n));
    Group3Commas(NatText(n));
  }

  const SelectedColor: string := "bg-blue-600 hover:bg-blue-700"

  const Palette: seq<string> := [
    "bg-blue-500 hover:bg-blue-600",
    "bg-indigo-500 hover:bg-indigo-600",
    "bg-purple-500 hover:bg-purple-600",
    "bg-cyan-500 hover:bg-cyan-600",
    "bg-teal-500 hover:bg-teal-600",
    "bg-green-500 hover:bg-green-600"
  ]

  /** `char.charCodeAt(0)`. */
  function CharCode(c: char): int {
    c as int
  }

  /** The colour class of a node: the selected class, or the palette entry
      picked by the sum of the name's character codes. */
  function NodeColor(name: string, isSelected: bool): (r: string)
    ensures isSelected ==> r == SelectedColor
    ensures !isSelected ==> r in Palette
  {
    if isSelected then SelectedColor
    else
      var hash := SumOf(name, CharCode);
      Palette[hash % |Palette|]
  }

  /** The colour depends only on the name's characters, not their order. */
  lemma NodeColorPermutation(a: string, b: string)
    requires multiset(a) == multiset(b)
    ensures NodeColor(a, false) == NodeColor(b, false)
  {
    SumOfPermutation(a, b, CharCode);
  }

  // ---------------------------------------------------------------------
  // the navigator

  /** `Object.entries(grouped).map(([key, items]) => ({name: key, value:
      items.length, level}))`. */
  method EntriesOf(labels: seq<string>, order: seq<string>, grouped: map<string, seq<Row>>, level: nat)
    returns (entries: seq<Node>)
    requires forall k :: k in order ==> k in grouped && |grouped[k]| == Occurrences(labels, k)
    ensures entries == Entries(labels, order, level)
  {
    entries := [];
    for j := 0 to |order|
      invariant |entries| == j
      invariant forall t :: 0 <= t < j ==>
        entries[t] == Node(order[t], Occurrences(labels, order[t]), level)
    {
      entries := entries + [Node(order[j], |grouped[order[j]]|, level)];
    }
  }

  /** `_.groupBy(rows, item => item[field] || 'Unknown')`, one node per
      group with its size, sorted by descending size. */
  method GroupChildren(rows: seq<Row>, level: nat) returns (children: seq<Node>)
    requires level < LastLevel
    ensures children == Children(rows, level)
  {
    var labels := LabelsAt(rows, level);
    var order, grouped := GroupCollect(labels, rows);
    assert forall k :: k in order ==> k in labels;
    var entries := EntriesOf(labels, order, grouped, level + 1);
    children := SortWith(entries, ByValueDesc);
  }

  class Flowchart {
    const data: seq<Row>
    var currentLevel: nat
    var currentPath: seq<string>
    var currentNode: Node
    var childNodes: seq<Node>

    /** The level is the path's length, within the hierarchy, and the node
        and children shown are those the path determines. */
    ghost predicate Valid()
      reads this
    {
      currentLevel == |currentPath| <= LastLevel &&
      currentNode == NodeAt(data, currentPath) &&
      childNodes == ChildrenAt(data, currentPath)
    }

    /** The parsed rows arrive: the root is shown. */
    constructor (rows: seq<Row>)
      ensures Valid()
      ensures data == rows && currentLevel == 0 && currentPath == []
    {
      data := rows;
      currentLevel := 0;
      currentPath := [];
      new;
      ProcessHierarchyLevel(0, []);
    }

    /** `processHierarchyLevel(data, level, path)`: filter the rows down
        the path, then count them and group them by the next field. */
    method ProcessHierarchyLevel(level: nat, path: seq<string>)
      requires level == |path| <= LastLevel
      modifies this
      ensures currentNode == NodeAt(data, path)
      ensures childNodes == ChildrenAt(data, path)
      ensures currentLevel == old(currentLevel) && currentPath == old(currentPath)
    {
      var filteredData := data;
      for i := 0 to |path|
        invariant filteredData == PathRows(data, path[..i])
        invariant unchanged(this)
      {
        PathRowsStep(data, path, i);
        filteredData := OnPath(filteredData, i, path[i]);
      }
      assert path[..|path|] == path;
      assert filteredData == PathRows(data, path);
      var nodeName := RootName;
      if level > 0 {
        nodeName := path[|path| - 1];
      }
      currentNode := Node(nodeName, |filteredData|, level);
      if level < LastLevel {
        childNodes := GroupChildren(filteredData, level);
      } else {
        childNodes := [];
      }
    }

    /** Descend into `node` unless at the last level. */
    method NodeClick(node: Node)
      requires Valid()
      modifies this
      ensures Valid()
      ensures old(currentLevel) < LastLevel ==>
        currentPath == old(currentPath) + [node.name] && currentLevel == old(currentLevel) + 1
      ensures old(currentLevel) == LastLevel ==>
        currentPath == old(currentPath) && currentLevel == old(currentLevel) &&
        currentNode == old(currentNode) && childNodes == old(childNodes)
      ensures old(currentLevel) < LastLevel && node in old(childNodes) ==>
        currentNode.value == node.value
    {
      if currentLevel < LastLevel {
        var newPath := currentPath + [node.name];
        if node in childNodes {
          DrillValueMatchesChild(data, currentPath, node);
        }
        currentPath := newPath;
        currentLevel := currentLevel + 1;
        ProcessHierarchyLevel(currentLevel, newPath);
      }
    }

    /** Climb one level unless at the root. */
    method BackClick()
      requires Valid()
      modifies this
      ensures Valid()
      ensures old(currentLevel) > 0 ==>
        currentPath == old(currentPath)[..old(currentLevel) - 1] && currentLevel == old(currentLevel) - 1
      ensures old(currentLevel) == 0 ==>
        currentPath == old(currentPath) && currentLevel == 0 &&
        currentNode == old(currentNode) && childNodes == old(childNodes)
    {
      if currentLevel > 0 {
        var newPath := currentPath[..|currentPath| - 1];
        currentPath := newPath;
        currentLevel := currentLevel - 1;
        ProcessHierarchyLevel(currentLevel, newPath);
      }
    }

    /** Back to the root: the same state as right after loading. */
    method ResetClick()
      requires Valid()
      modifies this
      ensures Valid()
      ensures currentPath == [] && currentLevel == 0
      ensures currentNode == Node(RootName, |data|, 0)
    {
      currentPath := [];
      currentLevel := 0;
      ProcessHierarchyLevel(0, []);
    }
  }
}
