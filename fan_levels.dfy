/** What the two fan-level bar charts share: the key of a row
    (`item.Fan_Level || 'Unknown'`), the order of the bars (by the number
    after `'Level '` when both levels have one, by text otherwise), and
    `toFixed(1)` for the tooltips. */
module FanLevels {
  import opened Wrappers
  import opened Seqs
  import opened Cells
  import opened Text

  const Prefix: string := "Level "

  /** `item.Fan_Level || 'Unknown'`, as the object key. */
  function LevelKey(row: Row): string {
    KeyOr(Get(row, "Fan_Level"), "Unknown")
  }

  function LevelKeys(data: seq<Row>): (ks: seq<string>)
    ensures |ks| == |data|
    ensures forall i :: 0 <= i < |data| ==> ks[i] == LevelKey(data[i])
  {
    seq(|data|, i requires 0 <= i < |data| => LevelKey(data[i]))
  }

  /** `parseInt(level.replace('Level ', ''), 10)`; `None` is NaN. */
  function LevelNumber(level: string): Option<int> {
    ParseIntText(RemoveFirst(level, Prefix))
  }

  /** The comparator of both charts. */
  function CompareLevels(a: string, b: string): int {
    var x, y := LevelNumber(a), LevelNumber(b);
    if x.Some? && y.Some? then x.value - y.value else StrCompare(a, b)
  }

  /** The comparator is antisymmetric on every pair of levels, so the sort
      leaves neighbours in its order. */
  lemma CompareLevelsAntisymmetric()
    ensures forall a, b :: CompareLevels(a, b) == -CompareLevels(b, a)
  {
    forall a, b
      ensures CompareLevels(a, b) == -CompareLevels(b, a)
    {
      StrCompareAntisymmetric(a, b);
    }
  }

  /** `Level n` sorts by `n`. */
  lemma LevelNumberReads(n: nat)
    ensures LevelNumber(Prefix + NatText(n)) == Some(n)
  {
    var s := Prefix + NatText(n);
    assert s[..|Prefix|] == Prefix;
    assert s[|Prefix|..] == NatText(n);
    NatTextParses(n);
  }

  /** When every level in a neighbour-sorted list carries a number, the
      numbers ascend throughout the list. */
  lemma NumberedLevelsAscend(levels: seq<string>)
    requires forall i :: 0 < i < |levels| ==> CompareLevels(levels[i - 1], levels[i]) <= 0
    requires forall i :: 0 <= i < |levels| ==> LevelNumber(levels[i]).Some?
    ensures forall i, j :: 0 <= i <= j < |levels| ==> LevelNumber(levels[i]).value <= LevelNumber(levels[j]).value
  {
    SortedByKey(levels, LevelValue);
  }

  function LevelValue(level: string): int {
    var n := LevelNumber(level);
    if n.Some? then n.value else 0
  }

  /** When no level carries a number, the bars are in text order
      throughout. */
  lemma UnnumberedLevelsInTextOrder(levels: seq<string>)
    requires forall i :: 0 < i < |levels| ==> CompareLevels(levels[i - 1], levels[i]) <= 0
    requires forall i :: 0 <= i < |levels| ==> LevelNumber(levels[i]).None?
    ensures forall i, j :: 0 <= i <= j < |levels| ==> StrCompare(levels[i], levels[j]) <= 0
  {
    if levels != [] {
      var init := levels[..|levels| - 1];
      UnnumberedLevelsInTextOrder(init);
      forall i, j | 0 <= i <= j < |levels|
        ensures StrCompare(levels[i], levels[j]) <= 0
      {
        if i == j {
          StrCompareZero(levels[i], levels[j]);
        } else if j == |levels| - 1 {
          assert StrCompare(init[i], init[j - 1]) <= 0;
          StrCompareAtMostTransitive(levels[i], levels[j - 1], levels[j]);
        } else {
          assert StrCompare(init[i], init[j]) <= 0;
        }
      }
    }
  }

  // ---------------------------------------------------------------------
  // one decimal

  /** `x.toFixed(1)` for a number that is not negative: the number of
      tenths rounded, halves up, written with one fraction digit. */
  function Fixed1(x: real): (s: string)
    requires x >= 0.0
  {
    TenthsText(Round(x * 10.0))
  }

  /** A count of tenths written as a decimal with one fraction digit. */
  function TenthsText(t: nat): string {
    NatText(t / 10) + "." + [DigitChar(t % 10)]
  }

  /** The text holds the tenths: whole digits, a point, one digit, and the
      digits read back as the count of tenths. */
  lemma TenthsTextReads(t: nat)
    ensures var s := TenthsText(t);
      |s| >= 3 && s[|s| - 2] == '.' && AllDigits(s[..|s| - 2]) && IsDigit(s[|s| - 1]) &&
      DigitsValue(s[..|s| - 2]) * 10 + DigitValue(s[|s| - 1]) == t
  {
    var s := TenthsText(t);
    assert s[..|s| - 2] == NatText(t / 10);
    NatTextValue(t / 10);
  }

  /** The number written differs from `x` by at most half a tenth. */
  lemma Fixed1Close(x: real)
    requires x >= 0.0
    ensures Round(x * 10.0) >= 0
    ensures var t := Round(x * 10.0); x - 0.05 < t as real / 10.0 <= x + 0.05
  {
  }
}
