/** The rows every component receives from the CSV parser, and the
    JavaScript coercions the components apply to their cells.

    A row maps column names to cells.  A cell is absent (`undefined`, or the
    `null` the parser gives an empty field under dynamic typing), a string,
    or, where the parser types numbers, a number.  `===` between cells is
    Dafny's `==` on `Cell`: a number never equals a string. */
module Cells {
  import opened Wrappers
  import opened Text
  import Seqs

  datatype Cell = Missing | Str(s: string) | Num(n: real)

  type Row = map<string, Cell>

  /** `row[key]`. */
  function Get(row: Row, key: string): Cell {
    if key in row then row[key] else Missing
  }

  /** JavaScript truthiness: `undefined`, `null`, `''` and `0` are falsy. */
  predicate Truthy(c: Cell) {
    match c
    case Missing => false
    case Str(s) => s != ""
    case Num(n) => n != 0.0
  }

  /** `String(c)`: the text a cell becomes as a dictionary key or inside a
      template string. */
  function KeyText(c: Cell): string {
    match c
    case Missing => "undefined"
    case Str(s) => s
    case Num(n) => NumText(n)
  }

  /** The dictionary key of `c || fallback` for a string fallback. */
  function KeyOr(c: Cell, fallback: string): string {
    if Truthy(c) then KeyText(c) else fallback
  }

  /** `Math.round(x)`: the nearest integer, halves rounded up. */
  function Round(x: real): (r: int)
    ensures x - 0.5 < r as real <= x + 0.5
  {
    (x + 0.5).Floor
  }

  /** Truncation toward zero, what `parseInt` does to a number's text. */
  function Trunc(x: real): (r: int)
    ensures 0.0 <= x ==> 0 <= r && r as real <= x < r as real + 1.0
    ensures x < 0.0 ==> r <= 0 && r as real - 1.0 < x <= r as real
  {
    if x >= 0.0 then x.Floor else -((-x).Floor)
  }

  /** `parseFloat(c)`; `None` is NaN. */
  function ParseFloat(c: Cell): Option<real> {
    match c
    case Missing => None
    case Str(s) => ParseFloatText(s)
    case Num(n) => Some(n)
  }

  /** `parseInt(c)` with no radix; `None` is NaN. */
  function ParseInt(c: Cell): Option<int> {
    match c
    case Missing => None
    case Str(s) => ParseIntAnyRadix(s)
    case Num(n) => Some(Trunc(n))
  }

  /** `Number(c)`; `None` is NaN. */
  function ToNumber(c: Cell): Option<real> {
    match c
    case Missing => None
    case Str(s) => NumberText(s)
    case Num(n) => Some(n)
  }

  /** `parseFloat(c) || 0`: anything unreadable counts as 0. */
  function FloatOrZero(c: Cell): real {
    ParseFloat(c).GetOr(0.0)
  }

  /** `parseFloat(row[key]) || 0` for each row: what each row adds to a
      sum that reads unreadable cells as 0. */
  function ColumnOrZero(rows: seq<Row>, key: string): (vs: seq<real>)
    ensures |vs| == |rows|
    ensures forall i :: 0 <= i < |rows| ==> vs[i] == FloatOrZero(Get(rows[i], key))
  {
    seq(|rows|, i requires 0 <= i < |rows| => FloatOrZero(Get(rows[i], key)))
  }

  /** `Number(c) || 0`. */
  function NumberOrZero(c: Cell): real {
    ToNumber(c).GetOr(0.0)
  }

  /** `parseFloat(c || 0)`: a falsy cell reads as 0, any other cell is
      parsed and may still be NaN. */
  function FloatOfFalsyZero(c: Cell): Option<real> {
    if Truthy(c) then ParseFloat(c) else Some(0.0)
  }

  /** JavaScript `+` on two numbers either of which may be NaN. */
  function AddNaN(a: Option<real>, b: Option<real>): Option<real> {
    if a.Some? && b.Some? then Some(a.value + b.value) else None
  }

  /** `rows.reduce((acc, r) => acc + parseFloat(r[key] || 0), 0)`. */
  function FieldSum(rows: seq<Row>, key: string): Option<real> {
    if rows == [] then Some(0.0)
    else AddNaN(FieldSum(rows[..|rows| - 1], key), FloatOfFalsyZero(Get(rows[|rows| - 1], key)))
  }

  /** A truthy cell that does not parse: the one kind of cell that turns a
      `parseFloat(x || 0)` sum into NaN. */
  predicate Unreadable(c: Cell) {
    Truthy(c) && ParseFloat(c).None?
  }

  /** The per-row contributions of a field, an unreadable cell counted
      as 0. */
  function FieldValues(rows: seq<Row>, key: string): (vs: seq<real>)
    ensures |vs| == |rows|
    ensures forall i :: 0 <= i < |rows| && !Unreadable(Get(rows[i], key)) ==>
      FloatOfFalsyZero(Get(rows[i], key)) == Some(vs[i])
  {
    seq(|rows|, i requires 0 <= i < |rows| => FloatOfFalsyZero(Get(rows[i], key)).GetOr(0.0))
  }

  /** A sum of numbers any of which may be NaN, added left to right. */
  function SumNaN(xs: seq<Option<real>>): Option<real> {
    if xs == [] then Some(0.0) else AddNaN(SumNaN(xs[..|xs| - 1]), xs[|xs| - 1])
  }

  /** One NaN term makes the whole sum NaN, and only a NaN term does. */
  lemma {:induction false} SumNaNNone(xs: seq<Option<real>>)
    ensures SumNaN(xs).None? <==> exists i :: 0 <= i < |xs| && xs[i].None?
  {
    if xs != [] {
      var init := xs[..|xs| - 1];
      SumNaNNone(init);
      assert forall i :: 0 <= i < |init| ==> init[i] == xs[i];
    }
  }

  /** What each row adds to a `parseFloat(x || 0)` sum. */
  function FieldReadings(rows: seq<Row>, key: string): (xs: seq<Option<real>>)
    ensures |xs| == |rows|
    ensures forall i :: 0 <= i < |rows| ==> xs[i] == FloatOfFalsyZero(Get(rows[i], key))
  {
    seq(|rows|, i requires 0 <= i < |rows| => FloatOfFalsyZero(Get(rows[i], key)))
  }

  lemma {:induction false} FieldSumReadings(rows: seq<Row>, key: string)
    ensures FieldSum(rows, key) == SumNaN(FieldReadings(rows, key))
  {
    if rows != [] {
      var init := rows[..|rows| - 1];
      FieldSumReadings(init, key);
      assert FieldReadings(rows, key)[..|init|] == FieldReadings(init, key);
    }
  }

  /** The field sum is NaN exactly when some row holds an unreadable
      value. */
  lemma FieldSumNaN(rows: seq<Row>, key: string)
    ensures FieldSum(rows, key).None? <==> exists i :: 0 <= i < |rows| && Unreadable(Get(rows[i], key))
  {
    var xs := FieldReadings(rows, key);
    FieldSumReadings(rows, key);
    SumNaNNone(xs);
    forall i | 0 <= i < |rows|
      ensures xs[i].None? <==> Unreadable(Get(rows[i], key))
    {
    }
  }

  /** When every row reads, the field sum is the sum of the rows' values,
      missing and empty cells counted as 0. */
  lemma {:induction false} FieldSumValue(rows: seq<Row>, key: string)
    requires forall i :: 0 <= i < |rows| ==> !Unreadable(Get(rows[i], key))
    ensures FieldSum(rows, key) == Some(Seqs.Sum(FieldValues(rows, key)))
  {
    if rows != [] {
      var init := rows[..|rows| - 1];
      assert forall i :: 0 <= i < |init| ==> init[i] == rows[i];
      FieldSumValue(init, key);
      assert FieldValues(rows, key)[..|init|] == FieldValues(init, key);
    }
  }

  /** `rows.reduce((acc, r) => acc + parseFloat(r[key] || 0), 0)`, read
      for what it means: NaN (`None`) as soon as one row holds a value that
      does not read as a number, otherwise the total with missing and empty
      values counted as 0. */
  function FieldTotal(rows: seq<Row>, key: string): (t: Option<real>)
    ensures t.None? <==> exists i :: 0 <= i < |rows| && Unreadable(Get(rows[i], key))
    ensures t.Some? ==> t.value == Seqs.Sum(FieldValues(rows, key))
  {
    FieldSumNaN(rows, key);
    if forall i :: 0 <= i < |rows| ==> !Unreadable(Get(rows[i], key)) then
      FieldSumValue(rows, key);
      FieldSum(rows, key)
    else
      FieldSum(rows, key)
  }

  /** `Math.round` of a number that may be NaN. */
  function RoundNaN(x: Option<real>): (r: Option<int>)
    ensures r.Some? <==> x.Some?
    ensures r.Some? ==> x.value - 0.5 < r.value as real <= x.value + 0.5
  {
    if x.Some? then Some(Round(x.value)) else None
  }
}
