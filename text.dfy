/** Text as JavaScript handles it in the dashboard: the decimal text of a
    number (`toString`, and what a number becomes as a dictionary key), the
    three ways a string is read as a number (`parseFloat`, `parseInt`,
    `Number`), the default order of `sort()` and `localeCompare` (both
    modelled as the order of Dafny characters), `replace` of a fixed
    pattern and `split(' ')`.  Strings are sequences of Dafny characters,
    which are Unicode scalar values: a character outside the Basic
    Multilingual Plane is one character here and two UTF-16 code units in
    JavaScript. */
module Text {
  import opened Wrappers
  import Seqs

  // ---------------------------------------------------------------------
  // digits

  predicate IsDigit(c: char) {
    '0' <= c <= '9'
  }

  predicate AllDigits(s: string) {
    forall i :: 0 <= i < |s| ==> IsDigit(s[i])
  }

  function DigitValue(c: char): (d: nat)
    requires IsDigit(c)
    ensures d < 10
  {
    (c as int) - ('0' as int)
  }

  function DigitChar(d: nat): (c: char)
    requires d < 10
    ensures IsDigit(c) && DigitValue(c) == d
  {
    ('0' as int + d) as char
  }

  /** The value of a run of decimal digits. */
  function DigitsValue(s: string): nat
    requires AllDigits(s)
  {
    if s == [] then 0 else DigitsValue(s[..|s| - 1]) * 10 + DigitValue(s[|s| - 1])
  }

  /** `n.toString()` for a non-negative integer: its decimal digits, with
      no leading zero unless the number is zero. */
  function NatText(n: nat): (s: string)
    ensures |s| >= 1 && AllDigits(s)
    ensures s[0] == '0' ==> n == 0
  {
    if n < 10 then [DigitChar(n)] else NatText(n / 10) + [DigitChar(n % 10)]
  }

  /** Reading the decimal text of a number gives the number back. */
  lemma {:induction false} NatTextValue(n: nat)
    ensures DigitsValue(NatText(n)) == n
  {
    if n >= 10 {
      var s := NatText(n);
      assert s[..|s| - 1] == NatText(n / 10);
      NatTextValue(n / 10);
    }
  }

  /** `x.toString()` for an integer. */
  function IntText(x: int): string {
    if x < 0 then "-" + NatText(-x) else NatText(x)
  }

  /** The fraction digits of `f` in [0, 1), stopping when the rest is zero
      or after `fuel` digits. */
  function FracDigits(f: real, fuel: nat): (s: string)
    requires 0.0 <= f < 1.0
    ensures AllDigits(s) && |s| <= fuel
    decreases fuel
  {
    if fuel == 0 || f == 0.0 then ""
    else
      var d := (f * 10.0).Floor;
      [DigitChar(d)] + FracDigits(f * 10.0 - d as real, fuel - 1)
  }

  /** `x.toString()` for a number: sign, whole part, and when there is a
      fraction, a point and at most twenty fraction digits. */
  function NumText(x: real): string {
    if x < 0.0 then "-" + NonNegText(-x) else NonNegText(x)
  }

  function NonNegText(x: real): string
    requires x >= 0.0
  {
    var w := x.Floor;
    NatText(w) + (if x == w as real then "" else "." + FracDigits(x - w as real, 20))
  }

  /** A whole number's text is the text of the integer. */
  lemma WholeNumText(n: int)
    ensures NumText(n as real) == IntText(n)
  {
    if n < 0 {
      assert (-(n as real)).Floor == -n;
    } else {
      assert (n as real).Floor == n;
    }
  }

  // ---------------------------------------------------------------------
  // reading numbers

  /** JavaScript's white space and line terminators, the characters
      `parseFloat`, `parseInt` and `Number` skip. */
  predicate IsSpace(c: char) {
    c == ' ' || c == '\t' || c == '\n' || c == '\r' || c == '\U{000B}' || c == '\U{000C}' ||
    c == '\U{00A0}' || c == '\U{1680}' || ('\U{2000}' <= c <= '\U{200A}') || c == '\U{2028}' ||
    c == '\U{2029}' || c == '\U{202F}' || c == '\U{205F}' || c == '\U{3000}' || c == '\U{FEFF}'
  }

  function TrimStart(s: string): (r: string)
    ensures r == [] || !IsSpace(r[0])
    ensures |r| <= |s| && r == s[|s| - |r|..]
  {
    if s != [] && IsSpace(s[0]) then TrimStart(s[1..]) else s
  }

  function TrimEnd(s: string): (r: string)
    ensures r == [] || !IsSpace(r[|r| - 1])
    ensures |r| <= |s| && r == s[..|r|]
  {
    if s != [] && IsSpace(s[|s| - 1]) then TrimEnd(s[..|s| - 1]) else s
  }

  /** Length of the run of digits that starts `s`. */
  function DigitRun(s: string): (n: nat)
    ensures n <= |s| && AllDigits(s[..n])
    ensures n < |s| ==> !IsDigit(s[n])
  {
    if s != [] && IsDigit(s[0]) then
      var n := 1 + DigitRun(s[1..]);
      assert forall i :: 0 < i < n ==> s[..n][i] == s[1..][..n - 1][i - 1];
      n
    else 0
  }

  /** The value of a run of fraction digits, `0.d1d2...`. */
  function FracValue(s: string): real
    requires AllDigits(s)
  {
    if s == [] then 0.0 else (DigitValue(s[0]) as real + FracValue(s[1..])) / 10.0
  }

  /** An unsigned decimal literal at the start of `s` (digits, optionally a
      point and more digits, at least one digit in all): its value and how
      many characters it takes. */
  function ScanDecimal(s: string): (r: Option<(real, nat)>)
    ensures r.Some? ==> 0 < r.value.1 <= |s|
  {
    var n1 := DigitRun(s);
    var whole := DigitsValue(s[..n1]) as real;
    if n1 < |s| && s[n1] == '.' then
      var n2 := DigitRun(s[n1 + 1..]);
      if n1 + n2 == 0 then None
      else Some((whole + FracValue(s[n1 + 1..][..n2]), n1 + 1 + n2))
    else if n1 == 0 then None
    else Some((whole, n1))
  }

  /** Splits off a leading `+` or `-`; the flag says whether it was `-`. */
  function Sign(s: string): (bool, string) {
    if s != [] && (s[0] == '-' || s[0] == '+') then (s[0] == '-', s[1..]) else (false, s)
  }

  function Signed(negative: bool, v: real): real {
    if negative then -v else v
  }

  /** `parseFloat(s)`: the longest decimal literal after leading white
      space, or NaN (`None`) when there is none. */
  function ParseFloatText(s: string): Option<real> {
    var (negative, u) := Sign(TrimStart(s));
    match ScanDecimal(u)
    case None => None
    case Some((v, _)) => Some(Signed(negative, v))
  }

  /** `parseInt(s, 10)`: the digits after leading white space and a sign,
      or NaN (`None`) when there are none. */
  function ParseIntText(s: string): Option<int> {
    var (negative, u) := Sign(TrimStart(s));
    var n := DigitRun(u);
    if n == 0 then None
    else
      var v: int := DigitsValue(u[..n]);
      Some(if negative then -v else v)
  }

  /** `parseInt(s)` with no radix: as `parseInt(s, 10)`, except that text
      starting `0x` or `0X` after the sign is read in base sixteen. */
  function ParseIntAnyRadix(s: string): Option<int> {
    var (negative, u) := Sign(TrimStart(s));
    if HasRadixPrefix(u, "xX") then
      var n := RadixRun(u[2..], 16);
      if n == 0 then None
      else
        var v: int := RadixValue(u[2..][..n], 16);
        Some(if negative then -v else v)
    else ParseIntText(s)
  }

  /** Without a `0x` prefix, `parseInt` reads decimal whatever the radix
      argument. */
  lemma DecimalWithoutPrefix(s: string)
    requires !HasRadixPrefix(Sign(TrimStart(s)).1, "xX")
    ensures ParseIntAnyRadix(s) == ParseIntText(s)
  {
  }

  /** `u` starts with `0` and one of the letters in `letters`. */
  predicate HasRadixPrefix(u: string, letters: string) {
    |u| >= 2 && u[0] == '0' && u[1] in letters
  }

  /** The value of `c` as a digit in base `radix` (letters count from ten),
      or `None` when it is not one. */
  function RadixDigit(c: char, radix: nat): (d: Option<nat>)
    ensures d.Some? ==> d.value < radix
  {
    var v: int :=
      if '0' <= c <= '9' then c as int - '0' as int
      else if 'a' <= c <= 'z' then c as int - 'a' as int + 10
      else if 'A' <= c <= 'Z' then c as int - 'A' as int + 10
      else radix;
    if 0 <= v < radix then Some(v) else None
  }

  predicate AllRadixDigits(s: string, radix: nat) {
    forall i :: 0 <= i < |s| ==> RadixDigit(s[i], radix).Some?
  }

  /** Length of the run of base-`radix` digits that starts `s`. */
  function RadixRun(s: string, radix: nat): (n: nat)
    ensures n <= |s| && AllRadixDigits(s[..n], radix)
  {
    if s != [] && RadixDigit(s[0], radix).Some? then
      var n := 1 + RadixRun(s[1..], radix);
      assert forall i :: 0 < i < n ==> s[..n][i] == s[1..][..n - 1][i - 1];
      n
    else 0
  }

  /** The value of a run of base-`radix` digits. */
  function RadixValue(s: string, radix: nat): nat
    requires AllRadixDigits(s, radix)
  {
    if s == [] then 0
    else RadixValue(s[..|s| - 1], radix) * radix + RadixDigit(s[|s| - 1], radix).value
  }

  /** `0x`, `0o` and `0b` literals as `Number` reads them: the whole rest
      of the text must be digits of that base. */
  function PrefixedLiteral(t: string): Option<real>
    requires |t| >= 2
  {
    var radix := if t[1] in "xX" then 16 else if t[1] in "oO" then 8 else 2;
    var body := t[2..];
    if body != [] && AllRadixDigits(body, radix) then Some(RadixValue(body, radix) as real) else None
  }

  /** `Number(s)`: white space around the text is ignored, the empty text
      is 0, a `0x`, `0o` or `0b` literal (without a sign) is read in its
      base, and anything but one whole decimal literal is NaN (`None`). */
  function NumberText(s: string): Option<real> {
    var t := TrimEnd(TrimStart(s));
    if t == "" then Some(0.0)
    else if HasRadixPrefix(t, "xXoObB") then PrefixedLiteral(t)
    else
      var (negative, u) := Sign(t);
      match ScanDecimal(u)
      case Some((v, n)) => if n == |u| then Some(Signed(negative, v)) else None
      case None => None
  }

  lemma {:induction false} DigitRunAll(s: string)
    requires AllDigits(s)
    ensures DigitRun(s) == |s|
  {
    if s != [] {
      DigitRunAll(s[1..]);
    }
  }

  lemma {:induction false} NatTextScans(n: nat)
    ensures TrimStart(NatText(n)) == NatText(n) && TrimEnd(NatText(n)) == NatText(n)
    ensures Sign(NatText(n)) == (false, NatText(n))
    ensures DigitRun(NatText(n)) == |NatText(n)|
    ensures DigitsValue(NatText(n)[..|NatText(n)|]) == n
  {
    var s := NatText(n);
    DigitsUntrimmed(s);
    NatTextValue(n);
    DigitRunAll(s);
    assert s[..|s|] == s;
  }

  /** Digits have no white space to trim and no sign. */
  lemma DigitsUntrimmed(s: string)
    requires |s| >= 1 && AllDigits(s)
    ensures TrimStart(s) == s && TrimEnd(s) == s
    ensures Sign(s) == (false, s)
  {
    NoSpaceAt(s, 0);
    NoSpaceAt(s, |s| - 1);
  }

  lemma NoSpaceAt(s: string, i: nat)
    requires i < |s| && AllDigits(s)
    ensures !IsSpace(s[i]) && s[i] != '-' && s[i] != '+'
  {
    assert IsDigit(s[i]);
  }

  /** The decimal text of a non-negative integer reads back as that integer
      under all three readers. */
  lemma {:induction false} NatTextParses(n: nat)
    ensures ParseIntText(NatText(n)) == Some(n)
    ensures ParseFloatText(NatText(n)) == Some(n as real)
    ensures NumberText(NatText(n)) == Some(n as real)
  {
    var s := NatText(n);
    NatTextScans(n);
    assert ScanDecimal(s) == Some((n as real, |s|));
  }

  lemma TrimNoSpace(s: string)
    requires s != [] && !IsSpace(s[0])
    ensures TrimStart(s) == s
  {
  }

  lemma SignMinus(s: string)
    ensures Sign("-" + s) == (true, s)
  {
    assert ("-" + s)[1..] == s;
  }

  /** The text of any integer reads back under `parseInt`, with or
      without the radix argument. */
  lemma {:induction false} IntTextParses(x: int)
    ensures ParseIntText(IntText(x)) == Some(x)
    ensures ParseIntAnyRadix(IntText(x)) == Some(x)
  {
    var s := NatText(if x < 0 then -x else x);
    if x < 0 {
      NegativeTextParses(x);
      var t := IntText(x);
      assert t == "-" + s;
      TrimNoSpace(t);
      SignMinus(s);
    } else {
      NatTextParses(x);
      DigitsUntrimmed(s);
    }
    assert Sign(TrimStart(IntText(x))).1 == s;
    DigitsHaveNoPrefix(s);
    DecimalWithoutPrefix(IntText(x));
  }

  lemma DigitsHaveNoPrefix(s: string)
    requires AllDigits(s)
    ensures !HasRadixPrefix(s, "xX")
  {
    if |s| >= 2 {
      assert IsDigit(s[1]);
    }
  }

  lemma {:induction false} NegativeTextParses(x: int)
    requires x < 0
    ensures ParseIntText(IntText(x)) == Some(x)
  {
    var s := NatText(-x);
    var t := IntText(x);
    assert t == "-" + s;
    TrimNoSpace(t);
    assert Sign(t) == (true, s) by {
      SignMinus(s);
    }
    DigitRunAll(s);
    assert s[..|s|] == s;
    NatTextValue(-x);
  }

  // ---------------------------------------------------------------------
  // order, replace, split

  /** Character-by-character comparison of two strings: -1, 0 or 1.  It
      stands for the order of the default `sort()` (which compares UTF-16
      code units) and for `localeCompare`. */
  function StrCompare(a: string, b: string): (c: int)
    ensures -1 <= c <= 1
  {
    if a == [] && b == [] then 0
    else if a == [] then -1
    else if b == [] then 1
    else if a[0] < b[0] then -1
    else if a[0] > b[0] then 1
    else StrCompare(a[1..], b[1..])
  }

  /** Swapping the arguments flips the answer. */
  lemma {:induction false} StrCompareAntisymmetric(a: string, b: string)
    ensures StrCompare(a, b) == -StrCompare(b, a)
  {
    if a != [] && b != [] && a[0] == b[0] {
      StrCompareAntisymmetric(a[1..], b[1..]);
    }
  }

  /** Only equal strings compare equal. */
  lemma {:induction false} StrCompareZero(a: string, b: string)
    ensures StrCompare(a, b) == 0 <==> a == b
  {
    if a != [] && b != [] && a[0] == b[0] {
      StrCompareZero(a[1..], b[1..]);
      assert a == [a[0]] + a[1..] && b == [b[0]] + b[1..];
    }
  }

  /** The order is transitive. */
  lemma {:induction false} StrCompareTransitive(a: string, b: string, c: string)
    requires StrCompare(a, b) < 0 && StrCompare(b, c) < 0
    ensures StrCompare(a, c) < 0
  {
    if a != [] && b != [] && c != [] && a[0] == b[0] && b[0] == c[0] {
      StrCompareTransitive(a[1..], b[1..], c[1..]);
    }
  }

  /** Comparing no greater is transitive too. */
  lemma StrCompareAtMostTransitive(a: string, b: string, c: string)
    requires StrCompare(a, b) <= 0 && StrCompare(b, c) <= 0
    ensures StrCompare(a, c) <= 0
  {
    StrCompareZero(a, b);
    StrCompareZero(b, c);
    if StrCompare(a, b) < 0 && StrCompare(b, c) < 0 {
      StrCompareTransitive(a, b, c);
    }
  }

  /** `keys.sort()` on strings: a stable sort in code-unit order. */
  function SortStrings(s: seq<string>): (r: seq<string>)
    ensures multiset(r) == multiset(s)
    ensures |r| == |s|
  {
    Seqs.SortWith(s, StrCompare)
  }

  /** The sorted strings ascend, each against every later one, and are
      distinct when the input was. */
  lemma SortStringsOrdered(s: seq<string>)
    ensures forall i, j :: 0 <= i < j < |SortStrings(s)| ==> StrCompare(SortStrings(s)[i], SortStrings(s)[j]) <= 0
    ensures Seqs.NoDups(s) ==> Seqs.NoDups(SortStrings(s))
  {
    forall a, b | a in s && b in s
      ensures StrCompare(a, b) == -StrCompare(b, a)
    {
      StrCompareAntisymmetric(a, b);
    }
    Seqs.SortWithSorted(s, StrCompare);
    SortedStringsAscend(SortStrings(s));
    if Seqs.NoDups(s) {
      Seqs.PermutationNoDups(s, SortStrings(s));
    }
  }

  /** Neighbour order of strings is global order. */
  lemma {:induction false} SortedStringsAscend(s: seq<string>)
    requires Seqs.SortedBy(s, StrCompare)
    ensures forall i, j :: 0 <= i < j < |s| ==> StrCompare(s[i], s[j]) <= 0
  {
    if s != [] {
      var init := s[..|s| - 1];
      SortedStringsAscend(init);
      forall i, j | 0 <= i < j < |s|
        ensures StrCompare(s[i], s[j]) <= 0
      {
        if j == |s| - 1 && i < j - 1 {
          assert StrCompare(init[i], init[j - 1]) <= 0;
          StrCompareAtMostTransitive(s[i], s[j - 1], s[j]);
        } else if j < |s| - 1 {
          assert StrCompare(init[i], init[j]) <= 0;
        }
      }
    }
  }

  /** `s.replace(pat, '')`: the first occurrence of `pat`, if any, removed. */
  function RemoveFirst(s: string, pat: string): (r: string)
    ensures |r| <= |s|
  {
    if |s| < |pat| then s
    else if s[..|pat|] == pat then s[|pat|..]
    else [s[0]] + RemoveFirst(s[1..], pat)
  }

  /** `s.split(' ')[1]`: the text between the first and the second space,
      or `undefined` (`None`) when `s` has no space. */
  function SplitSecond(s: string): (r: Option<string>)
    ensures r.Some? <==> ' ' in s
  {
    if ' ' !in s then None
    else
      var rest := s[Seqs.IndexOf(s, ' ') + 1..];
      Some(if ' ' in rest then rest[..Seqs.IndexOf(rest, ' ')] else rest)
  }
}
