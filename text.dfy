/**
 * The string primitives the scripts lean on: decimal rendering of numbers
 * (template literals, `toString`), reading a decimal number back, the white
 * space that `trim()` and the regular expression class `\s` recognise, and the
 * UTF-16 view behind `length` and `charCodeAt`.
 */
module Text {
  import opened Wrappers

  // ---------------------------------------------------------------------------
  // Decimal digits

  predicate IsDigit(c: char) {
    '0' <= c <= '9'
  }

  predicate AllDigits(s: string) {
    forall i :: 0 <= i < |s| ==> IsDigit(s[i])
  }

  function DigitChar(d: nat): (c: char)
    requires d < 10
    ensures IsDigit(c)
  {
    ('0' as int + d) as char
  }

  function DigitValue(c: char): (d: nat)
    requires IsDigit(c)
    ensures d < 10 && DigitChar(d) == c
  {
    c as int - '0' as int
  }

  /** The decimal text of a natural number, as `String(n)` gives it: no sign, no leading zero. */
  function NatText(n: nat): (r: string)
    ensures 1 <= |r| && AllDigits(r)
    ensures (r[0] == '0') <==> n == 0
    decreases n
  {
    if n < 10 then [DigitChar(n)] else NatText(n / 10) + [DigitChar(n % 10)]
  }

  /** The decimal text of an integer, as `Number.prototype.toString` gives it. */
  function IntText(i: int): (r: string)
    ensures 1 <= |r|
    ensures (r[0] == '-') <==> i < 0
  {
    if i < 0 then "-" + NatText(-i) else NatText(i)
  }

  /** The number a run of digits denotes, read most significant digit first. */
  function DigitsValue(ds: string): nat
    requires AllDigits(ds)
    decreases |ds|
  {
    if ds == [] then 0 else DigitsValue(ds[..|ds| - 1]) * 10 + DigitValue(ds[|ds| - 1])
  }

  lemma {:induction false} NatTextValue(n: nat)
    ensures DigitsValue(NatText(n)) == n
    decreases n
  {
    if n >= 10 {
      NatTextValue(n / 10);
      var s := NatText(n);
      assert s[..|s| - 1] == NatText(n / 10);
    }
  }

  lemma NatTextInjective(a: nat, b: nat)
    ensures NatText(a) == NatText(b) ==> a == b
  {
    NatTextValue(a);
    NatTextValue(b);
  }

  /** Length of the longest prefix of `s` made only of digits. */
  function DigitRun(s: string): (k: nat)
    ensures k <= |s| && AllDigits(s[..k])
    ensures k < |s| ==> !IsDigit(s[k])
    decreases |s|
  {
    if s == [] || !IsDigit(s[0]) then 0
    else
      var k' := DigitRun(s[1..]);
      assert s[..1 + k'] == [s[0]] + s[1..][..k'];
      1 + k'
  }

  lemma {:induction false} DigitRunOfDigits(ds: string, rest: string)
    requires AllDigits(ds)
    requires rest == [] || !IsDigit(rest[0])
    ensures DigitRun(ds + rest) == |ds|
    decreases |ds|
  {
    if ds != [] {
      assert (ds + rest)[1..] == ds[1..] + rest;
      DigitRunOfDigits(ds[1..], rest);
    }
  }

  /**
   * Reads the decimal number at the head of `s`: the whole run of leading
   * digits, written without a superfluous leading zero. Gives the number and
   * the text after it.
   */
  function ReadNat(s: string): Option<(nat, string)> {
    var k := DigitRun(s);
    if k == 0 then None
    else
      var v := DigitsValue(s[..k]);
      if NatText(v) == s[..k] then Some((v, s[k..])) else None
  }

  /** What `ReadNat` accepts is exactly a number's text followed by the rest. */
  lemma ReadNatSome(s: string, v: nat, rest: string)
    requires ReadNat(s) == Some((v, rest))
    ensures s == NatText(v) + rest
    ensures rest == [] || !IsDigit(rest[0])
  {
    var k := DigitRun(s);
    assert s == s[..k] + s[k..];
  }

  /** `ReadNat` undoes `NatText` whenever the text that follows does not start with a digit. */
  lemma ReadNatText(n: nat, rest: string)
    requires rest == [] || !IsDigit(rest[0])
    ensures ReadNat(NatText(n) + rest) == Some((n, rest))
  {
    var t := NatText(n);
    DigitRunOfDigits(t, rest);
    assert (t + rest)[..|t|] == t;
    assert (t + rest)[|t|..] == rest;
    NatTextValue(n);
  }

  // ---------------------------------------------------------------------------
  // White space and trim()

  /**
   * The characters JavaScript counts as white space or line terminators: the
   * set matched by `\s` and removed by `String.prototype.trim`.
   */
  predicate IsJsSpace(c: char) {
    || c == '\t' || c == '\n' || c == '\U{000B}' || c == '\U{000C}' || c == '\r' || c == ' '
    || c == '\U{00A0}' || c == '\U{1680}' || ('\U{2000}' <= c <= '\U{200A}')
    || c == '\U{2028}' || c == '\U{2029}' || c == '\U{202F}' || c == '\U{205F}'
    || c == '\U{3000}' || c == '\U{FEFF}'
  }

  function TrimStart(s: string): (r: string)
    ensures |r| <= |s| && r == s[|s| - |r|..]
    ensures forall i :: 0 <= i < |s| - |r| ==> IsJsSpace(s[i])
    ensures r == [] || !IsJsSpace(r[0])
    decreases |s|
  {
    if s != [] && IsJsSpace(s[0]) then TrimStart(s[1..]) else s
  }

  function TrimEnd(s: string): (r: string)
    ensures |r| <= |s| && r == s[..|r|]
    ensures forall i :: |r| <= i < |s| ==> IsJsSpace(s[i])
    ensures r == [] || !IsJsSpace(r[|r| - 1])
    decreases |s|
  {
    if s != [] && IsJsSpace(s[|s| - 1]) then TrimEnd(s[..|s| - 1]) else s
  }

  /** `r` is the slice of `s` starting at `a`, and everything of `s` before and after it is white space. */
  predicate CutFrom(s: string, a: int, r: string) {
    && 0 <= a <= |s| - |r| && r == s[a..a + |r|]
    && (forall i :: 0 <= i < a ==> IsJsSpace(s[i]))
    && (forall i :: a + |r| <= i < |s| ==> IsJsSpace(s[i]))
  }

  /** Cutting white space off the front of `s` (leaving `t`) and then off the back of `t` (leaving `r`) cuts `s`. */
  lemma CutInTwoSteps(s: string, t: string, r: string)
    requires |t| <= |s| && t == s[|s| - |t|..] && forall i :: 0 <= i < |s| - |t| ==> IsJsSpace(s[i])
    requires |r| <= |t| && r == t[..|r|] && forall i :: |r| <= i < |t| ==> IsJsSpace(t[i])
    ensures CutFrom(s, |s| - |t|, r)
  {
    var a := |s| - |t|;
    forall i | a + |r| <= i < |s|
      ensures IsJsSpace(s[i])
    {
      assert s[i] == t[i - a];
    }
  }

  /** Trimming the end after the start cuts `s` just after its leading white space. */
  lemma TrimSlice(s: string)
    ensures CutFrom(s, |s| - |TrimStart(s)|, TrimEnd(TrimStart(s)))
  {
    CutInTwoSteps(s, TrimStart(s), TrimEnd(TrimStart(s)));
  }

  /** `String.prototype.trim`: drops leading and trailing white space and nothing else. */
  function Trim(s: string): (r: string)
    ensures |r| <= |s|
    ensures r == [] || (!IsJsSpace(r[0]) && !IsJsSpace(r[|r| - 1]))
    ensures (forall i :: 0 <= i < |s| ==> !IsJsSpace(s[i])) ==> r == s
    ensures (forall i :: 0 <= i < |s| ==> IsJsSpace(s[i])) ==> r == []
    ensures exists a :: CutFrom(s, a, r)
  {
    TrimSlice(s);
    TrimEnd(TrimStart(s))
  }

  // ---------------------------------------------------------------------------
  // UTF-16: what `length` counts and `charCodeAt` returns

  /**
   * The UTF-16 code units of one character: the character itself below
   * U+10000, otherwise a high and a low surrogate that decode back to it.
   */
  function UnitsOf(c: char): (u: seq<nat>)
    ensures 1 <= |u| <= 2 && (|u| == 1 <==> c as int < 0x1_0000)
    ensures forall i :: 0 <= i < |u| ==> u[i] < 0x1_0000
    ensures c as int < 0x1_0000 ==> u == [c as int]
  {
    if c as int < 0x1_0000 then [c as int]
    else
      var v := c as int - 0x1_0000;
      [0xD800 + v / 0x400, 0xDC00 + v % 0x400]
  }

  /** Above U+FFFF the two units are a high and a low surrogate, and decoding the pair gives the character back. */
  lemma SurrogatePairDecodes(c: char)
    requires c as int >= 0x1_0000
    ensures var u := UnitsOf(c);
      && 0xD800 <= u[0] < 0xDC00 && 0xDC00 <= u[1] < 0xE000
      && 0x1_0000 + (u[0] - 0xD800) * 0x400 + (u[1] - 0xDC00) == c as int
  {
    var v := c as int - 0x1_0000;
    assert v / 0x400 * 0x400 + v % 0x400 == v;
  }

  /** The code units a JavaScript string holds for `s`. */
  function CodeUnits(s: string): (u: seq<nat>)
    ensures |s| <= |u| <= 2 * |s|
    ensures forall i :: 0 <= i < |u| ==> u[i] < 0x1_0000
    ensures (forall i :: 0 <= i < |s| ==> s[i] as int < 0x1_0000) ==> |u| == |s|
    decreases |s|
  {
    if s == [] then []
    else CodeUnits(s[..|s| - 1]) + UnitsOf(s[|s| - 1])
  }

  /** Appending a character appends its units. */
  lemma CodeUnitsSnoc(s: string, c: char)
    ensures CodeUnits(s + [c]) == CodeUnits(s) + UnitsOf(c)
  {
    var longer := s + [c];
    assert longer[..|longer| - 1] == s && longer[|longer| - 1] == c;
  }

  /** Concatenating unit sequences is associative. */
  lemma UnitsAssociate(x: seq<nat>, y: seq<nat>, z: seq<nat>)
    ensures (x + y) + z == x + (y + z)
  {
  }

  /** Equal texts have equal units. */
  lemma CodeUnitsOfEqual(x: string, y: string)
    requires x == y
    ensures CodeUnits(x) == CodeUnits(y)
  {
  }

  /** Where the parts of `a + init + [last]` are grouped does not change its units. */
  lemma CodeUnitsRegroup(a: string, init: string, last: char)
    ensures CodeUnits(a + (init + [last])) == CodeUnits((a + init) + [last])
  {
    CodeUnitsOfEqual(a + (init + [last]), (a + init) + [last]);
  }

  /** Appending a character to a concatenation appends its units after those of both parts. */
  lemma CodeUnitsSnocConcat(a: string, init: string, last: char)
    requires CodeUnits(a + init) == CodeUnits(a) + CodeUnits(init)
    ensures CodeUnits((a + init) + [last]) == (CodeUnits(a) + CodeUnits(init)) + UnitsOf(last)
  {
    CodeUnitsSnoc(a + init, last);
  }

  /** One more character on the right keeps the units of a concatenation split between its parts. */
  lemma CodeUnitsConcatStep(a: string, init: string, last: char)
    requires CodeUnits(a + init) == CodeUnits(a) + CodeUnits(init)
    ensures CodeUnits(a + (init + [last])) == CodeUnits(a) + CodeUnits(init + [last])
  {
    CodeUnitsRegroup(a, init, last);
    CodeUnitsSnocConcat(a, init, last);
    CodeUnitsSnoc(init, last);
    UnitsAssociate(CodeUnits(a), CodeUnits(init), UnitsOf(last));
  }

  /** The units of a concatenation are the units of each part, one after the other. */
  lemma {:induction false} CodeUnitsConcat(a: string, b: string)
    ensures CodeUnits(a + b) == CodeUnits(a) + CodeUnits(b)
    decreases |b|
  {
    if b == [] {
      assert a + b == a;
    } else {
      var init, last := b[..|b| - 1], b[|b| - 1];
      assert b == init + [last];
      CodeUnitsConcat(a, init);
      CodeUnitsConcatStep(a, init, last);
    }
  }

  /** A one-character string holds that character's units. */
  lemma CodeUnitsOfChar(c: char)
    ensures CodeUnits([c]) == UnitsOf(c)
  {
    assert [c][..0] == [];
  }

  /** The characters of `s` at or above U+10000, by position. */
  function AstralPositions(s: string): set<nat> {
    set i: nat | i < |s| && s[i] as int >= 0x1_0000
  }

  /** Appending a character adds its position exactly when it is at or above U+10000. */
  lemma AstralPositionsSnoc(s: string, c: char)
    ensures |s| !in AstralPositions(s)
    ensures AstralPositions(s + [c]) ==
      if c as int >= 0x1_0000 then AstralPositions(s) + {|s|} else AstralPositions(s)
  {
    var longer := s + [c];
    assert forall i :: 0 <= i < |s| ==> longer[i] == s[i];
  }

  /** `s.length` counts one unit per character and one more per character at or above U+10000. */
  lemma {:induction false} CodeUnitsCount(s: string)
    ensures |CodeUnits(s)| == |s| + |AstralPositions(s)|
    decreases |s|
  {
    if s != [] {
      var init, last := s[..|s| - 1], s[|s| - 1];
      assert s == init + [last];
      CodeUnitsCount(init);
      AstralPositionsSnoc(init, last);
      CodeUnitsSnoc(init, last);
    }
  }

  /** `s.length` in JavaScript: the number of UTF-16 code units. */
  function JsLength(s: string): nat {
    |CodeUnits(s)|
  }
}
