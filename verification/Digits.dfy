/** Decimal digit strings: their value, zero-padded rendering, and integer parsing. */
module Digits {
  import opened Wrappers

  predicate IsDigit(c: char) { '0' <= c <= '9' }

  predicate AllDigits(s: string) { forall i :: 0 <= i < |s| ==> IsDigit(s[i]) }

  function DigitOf(n: nat): char
    requires n < 10
  {
    '0' + n as char
  }

  function Pow10(n: nat): (p: nat)
    ensures p >= 1
  {
    if n == 0 then 1 else 10 * Pow10(n - 1)
  }

  /** The number a digit string denotes. */
  function Value(s: string): nat
    requires AllDigits(s)
  {
    if s == [] then 0 else Value(s[..|s| - 1]) * 10 + (s[|s| - 1] as int - '0' as int)
  }

  /** At least `width` digits, padded with zeros on the left. */
  function Padded(n: nat, width: nat): (s: string)
    ensures AllDigits(s)
    decreases n, width
  {
    if width == 0 && n == 0 then ""
    else Padded(n / 10, if width == 0 then 0 else width - 1) + [DigitOf(n % 10)]
  }

  lemma {:induction false} PaddedValue(n: nat, width: nat)
    ensures Value(Padded(n, width)) == n
    ensures |Padded(n, width)| >= width
    ensures n < Pow10(width) ==> |Padded(n, width)| == width
    decreases n, width
  {
    if width != 0 || n != 0 {
      var rest := Padded(n / 10, if width == 0 then 0 else width - 1);
      PaddedValue(n / 10, if width == 0 then 0 else width - 1);
      assert Padded(n, width)[..|rest|] == rest;
    }
  }

  /** A digit string is its value, padded to the string's own length. */
  lemma {:induction false} ValuePadded(s: string)
    requires AllDigits(s)
    ensures Padded(Value(s), |s|) == s && Value(s) < Pow10(|s|)
  {
    if s != [] {
      ValuePadded(s[..|s| - 1]);
    }
  }

  lemma {:induction false} ValueOfConcatenation(a: string, b: string)
    requires AllDigits(a) && AllDigits(b)
    ensures AllDigits(a + b) && Value(a + b) == Value(a) * Pow10(|b|) + Value(b)
  {
    if b == [] {
      assert a + b == a;
    } else {
      ValueOfConcatenation(a, b[..|b| - 1]);
      assert (a + b)[..|a + b| - 1] == a + b[..|b| - 1];
      assert Pow10(|b|) == 10 * Pow10(|b| - 1);
      TimesTen(Value(a), Pow10(|b| - 1));
    }
  }

  lemma TimesTen(v: int, p: int)
    ensures v * (10 * p) == 10 * (v * p)
  {
  }

  /** Integer parsing: an optional `+`, for signed types an optional `-`, then digits in range. */
  function ParseInteger(s: string, signed: bool, min: int, max: int): Option<int> {
    var negative := signed && |s| > 0 && s[0] == '-';
    var digits := if negative || (|s| > 0 && s[0] == '+') then s[1..] else s;
    if digits == [] || !AllDigits(digits) then None
    else
      var magnitude: int := Value(digits);
      var value := if negative then -magnitude else magnitude;
      if min <= value <= max then Some(value) else None
  }

  /** The text is digits behind at most one sign, and the number is theirs. */
  ghost predicate Denotes(s: string, signed: bool, n: int) {
    exists digits :: IsReading(s, signed, n, digits)
  }

  ghost predicate IsReading(s: string, signed: bool, n: int, digits: string) {
    && digits != "" && AllDigits(digits)
    && (if signed && s == "-" + digits then n == 0 - Value(digits)
        else (s == digits || s == "+" + digits) && n == Value(digits))
  }

  /** Exactly the texts of an integer in range are parsed, and as that integer. */
  lemma ParseIntegerExactly(s: string, signed: bool, min: int, max: int, n: int)
    ensures ParseInteger(s, signed, min, max) == Some(n) <==> Denotes(s, signed, n) && min <= n <= max
  {
    hide Value;
    if ParseInteger(s, signed, min, max) == Some(n) {
      var negative := signed && s[0] == '-';
      var digits := if negative || s[0] == '+' then s[1..] else s;
      assert s == if negative then "-" + digits else if s[0] == '+' then "+" + digits else digits;
      assert IsReading(s, signed, n, digits);
    }
    if Denotes(s, signed, n) {
      var digits :| IsReading(s, signed, n, digits);
      ReadingParses(s, signed, n, digits);
    }
  }

  lemma ReadingParses(s: string, signed: bool, n: int, digits: string)
    requires IsReading(s, signed, n, digits)
    ensures forall min, max :: ParseInteger(s, signed, min, max) == if min <= n <= max then Some(n) else None
  {
    hide Value;
    assert IsDigit(digits[0]);
    if s != digits { assert s[1..] == digits; }
  }

  /** The shortest text of an integer. */
  function RenderInteger(n: int): string {
    if n < 0 then "-" + Padded(-n, 1) else Padded(n, 1)
  }

  lemma RenderedDenotes(n: int)
    ensures Denotes(RenderInteger(n), true, n)
  {
    var magnitude := if n < 0 then -n else n;
    PaddedValue(magnitude, 1);
    assert IsReading(RenderInteger(n), true, n, Padded(magnitude, 1));
  }

  /** A positive parsed integer is the padded form of its own text unless it began with `+`. */
  lemma ParsedPositive(s: string, signed: bool, min: int, max: int)
    requires var n := ParseInteger(s, signed, min, max); n.Some? && n.value >= 1
    ensures |s| > 0
    ensures var n := ParseInteger(s, signed, min, max).value; Padded(n, |s|) == s <==> s[0] != '+'
  {
    if s[0] == '+' {
      assert !AllDigits(s) by { assert !IsDigit(s[0]); }
    } else {
      ValuePadded(s);
    }
  }
}
