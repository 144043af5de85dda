/** Exact fixed-point numbers and US dollar amounts read from text. */
module Decimals {
  import opened Wrappers
  import opened Digits
  import opened Texts

  const I64_MIN := -0x8000_0000_0000_0000
  const I64_MAX := 0x7fff_ffff_ffff_ffff
  const MAX_SCALE := 18

  /** `coefficient` with `scale` fractional digits. */
  datatype Decimal = Decimal(coefficient: int, scale: nat)

  datatype Money = Money(amount: Decimal, currency: string)

  function ParseDecimal(value: string): Result<Option<Decimal>> {
    match SplitOnce(value, '.')
    case None => Ok(None)
    case Some((whole, fraction)) =>
      var negative := |whole| > 0 && whole[0] == '-';
      var unsignedWhole := if negative then whole[1..] else whole;
      if fraction == "" || !AllDigits(fraction) || unsignedWhole == "" || !AllDigits(unsignedWhole) then Ok(None)
      else if |fraction| > 255 || |fraction| > MAX_SCALE then Err(ValidationRejected)
      else match ParseInteger(unsignedWhole + fraction, true, I64_MIN, I64_MAX)
        case None => Err(ValidationRejected)
        case Some(coefficient) =>
          if negative && coefficient == I64_MIN then Err(ValidationRejected)
          else Ok(Some(Decimal(if negative then -coefficient else coefficient, |fraction|)))
  }

  function WithoutCommas(s: string): string {
    if s == [] then []
    else (if s[0] == ',' then [] else [s[0]]) + WithoutCommas(s[1..])
  }

  function ParseUsd(value: string): Result<Option<Money>> {
    if |value| == 0 || value[0] != '$' then Ok(None)
    else match ParseDecimal(WithoutCommas(value[1..]))
      case Err(e) => Err(e)
      case Ok(None) => Err(ValidationRejected)
      case Ok(Some(amount)) => Ok(Some(Money(amount, "USD")))
  }

  // ---- What an accepted text denotes ----

  /** A decimal literal: an optional minus, digits, a point, digits. */
  function Literal(negative: bool, whole: string, fraction: string): string {
    (if negative then "-" else "") + whole + "." + fraction
  }

  predicate IsNumeral(s: string) { s != "" && AllDigits(s) }

  /** Value of the literal scaled by the power of ten of its fractional digits. */
  function Magnitude(whole: string, fraction: string): nat
    requires IsNumeral(whole) && IsNumeral(fraction)
  {
    Value(whole) * Pow10(|fraction|) + Value(fraction)
  }

  function Signed(negative: bool, magnitude: int): int { if negative then -magnitude else magnitude }

  lemma LiteralSplit(negative: bool, whole: string, fraction: string)
    requires IsNumeral(whole)
    ensures var signed := if negative then "-" + whole else whole;
      && SplitOnce(Literal(negative, whole, fraction), '.') == Some((signed, fraction))
      && signed != "" && (negative <==> signed[0] == '-') && (negative ==> signed[1..] == whole)
  {
    var signed := if negative then "-" + whole else whole;
    assert Literal(negative, whole, fraction) == signed + ['.'] + fraction;
    assert IsDigit(whole[0]);
    SplitAtFirst(signed, fraction, '.');
  }

  /** Digits without a sign are read as their value, up to the largest 64-bit integer. */
  lemma DigitsAsInteger(digits: string)
    requires IsNumeral(digits)
    ensures ParseInteger(digits, true, I64_MIN, I64_MAX) == if Value(digits) <= I64_MAX then Some(Value(digits))
      else None
  {
    assert IsDigit(digits[0]);
  }

  /** Every literal is either rejected as too precise or too large, or read as exactly
      the number it denotes. */
  lemma LiteralIsExact(negative: bool, whole: string, fraction: string)
    requires IsNumeral(whole) && IsNumeral(fraction)
    ensures ParseDecimal(Literal(negative, whole, fraction)) ==
      if |fraction| > MAX_SCALE || Magnitude(whole, fraction) > I64_MAX then Err(ValidationRejected)
      else Ok(Some(Decimal(Signed(negative, Magnitude(whole, fraction)), |fraction|)))
  {
    hide SplitOnce, Literal, Value, Pow10, ParseInteger;
    LiteralSplit(negative, whole, fraction);
    ValueOfConcatenation(whole, fraction);
    DigitsAsInteger(whole + fraction);
  }

  /** Only literals are read as numbers or rejected as numbers; any other text is no number. */
  lemma OnlyLiteralsAreNumbers(s: string)
    ensures ParseDecimal(s) != Ok(None) <==>
      exists negative, whole, fraction ::
        IsNumeral(whole) && IsNumeral(fraction) && s == Literal(negative, whole, fraction)
  {
    SplitRebuilds(s, '.');
    if ParseDecimal(s) != Ok(None) {
      var (whole, fraction) := SplitOnce(s, '.').value;
      var negative := |whole| > 0 && whole[0] == '-';
      var unsignedWhole := if negative then whole[1..] else whole;
      assert s == Literal(negative, unsignedWhole, fraction);
    }
    forall negative, whole, fraction | IsNumeral(whole) && IsNumeral(fraction)
      && s == Literal(negative, whole, fraction)
      ensures ParseDecimal(s) != Ok(None)
    {
      LiteralIsExact(negative, whole, fraction);
    }
  }

  // ---- Exactly the accepted texts ----

  /** The text is the decimal literal of the number, within the bounds of scale and size. */
  ghost predicate IsNumber(s: string, d: Decimal) {
    exists negative, whole, fraction :: IsNumberLiteral(s, d, negative, whole, fraction)
  }

  ghost predicate IsNumberLiteral(s: string, d: Decimal, negative: bool, whole: string, fraction: string) {
    && IsNumeral(whole) && IsNumeral(fraction) && s == Literal(negative, whole, fraction)
    && d == Decimal(Signed(negative, Magnitude(whole, fraction)), |fraction|)
    && |fraction| <= 18 && Magnitude(whole, fraction) < 0x8000_0000_0000_0000
  }

  ghost predicate IsLiteral(s: string) {
    exists negative, whole, fraction ::
      IsNumeral(whole) && IsNumeral(fraction) && s == Literal(negative, whole, fraction)
  }

  lemma ParseDecimalExactly(s: string, d: Decimal)
    ensures ParseDecimal(s) == Ok(Some(d)) <==> IsNumber(s, d)
    ensures ParseDecimal(s) == Ok(None) <==> !IsLiteral(s)
    ensures ParseDecimal(s).Err? ==> ParseDecimal(s) == Err(ValidationRejected)
  {
    hide ParseDecimal, Literal, Magnitude;
    OnlyLiteralsAreNumbers(s);
    forall negative, whole, fraction | IsNumeral(whole) && IsNumeral(fraction)
      && s == Literal(negative, whole, fraction)
      ensures ParseDecimal(s) == if |fraction| > MAX_SCALE
        || Magnitude(whole, fraction) > I64_MAX then Err(ValidationRejected)
        else Ok(Some(Decimal(Signed(negative, Magnitude(whole, fraction)), |fraction|)))
    {
      LiteralIsExact(negative, whole, fraction);
    }
    if ParseDecimal(s) == Ok(Some(d)) {
      var negative, whole, fraction :|
        IsNumeral(whole) && IsNumeral(fraction) && s == Literal(negative, whole, fraction);
      assert IsNumberLiteral(s, d, negative, whole, fraction);
    }
  }

  // ---- Round trips ----

  function Abs(n: int): nat { if n < 0 then -n else n }

  /** All digits of the coefficient, at least one of them before the point. */
  function Coefficient(d: Decimal): (digits: string)
    ensures AllDigits(digits) && |digits| > d.scale && Value(digits) == Abs(d.coefficient)
  {
    PaddedValue(Abs(d.coefficient), d.scale + 1);
    Padded(Abs(d.coefficient), d.scale + 1)
  }

  function WholeDigits(d: Decimal): string { Coefficient(d)[..|Coefficient(d)| - d.scale] }

  function FractionDigits(d: Decimal): string { Coefficient(d)[|Coefficient(d)| - d.scale..] }

  function RenderDecimal(d: Decimal): string {
    Literal(d.coefficient < 0, WholeDigits(d), FractionDigits(d))
  }

  /** The rendered form is read back exactly for scales 1 to 18 and coefficients up to 2^63 - 1
      in absolute value, and for no other number. */
  lemma DecimalRoundTrip(d: Decimal)
    ensures ParseDecimal(RenderDecimal(d)) == Ok(Some(d)) <==>
      1 <= d.scale <= MAX_SCALE && Abs(d.coefficient) <= I64_MAX
  {
    var negative, whole, fraction := d.coefficient < 0, WholeDigits(d), FractionDigits(d);
    hide ParseInteger, Coefficient, Value, Pow10;
    if d.scale == 0 {
      var signed := (if negative then "-" else "") + whole;
      SplitAtFirst(signed, "", '.');
      assert RenderDecimal(d) == signed + ['.'] + "";
    } else {
      assert whole + fraction == Coefficient(d);
      ValueOfConcatenation(whole, fraction);
      LiteralIsExact(negative, whole, fraction);
    }
  }

  /** Two decimals that can be held and not read back: one without a fraction, one of the least
      coefficient of 64 bits. */
  lemma UnreadableDecimals()
    ensures ParseDecimal(RenderDecimal(Decimal(5, 0))) != Ok(Some(Decimal(5, 0)))
    ensures ParseDecimal(RenderDecimal(Decimal(I64_MIN, 2))) != Ok(Some(Decimal(I64_MIN, 2)))
  {
    hide ParseDecimal, RenderDecimal;
    DecimalRoundTrip(Decimal(5, 0));
    DecimalRoundTrip(Decimal(I64_MIN, 2));
  }

  lemma {:induction false} WithoutCommasOfConcatenation(a: string, b: string)
    ensures WithoutCommas(a + b) == WithoutCommas(a) + WithoutCommas(b)
  {
    if a == [] {
      assert a + b == b;
    } else {
      var first, text := if a[0] == ',' then [] else [a[0]], a + b;
      assert WithoutCommas(a) == first + WithoutCommas(a[1..]);
      assert WithoutCommas(text) == first + WithoutCommas(text[1..]);
      hide WithoutCommas;
      WithoutCommasOfConcatenation(a[1..], b);
      assert text[1..] == a[1..] + b;
      assert first + (WithoutCommas(a[1..]) + WithoutCommas(b)) == first + WithoutCommas(a[1..]) + WithoutCommas(b);
    }
  }

  lemma WithoutCommasOfOne(c: char)
    ensures WithoutCommas([c]) == if c == ',' then "" else [c]
  {
  }

  lemma LeadingComma(s: string)
    ensures WithoutCommas("," + s) == WithoutCommas(s)
  {
    assert ("," + s)[1..] == s;
  }

  /** A comma anywhere after the dollar sign changes nothing, accepted or not. */
  lemma CommasAreIrrelevant(before: string, after: string)
    ensures ParseUsd("$" + before + "," + after) == ParseUsd("$" + before + after)
  {
    var grouped, plain := "$" + before + "," + after, "$" + before + after;
    assert grouped[1..] == before + ("," + after) && plain[1..] == before + after;
    WithoutCommasOfConcatenation(before, "," + after);
    WithoutCommasOfConcatenation(before, after);
    LeadingComma(after);
  }

  /** Digits in groups of three from the right, separated by commas. */
  function Grouped(digits: string): string {
    if |digits| <= 3 then digits
    else Grouped(digits[..|digits| - 3]) + "," + digits[|digits| - 3..]
  }

  lemma {:induction false} NoCommas(s: string)
    requires ',' !in s
    ensures WithoutCommas(s) == s
  {
    if s != [] {
      NoCommas(s[1..]);
    }
  }

  lemma {:induction false} UngroupedDigits(digits: string)
    requires ',' !in digits
    ensures WithoutCommas(Grouped(digits)) == digits
  {
    hide WithoutCommas;
    if |digits| <= 3 {
      NoCommas(digits);
    } else {
      var head, tail := digits[..|digits| - 3], digits[|digits| - 3..];
      UngroupedDigits(head);
      NoCommas(tail);
      LeadingComma(tail);
      assert Grouped(head) + "," + tail == Grouped(head) + ("," + tail);
      WithoutCommasOfConcatenation(Grouped(head), "," + tail);
    }
  }

  /** Dollars with grouped thousands, as in `$1,427.00`. */
  function RenderUsd(d: Decimal): string {
    "$" + (if d.coefficient < 0 then "-" else "") + Grouped(WholeDigits(d)) + "." + FractionDigits(d)
  }

  /** Grouped dollar amounts are read back exactly as far as the plain decimals are. */
  lemma UsdRoundTrip(d: Decimal)
    ensures ParseUsd(RenderUsd(d)) == Ok(Some(Money(d, "USD"))) <==>
      1 <= d.scale <= MAX_SCALE && Abs(d.coefficient) <= I64_MAX
  {
    hide WithoutCommas, ParseDecimal, Coefficient, Grouped, Value;
    var sign := if d.coefficient < 0 then "-" else "";
    var rest := "." + FractionDigits(d);
    assert RenderUsd(d)[1..] == sign + (Grouped(WholeDigits(d)) + rest);
    UngroupedDigits(WholeDigits(d));
    NoCommas(rest);
    NoCommas(sign);
    WithoutCommasOfConcatenation(Grouped(WholeDigits(d)), rest);
    WithoutCommasOfConcatenation(sign, Grouped(WholeDigits(d)) + rest);
    assert WithoutCommas(RenderUsd(d)[1..]) == RenderDecimal(d);
    DecimalRoundTrip(d);
  }
}
