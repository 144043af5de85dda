/** Normalised values of claims, and the reading of a scalar text as one of them. */
module Values {
  import opened Wrappers
  import opened Decimals
  import opened Digits
  import opened Temporal
  import opened Texts
  import IsoDates

  datatype TemporalValue =
    | ExactDate(date: Date, original: string)
    | Month(year: int, month: int, original: string)
    | Year(year: int, original: string)
    | BeforeDate(latest: Date, inclusive: bool, original: string)
    | AfterDate(earliest: Date, inclusive: bool, original: string)
    | Range(earliest: Date, latest: Date, original: string)
    | UnknownTime(original: string)

  datatype MaterialValue =
    | Text(text: string)
    | Integer(integer: int)
    | Number(number: Decimal)
    | Amount(amount: Money)
    | Boolean(truth: bool)
    | Day(day: Date)
    | Time(time: TemporalValue)

  datatype KnowledgeValue = Known(value: MaterialValue) | Unknown | NotApplicable | NotEvaluated

  function LowerAscii(c: char): char { if 'A' <= c <= 'Z' then c + 32 as char else c }

  predicate EqualIgnoringCase(s: string, t: string) {
    |s| == |t| && forall i :: 0 <= i < |s| ==> LowerAscii(s[i]) == LowerAscii(t[i])
  }

  function Normalize(original: string): Result<KnowledgeValue> {
    var trimmed := Trim(original);
    if EqualIgnoringCase(trimmed, "null") || EqualIgnoringCase(trimmed, "unknown") then Ok(Unknown)
    else if EqualIgnoringCase(trimmed, "true") then Ok(Known(Boolean(true)))
    else if EqualIgnoringCase(trimmed, "false") then Ok(Known(Boolean(false)))
    else if IsoDates.ParseIso(trimmed).Ok? then Ok(Known(Day(IsoDates.ParseIso(trimmed).value)))
    else match ParseUsd(trimmed)
      case Err(e) => Err(e)
      case Ok(Some(money)) => Ok(Known(Amount(money)))
      case Ok(None) =>
        match ParseInteger(trimmed, true, I64_MIN, I64_MAX)
        case Some(n) => Ok(Known(Integer(n)))
        case None =>
          match ParseDecimal(trimmed)
          case Err(e) => Err(e)
          case Ok(Some(d)) => Ok(Known(Number(d)))
          case Ok(None) => Ok(Known(Text(original)))
  }

  /** Dates, dollar amounts and decimals keep their kind and their exact value through
      rendering and normalisation: no earlier reading captures them. */
  lemma NormalizeRendered(date: Date, d: Decimal)
    requires IsDate(date) && 1 <= d.scale <= MAX_SCALE && Abs(d.coefficient) <= I64_MAX
    ensures Normalize(IsoDates.ToIso(date)) == Ok(Known(Day(date)))
    ensures Normalize(RenderUsd(d)) == Ok(Known(Amount(Money(d, "USD"))))
    ensures Normalize(RenderDecimal(d)) == Ok(Known(Number(d)))
  {
    NormalizeRenderedDate(date);
    NormalizeRenderedUsd(d);
    NormalizeRenderedDecimal(d);
  }

  lemma TrimmedAlready(s: string)
    requires s != "" && !IsWhitespace(s[0]) && !IsWhitespace(s[|s| - 1])
    ensures Trim(s) == s
  {
  }

  lemma NormalizeRenderedDate(date: Date)
    requires IsDate(date)
    ensures Normalize(IsoDates.ToIso(date)) == Ok(Known(Day(date)))
  {
    hide IsoDates.ToIso, IsoDates.ParseIso;
    var s := IsoDates.ToIso(date);
    IsoDates.ToIsoShape(date);
    IsoDates.ParseAfterRender(date);
    IsoDates.PaddedWidths(date);
    assert IsDigit(s[..4][0]) && IsDigit(s[8..][1]);
    TrimmedAlready(s);
  }

  lemma NormalizeRenderedUsd(d: Decimal)
    requires 1 <= d.scale <= MAX_SCALE && Abs(d.coefficient) <= I64_MAX
    ensures Normalize(RenderUsd(d)) == Ok(Known(Amount(Money(d, "USD"))))
  {
    hide ParseUsd, ParseDecimal, Coefficient, Trim, Grouped;
    var s := RenderUsd(d);
    UsdRoundTrip(d);
    assert s[0] == '$' && IsDigit(s[|s| - 1]);
    TrimmedAlready(s);
    assert IsoDates.ParseIso(s).Err? by {
      if |s| == 10 && s[4] == '-' && s[7] == '-' {
        assert s[..4][0] == '$';
        NotAnInteger(s[..4], 0, true, I32_MIN, I32_MAX);
      }
    }
  }

  /** A character that is no digit, and no sign in front, makes a text no integer. */
  lemma NotAnInteger(s: string, at: nat, signed: bool, min: int, max: int)
    requires at < |s| && !IsDigit(s[at]) && (at == 0 ==> s[0] != '+' && s[0] != '-')
    ensures ParseInteger(s, signed, min, max) == None
  {
    if at > 0 { assert s[1..][at - 1] == s[at]; }
  }

  lemma NormalizeRenderedDecimal(d: Decimal)
    requires 1 <= d.scale <= MAX_SCALE && Abs(d.coefficient) <= I64_MAX
    ensures Normalize(RenderDecimal(d)) == Ok(Known(Number(d)))
  {
    hide ParseDecimal, Coefficient, Trim, ParseInteger;
    var s, point := RenderDecimal(d), |RenderDecimal(d)| - d.scale - 1;
    DecimalRoundTrip(d);
    assert IsDigit(WholeDigits(d)[0]) && IsDigit(s[|s| - 1]);
    TrimmedAlready(s);
    assert s[point] == '.';
    NotAnInteger(s, point, true, I64_MIN, I64_MAX);
    assert forall i :: 0 < i < |s| ==> s[i] != '-';
    assert s[0] == '-' || IsDigit(s[0]);
  }

  // ---- Every reading, exactly ----

  /** The word with any of its letters in upper case. */
  ghost predicate IsCasing(s: string, word: string) {
    |s| == |word| && forall i :: 0 <= i < |s| ==> s[i] == word[i] || s[i] as int == word[i] as int - 32
  }

  predicate LowerCase(word: string) { forall i :: 0 <= i < |word| ==> 'a' <= word[i] <= 'z' }

  lemma CasingIsEqual(s: string, word: string)
    requires LowerCase(word)
    ensures EqualIgnoringCase(s, word) <==> IsCasing(s, word)
  {
  }

  predicate IsLetter(c: char) { 'a' <= c <= 'z' || 'A' <= c <= 'Z' }

  predicate IsNumeric(c: char) { IsDigit(c) || c == '+' || c == '-' }

  lemma IntegerShape(s: string, signed: bool, n: int)
    requires Denotes(s, signed, n)
    ensures s != "" && IsNumeric(s[0]) && forall i :: 0 < i < |s| ==> IsDigit(s[i])
  {
    var digits :| IsReading(s, signed, n, digits);
    assert IsDigit(digits[0]);
    if s != digits { assert s[1..] == digits; }
    hide Value;
  }

  lemma DateShape(s: string)
    requires IsoDates.ParseIso(s).Ok?
    ensures |s| == 10 && IsNumeric(s[0]) && s[4] == '-'
  {
    var d := IsoDates.ParseIso(s).value;
    IsoDates.ParseIsoExactly(s, d);
    IntegerShape(s[..4], true, d.year);
  }

  lemma LiteralShape(s: string)
    requires IsLiteral(s)
    ensures s != "" && IsNumeric(s[0]) && '.' in s && forall i :: 0 < i < |s| ==> s[i] != '-'
  {
    var negative, whole, fraction :| IsNumeral(whole) && IsNumeral(fraction) && s == Literal(negative, whole, fraction);
    assert IsDigit(whole[0]);
    var sign := if negative then "-" else "";
    assert s == sign + whole + "." + fraction && s[|sign| + |whole|] == '.';
  }

  /** No text has two of the forms, so the order in which they are tried does not matter. */
  lemma FormsExclude(s: string)
    ensures IsoDates.ParseIso(s).Ok? ==> |s| == 10 && IsNumeric(s[0]) && s[4] == '-'
    ensures (exists n :: Denotes(s, true, n)) ==>
      s != "" && IsNumeric(s[0]) && !IsLiteral(s) && IsoDates.ParseIso(s).Err?
    ensures IsLiteral(s) ==> s != "" && IsNumeric(s[0]) && IsoDates.ParseIso(s).Err?
  {
    hide Denotes, IsoDates.ParseIso, IsLiteral;
    if IsoDates.ParseIso(s).Ok? { DateShape(s); }
    if n :| Denotes(s, true, n) { IntegerShape(s, true, n); }
    if IsLiteral(s) { LiteralShape(s); }
  }

  /** An amount: a dollar sign before a literal that may have commas anywhere. */
  ghost predicate IsUsd(s: string, m: Money) {
    s != "" && s[0] == '$' && m.currency == "USD" && IsNumber(WithoutCommas(s[1..]), m.amount)
  }

  ghost predicate IsInt64(s: string, n: int) {
    Denotes(s, true, n) && -0x8000_0000_0000_0000 <= n < 0x8000_0000_0000_0000
  }

  ghost predicate IsUnknown(s: string) { IsCasing(s, "null") || IsCasing(s, "unknown") }

  ghost predicate IsTruth(s: string, b: bool) { IsCasing(s, if b then "true" else "false") }

  /** The text has the form of an amount or a number but is none that can be held. */
  ghost predicate IsRefused(s: string) {
    (s != "" && s[0] == '$' && !exists m :: IsUsd(s, m)) || (IsLiteral(s) && !exists d :: IsNumber(s, d))
  }

  ghost predicate HasForm(s: string) {
    IsUnknown(s) || (exists b :: IsTruth(s, b)) || (exists d :: IsoDates.ParseIso(s) == Ok(d))
    || (exists m :: IsUsd(s, m)) || (exists n :: IsInt64(s, n)) || (exists d :: IsNumber(s, d))
  }

  lemma WordsDecide(s: string)
    ensures EqualIgnoringCase(s, "null") || EqualIgnoringCase(s, "unknown") <==> IsUnknown(s)
    ensures EqualIgnoringCase(s, "true") <==> IsTruth(s, true)
    ensures EqualIgnoringCase(s, "false") <==> IsTruth(s, false)
    ensures IsUnknown(s) || IsTruth(s, true) || IsTruth(s, false) ==> s != "" && |s| < 10 && IsLetter(s[0])
    ensures (IsUnknown(s) ==> !IsTruth(s, true) && !IsTruth(s, false)) && !(IsTruth(s, true) && IsTruth(s, false))
  {
    CasingIsEqual(s, "null");
    CasingIsEqual(s, "unknown");
    CasingIsEqual(s, "true");
    CasingIsEqual(s, "false");
    assert IsCasing(s, "null") ==> s[0] != 't' && s[0] != 'T';
  }

  lemma UsdDecides(s: string)
    ensures forall m :: ParseUsd(s) == Ok(Some(m)) <==> IsUsd(s, m)
    ensures ParseUsd(s) == Ok(None) <==> s == "" || s[0] != '$'
    ensures ParseUsd(s).Err? ==> ParseUsd(s) == Err(ValidationRejected)
  {
    hide ParseDecimal, IsNumber;
    if s != "" && s[0] == '$' {
      var number := WithoutCommas(s[1..]);
      forall m: Money
        ensures ParseDecimal(number) == Ok(Some(m.amount)) <==> IsNumber(number, m.amount)
      {
        ParseDecimalExactly(number, m.amount);
      }
      ParseDecimalExactly(number, Decimal(0, 0));
    }
  }

  lemma NumbersDecide(s: string)
    ensures forall n :: ParseInteger(s, true, I64_MIN, I64_MAX) == Some(n) <==> IsInt64(s, n)
    ensures forall d :: ParseDecimal(s) == Ok(Some(d)) <==> IsNumber(s, d)
    ensures ParseDecimal(s) == Ok(None) <==> !IsLiteral(s)
    ensures ParseDecimal(s).Err? ==> ParseDecimal(s) == Err(ValidationRejected)
  {
    hide ParseDecimal, IsNumber, ParseInteger, Denotes, IsLiteral;
    forall n
      ensures ParseInteger(s, true, I64_MIN, I64_MAX) == Some(n) <==> IsInt64(s, n)
    {
      ParseIntegerExactly(s, true, I64_MIN, I64_MAX, n);
    }
    forall d
      ensures ParseDecimal(s) == Ok(Some(d)) <==> IsNumber(s, d)
    {
      ParseDecimalExactly(s, d);
    }
    ParseDecimalExactly(s, Decimal(0, 0));
  }

  /** Every reading of a text, exactly: each value is given for the texts of its form and no others,
      a number too large or too precise is refused, and any other text stays as it is. */
  lemma NormalizeExactly(original: string)
    ensures var s, r := Trim(original), Normalize(original);
      && (r == Ok(Unknown) <==> IsUnknown(s))
      && (forall b :: r == Ok(Known(Boolean(b))) <==> IsTruth(s, b))
      && (forall d :: r == Ok(Known(Day(d))) <==> IsoDates.ParseIso(s) == Ok(d))
      && (forall m :: r == Ok(Known(Amount(m))) <==> IsUsd(s, m))
      && (forall n :: r == Ok(Known(Integer(n))) <==> IsInt64(s, n))
      && (forall d :: r == Ok(Known(Number(d))) <==> IsNumber(s, d))
      && (r == Err(ValidationRejected) <==> IsRefused(s))
      && (r == Ok(Known(Text(original))) <==> !HasForm(s) && !IsRefused(s))
  {
    hide Trim, ParseInteger, ParseDecimal, ParseUsd, IsoDates.ParseIso, Denotes, IsLiteral, IsNumber, IsUsd, IsUnknown,
      IsTruth, EqualIgnoringCase;
    var s := Trim(original);
    WordsDecide(s);
    UsdDecides(s);
    NumbersDecide(s);
    FormsExclude(s);
  }

  /** Integers keep their kind and value through rendering and normalisation, too. */
  lemma NormalizeInteger(n: int)
    requires I64_MIN <= n <= I64_MAX
    ensures Normalize(RenderInteger(n)) == Ok(Known(Integer(n)))
  {
    hide Trim, Normalize, Denotes, Padded, IsoDates.ParseIso;
    var s := RenderInteger(n);
    RenderedDenotes(n);
    IntegerShape(s, true, n);
    NormalizeExactly(s);
    TrimmedAlready(s);
  }

  /** What is read does not depend on whitespace around the text, unless the text is kept as it is. */
  lemma WhitespaceIsIrrelevant(before: string, core: string, after: string)
    requires AllWhitespace(before) && AllWhitespace(after) && BareEnds(core) && (HasForm(core) || IsRefused(core))
    ensures Normalize(before + core + after) == Normalize(core)
  {
    TrimExactly(before, core, after);
    TrimExactly("", core, "");
    assert "" + core + "" == core;
    NormalizeExactly(before + core + after);
    NormalizeExactly(core);
    hide Trim, Normalize, HasForm, IsRefused, IsUsd, IsNumber, IsInt64, IsTruth, IsUnknown, IsoDates.ParseIso;
  }
}
