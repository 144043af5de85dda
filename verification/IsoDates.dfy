/** The `YYYY-MM-DD` text of a date, as stored in deadline rows and found in documents. */
module IsoDates {
  import opened Wrappers
  import opened Digits
  import opened Temporal

  function ToIso(d: Date): string
    requires IsDate(d)
  {
    Padded(d.year, 4) + "-" + Padded(d.month, 2) + "-" + Padded(d.day, 2)
  }

  function ParseIso(s: string): Result<Date> {
    if |s| != 10 || s[4] != '-' || s[7] != '-' then Err(InvalidInput)
    else
      var year := ParseInteger(s[..4], true, I32_MIN, I32_MAX);
      var month := ParseInteger(s[5..7], false, 0, 255);
      var day := ParseInteger(s[8..], false, 0, 255);
      if year.None? || month.None? || day.None? then Err(InvalidInput)
      else New(year.value, month.value, day.value)
  }

  lemma ToIsoShape(d: Date)
    requires IsDate(d)
    ensures |ToIso(d)| == 10 && ToIso(d)[4] == '-' && ToIso(d)[7] == '-'
    ensures ToIso(d)[..4] == Padded(d.year, 4) && ToIso(d)[5..7] == Padded(d.month, 2)
      && ToIso(d)[8..] == Padded(d.day, 2)
  {
    PaddedWidths(d);
  }

  lemma PaddedWidths(d: Date)
    requires IsDate(d)
    ensures |Padded(d.year, 4)| == 4 && |Padded(d.month, 2)| == 2 && |Padded(d.day, 2)| == 2
  {
    assert Pow10(4) == 10_000 && Pow10(2) == 100;
    PaddedValue(d.year, 4);
    PaddedValue(d.month, 2);
    PaddedValue(d.day, 2);
  }

  /** Every date is read back from its own text. */
  lemma ParseAfterRender(d: Date)
    requires IsDate(d)
    ensures ParseIso(ToIso(d)) == Ok(d)
  {
    hide ToIso;
    ToIsoShape(d);
    PaddedWidths(d);
    PaddedValue(d.year, 4);
    PaddedValue(d.month, 2);
    PaddedValue(d.day, 2);
  }

  /** An accepted text is canonical exactly when no component begins with `+`. */
  lemma RenderAfterParse(s: string)
    requires ParseIso(s).Ok?
    ensures IsDate(ParseIso(s).value)
    ensures ToIso(ParseIso(s).value) == s <==> s[0] != '+' && s[5] != '+' && s[8] != '+'
  {
    hide ToIso, ParseInteger;
    var d := ParseIso(s).value;
    ToIsoShape(d);
    ParsedPositive(s[..4], true, I32_MIN, I32_MAX);
    ParsedPositive(s[5..7], false, 0, 255);
    ParsedPositive(s[8..], false, 0, 255);
    SameTexts(ToIso(d), s);
  }

  /** Exactly the texts of three integers of 4, 2 and 2 characters that make a date are read as it. */
  lemma ParseIsoExactly(s: string, d: Date)
    ensures ParseIso(s) == Ok(d) <==>
      && |s| == 10 && s[4] == '-' && s[7] == '-' && IsCivil(d) && 1 <= d.year <= 9999
      && Denotes(s[..4], true, d.year) && Denotes(s[5..7], false, d.month) && Denotes(s[8..], false, d.day)
  {
    hide ParseInteger, Denotes;
    if |s| == 10 && s[4] == '-' && s[7] == '-' {
      ParseIntegerExactly(s[..4], true, I32_MIN, I32_MAX, d.year);
      ParseIntegerExactly(s[5..7], false, 0, 255, d.month);
      ParseIntegerExactly(s[8..], false, 0, 255, d.day);
    }
  }

  /** A text that is read as a date and is not that date's own text. */
  lemma PlusIsAccepted()
    ensures ParseIso("+123-01-01") == Ok(Date(123, 1, 1)) && ToIso(Date(123, 1, 1)) != "+123-01-01"
  {
    ParsePlus();
    hide ParseIso, ToIso;
    RenderAfterParse("+123-01-01");
  }

  lemma ParsePlus()
    ensures ParseIso("+123-01-01") == Ok(Date(123, 1, 1))
  {
    var s: string := "+123-01-01";
    assert s[..4] == "+123" && s[5..7] == "01" && s[8..] == "01";
    assert "+123"[1..] == "123" && Value("123") == 123 && Value("01") == 1 by {
      assert "123"[..2] == "12" && "12"[..1] == "1" && "1"[..0] == "" && "01"[..1] == "0" && "0"[..0] == "";
      assert Value("1") == 1 && Value("12") == 12 && Value("0") == 0;
    }
    assert ParseInteger("+123", true, I32_MIN, I32_MAX) == Some(123) && ParseInteger("01", false, 0, 255) == Some(1);
  }

  lemma SameTexts(s: string, t: string)
    requires |s| == |t| == 10 && s[4] == t[4] && s[7] == t[7]
    ensures s == t <==> s[..4] == t[..4] && s[5..7] == t[5..7] && s[8..] == t[8..]
  {
    assert s == s[..4] + [s[4]] + s[5..7] + [s[7]] + s[8..];
    assert t == t[..4] + [t[4]] + t[5..7] + [t[7]] + t[8..];
  }
}
