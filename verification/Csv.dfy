/** The one-pass CSV reader: quoted fields, doubled quotes, CRLF or LF record ends. */
module Csv {
  import opened Wrappers

  type Record = seq<string>

  /** Everything the reader carries from one character to the next. */
  datatype Reader = Reader(records: seq<Record>, record: Record, field: string, quoted: bool)

  predicate HasContent(record: Record) { exists i :: 0 <= i < |record| && record[i] != "" }

  /** A record is kept unless all of its fields are empty. */
  function Kept(record: Record): seq<Record> { if HasContent(record) then [record] else [] }

  function ChopReturn(field: string): string {
    if field != "" && field[|field| - 1] == '\r' then field[..|field| - 1] else field
  }

  function Feed(r: Reader, c: char): Reader {
    if c == '"' then r.(quoted := !r.quoted)
    else if c == ',' && !r.quoted then r.(record := r.record + [r.field], field := "")
    else if c == '\n' && !r.quoted then
      Reader(r.records + Kept(r.record + [ChopReturn(r.field)]), [], "", false)
    else r.(field := r.field + [c])
  }

  predicate AtDoubledQuote(text: string, r: Reader) {
    r.quoted && |text| >= 2 && text[0] == '"' && text[1] == '"'
  }

  function Scan(text: string, r: Reader): Reader {
    if text == [] then r
    else if AtDoubledQuote(text, r) then Scan(text[2..], r.(field := r.field + ['"']))
    else Scan(text[1..], Feed(r, text[0]))
  }

  const START := Reader([], [], "", false)

  function Finish(r: Reader): Result<seq<Record>> {
    if r.quoted then Err(MalformedInput)
    else if r.field != "" || r.record != [] then Ok(r.records + [r.record + [r.field]])
    else Ok(r.records)
  }

  function Parsed(text: string): Result<seq<Record>> { Finish(Scan(text, START)) }

  /** The reader itself: growing buffers and a flag, one pass over the text. */
  method ParseCsv(text: string) returns (result: Result<seq<Record>>)
    ensures result == Parsed(text)
  {
    var records: seq<Record>, record: Record, field, quoted := [], [], "", false;
    var i := 0;
    while i < |text|
      invariant 0 <= i <= |text|
      invariant Scan(text[i..], Reader(records, record, field, quoted)) == Scan(text, START)
    {
      var c := text[i];
      ghost var before, was := text[i..], Reader(records, record, field, quoted);
      assert before[1..] == text[i + 1..] && before[0] == c;
      i := i + 1;
      if c == '"' && quoted && i < |text| && text[i] == '"' {
        assert before[2..] == text[i + 1..] && AtDoubledQuote(before, was);
        field := field + ['"'];
        i := i + 1;
      } else if c == '"' {
        quoted := !quoted;
      } else if c == ',' && !quoted {
        record, field := record + [field], "";
      } else if c == '\n' && !quoted {
        if field != "" && field[|field| - 1] == '\r' {
          field := field[..|field| - 1];
        }
        record, field := record + [field], "";
        if HasContent(record) {
          records, record := records + [record], [];
        } else {
          record := [];
        }
      } else {
        field := field + [c];
      }
      assert !AtDoubledQuote(before, was) ==> Reader(records, record, field, quoted) == Feed(was, c);
    }
    assert text[i..] == [];
    if quoted {
      return Err(MalformedInput);
    }
    if field != "" || record != [] {
      record := record + [field];
      records := records + [record];
    }
    return Ok(records);
  }

  // ---- Unterminated quotes ----

  function Quotes(text: string): nat {
    if text == [] then 0 else (if text[0] == '"' then 1 else 0) + Quotes(text[1..])
  }

  lemma {:induction false} ScanCountsQuotes(text: string, r: Reader)
    ensures Scan(text, r).quoted <==> (Quotes(text) % 2 == 1) != r.quoted
    decreases |text|
  {
    if text == [] {
    } else if AtDoubledQuote(text, r) {
      assert text[1..][1..] == text[2..];
      assert Quotes(text) == 2 + Quotes(text[2..]);
      ScanCountsQuotes(text[2..], r.(field := r.field + ['"']));
    } else {
      ScanCountsQuotes(text[1..], Feed(r, text[0]));
    }
  }

  /** Parsing fails exactly on an odd number of quote characters, escaped or not. */
  lemma FailsOnOddQuotes(text: string)
    ensures Parsed(text).Err? <==> Quotes(text) % 2 == 1
    ensures Parsed(text).Err? ==> Parsed(text).error == MalformedInput
  {
    ScanCountsQuotes(text, START);
  }

  // ---- Writers, after section 2 of RFC 4180, and the round trips ----

  /** A field is written in parts: text between quotes, or bare text that needs none. */
  datatype Part = Quoted(text: string) | Bare(text: string)

  type Written = seq<Part>

  predicate IsPlain(text: string) {
    forall i :: 0 <= i < |text| ==> text[i] != '"' && text[i] != ',' && text[i] != '\n'
  }

  predicate IsPart(p: Part) { p.Bare? ==> p.text != "" && IsPlain(p.text) }

  /** Quoted parts do not touch, as their quotes would then count as one in the text. */
  predicate IsWritable(w: Written) {
    && (forall i :: 0 <= i < |w| ==> IsPart(w[i]))
    && forall i :: 0 <= i < |w| - 1 ==> w[i].Bare? || w[i + 1].Bare?
  }

  function TextOf(w: Written): string { if w == [] then "" else w[0].text + TextOf(w[1..]) }

  predicate AreWritable(line: seq<Written>) { forall i :: 0 <= i < |line| ==> IsWritable(line[i]) }

  predicate AllWritable(lines: seq<seq<Written>>) { forall i :: 0 <= i < |lines| ==> AreWritable(lines[i]) }

  /** What is written, whatever the choice of quotes. */
  function TextsOf(line: seq<Written>): (record: Record)
    ensures |record| == |line| && forall i :: 0 <= i < |line| ==> record[i] == TextOf(line[i])
  {
    if line == [] then [] else [TextOf(line[0])] + TextsOf(line[1..])
  }

  function RecordsOf(lines: seq<seq<Written>>): (records: seq<Record>)
    ensures |records| == |lines| && forall i :: 0 <= i < |lines| ==> records[i] == TextsOf(lines[i])
  {
    if lines == [] then [] else [TextsOf(lines[0])] + RecordsOf(lines[1..])
  }

  function Doubled(field: string): string {
    if field == "" then "" else (if field[0] == '"' then "\"\"" else [field[0]]) + Doubled(field[1..])
  }

  function RenderField(w: Written): string { if w == [] then "" else RenderPart(w[0]) + RenderField(w[1..]) }

  function RenderPart(p: Part): string {
    match p
    case Quoted(text) => "\"" + Doubled(text) + "\""
    case Bare(text) => text
  }

  function RenderRecord(line: seq<Written>, ending: string): string {
    if line == [] then ending
    else RenderField(line[0]) + (if |line| == 1 then ending else "," + RenderRecord(line[1..], ending))
  }

  function Render(lines: seq<seq<Written>>, ending: string): string {
    if lines == [] then "" else RenderRecord(lines[0], ending) + Render(lines[1..], ending)
  }

  predicate IsEnding(ending: string) { ending == "\r\n" || ending == "\n" }

  /** What the reader makes of a written record: a bare line feed costs its last field a final
      carriage return. */
  function ReadBack(record: Record, ending: string): Record {
    if record == [] then [""]
    else if ending == "\r\n" then record
    else record[..|record| - 1] + [ChopReturn(record[|record| - 1])]
  }

  function AllReadBack(records: seq<Record>, ending: string): seq<Record> {
    if records == [] then [] else Kept(ReadBack(records[0], ending)) + AllReadBack(records[1..], ending)
  }

  /** Doubled quotes are read as one, up to the closing quote. */
  lemma {:induction false} ScanQuoted(field: string, rest: string, r: Reader)
    requires r.quoted && (rest == "" || rest[0] != '"')
    ensures Scan(Doubled(field) + "\"" + rest, r) == Scan(rest, r.(field := r.field + field, quoted := false))
  {
    var text := Doubled(field) + "\"" + rest;
    if field == "" {
      assert text == "\"" + rest && text[1..] == rest;
      assert r.field + field == r.field;
    } else {
      var tail := Doubled(field[1..]) + "\"" + rest;
      ScanQuoted(field[1..], rest, r.(field := r.field + [field[0]]));
      assert r.field + [field[0]] + field[1..] == r.field + field;
      assert text == (if field[0] == '"' then "\"\"" else [field[0]]) + tail;
    }
  }

  /** Bare fields are read as they are. */
  lemma {:induction false} ScanBare(field: string, rest: string, r: Reader)
    requires !r.quoted && IsPlain(field)
    ensures Scan(field + rest, r) == Scan(rest, r.(field := r.field + field))
  {
    if field == "" {
      assert field + rest == rest && r.field + field == r.field;
    } else {
      assert (field + rest)[1..] == field[1..] + rest;
      ScanBare(field[1..], rest, r.(field := r.field + [field[0]]));
      assert r.field + [field[0]] + field[1..] == r.field + field;
    }
  }

  lemma ScanPart(p: Part, rest: string, r: Reader)
    requires !r.quoted && IsPart(p) && (p.Quoted? && rest != "" ==> rest[0] != '"')
    ensures Scan(RenderPart(p) + rest, r) == Scan(rest, r.(field := r.field + p.text))
  {
    hide Scan;
    if p.Quoted? { ScanQuotedPart(p.text, rest, r); } else { ScanBare(p.text, rest, r); }
  }

  lemma {:induction false} ScanParts(w: Written, rest: string, r: Reader)
    requires !r.quoted && (rest == "" || rest[0] != '"') && IsWritable(w)
    ensures Scan(RenderField(w) + rest, r) == Scan(rest, r.(field := r.field + TextOf(w)))
  {
    hide Scan, IsWritable, RenderPart;
    if w == [] {
      assert "" + rest == rest && r.field + "" == r.field;
    } else {
      var part, later, joined := RenderPart(w[0]), RenderField(w[1..]) + rest, r.field + w[0].text;
      AfterPart(w, rest);
      assert RenderField(w) + rest == part + later;
      assert joined + TextOf(w[1..]) == r.field + TextOf(w);
      hide RenderField, TextOf;
      ScanPart(w[0], later, r);
      ScanParts(w[1..], rest, r.(field := joined));
    }
  }

  lemma AfterPart(w: Written, rest: string)
    requires w != [] && IsWritable(w) && (rest == "" || rest[0] != '"')
    ensures IsPart(w[0]) && IsWritable(w[1..])
    ensures var later := RenderField(w[1..]) + rest; w[0].Quoted? && later != "" ==> later[0] != '"'
  {
    if |w| > 1 && w[1].Bare? { assert RenderField(w[1..]) == w[1].text + RenderField(w[1..][1..]); }
  }

  lemma ScanField(w: Written, rest: string, r: Reader)
    requires !r.quoted && r.field == "" && (rest == "" || rest[0] != '"') && IsWritable(w)
    ensures Scan(RenderField(w) + rest, r) == Scan(rest, r.(field := TextOf(w)))
  {
    hide Scan, IsWritable, TextOf, RenderField;
    ScanParts(w, rest, r);
    assert "" + TextOf(w) == TextOf(w);
  }

  lemma ScanQuotedPart(text: string, rest: string, r: Reader)
    requires !r.quoted && (rest == "" || rest[0] != '"')
    ensures Scan("\"" + Doubled(text) + "\"" + rest, r) == Scan(rest, r.(field := r.field + text))
  {
    var body := Doubled(text) + "\"" + rest;
    hide Scan, Doubled;
    assert "\"" + Doubled(text) + "\"" + rest == "\"" + body;
    OpenQuote(body, r);
    ScanQuoted(text, rest, r.(quoted := true));
  }

  lemma OpenQuote(body: string, r: Reader)
    requires !r.quoted
    ensures Scan("\"" + body, r) == Scan(body, r.(quoted := true))
  {
    assert ("\"" + body)[1..] == body;
  }

  lemma ScanEnding(ending: string, rest: string, r: Reader)
    requires !r.quoted && IsEnding(ending)
    ensures Scan(ending + rest, r) ==
      Scan(rest, Reader(r.records + Kept(r.record + [if ending == "\r\n" then r.field else ChopReturn(r.field)]), [],
        "", false))
  {
    var text := ending + rest;
    if ending == "\r\n" {
      assert text[1..] == "\n" + rest && text[1..][1..] == rest;
      assert ChopReturn(r.field + ['\r']) == r.field;
    } else {
      assert text[1..] == rest;
    }
  }

  lemma {:induction false} ScanRecord(line: seq<Written>, ending: string, rest: string, r: Reader)
    requires !r.quoted && r.field == "" && IsEnding(ending) && AreWritable(line)
    ensures Scan(RenderRecord(line, ending) + rest, r) ==
      Scan(rest, Reader(r.records + Kept(r.record + ReadBack(TextsOf(line), ending)), [], "", false))
  {
    hide Kept, ReadBack, RenderField;
    var text, record := RenderRecord(line, ending) + rest, TextsOf(line);
    ReadBackParts(record, ending);
    if line == [] {
      ScanEnding(ending, rest, r);
    } else if |line| == 1 {
      assert text == RenderField(line[0]) + (ending + rest);
      ScanField(line[0], ending + rest, r);
      ScanEnding(ending, rest, r.(field := record[0]));
    } else {
      var tail := "," + RenderRecord(line[1..], ending) + rest;
      assert text == RenderField(line[0]) + tail;
      ScanField(line[0], tail, r);
      assert tail[1..] == RenderRecord(line[1..], ending) + rest;
      ScanRecord(line[1..], ending, rest, r.(record := r.record + [record[0]]));
      assert r.record + [record[0]] + ReadBack(record[1..], ending) == r.record + ReadBack(record, ending);
    }
  }

  /** A last record without a line break stays in the reader, its last field unfinished. */
  lemma {:induction false} ScanUnbroken(line: seq<Written>, r: Reader)
    requires !r.quoted && r.field == "" && AreWritable(line)
    ensures Scan(RenderRecord(line, ""), r) ==
      if line == [] then r
      else r.(record := r.record + TextsOf(line)[..|line| - 1], field := TextOf(line[|line| - 1]))
  {
    hide Scan, RenderField, RenderRecord, TextsOf;
    RenderParts(line);
    if line == [] {
      NothingLeft(r);
    } else if |line| == 1 {
      assert r.record + TextsOf(line)[..0] == r.record;
      ScanField(line[0], "", r);
      NothingLeft(r.(field := TextOf(line[0])));
    } else {
      var rest := RenderRecord(line[1..], "");
      ScanField(line[0], "," + rest, r);
      ScanComma(rest, r.(field := TextOf(line[0])));
      UnbrokenParts(line, r.record);
      ScanUnbroken(line[1..], r.(record := r.record + [TextOf(line[0])], field := ""));
    }
  }

  lemma RenderParts(line: seq<Written>)
    ensures line == [] ==> RenderRecord(line, "") == ""
    ensures |line| == 1 ==> RenderRecord(line, "") == RenderField(line[0]) + ""
    ensures |line| > 1 ==> RenderRecord(line, "") == RenderField(line[0]) + ("," + RenderRecord(line[1..], ""))
  {
    hide RenderField;
  }

  lemma UnbrokenParts(line: seq<Written>, before: Record)
    requires |line| > 1
    ensures before + [TextOf(line[0])] + TextsOf(line[1..])[..|line| - 2] == before + TextsOf(line)[..|line| - 1]
  {
    var texts := TextsOf(line[1..]);
    assert TextsOf(line) == [TextOf(line[0])] + texts;
    hide TextsOf;
    FirstAndRest(before, TextOf(line[0]), texts);
  }

  lemma FirstAndRest(before: Record, first: string, rest: Record)
    requires |rest| > 0
    ensures before + [first] + rest[..|rest| - 1] == before + ([first] + rest)[..|rest|]
  {
    assert ([first] + rest)[..|rest|] == [first] + rest[..|rest| - 1];
  }

  lemma ScanComma(rest: string, r: Reader)
    requires !r.quoted
    ensures Scan("," + rest, r) == Scan(rest, r.(record := r.record + [r.field], field := ""))
  {
    assert ("," + rest)[1..] == rest;
  }

  lemma ReadBackParts(record: Record, ending: string)
    ensures record == [] ==> ReadBack(record, ending) == [""]
    ensures |record| == 1 ==>
      ReadBack(record, ending) == [if ending == "\r\n" then record[0] else ChopReturn(record[0])]
    ensures |record| > 1 ==> ReadBack(record, ending) == [record[0]] + ReadBack(record[1..], ending)
  {
  }

  lemma {:induction false} ScanRecords(lines: seq<seq<Written>>, ending: string, rest: string, done: seq<Record>)
    requires IsEnding(ending) && AllWritable(lines)
    ensures Scan(Render(lines, ending) + rest, Reader(done, [], "", false)) ==
      Scan(rest, Reader(done + AllReadBack(RecordsOf(lines), ending), [], "", false))
  {
    hide Scan, RenderRecord, ReadBack, Kept, AreWritable;
    if lines == [] {
      assert "" + rest == rest && done + [] == done;
    } else {
      var back := ReadBack(TextsOf(lines[0]), ending);
      var later := Render(lines[1..], ending) + rest;
      assert Render(lines, ending) + rest == RenderRecord(lines[0], ending) + later;
      ScanRecord(lines[0], ending, later, Reader(done, [], "", false));
      assert [] + back == back;
      ScanRecords(lines[1..], ending, rest, done + Kept(back));
      assert done + Kept(back) + AllReadBack(RecordsOf(lines[1..]), ending) == done
        + AllReadBack(RecordsOf(lines), ending);
    }
  }

  lemma NothingLeft(r: Reader)
    ensures Scan("", r) == r
  {
  }

  lemma {:induction false} AllReadBackIsIdentity(records: seq<Record>, ending: string)
    ensures |AllReadBack(records, ending)| <= |records|
    ensures AllReadBack(records, ending) == records <==>
      forall i :: 0 <= i < |records| ==> HasContent(records[i]) && ReadBack(records[i], ending) == records[i]
  {
    if records != [] {
      var back, rest := ReadBack(records[0], ending), AllReadBack(records[1..], ending);
      AllReadBackIsIdentity(records[1..], ending);
      assert records == [records[0]] + records[1..];
      if HasContent(back) {
        assert AllReadBack(records, ending)[0] == back && AllReadBack(records, ending)[1..] == rest;
      }
    }
  }

  /** Reading undoes writing with CRLF, whatever fields are quoted, exactly on the lists whose records
      all have a non-empty field; all-empty records are dropped, everything else survives. */
  lemma CrlfRoundTrip(lines: seq<seq<Written>>)
    requires AllWritable(lines)
    ensures Parsed(Render(lines, "\r\n")) == Ok(AllReadBack(RecordsOf(lines), "\r\n"))
    ensures Parsed(Render(lines, "\r\n")) == Ok(RecordsOf(lines)) <==>
      forall i :: 0 <= i < |lines| ==> HasContent(TextsOf(lines[i]))
  {
    hide Scan, Render, AllReadBack, AllWritable;
    WrittenIsRead(lines, "\r\n");
    AllReadBackIsIdentity(RecordsOf(lines), "\r\n");
  }

  lemma WrittenIsRead(lines: seq<seq<Written>>, ending: string)
    requires IsEnding(ending) && AllWritable(lines)
    ensures Parsed(Render(lines, ending)) == Ok(AllReadBack(RecordsOf(lines), ending))
  {
    hide Scan, Render, AllReadBack, AllWritable;
    ScanRecords(lines, ending, "", []);
    assert Render(lines, ending) + "" == Render(lines, ending);
    assert [] + AllReadBack(RecordsOf(lines), ending) == AllReadBack(RecordsOf(lines), ending);
    NothingLeft(Reader(AllReadBack(RecordsOf(lines), ending), [], "", false));
  }

  /** With bare line feeds no record may end in a carriage return either, quoted or not. */
  lemma LineFeedRoundTrip(lines: seq<seq<Written>>)
    requires AllWritable(lines)
    ensures Parsed(Render(lines, "\n")) == Ok(RecordsOf(lines)) <==>
      forall i :: 0 <= i < |lines| ==>
        var record := TextsOf(lines[i]);
        HasContent(record) && ChopReturn(record[|record| - 1]) == record[|record| - 1]
  {
    hide Scan, Render, AllReadBack, AllWritable, ReadBack, ChopReturn, HasContent, Parsed;
    WrittenIsRead(lines, "\n");
    AllReadBackIsIdentity(RecordsOf(lines), "\n");
    forall i | 0 <= i < |lines| && HasContent(TextsOf(lines[i]))
      ensures var record := TextsOf(lines[i]);
        |record| > 0 && (ReadBack(record, "\n") == record <==> ChopReturn(record[|record| - 1]) == record[|record| - 1])
    {
      LineFeedCostsReturn(TextsOf(lines[i]));
    }
  }

  lemma LineFeedCostsReturn(record: Record)
    requires HasContent(record)
    ensures |record| > 0
    ensures ReadBack(record, "\n") == record <==> ChopReturn(record[|record| - 1]) == record[|record| - 1]
  {
    hide ChopReturn;
    assert record == record[..|record| - 1] + [record[|record| - 1]];
  }

  /** The last record may go without its line break. Then it is read whole, empty fields and final
      carriage returns included, unless it has no field or is a single empty one. */
  lemma UnbrokenRoundTrip(lines: seq<seq<Written>>, last: seq<Written>, ending: string)
    requires IsEnding(ending) && AllWritable(lines) && AreWritable(last)
    ensures var record := TextsOf(last); var before := AllReadBack(RecordsOf(lines), ending);
      Parsed(Render(lines, ending) + RenderRecord(last, "")) ==
        Ok(before + if record == [] || record == [""] then [] else [record])
    ensures var record := TextsOf(last);
      Parsed(Render(lines, ending) + RenderRecord(last, "")) == Ok(RecordsOf(lines) + [record]) <==>
        && Parsed(Render(lines, ending)) == Ok(RecordsOf(lines)) && record != [] && record != [""]
  {
    hide Scan, Render, AllReadBack, AllWritable, AreWritable, RenderRecord, Parsed;
    var records, record, before := RecordsOf(lines), TextsOf(last), AllReadBack(RecordsOf(lines), ending);
    WrittenIsRead(lines, ending);
    UnbrokenIsRead(lines, last, ending);
    AllReadBackIsIdentity(records, ending);
    hide TextsOf, RecordsOf;
    assert before + [] == before;
    if before + [record] == records + [record] {
      assert before == (before + [record])[..|before|] && records == (records + [record])[..|records|];
    }
  }

  lemma UnbrokenIsRead(lines: seq<seq<Written>>, last: seq<Written>, ending: string)
    requires IsEnding(ending) && AllWritable(lines) && AreWritable(last)
    ensures var record, before := TextsOf(last), AllReadBack(RecordsOf(lines), ending);
      Parsed(Render(lines, ending) + RenderRecord(last, "")) ==
        Ok(before + if record == [] || record == [""] then [] else [record])
  {
    hide Scan, Render, AllReadBack, AllWritable, AreWritable, RenderRecord, Finish;
    var record, before := TextsOf(last), AllReadBack(RecordsOf(lines), ending);
    ScanRecords(lines, ending, RenderRecord(last, ""), []);
    assert [] + before == before;
    ScanUnbroken(last, Reader(before, [], "", false));
    hide TextsOf, RecordsOf;
    if last != [] {
      assert [] + record[..|last| - 1] == record[..|last| - 1];
    }
    FinishUnbroken(before, record);
  }

  lemma FinishUnbroken(before: seq<Record>, record: Record)
    ensures record == [] ==> Finish(Reader(before, [], "", false)) == Ok(before + [])
    ensures record != [] ==>
      Finish(Reader(before, record[..|record| - 1], record[|record| - 1], false)) ==
        Ok(before + if record == [""] then [] else [record])
  {
    if record != [] {
      var fields, field := record[..|record| - 1], record[|record| - 1];
      assert fields + [field] == record;
      assert |fields| == |record| - 1;
    }
    assert before + [] == before;
  }

  lemma OneQuoted(text: string)
    ensures IsWritable([Quoted(text)]) && TextOf([Quoted(text)]) == text
    ensures RenderField([Quoted(text)]) == "\"" + Doubled(text) + "\""
  {
    assert [Quoted(text)][1..] == [];
  }

  /** A quoted carriage return before a bare line feed is lost. */
  lemma LineFeedLosesReturn()
    ensures Render([[[Quoted("a\r")]]], "\n") == "\"a\r\"\n"
    ensures Parsed("\"a\r\"\n") != Ok([["a\r"]])
  {
    var line := [[Quoted("a\r")]];
    OneQuoted("a\r");
    LineFeedRoundTrip([line]);
    assert TextsOf([line][0]) == ["a\r"] && RecordsOf([line]) == [["a\r"]] && ChopReturn("a\r") == "a";
    assert Doubled("a\r") == "a\r" by {
      assert "a\r"[1..] == "\r" && "\r"[1..] == "" && Doubled("\r") == "\r";
    }
    hide Scan, RenderField;
    assert Render([line], "\n") == RenderField([Quoted("a\r")]) + "\n";
  }

  /** A record of one empty field is dropped. */
  lemma EmptyRecordIsDropped()
    ensures Parsed(Render([[[Quoted("")]]], "\r\n")) == Ok([])
  {
    hide Scan;
    var line := [[Quoted("")]];
    OneQuoted("");
    CrlfRoundTrip([line]);
    assert TextsOf([line][0]) == [""] && RecordsOf([line]) == [[""]];
    assert AllReadBack([[""]], "\r\n") == [];
  }
}
