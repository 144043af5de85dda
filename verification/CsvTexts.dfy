/** Every text with paired quotes is a written table, so the round trips tell what every text is read as. */
module CsvTexts {
  import opened Wrappers
  import opened Csv

  /** Lines that end in a line feed, and a last one without. */
  function RenderAll(lines: seq<seq<Written>>, last: seq<Written>): string {
    Render(lines, "\n") + RenderRecord(last, "")
  }

  /** A way to write a text, every line of which has a field. */
  ghost predicate IsWriting(text: string, lines: seq<seq<Written>>, last: seq<Written>) {
    && AllWritable(lines) && AreWritable(last) && (forall i :: 0 <= i < |lines| ==> lines[i] != []) && last != []
    && text == RenderAll(lines, last)
  }

  function FirstOf(lines: seq<seq<Written>>, last: seq<Written>): seq<Written> {
    if lines == [] then last else lines[0]
  }

  /** The text with a prefix before its first line. */
  lemma PrefixedLine(
    text: string, lines: seq<seq<Written>>, last: seq<Written>, line: seq<Written>, prefix: string)
    returns (lines': seq<seq<Written>>, last': seq<Written>)
    requires IsWriting(text, lines, last) && AreWritable(line) && line != []
    requires forall ending :: RenderRecord(line, ending) == prefix + RenderRecord(FirstOf(lines, last), ending)
    ensures IsWriting(prefix + text, lines', last')
  {
    hide RenderRecord, AreWritable;
    if lines == [] {
      lines', last' := [], line;
      assert text == RenderRecord(last, "") && RenderAll([], line) == RenderRecord(line, "");
    } else {
      lines', last' := [line] + lines[1..], last;
      assert lines'[1..] == lines[1..];
      assert RenderAll(lines', last) == prefix + RenderAll(lines, last);
    }
  }

  lemma PrefixedField(line: seq<Written>, w: Written, prefix: string, ending: string)
    requires line != [] && RenderField(w) == prefix + RenderField(line[0])
    ensures RenderRecord([w] + line[1..], ending) == prefix + RenderRecord(line, ending)
  {
    hide RenderField;
    assert ([w] + line[1..])[1..] == line[1..];
  }

  lemma NewField(line: seq<Written>, ending: string)
    requires line != []
    ensures RenderRecord([[]] + line, ending) == "," + RenderRecord(line, ending)
  {
    assert ([[]] + line)[1..] == line;
  }

  /** A character that is no quote, comma or line feed joins the first part if that is bare. */
  lemma JoinBare(w: Written, c: char) returns (joined: Written)
    requires IsWritable(w) && IsPlain([c])
    ensures IsWritable(joined) && RenderField(joined) == [c] + RenderField(w)
  {
    if w != [] && w[0].Bare? {
      joined := [Bare([c] + w[0].text)] + w[1..];
      assert joined[1..] == w[1..];
    } else {
      joined := [Bare([c])] + w;
      assert joined[1..] == w;
    }
  }

  lemma JoinQuoted(w: Written, content: string) returns (joined: Written)
    requires IsWritable(w) && (RenderField(w) != "" ==> RenderField(w)[0] != '"')
    ensures IsWritable(joined) && RenderField(joined) == "\"" + Doubled(content) + "\"" + RenderField(w)
  {
    joined := [Quoted(content)] + w;
    assert joined[1..] == w;
  }

  lemma FieldComesFirst(text: string, lines: seq<seq<Written>>, last: seq<Written>)
    requires IsWriting(text, lines, last)
    ensures RenderField(FirstOf(lines, last)[0]) <= text
  {
    hide RenderField, AreWritable;
  }

  /** A quote that is opened is closed, where a quote is not doubled. */
  lemma {:induction false} QuotedPrefix(body: string) returns (content: string, rest: string)
    requires Quotes(body) % 2 == 1
    ensures body == Doubled(content) + "\"" + rest && (rest == "" || rest[0] != '"')
    ensures Quotes(rest) % 2 == 0 && |rest| < |body|
    decreases |body|
  {
    if body[0] != '"' {
      content, rest := QuotedPrefix(body[1..]);
      assert body == [body[0]] + Doubled(content) + "\"" + rest;
      assert ([body[0]] + content)[1..] == content;
      content := [body[0]] + content;
    } else if |body| > 1 && body[1] == '"' {
      assert body[1..][1..] == body[2..] && Quotes(body) == 2 + Quotes(body[2..]);
      content, rest := QuotedPrefix(body[2..]);
      assert body == "\"\"" + Doubled(content) + "\"" + rest;
      assert (['"'] + content)[1..] == content;
      content := ['"'] + content;
    } else {
      content, rest := "", body[1..];
      assert body == "\"" + rest;
    }
  }

  lemma {:induction false} EveryTextIsWritten(text: string)
    returns (lines: seq<seq<Written>>, last: seq<Written>)
    requires Quotes(text) % 2 == 0
    ensures IsWriting(text, lines, last)
    decreases |text|
  {
    hide RenderField, RenderRecord, IsWritable, IsPlain;
    if text == "" {
      lines, last := [], [[]];
      NothingWritten();
    } else if text[0] == '"' {
      lines, last := QuotedFirst(text);
    } else {
      lines, last := EveryTextIsWritten(text[1..]);
      assert text == [text[0]] + text[1..];
      lines, last := CharacterFirst(text[0], text[1..], lines, last);
    }
  }

  lemma NothingWritten()
    ensures IsWriting("", [], [[]])
  {
  }

  lemma CharacterFirst(c: char, text: string, lines: seq<seq<Written>>, last: seq<Written>)
    returns (lines': seq<seq<Written>>, last': seq<Written>)
    requires c != '"' && IsWriting(text, lines, last)
    ensures IsWriting([c] + text, lines', last')
  {
    var line := FirstOf(lines, last);
    hide RenderAll, Render;
    if c == '\n' {
      lines', last' := [[[]]] + lines, last;
      EmptyLineFirst(text, lines, last);
    } else if c == ',' {
      forall ending
        ensures RenderRecord([[]] + line, ending) == "," + RenderRecord(line, ending)
      {
        NewField(line, ending);
      }
      hide RenderRecord;
      lines', last' := PrefixedLine(text, lines, last, [[]] + line, ",");
    } else {
      hide RenderRecord, RenderField, IsWritable;
      var w := JoinBare(line[0], c);
      lines', last' := Replaced(text, lines, last, w, [c]);
    }
  }

  lemma EmptyLineFirst(text: string, lines: seq<seq<Written>>, last: seq<Written>)
    requires IsWriting(text, lines, last)
    ensures IsWriting("\n" + text, [[[]]] + lines, last)
  {
    var empty: seq<Written> := [[]];
    EmptyLine(empty);
    LineFirst(empty, lines);
    hide Render, RenderRecord, AllWritable, AreWritable;
    Regrouped("\n", Render(lines, "\n"), RenderRecord(last, ""));
  }

  lemma Regrouped(a: string, b: string, c: string)
    ensures a + b + c == a + (b + c)
  {
  }

  lemma EmptyLine(empty: seq<Written>)
    requires empty == [[]]
    ensures RenderRecord(empty, "\n") == "\n" && AreWritable(empty)
  {
  }

  lemma LineFirst(line: seq<Written>, lines: seq<seq<Written>>)
    requires line != [] && AreWritable(line) && AllWritable(lines)
    requires forall i :: 0 <= i < |lines| ==> lines[i] != []
    ensures AllWritable([line] + lines) && forall i :: 0 <= i < |[line] + lines| ==> ([line] + lines)[i] != []
    ensures Render([line] + lines, "\n") == RenderRecord(line, "\n") + Render(lines, "\n")
  {
    hide RenderRecord, AreWritable;
    assert ([line] + lines)[1..] == lines;
  }

  lemma Replaced(text: string, lines: seq<seq<Written>>, last: seq<Written>, w: Written, prefix: string)
    returns (lines': seq<seq<Written>>, last': seq<Written>)
    requires IsWriting(text, lines, last) && IsWritable(w)
    requires RenderField(w) == prefix + RenderField(FirstOf(lines, last)[0])
    ensures IsWriting(prefix + text, lines', last')
  {
    hide RenderRecord, RenderField, IsWritable;
    var line := FirstOf(lines, last);
    forall ending
      ensures RenderRecord([w] + line[1..], ending) == prefix + RenderRecord(line, ending)
    {
      PrefixedField(line, w, prefix, ending);
    }
    lines', last' := PrefixedLine(text, lines, last, [w] + line[1..], prefix);
  }

  lemma QuotedFirst(text: string) returns (lines: seq<seq<Written>>, last: seq<Written>)
    requires text != "" && text[0] == '"' && Quotes(text) % 2 == 0
    ensures IsWriting(text, lines, last)
    decreases |text|, 0
  {
    hide RenderRecord, RenderField, IsWritable, IsPlain;
    var content, rest := QuotedPrefix(text[1..]);
    lines, last := EveryTextIsWritten(rest);
    FieldComesFirst(rest, lines, last);
    var w := JoinQuoted(FirstOf(lines, last)[0], content);
    lines, last := Replaced(rest, lines, last, w, "\"" + Doubled(content) + "\"");
    assert text == "\"" + Doubled(content) + "\"" + rest;
  }

  /** What any text is read as. With an odd number of quotes it is refused. Otherwise it is a written
      table, and its records are those that were written, except that each line loses a carriage return
      at its end and lines without content are dropped. */
  lemma ParsedExactly(text: string)
    ensures Quotes(text) % 2 == 1 ==> Parsed(text) == Err(MalformedInput)
    ensures Quotes(text) % 2 == 0 ==> exists lines, last ::
      && IsWriting(text, lines, last)
      && Parsed(text) ==
           Ok(AllReadBack(RecordsOf(lines), "\n") + if TextsOf(last) == [""] then [] else [TextsOf(last)])
  {
    FailsOnOddQuotes(text);
    if Quotes(text) % 2 == 0 {
      var lines, last := EveryTextIsWritten(text);
      hide Parsed, AllReadBack, Render, RenderRecord, AllWritable, AreWritable;
      UnbrokenRoundTrip(lines, last, "\n");
    }
  }
}
