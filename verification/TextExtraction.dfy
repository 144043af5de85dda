/** Extraction of `key: value` lines from plain text, with exact byte spans. */
module TextExtraction {
  import opened Wrappers
  import opened Texts
  import Values

  const U32_MAX := 0xffff_ffff

  datatype Field = Field(
    key: string, value: string, normalized: Values.KnowledgeValue,
    paragraph: nat, start: nat, end: nat)

  /** The trimmed key and value of a line, when both are non-empty. */
  function PairOf(line: string): Option<(string, string)> {
    match SplitOnce(WithoutEnding(line), ':')
    case None => None
    case Some((key, value)) => if Trim(key) != "" && Trim(value) != "" then Some((Trim(key), Trim(value))) else None
  }

  /** The field of one line, which is number `index` and begins at byte `offset`. */
  function FieldOf(line: string, index: nat, offset: nat): (r: Result<seq<Field>>)
    ensures r.Ok? ==> |r.value| == if PairOf(line).Some? then 1 else 0
  {
    match PairOf(line)
    case None => Ok([])
    case Some((key, value)) =>
      ValueOccurs(line);
      var start := offset + |Utf8(WithoutEnding(line)[..Find(WithoutEnding(line), value).value])|;
      if index + 1 > U32_MAX then Err(MalformedInput)
      else match Values.Normalize(value)
        case Err(e) => Err(e)
        case Ok(normalized) => Ok([Field(key, value, normalized, index + 1, start, start + |Utf8(value)|)])
  }

  /** The trimmed value is a slice of its line, so the search for it succeeds. */
  lemma ValueOccurs(line: string)
    requires PairOf(line).Some?
    ensures var body, value := WithoutEnding(line), PairOf(line).value.1;
      var at := Find(body, value);
      at.Some? && at.value <= |body| && value <= body[at.value..] && value != ""
  {
    hide Trim, WithoutEnding, Find;
    var body := WithoutEnding(line);
    SplitRebuilds(body, ':');
    var (before, after) := SplitOnce(body, ':').value;
    TrimIsSlice(after);
    var i :| 0 <= i <= |after| && Trim(after) <= after[i..];
    assert body[|before| + 1 + i..] == after[i..];
    FindIsFirst(body, Trim(after));
  }

  function FieldsFrom(lines: seq<string>, index: nat, offset: nat): Result<seq<Field>> {
    if lines == [] then Ok([])
    else match FieldOf(lines[0], index, offset)
      case Err(e) => Err(e)
      case Ok(first) =>
        match FieldsFrom(lines[1..], index + 1, offset + |Utf8(lines[0])|)
        case Err(e) => Err(e)
        case Ok(rest) => Ok(first + rest)
  }

  /** The extractor: one pass over the lines with a running byte offset. */
  method ExtractText(text: string) returns (r: Result<seq<Field>>)
    ensures r == FieldsFrom(Lines(text), 0, 0)
  {
    hide FieldOf, Lines, Utf8, FieldsFrom;
    var fields: seq<Field>, offset: nat, index: nat := [], 0, 0;
    var lines := Lines(text);
    assert lines[0..] == lines;
    assert FieldsFrom(lines, 0, 0).Ok? ==> [] + FieldsFrom(lines, 0, 0).value == FieldsFrom(lines, 0, 0).value;
    while index < |lines|
      invariant 0 <= index <= |lines|
      invariant FieldsFrom(lines, 0, 0) == Before(fields, FieldsFrom(lines[index..], index, offset))
    {
      FieldsFromNext(lines, index, offset, fields);
      match FieldOf(lines[index], index, offset) {
        case Err(e) => return Err(e);
        case Ok(first) => fields := fields + first;
      }
      offset := offset + |Utf8(lines[index])|;
      index := index + 1;
    }
    NoLinesLeft(lines[index..], index, offset);
    assert fields + [] == fields;
    return Ok(fields);
  }

  /** Fields found so far, and what the rest gives. */
  function Before(fields: seq<Field>, rest: Result<seq<Field>>): Result<seq<Field>> {
    match rest
    case Err(e) => Err(e)
    case Ok(more) => Ok(fields + more)
  }

  lemma FieldsFromNext(lines: seq<string>, index: nat, offset: nat, fields: seq<Field>)
    requires index < |lines|
    ensures Before(fields, FieldsFrom(lines[index..], index, offset)) ==
      match FieldOf(lines[index], index, offset)
      case Err(e) => Err(e)
      case Ok(first) =>
        Before(fields + first, FieldsFrom(lines[index + 1..], index + 1, offset + |Utf8(lines[index])|))
  {
    hide FieldOf, Utf8;
    var left := lines[index..];
    assert left[0] == lines[index] && left[1..] == lines[index + 1..];
    var first, tail := FieldOf(left[0], index, offset), FieldsFrom(left[1..], index + 1, offset + |Utf8(left[0])|);
    assert first.Ok? && tail.Ok? ==> fields + (first.value + tail.value) == fields + first.value + tail.value;
  }

  lemma NoLinesLeft(lines: seq<string>, index: nat, offset: nat)
    requires lines == []
    ensures FieldsFrom(lines, index, offset) == Ok([])
  {
  }

  // ---- Spans ----

  /** A field of a text whose bytes are `bytes`: its span slices out exactly its value, and its
      paragraph number is one plus the line feeds before the span. */
  ghost predicate SpanIsExact(bytes: seq<byte>, f: Field) {
    && f.start < f.end <= |bytes|
    && bytes[f.start..f.end] == Utf8(f.value)
    && f.paragraph == 1 + LineFeeds(bytes[..f.start])
    && LineFeeds(bytes[f.start..f.end]) == 0
  }

  /** Spans in increasing order, disjoint, and on increasing lines. */
  ghost predicate SpansIncrease(fields: seq<Field>) {
    forall i, j :: 0 <= i < j < |fields| ==>
      fields[i].end <= fields[j].start && fields[i].paragraph < fields[j].paragraph
  }

  lemma FieldOfPair(line: string, index: nat, offset: nat)
    requires FieldOf(line, index, offset).Ok?
    ensures var fields := FieldOf(line, index, offset).value;
      && (fields == [] <==> PairOf(line).None?)
      && (fields != [] ==> var f, body := fields[0], WithoutEnding(line); var at := Find(body, f.value);
           && |fields| == 1 && f.paragraph == index + 1
           && PairOf(line) == Some((f.key, f.value))
           && Values.Normalize(f.value) == Ok(f.normalized)
           && at.Some? && at.value <= |body| && f.value <= body[at.value..] && f.value != ""
           && f.start == offset + |Utf8(body[..at.value])| && f.end == f.start + |Utf8(f.value)|)
  {
    if PairOf(line).Some? { ValueOccurs(line); }
  }

  /** A span found in one line, seen from the whole text. */
  lemma SpanOfLine(prefix: seq<byte>, line: string, rest: seq<byte>, index: nat)
    requires IsLine(line) && LineFeeds(prefix) == index
    requires FieldOf(line, index, |prefix|).Ok? && FieldOf(line, index, |prefix|).value != []
    ensures var f := FieldOf(line, index, |prefix|).value[0];
      SpanIsExact(prefix + Utf8(line) + rest, f) && |prefix| <= f.start
        && f.end <= |prefix| + |Utf8(WithoutEnding(line))|
  {
    hide FieldOf, PairOf, WithoutEnding, Utf8, LineFeeds, Values.Normalize, Find, Joined;
    FieldOfPair(line, index, |prefix|);
    var f := FieldOf(line, index, |prefix|).value[0];
    var body := WithoutEnding(line);
    var at := Find(body, f.value).value;
    var before, after := body[..at], body[at + |f.value|..];
    WithoutEndingIsPrefix(line);
    assert body == before + f.value + after;
    assert line == before + f.value + after + line[|body|..];
    assert '\n' !in body by {
      if line[|line| - 1] != '\n' { assert line == line[..|line| - 1] + [line[|line| - 1]]; }
    }
    SpanOfParts(prefix, before, f.value, after, line[|body|..], rest);
  }

  lemma SpanOfParts(prefix: seq<byte>, before: string, value: string, after: string, ending: string, rest: seq<byte>)
    requires value != "" && '\n' !in before && '\n' !in value
    ensures var bytes := prefix + Utf8(before + value + after + ending) + rest;
      var start, end := |prefix| + |Utf8(before)|, |prefix| + |Utf8(before)| + |Utf8(value)|;
      && start < end <= |bytes| && bytes[start..end] == Utf8(value) && LineFeeds(bytes[start..end]) == 0
      && LineFeeds(bytes[..start]) == LineFeeds(prefix) && end <= |prefix| + |Utf8(before + value + after)|
  {
    hide Utf8, LineFeeds;
    var bytes := prefix + Utf8(before + value + after + ending) + rest;
    BytesOfParts(before, value, after, ending);
    Reassociate(prefix, Utf8(before), Utf8(value), Utf8(after), Utf8(ending), rest);
    SliceOfBytes(bytes, prefix, Utf8(before), Utf8(value), Utf8(after) + Utf8(ending) + rest);
    Utf8WithoutLineFeeds(before);
    Utf8WithoutLineFeeds(value);
    NonEmptyBytes(value);
  }

  lemma Reassociate(p: seq<byte>, a: seq<byte>, b: seq<byte>, c: seq<byte>, d: seq<byte>, r: seq<byte>)
    ensures p + (a + b + c + d) + r == p + a + b + (c + d + r)
  {
  }

  lemma SliceOfBytes(bytes: seq<byte>, prefix: seq<byte>, before: seq<byte>, value: seq<byte>, after: seq<byte>)
    requires bytes == prefix + before + value + after
    ensures bytes[|prefix| + |before|..|prefix| + |before| + |value|] == value
    ensures LineFeeds(bytes[..|prefix| + |before|]) == LineFeeds(prefix) + LineFeeds(before)
  {
    assert bytes[..|prefix| + |before|] == prefix + before;
    LineFeedsOfConcatenation(prefix, before);
  }

  lemma NonEmptyBytes(s: string)
    requires s != ""
    ensures Utf8(s) != []
  {
  }

  lemma BytesOfParts(a: string, b: string, c: string, d: string)
    ensures Utf8(a + b + c) == Utf8(a) + Utf8(b) + Utf8(c)
    ensures Utf8(a + b + c + d) == Utf8(a) + Utf8(b) + Utf8(c) + Utf8(d)
  {
    Utf8OfConcatenation(a, b);
    Utf8OfConcatenation(a + b, c);
    Utf8OfConcatenation(a + b + c, d);
  }

  /** Exact spans in increasing order, from a byte and a line on. */
  ghost predicate SpansBeyond(bytes: seq<byte>, fields: seq<Field>, start: nat, index: nat) {
    && SpansIncrease(fields)
    && forall i :: 0 <= i < |fields| ==>
       SpanIsExact(bytes, fields[i]) && start <= fields[i].start && index < fields[i].paragraph
  }

  lemma SpanThenSpans(bytes: seq<byte>, first: seq<Field>, rest: seq<Field>, start: nat, next: nat, index: nat)
    requires |first| <= 1 && start <= next && SpansBeyond(bytes, rest, next, index + 1)
    requires first != [] ==>
      SpanIsExact(bytes, first[0]) && start <= first[0].start && first[0].end <= next && first[0].paragraph == index + 1
    ensures SpansBeyond(bytes, first + rest, start, index)
  {
    hide SpanIsExact;
  }

  lemma {:induction false} SpansFrom(prefix: seq<byte>, lines: seq<string>, index: nat)
    requires AreLines(lines) && (lines != [] ==> LineFeeds(prefix) == index)
    requires FieldsFrom(lines, index, |prefix|).Ok?
    ensures SpansBeyond(prefix + Utf8(Joined(lines)), FieldsFrom(lines, index, |prefix|).value, |prefix|, index)
    decreases lines
  {
    hide FieldOf, SpanIsExact, LineFeeds, Utf8, IsLine;
    if lines != [] {
      var line, rest := lines[0], lines[1..];
      var next := prefix + Utf8(line);
      assert AreLines(rest);
      Utf8OfConcatenation(line, Joined(rest));
      var bytes := next + Utf8(Joined(rest));
      assert bytes == prefix + Utf8(Joined(lines));
      if rest != [] {
        LineFeedsOfLine(line);
        LineFeedsOfConcatenation(prefix, Utf8(line));
      }
      hide SpansBeyond;
      SpansFrom(next, rest, index + 1);
      var first := FieldOf(line, index, |prefix|).value;
      FieldOfPair(line, index, |prefix|);
      if first != [] {
        SpanOfLine(prefix, line, Utf8(Joined(rest)), index);
        SpanStaysInLine(prefix, line, index);
      }
      SpanThenSpans(bytes, first, FieldsFrom(rest, index + 1, |next|).value, |prefix|, |next|, index);
    }
  }

  lemma SpanStaysInLine(prefix: seq<byte>, line: string, index: nat)
    requires IsLine(line) && LineFeeds(prefix) == index
    requires FieldOf(line, index, |prefix|).Ok? && FieldOf(line, index, |prefix|).value != []
    ensures var f := FieldOf(line, index, |prefix|).value[0];
      f.paragraph == index + 1 && |prefix| <= f.start && f.end <= |prefix| + |Utf8(line)|
  {
    hide Utf8, LineFeeds, FieldOf;
    SpanOfLine(prefix, line, [], index);
    WithoutEndingIsPrefix(line);
    assert line == WithoutEnding(line) + line[|WithoutEnding(line)|..];
    Utf8OfConcatenation(WithoutEnding(line), line[|WithoutEnding(line)|..]);
    FieldOfPair(line, index, |prefix|);
  }

  /** On every text whose extraction succeeds, each span slices the bytes of the text to exactly the
      bytes of the value, lies in one line and carries its number; spans are disjoint and increasing. */
  lemma SpansAreExact(text: string)
    requires FieldsFrom(Lines(text), 0, 0).Ok?
    ensures var fields := FieldsFrom(Lines(text), 0, 0).value;
      SpansIncrease(fields) && forall i :: 0 <= i < |fields| ==> SpanIsExact(Utf8(text), fields[i])
  {
    LinesJoinAgain(text);
    SpansFrom([], Lines(text), 0);
    assert [] + Utf8(text) == Utf8(text);
  }

  /** Every field comes from a line with a key and a value, the line its paragraph number names. */
  lemma {:induction false} FieldsArePairs(lines: seq<string>, index: nat, offset: nat)
    requires FieldsFrom(lines, index, offset).Ok?
    ensures forall f :: f in FieldsFrom(lines, index, offset).value ==>
      && index < f.paragraph <= index + |lines|
      && PairOf(lines[f.paragraph - 1 - index]) == Some((f.key, f.value))
      && Values.Normalize(f.value) == Ok(f.normalized)
    decreases lines
  {
    hide FieldOf, Utf8, PairOf, Values.Normalize;
    if lines != [] {
      FieldOfPair(lines[0], index, offset);
      FieldsArePairs(lines[1..], index + 1, offset + |Utf8(lines[0])|);
    }
  }

  /** No line with a key and a value is passed over. */
  lemma {:induction false} PairsAreFields(lines: seq<string>, index: nat, offset: nat, i: nat)
    requires FieldsFrom(lines, index, offset).Ok? && i < |lines| && PairOf(lines[i]).Some?
    ensures exists f :: f in FieldsFrom(lines, index, offset).value && f.paragraph == index + i + 1
    decreases lines
  {
    hide FieldOf, Utf8, PairOf, Values.Normalize;
    FieldOfPair(lines[0], index, offset);
    var first := FieldOf(lines[0], index, offset).value;
    if i == 0 {
      assert first[0] in FieldsFrom(lines, index, offset).value;
    } else {
      PairsAreFields(lines[1..], index + 1, offset + |Utf8(lines[0])|, i - 1);
    }
  }

  /** Why a line refuses the whole text: its number does not fit 32 bits, or its value is an amount or
      number that cannot be held. */
  ghost predicate Refuses(line: string, index: nat, e: Error) {
    && PairOf(line).Some?
    && (if index + 1 >= 0x1_0000_0000 then e == MalformedInput else Values.Normalize(PairOf(line).value.1) == Err(e))
  }

  ghost predicate IsFine(line: string, index: nat) { forall e :: !Refuses(line, index, e) }

  ghost predicate AllFine(lines: seq<string>, index: nat) {
    forall i :: 0 <= i < |lines| ==> IsFine(lines[i], index + i)
  }

  /** The first line that refuses does so for this reason. */
  ghost predicate RefusedFor(lines: seq<string>, index: nat, e: Error) {
    exists i ::
      && 0 <= i < |lines| && Refuses(lines[i], index + i, e)
      && forall k :: 0 <= k < i ==> IsFine(lines[k], index + k)
  }

  /** A text is refused exactly when some line refuses it, for the reason of the first that does. */
  lemma {:induction false} RefusedExactly(lines: seq<string>, index: nat, offset: nat)
    ensures var r := FieldsFrom(lines, index, offset);
      && (r.Ok? <==> AllFine(lines, index))
      && (r.Err? ==> RefusedFor(lines, index, r.error))
    decreases lines
  {
    hide Utf8, PairOf, Values.Normalize, IsFine, Refuses;
    if lines != [] {
      LineRefuses(lines[0], index, offset);
      RefusedExactly(lines[1..], index + 1, offset + |Utf8(lines[0])|);
      hide FieldOf;
      var r := FieldsFrom(lines, index, offset);
      if FieldOf(lines[0], index, offset).Err? {
        assert Refuses(lines[0], index + 0, r.error);
        RefusedIsNotFine(lines[0], index, r.error);
      } else {
        hide AllFine, RefusedFor;
        FineWithFirst(lines, index);
        if r.Err? { RefusedAfterFirst(lines, index, r.error); }
      }
    }
  }

  lemma FineWithFirst(lines: seq<string>, index: nat)
    requires lines != [] && IsFine(lines[0], index)
    ensures AllFine(lines, index) <==> AllFine(lines[1..], index + 1)
  {
    hide IsFine;
    var rest := lines[1..];
    if forall i :: 0 <= i < |rest| ==> IsFine(rest[i], index + 1 + i) {
      forall i | 0 <= i < |lines|
        ensures IsFine(lines[i], index + i)
      {
        if i > 0 { assert lines[i] == rest[i - 1]; }
      }
    }
    if forall i :: 0 <= i < |lines| ==> IsFine(lines[i], index + i) {
      forall i | 0 <= i < |rest|
        ensures IsFine(rest[i], index + 1 + i)
      {
        assert rest[i] == lines[i + 1];
      }
    }
  }

  lemma RefusedAfterFirst(lines: seq<string>, index: nat, e: Error)
    requires lines != [] && IsFine(lines[0], index) && RefusedFor(lines[1..], index + 1, e)
    ensures RefusedFor(lines, index, e)
  {
    hide IsFine, Refuses;
    var rest := lines[1..];
    var i :| 0 <= i < |rest| && Refuses(rest[i], index + 1 + i, e)
      && forall k :: 0 <= k < i ==> IsFine(rest[k], index + 1 + k);
    forall k | 0 <= k < i + 1
      ensures IsFine(lines[k], index + k)
    {
      if k > 0 { assert lines[k] == rest[k - 1]; }
    }
    assert Refuses(lines[i + 1], index + (i + 1), e);
  }

  lemma RefusedIsNotFine(line: string, index: nat, e: Error)
    ensures Refuses(line, index, e) ==> !IsFine(line, index)
  {
  }

  lemma LineRefuses(line: string, index: nat, offset: nat)
    ensures FieldOf(line, index, offset).Ok? <==> IsFine(line, index)
    ensures FieldOf(line, index, offset).Err? ==> Refuses(line, index, FieldOf(line, index, offset).error)
  {
    hide PairOf, Values.Normalize, Utf8;
    if PairOf(line).Some? { ValueOccurs(line); }
    if FieldOf(line, index, offset).Err? { assert Refuses(line, index, FieldOf(line, index, offset).error); }
  }

  // ---- What a line with a key and a value looks like ----

  /** The line is a key, a colon and a value, with any whitespace around key and value. */
  ghost predicate IsPair(line: string, key: string, value: string) {
    exists a, b, c, d :: IsPaddedPair(line, a, key, b, c, value, d)
  }

  ghost predicate IsPaddedPair(
    line: string, a: string, key: string, b: string, c: string, value: string, d: string) {
    && AllWhitespace(a) && AllWhitespace(b) && AllWhitespace(c) && AllWhitespace(d)
    && key != "" && value != "" && BareEnds(key) && BareEnds(value) && ':' !in key
    && line == (a + key + b) + ":" + (c + value + d)
  }

  lemma {:induction false} EndingOfPadded(core: string, d: string)
    requires core != "" && !IsBreak(core[|core| - 1])
    ensures exists kept :: kept <= d && WithoutEnding(core + d) == core + kept
  {
    if d == "" {
      assert core + d == core && core == core + "";
    } else if IsBreak(d[|d| - 1]) {
      assert (core + d)[..|core + d| - 1] == core + d[..|d| - 1];
      EndingOfPadded(core, d[..|d| - 1]);
    } else {
      assert WithoutEnding(core + d) == core + d;
    }
  }

  lemma BreaksAreWhitespace(s: string)
    requires forall i :: 0 <= i < |s| ==> IsBreak(s[i])
    ensures AllWhitespace(s)
  {
  }

  /** Exactly the lines of that form give a field, and with that key and value. */
  lemma PairsExactly(line: string, key: string, value: string)
    ensures PairOf(line) == Some((key, value)) <==> IsPair(line, key, value)
  {
    hide Trim, WithoutEnding, SplitOnce, IsWhitespace;
    if PairOf(line) == Some((key, value)) {
      PairIsPadded(line, key, value);
    }
    if a, b, c, d :| IsPaddedPair(line, a, key, b, c, value, d) {
      PaddedIsPair(line, a, key, b, c, value, d);
    }
  }

  lemma PairIsPadded(line: string, key: string, value: string)
    requires PairOf(line) == Some((key, value))
    ensures IsPair(line, key, value)
  {
    var body := WithoutEnding(line);
    var (before, after) := SplitOnce(body, ':').value;
    SplitRebuilds(body, ':');
    assert key == Trim(before) && value == Trim(after) && key != "" && value != "";
    hide PairOf, SplitOnce, IsWhitespace, Trim, WithoutEnding;
    var ending := EndingOf(line);
    var a, b := CutOf(before);
    var c, d := CutOf(after);
    hide AllWhitespace, BareEnds;
    Padded(line, body, before, after, ending, a, key, b, c, value, d);
  }

  lemma EndingOf(line: string) returns (ending: string)
    ensures AllWhitespace(ending) && line == WithoutEnding(line) + ending
  {
    WithoutEndingCuts(line);
    ending :| (forall i :: 0 <= i < |ending| ==> IsBreak(ending[i])) && line == WithoutEnding(line) + ending;
    BreaksAreWhitespace(ending);
  }

  lemma CutOf(s: string) returns (before: string, after: string)
    ensures AllWhitespace(before) && AllWhitespace(after) && s == before + Trim(s) + after && BareEnds(Trim(s))
  {
    TrimCuts(s);
    before, after :| AllWhitespace(before) && AllWhitespace(after) && s == before + Trim(s) + after;
  }

  lemma Padded(
    line: string, body: string, before: string, after: string, ending: string,
    a: string, key: string, b: string, c: string, value: string, d: string)
    requires line == body + ending && body == before + [':'] + after && ':' !in before
    requires before == a + key + b && after == c + value + d
    requires AllWhitespace(a) && AllWhitespace(b) && AllWhitespace(c) && AllWhitespace(d) && AllWhitespace(ending)
    requires key != "" && value != "" && BareEnds(key) && BareEnds(value)
    ensures IsPair(line, key, value)
  {
    assert AllWhitespace(d + ending);
    hide AllWhitespace, BareEnds;
    assert line == before + ":" + (c + value + (d + ending));
    assert forall x :: x in key ==> x in before;
    assert IsPaddedPair(line, a, key, b, c, value, d + ending);
  }

  lemma PaddedIsPair(line: string, a: string, key: string, b: string, c: string, value: string, d: string)
    requires IsPaddedPair(line, a, key, b, c, value, d)
    ensures PairOf(line) == Some((key, value))
  {
    var before, core := a + key + b, a + key + b + ":" + c + value;
    assert ':' !in before;
    assert line == core + d && core[|core| - 1] == value[|value| - 1];
    EndingOfPadded(core, d);
    var kept :| kept <= d && WithoutEnding(core + d) == core + kept;
    assert core + kept == before + [':'] + (c + value + kept);
    SplitAtFirst(before, c + value + kept, ':');
    TrimExactly(a, key, b);
    TrimExactly(c, value, kept);
    hide Trim, WithoutEnding, SplitOnce;
  }

  // ---- Where in its line a span lies ----

  /** The span starts after the first colon exactly when the value does not occur in the line
      starting at or before that colon. */
  lemma SpanAfterColon(line: string, index: nat, offset: nat)
    requires FieldOf(line, index, offset).Ok? && FieldOf(line, index, offset).value != []
    ensures var body, f := WithoutEnding(line), FieldOf(line, index, offset).value[0];
      var colon := |SplitOnce(body, ':').value.0|;
      && colon < |body|
      && (f.start > offset + |Utf8(body[..colon])| <==> forall i :: 0 <= i <= colon ==> !(f.value <= body[i..]))
  {
    hide Utf8, FieldOf, WithoutEnding, Trim, Find, SplitOnce;
    FieldOfPair(line, index, offset);
    var body, f := WithoutEnding(line), FieldOf(line, index, offset).value[0];
    SplitRebuilds(body, ':');
    FindIsFirst(body, f.value);
    var at, colon := Find(body, f.value).value, |SplitOnce(body, ':').value.0|;
    if at > colon {
      assert body[..at] == body[..colon] + body[colon..at];
      Utf8OfConcatenation(body[..colon], body[colon..at]);
      NonEmptyBytes(body[colon..at]);
    } else {
      assert body[..colon] == body[..at] + body[at..colon];
      Utf8OfConcatenation(body[..at], body[at..colon]);
    }
  }

  /** In `a:a` the span is that of the key. */
  lemma SpanMayCoverTheKey()
    ensures FieldsFrom(Lines("a:a"), 0, 0) == Ok([Field("a", "a", Values.Known(Values.Text("a")), 1, 0, 1)])
  {
    var line: string := "a:a";
    assert line[1..] == ":a" && line[1..][1..] == "a" && line[1..][1..][1..] == "";
    assert FirstLine(line[1..][1..]) == "a";
    assert FirstLine(line[1..]) == ":a";
    assert FirstLine(line) == line && line[3..] == "";
    assert Lines(line) == [line];
    assert SplitOnce(line, ':') == Some(("a", "a"));
    assert Find(line, "a") == Some(0);
    assert Utf8("a") == Utf8Char('a') + Utf8("");
    assert FieldOf(line, 0, 0) == Ok([Field("a", "a", Values.Known(Values.Text("a")), 1, 0, 1)]) by {
      assert Values.Normalize("a") == Ok(Values.Known(Values.Text("a")));
    }
    assert [line][1..] == [] && [line][0] == line;
    var first := FieldOf(line, 0, 0).value;
    assert FieldsFrom([line][1..], 1, 0 + |Utf8(line)|) == Ok([]) && first + [] == first;
  }
}
