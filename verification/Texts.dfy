/** The text operations the extractors use: splitting, trimming, searching, lines, UTF-8. */
module Texts {
  import opened Wrappers

  /** The text before and after the first `c`. */
  function SplitOnce(s: string, c: char): Option<(string, string)> {
    if s == [] then None
    else if s[0] == c then Some(("", s[1..]))
    else match SplitOnce(s[1..], c)
      case None => None
      case Some((before, after)) => Some(([s[0]] + before, after))
  }

  lemma {:induction false} SplitAtFirst(before: string, after: string, c: char)
    requires c !in before
    ensures SplitOnce(before + [c] + after, c) == Some((before, after))
  {
    var s := before + [c] + after;
    if before == [] {
      assert s[1..] == after;
    } else {
      SplitAtFirst(before[1..], after, c);
      assert s[1..] == before[1..] + [c] + after;
      assert [s[0]] + before[1..] == before;
    }
  }

  lemma {:induction false} SplitRebuilds(s: string, c: char)
    ensures match SplitOnce(s, c)
      case None => c !in s
      case Some((before, after)) => c !in before && s == before + [c] + after
  {
    if s != [] && s[0] != c {
      SplitRebuilds(s[1..], c);
    }
  }

  // ---- Trimming ----

  /** The characters with the Unicode property White_Space. */
  predicate IsWhitespace(c: char) {
    var n := c as int;
    0x9 <= n <= 0xd || n == 0x20 || n == 0x85 || n == 0xa0 || n == 0x1680 || 0x2000 <= n <= 0x200a
    || n == 0x2028 || n == 0x2029 || n == 0x202f || n == 0x205f || n == 0x3000
  }

  function TrimStart(s: string): string {
    if s != "" && IsWhitespace(s[0]) then TrimStart(s[1..]) else s
  }

  function TrimEnd(s: string): string {
    if s != "" && IsWhitespace(s[|s| - 1]) then TrimEnd(s[..|s| - 1]) else s
  }

  function Trim(s: string): string { TrimEnd(TrimStart(s)) }

  lemma {:induction false} TrimStartIsSuffix(s: string)
    ensures exists i :: 0 <= i <= |s| && TrimStart(s) == s[i..]
  {
    if s != "" && IsWhitespace(s[0]) {
      TrimStartIsSuffix(s[1..]);
      var i :| 0 <= i <= |s[1..]| && TrimStart(s[1..]) == s[1..][i..];
      assert s[1..][i..] == s[i + 1..];
    } else {
      assert s == s[0..];
    }
  }

  lemma {:induction false} TrimEndIsPrefix(s: string)
    ensures TrimEnd(s) <= s
  {
    if s != "" && IsWhitespace(s[|s| - 1]) {
      TrimEndIsPrefix(s[..|s| - 1]);
    }
  }

  lemma TrimIsSlice(s: string)
    ensures exists i :: 0 <= i <= |s| && Trim(s) <= s[i..]
  {
    TrimStartIsSuffix(s);
    TrimEndIsPrefix(TrimStart(s));
  }

  predicate AllWhitespace(s: string) { forall i :: 0 <= i < |s| ==> IsWhitespace(s[i]) }

  predicate BareEnds(s: string) { s != "" ==> !IsWhitespace(s[0]) && !IsWhitespace(s[|s| - 1]) }

  lemma {:induction false} TrimStartSplits(s: string)
    ensures exists before :: AllWhitespace(before) && s == before + TrimStart(s)
    ensures TrimStart(s) != "" ==> !IsWhitespace(TrimStart(s)[0])
  {
    if s != "" && IsWhitespace(s[0]) {
      TrimStartSplits(s[1..]);
      var before :| AllWhitespace(before) && s[1..] == before + TrimStart(s[1..]);
      assert AllWhitespace([s[0]] + before) && s == [s[0]] + before + TrimStart(s);
    } else {
      assert AllWhitespace("") && s == "" + TrimStart(s);
    }
  }

  lemma {:induction false} TrimEndSplits(s: string)
    ensures exists after :: AllWhitespace(after) && s == TrimEnd(s) + after
    ensures TrimEnd(s) != "" ==> !IsWhitespace(TrimEnd(s)[|TrimEnd(s)| - 1]) && TrimEnd(s)[0] == s[0]
  {
    if s != "" && IsWhitespace(s[|s| - 1]) {
      var init := s[..|s| - 1];
      TrimEndSplits(init);
      var after :| AllWhitespace(after) && init == TrimEnd(init) + after;
      LastJoins(s, TrimEnd(init), after);
    } else {
      assert AllWhitespace("") && s == TrimEnd(s) + "";
    }
  }

  lemma LastJoins(s: string, kept: string, after: string)
    requires s != "" && s[..|s| - 1] == kept + after && AllWhitespace(after) && IsWhitespace(s[|s| - 1])
    ensures AllWhitespace(after + [s[|s| - 1]]) && s == kept + (after + [s[|s| - 1]])
  {
    hide IsWhitespace;
    assert s == s[..|s| - 1] + [s[|s| - 1]];
  }

  /** Trimming cuts whitespace off both ends, and all of it. */
  lemma TrimCuts(s: string)
    ensures BareEnds(Trim(s))
    ensures exists before, after ::
      AllWhitespace(before) && AllWhitespace(after) && s == before + Trim(s) + after
  {
    var rest := TrimStart(s);
    TrimStartSplits(s);
    TrimEndSplits(rest);
    var before :| AllWhitespace(before) && s == before + rest;
    var after :| AllWhitespace(after) && rest == TrimEnd(rest) + after;
    assert s == before + Trim(s) + after;
  }

  /** There is only one such cut, so whatever stands between whitespace is what trimming leaves. */
  lemma {:induction false} TrimExactly(before: string, core: string, after: string)
    requires AllWhitespace(before) && AllWhitespace(after) && BareEnds(core)
    ensures Trim(before + core + after) == core
  {
    var s := before + core + after;
    if before != "" {
      assert s[1..] == before[1..] + core + after;
      TrimExactly(before[1..], core, after);
    } else if core == "" {
      assert s == after;
      TrimBlank(after);
    } else {
      assert s == core + after && TrimStart(s) == s;
      TrimEndExactly(core, after);
    }
  }

  lemma {:induction false} TrimBlank(s: string)
    requires AllWhitespace(s)
    ensures Trim(s) == ""
  {
    if s != "" { TrimBlank(s[1..]); }
  }

  lemma {:induction false} TrimEndExactly(core: string, after: string)
    requires AllWhitespace(after) && core != "" && !IsWhitespace(core[|core| - 1])
    ensures TrimEnd(core + after) == core
  {
    if after == "" {
      assert core + after == core;
    } else {
      assert (core + after)[..|core + after| - 1] == core + after[..|after| - 1];
      TrimEndExactly(core, after[..|after| - 1]);
    }
  }

  /** All trailing carriage returns and line feeds removed. */
  function WithoutEnding(line: string): string {
    if line != "" && (line[|line| - 1] == '\r' || line[|line| - 1] == '\n') then WithoutEnding(line[..|line| - 1])
      else line
  }

  lemma {:induction false} WithoutEndingIsPrefix(line: string)
    ensures WithoutEnding(line) <= line
    ensures line != "" && line[|line| - 1] == '\n' ==> WithoutEnding(line) <= line[..|line| - 1]
  {
    if line != "" && (line[|line| - 1] == '\r' || line[|line| - 1] == '\n') {
      WithoutEndingIsPrefix(line[..|line| - 1]);
    }
  }

  predicate IsBreak(c: char) { c == '\r' || c == '\n' }

  lemma {:induction false} WithoutEndingCuts(line: string)
    ensures var body := WithoutEnding(line);
      && (body != "" ==> !IsBreak(body[|body| - 1]))
      && exists ending :: (forall i :: 0 <= i < |ending| ==> IsBreak(ending[i])) && line == body + ending
  {
    if line != "" && IsBreak(line[|line| - 1]) {
      var init := line[..|line| - 1];
      WithoutEndingCuts(init);
      var ending :| (forall i :: 0 <= i < |ending| ==> IsBreak(ending[i])) && init == WithoutEnding(init) + ending;
      assert line == WithoutEnding(line) + (ending + [line[|line| - 1]]);
    } else {
      assert line == WithoutEnding(line) + "";
    }
  }

  // ---- Searching ----

  /** Where `part` first occurs in `s`. */
  function Find(s: string, part: string): Option<nat> {
    if part <= s then Some(0)
    else if s == "" then None
    else match Find(s[1..], part)
      case None => None
      case Some(i) => Some(i + 1)
  }

  lemma {:induction false} FindIsFirst(s: string, part: string)
    ensures match Find(s, part)
      case None => forall i :: 0 <= i <= |s| ==> !(part <= s[i..])
      case Some(i) => i <= |s| && part <= s[i..] && forall j :: 0 <= j < i ==> !(part <= s[j..])
  {
    assert s[0..] == s;
    if !(part <= s) && s != "" {
      FindIsFirst(s[1..], part);
      assert forall i :: 0 <= i <= |s[1..]| ==> s[1..][i..] == s[i + 1..];
      forall j | 0 < j <= |s|
        ensures part <= s[j..] <==> part <= s[1..][j - 1..]
      {
      }
    }
  }

  // ---- Lines ----

  function FirstLine(text: string): (line: string)
    ensures line <= text && (text != "" ==> line != "")
  {
    if text == "" then ""
    else if text[0] == '\n' then "\n"
    else [text[0]] + FirstLine(text[1..])
  }

  /** The text cut after each line feed. */
  function Lines(text: string): seq<string> {
    if text == "" then [] else [FirstLine(text)] + Lines(text[|FirstLine(text)|..])
  }

  function Joined(lines: seq<string>): string {
    if lines == [] then "" else lines[0] + Joined(lines[1..])
  }

  /** A line feed ends every line but possibly the last, and occurs nowhere else. */
  predicate IsLine(line: string) { line != "" && '\n' !in line[..|line| - 1] }

  predicate AreLines(lines: seq<string>) {
    forall i :: 0 <= i < |lines| ==> IsLine(lines[i]) && (i < |lines| - 1 ==> lines[i][|lines[i]| - 1] == '\n')
  }

  lemma {:induction false} FirstLineIsLine(text: string)
    requires text != ""
    ensures IsLine(FirstLine(text))
    ensures |FirstLine(text)| < |text| ==> FirstLine(text)[|FirstLine(text)| - 1] == '\n'
  {
    if text[0] != '\n' && |text| > 1 {
      FirstLineIsLine(text[1..]);
      var line, rest := FirstLine(text), FirstLine(text[1..]);
      assert line[..|line| - 1] == [text[0]] + rest[..|rest| - 1];
    }
  }

  lemma {:induction false} LinesJoinAgain(text: string)
    ensures Joined(Lines(text)) == text && AreLines(Lines(text))
  {
    if text != "" {
      var line := FirstLine(text);
      var rest := text[|line|..];
      FirstLineIsLine(text);
      LinesJoinAgain(rest);
      assert Lines(text)[1..] == Lines(rest) && Lines(text)[0] == line;
      assert line + rest == text;
      assert rest == "" ==> Lines(rest) == [];
    }
  }

  // ---- UTF-8 ----

  newtype byte = b: int | 0 <= b < 256

  const LINE_FEED: byte := 10

  function Utf8Char(c: char): (bytes: seq<byte>)
    ensures bytes != []
    ensures c != '\n' ==> LINE_FEED !in bytes
    ensures c == '\n' ==> bytes == [LINE_FEED]
  {
    var n := c as int;
    if n < 0x80 then [n as byte]
    else if n < 0x800 then [(0xc0 + n / 64) as byte, (0x80 + n % 64) as byte]
    else if n < 0x10000 then [(0xe0 + n / 4096) as byte, (0x80 + n / 64 % 64) as byte, (0x80 + n % 64) as byte]
    else [(0xf0 + n / 262_144) as byte, (0x80 + n / 4096 % 64) as byte, (0x80 + n / 64 % 64) as byte,
      (0x80 + n % 64) as byte]
  }

  predicate IsContinuation(b: byte) { 0x80 <= b < 0xc0 }

  /** The bytes of a character give its code point back, as section 3 of RFC 3629 defines it. */
  lemma Utf8CharExactly(c: char)
    ensures var n, u := c as int, Utf8Char(c);
      && (n < 0x80 ==> |u| == 1 && u[0] as int == n)
      && (0x80 <= n < 0x800 ==>
           && |u| == 2 && 0xc2 <= u[0] < 0xe0 && IsContinuation(u[1])
           && n == (u[0] as int - 0xc0) * 0x40 + (u[1] as int - 0x80))
      && (0x800 <= n < 0x1_0000 ==>
           && |u| == 3 && 0xe0 <= u[0] < 0xf0 && IsContinuation(u[1]) && IsContinuation(u[2])
           && n == (u[0] as int - 0xe0) * 0x1000 + (u[1] as int - 0x80) * 0x40 + (u[2] as int - 0x80))
      && (0x1_0000 <= n ==>
           && |u| == 4 && 0xf0 <= u[0] < 0xf5 && IsContinuation(u[1]) && IsContinuation(u[2]) && IsContinuation(u[3])
           && n == (u[0] as int - 0xf0) * 0x4_0000 + (u[1] as int - 0x80) * 0x1000 + (u[2] as int - 0x80) * 0x40
                + (u[3] as int - 0x80))
  {
    var n := c as int;
    BaseSixtyFour(n);
    if n < 0x800 { assert 2 <= n / 64 || n < 0x80; }
  }

  lemma BaseSixtyFour(n: nat)
    ensures n == n / 64 * 64 + n % 64
    ensures n == n / 4096 * 4096 + n / 64 % 64 * 64 + n % 64
    ensures n == n / 262_144 * 262_144 + n / 4096 % 64 * 4096 + n / 64 % 64 * 64 + n % 64
  {
    var a := n / 64;
    var b := a / 64;
    assert n / 4096 == b && b / 64 == n / 262_144;
    assert n == a * 64 + n % 64 && a == b * 64 + a % 64 && b == b / 64 * 64 + b % 64;
  }

  function Utf8(s: string): seq<byte> {
    if s == "" then [] else Utf8Char(s[0]) + Utf8(s[1..])
  }

  lemma {:induction false} Utf8OfConcatenation(a: string, b: string)
    ensures Utf8(a + b) == Utf8(a) + Utf8(b)
  {
    hide Utf8Char;
    if a == "" {
      assert a + b == b;
    } else {
      Utf8OfConcatenation(a[1..], b);
      assert (a + b)[1..] == a[1..] + b && (a + b)[0] == a[0];
    }
  }

  function LineFeeds(bytes: seq<byte>): nat {
    if bytes == [] then 0 else (if bytes[0] == LINE_FEED then 1 else 0) + LineFeeds(bytes[1..])
  }

  lemma {:induction false} LineFeedsOfConcatenation(a: seq<byte>, b: seq<byte>)
    ensures LineFeeds(a + b) == LineFeeds(a) + LineFeeds(b)
  {
    if a == [] {
      assert a + b == b;
    } else {
      LineFeedsOfConcatenation(a[1..], b);
      assert (a + b)[1..] == a[1..] + b;
    }
  }

  lemma {:induction false} NoLineFeeds(bytes: seq<byte>)
    requires LINE_FEED !in bytes
    ensures LineFeeds(bytes) == 0
  {
    if bytes != [] {
      NoLineFeeds(bytes[1..]);
    }
  }

  /** Line feed bytes are exactly the line feed characters: other characters never encode to one. */
  lemma {:induction false} Utf8WithoutLineFeeds(s: string)
    requires '\n' !in s
    ensures LineFeeds(Utf8(s)) == 0
  {
    if s != "" {
      Utf8WithoutLineFeeds(s[1..]);
      NoLineFeeds(Utf8Char(s[0]));
      LineFeedsOfConcatenation(Utf8Char(s[0]), Utf8(s[1..]));
    }
  }

  lemma LineFeedsOfLine(line: string)
    requires IsLine(line) && line[|line| - 1] == '\n'
    ensures LineFeeds(Utf8(line)) == 1
  {
    var body := line[..|line| - 1];
    assert line == body + "\n";
    Utf8OfConcatenation(body, "\n");
    Utf8WithoutLineFeeds(body);
    LineFeedsOfConcatenation(Utf8(body), Utf8("\n"));
    assert Utf8("\n") == [LINE_FEED];
    assert LineFeeds([LINE_FEED]) == 1;
  }
}
