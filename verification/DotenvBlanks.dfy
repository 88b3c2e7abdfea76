/** White space and `export`: what changes nothing, and what it takes to be an assignment. */
module DotenvBlanks {
  import opened Wrappers
  import opened Sequences
  import opened Texts
  import opened DotenvChars
  import opened DotenvParse
  import opened DotenvLines
  import opened DotenvLoad
  import opened DotenvRoundTrip
  import opened DotenvUnquoted
  import opened DotenvComments

  // ----- Lines that say nothing

  lemma {:induction false} BlankLineState(st: ParseState, blanks: string)
    requires (st.Complete? || st.WhiteSpace?) && AllWhitespace(blanks)
    ensures EndState(st, blanks).1.Complete? || EndState(st, blanks).1.WhiteSpace?
    decreases |blanks|
  {
    if blanks != "" {
      BlankLineState(NextState(st, blanks[0]), blanks[1..]);
    }
  }

  lemma {:induction false} NothingButWhitespace(s: string)
    requires AllWhitespace(s)
    ensures TrimEnd(s) == "" && TrimStart(s) == ""
    decreases |s|
  {
    if s != "" {
      NothingButWhitespace(s[1..]);
      NothingButWhitespace(s[..|s| - 1]);
    }
  }

  lemma BlankLineCompletes(blanks: string)
    requires AllWhitespace(blanks)
    ensures EndState(Complete, blanks + "\n").1 == Complete
  {
    BlankLineState(Complete, blanks);
    EndStateAppend(Complete, blanks, "\n");
    assert "\n"[1..] == "";
  }

  lemma BlankLineIsSkipped(ctx: Context, blanks: string, tail: string)
    requires AllWhitespace(blanks) && '\n' !in blanks
    ensures NextItem(ctx, blanks + "\n" + tail) == NextItem(ctx, tail)
  {
    FirstLineOf(blanks, |blanks|, tail);
    NothingBefore(blanks + "\n");
    BlankLineCompletes(blanks);
    assert blanks + "\n" + tail == blanks + "\n" + tail[0..];
    assert !IsCommentLine(blanks + "\n") by {
      NothingButWhitespace(blanks + "\n");
    }
    StrippedBlankIsBlank(blanks);
  }

  lemma CommentLineIsSkipped(ctx: Context, blanks: string, text: string, tail: string)
    requires AllWhitespace(blanks) && '\n' !in blanks && '\n' !in text
    ensures NextItem(ctx, blanks + ("#" + text) + "\n" + tail) == NextItem(ctx, tail)
  {
    var line := blanks + ("#" + text);
    FirstLineOf(line, |line|, tail);
    NothingBefore(line + "\n");
    assert line + "\n" == blanks + ("#" + text + "\n");
    SkipBlanks(blanks, "#" + text + "\n");
    assert IsCommentLine(line + "\n");
  }

  /** A line of blanks, and one whose first character behind blanks is a number sign, are passed
      over. */
  lemma SilentLineIsSkipped(ctx: Context, blanks: string, comment: string, tail: string)
    requires AllWhitespace(blanks) && '\n' !in blanks && '\n' !in comment
    requires comment == "" || comment[0] == '#'
    ensures NextItem(ctx, blanks + comment + "\n" + tail) == NextItem(ctx, tail)
  {
    if comment == "" {
      assert blanks + comment == blanks;
      BlankLineIsSkipped(ctx, blanks, tail);
    } else {
      assert comment == "#" + comment[1..];
      CommentLineIsSkipped(ctx, blanks, comment[1..], tail);
    }
  }

  lemma StrippedBlankIsBlank(blanks: string)
    requires AllWhitespace(blanks)
    ensures TakeHead(StripNewline(blanks + "\n")) == Blank
  {
    var s := StripNewline(blanks + "\n");
    assert AllWhitespace(s);
    NothingButWhitespace(s);
  }

  lemma TrimBoth(a: string, s: string, d: string)
    requires Solid(s) && AllWhitespace(a) && AllWhitespace(d)
    ensures TrimStart(TrimEnd(a + s + d)) == s
  {
    assert (a + s)[|a + s| - 1] == s[|s| - 1];
    TrimBlanks(a + s, d);
    SkipBlanks(a, s);
  }

  /** White space around the key, the equals sign and the value changes nothing. */
  lemma BlanksAroundAreSkipped(k: string, value: string, a: string, b: string, c: string, d: string)
    requires LegalKey(k) && Solid(value)
    requires AllWhitespace(a) && AllWhitespace(b) && AllWhitespace(c) && AllWhitespace(d)
    ensures TakeHead(a + (k + (b + ("=" + (c + value)))) + d) == Assignment(k, value)
  {
    var equals := "=" + (c + value);
    var rest := b + equals;
    var s := k + rest;
    assert s[|s| - 1] == value[|value| - 1] && s[0] == k[0];
    TrimBoth(a, s, d);
    assert !IsKeyChar(rest[0]);
    KeyIsTaken(k, rest);
    SkipBlanks(b, equals);
    assert equals[1..] == c + value;
    SkipBlanks(c, value);
    assert TakeEquals(k, equals) == Assignment(k, value);
  }

  /** The line parser sees nothing in a comment either. */
  lemma CommentIsBlank(blanks: string, text: string)
    requires AllWhitespace(blanks)
    ensures TakeHead(blanks + ("#" + text)) == Blank
  {
    var line := blanks + ("#" + text);
    TrimEndKeeps(blanks, "#" + text);
    SkipBlanks(blanks, TrimEnd("#" + text));
  }

  // ----- Spaced assignments in a file

  /** Neither a quote nor an escape nor a comment is open. */
  predicate Outside(st: ParseState) {
    st.Complete? || st.WhiteSpace?
  }

  lemma {:induction false} StaysOutside(st: ParseState, s: string)
    requires Outside(st) && forall i | 0 <= i < |s| :: IsWhitespace(s[i]) || IsKeyChar(s[i]) || s[i] == '='
    ensures Outside(EndState(st, s).1)
    decreases |s|
  {
    if s != "" {
      StaysOutside(NextState(st, s[0]), s[1..]);
    }
  }

  /** The same value behind two fronts: its quotes are open at the same places. */
  lemma FrontDoesNotMatter(first: string, second: string, value: string)
    requires Outside(EndState(Complete, first).1) && Outside(EndState(Complete, second).1)
    requires '\n' !in first && Solid(value) && value[0] != '#' && OpenAtNewlines(Complete, second + value)
    ensures OpenAtNewlines(Complete, first + value)
    ensures EndState(Complete, first + value).1 == EndState(Complete, second + value).1
  {
    EndStateAppend(Complete, first, value);
    EndStateAppend(Complete, second, value);
    var b, c := first + value, second + value;
    forall i | 0 <= i < |b| && b[i] == '\n' ensures IsOpen(EndState(Complete, b[..i + 1]).1) {
      var j := i - |first|;
      SameBehindFronts(first, second, value, j + 1);
      assert c[|second| + j] == '\n';
      assert b[..i + 1] == first + value[..j + 1] && c[..|second| + j + 1] == second + value[..j + 1];
    }
  }

  lemma SameBehindFronts(first: string, second: string, value: string, n: nat)
    requires Outside(EndState(Complete, first).1) && Outside(EndState(Complete, second).1)
    requires 0 < n <= |value| && !IsWhitespace(value[0]) && value[0] != '#'
    ensures EndState(Complete, first + value[..n]).1 == EndState(Complete, second + value[..n]).1
  {
    EndStateAppend(Complete, first, value[..n]);
    EndStateAppend(Complete, second, value[..n]);
  }

  function Spaced(a: string, k: string, b: string, c: string): string {
    a + (k + (b + ("=" + c)))
  }

  lemma SpacedFront(a: string, k: string, b: string, c: string)
    requires LegalKey(k) && AllWhitespace(a) && AllWhitespace(b) && AllWhitespace(c)
    requires '\n' !in a && '\n' !in b && '\n' !in c
    ensures Outside(EndState(Complete, Spaced(a, k, b, c)).1) && '\n' !in Spaced(a, k, b, c)
  {
    var s := Spaced(a, k, b, c);
    forall i | 0 <= i < |s| ensures s[i] != '\n' && (IsWhitespace(s[i]) || IsKeyChar(s[i]) || s[i] == '=') {
      assert s[i] in a || s[i] in k || s[i] in b || s[i] == '=' || s[i] in c;
    }
    StaysOutside(Complete, s);
  }

  lemma SpacedLineIsOneLine(k: string, value: string, a: string, b: string, c: string, end: string, tail: string)
    requires LegalKey(k) && AllWhitespace(a) && AllWhitespace(b) && AllWhitespace(c)
    requires '\n' !in a && '\n' !in b && '\n' !in c && IsLineEnd(end)
    requires Solid(value) && value[0] != '#'
    requires OpenAtNewlines(Complete, k + "=" + value) && EndState(Complete, k + "=" + value).1.Complete?
    ensures var line := Spaced(a, k, b, c) + value;
      LogicalLine(line + end + tail, "", Complete) == (Some(Ok(line)), tail)
  {
    var front, line := Spaced(a, k, b, c), Spaced(a, k, b, c) + value;
    SpacedFront(a, k, b, c);
    SpacedFront("", k, "", "");
    assert Spaced("", k, "", "") == k + "=";
    FrontDoesNotMatter(front, k + "=", value);
    assert line[|line| - 1] == value[|value| - 1];
    SpacedLineEnds(line, a, k, end, tail);
  }

  /** A line that may begin with white space, otherwise as one from its first character. */
  lemma SpacedLineEnds(line: string, a: string, k: string, end: string, tail: string)
    requires AllWhitespace(a) && '\n' !in a && LegalKey(k) && a + k <= line
    requires line[|line| - 1] != '\r' && IsLineEnd(end)
    requires OpenAtNewlines(Complete, line) && EndState(Complete, line).1.Complete?
    ensures LogicalLine(line + end + tail, "", Complete) == (Some(Ok(line)), tail)
  {
    StripLineEnd(line, end);
    var physical := if end == "\n" then line else line + "\r";
    if end == "\n" {
      NewlineCompletes(line);
    } else {
      CarriageReturn(line);
      assert line + end == physical + "\n";
    }
    assert "" + physical == physical && a + k <= physical;
    forall d | d in a + k ensures d != '\n' {
      assert d in a || d in k;
    }
    SpacedTextIsOneLine(Complete, "", physical, a, k, tail);
    assert "" + (physical + "\n") == line + end;
  }

  lemma NoCommentBehindBlanks(a: string, k: string, buf: string)
    requires AllWhitespace(a) && LegalKey(k) && a + k <= buf
    ensures !IsCommentLine(buf)
  {
    assert buf == a + (k + buf[|a + k|..]);
    SkipBlanks(a, k + buf[|a + k|..]);
  }

  /** The first physical line holds the key: no quote is open before it. */
  lemma FirstLineHoldsKey(st: ParseState, buf: string, b: string, a: string, k: string) returns (n: nat)
    requires '\n' in b && a + k <= buf + b && (buf != "" ==> a + k <= buf) && '\n' !in a + k
    ensures n < |b| && b[n] == '\n' && (forall i | 0 <= i < n :: b[i] != '\n') && a + k <= buf + b[..n + 1]
  {
    n := FirstNewline(b);
    if buf == "" {
      assert buf + b == b;
      assert b == (a + k) + b[|a + k|..];
      assert b[..n + 1][..|a + k|] == a + k;
    }
  }

  lemma SpacedFirstLine(st: ParseState, buf: string, b: string, a: string, k: string, tail: string)
      returns (first: string, later: string)
    requires '\n' in b && OpenAtNewlines(st, b) && AllWhitespace(a) && LegalKey(k) && '\n' !in a + k
    requires a + k <= buf + b && (buf != "" ==> a + k <= buf)
    ensures b == first + later && first != "" && a + k <= buf + first <= buf + first + later
    ensures OpenAtNewlines(EndState(st, first).1, later)
    ensures EndState(st, b + "\n").1 == EndState(EndState(st, first).1, later + "\n").1
    ensures LogicalLine(b + "\n" + tail, buf, st) ==
            LogicalLine(later + "\n" + tail, buf + first, EndState(st, first).1)
  {
    var n := FirstLineHoldsKey(st, buf, b, a, k);
    first, later := b[..n + 1], b[n + 1..];
    FirstLineOf(b, n, tail);
    OpenAtLaterNewlines(st, b, n);
    assert b == first + later;
    Regroup(first, later, "\n");
    EndStateAppend(st, first, later + "\n");
    NoCommentBehindBlanks(a, k, buf + first);
    OpenLineGoesOn(st, buf, first, b + "\n" + tail);
  }

  lemma {:induction false} SpacedTextIsOneLine(st: ParseState, buf: string, b: string, a: string, k: string, tail: string)
    requires OpenAtNewlines(st, b) && EndState(st, b + "\n").1.Complete?
    requires AllWhitespace(a) && LegalKey(k) && '\n' !in a + k
    requires a + k <= buf + b && (buf != "" ==> a + k <= buf)
    ensures LogicalLine(b + "\n" + tail, buf, st) == (Some(Ok(StripNewline(buf + (b + "\n")))), tail)
    decreases |b|
  {
    if '\n' in b {
      var first, later := SpacedFirstLine(st, buf, b, a, k, tail);
      SpacedTextIsOneLine(EndState(st, first).1, buf + first, later, a, k, tail);
      Regroup(buf, first, later + "\n");
      Regroup(first, later, "\n");
    } else {
      FirstLineOf(b, |b|, tail);
      Regroup(buf, b, "\n");
      NoCommentBehindBlanks(a, k, buf + (b + "\n"));
      ClosedLineIsEnd(st, buf, b + "\n", b + "\n" + tail);
    }
  }

  lemma OpenLineGoesOn(st: ParseState, buf: string, line: string, input: string)
    requires line != "" && line <= input && LineLength(input) == |line|
    requires IsOpen(EndState(st, line).1) && !IsCommentLine(buf + line)
    ensures LogicalLine(input, buf, st) == LogicalLine(input[|line|..], buf + line, EndState(st, line).1)
  {
    assert input[..|line|] == line;
  }

  lemma ClosedLineIsEnd(st: ParseState, buf: string, line: string, input: string)
    requires line != "" && line <= input && LineLength(input) == |line|
    requires EndState(st, line).1.Complete? && !IsCommentLine(buf + line)
    ensures LogicalLine(input, buf, st) == (Some(Ok(StripNewline(buf + line))), input[|line|..])
  {
    assert input[..|line|] == line;
  }

  /** White space in front of a key, behind it, and behind the equals sign changes nothing in a
      file, whatever value follows: with quotes, with escapes or plain. */
  lemma SpacedLineReads(ctx: Context, k: string, value: string, a: string, b: string, c: string, end: string, tail: string)
    requires LegalKey(k) && AllWhitespace(a) && AllWhitespace(b) && AllWhitespace(c)
    requires '\n' !in a && '\n' !in b && '\n' !in c && IsLineEnd(end)
    requires Solid(value) && value[0] != '#' && ParseValue(ctx, value).Ok?
    requires OpenAtNewlines(Complete, k + "=" + value) && EndState(Complete, k + "=" + value).1.Complete?
    ensures NextItem(ctx, Spaced(a, k, b, c) + value + end + tail)
         == (Some(Ok((k, ParseValue(ctx, value).value))), tail, ctx.data[k := Some(ParseValue(ctx, value).value)])
  {
    var line := Spaced(a, k, b, c) + value;
    SpacedLineIsOneLine(k, value, a, b, c, end, tail);
    SpacedHead(k, value, a, b, c);
  }

  lemma SpacedHead(k: string, value: string, a: string, b: string, c: string)
    requires LegalKey(k) && Solid(value) && AllWhitespace(a) && AllWhitespace(b) && AllWhitespace(c)
    ensures TakeHead(Spaced(a, k, b, c) + value) == Assignment(k, value)
  {
    BlanksAroundAreSkipped(k, value, a, b, c, "");
    assert a + (k + (b + ("=" + (c + value)))) + "" == Spaced(a, k, b, c) + value;
  }

  /** In particular behind white space a quoted value may still hold line feeds and comment signs. */
  lemma SpacedItemReadsBack(ctx: Context, item: Item, a: string, b: string, c: string, end: string, tail: string)
    requires LegalKey(item.0) && NoEmptyKey(ctx) && IsLineEnd(end)
    requires AllWhitespace(a) && AllWhitespace(b) && AllWhitespace(c) && '\n' !in a && '\n' !in b && '\n' !in c
    ensures NextItem(ctx, Spaced(a, item.0, b, c) + Quoted(item.1) + end + tail)
         == NextItem(ctx, PrintItem(item) + end + tail)
         == (Some(Ok(item)), tail, ctx.data[item.0 := Some(item.1)])
  {
    var value := Quoted(item.1);
    assert value[0] == '"' && value[|value| - 1] == '"';
    PrintedLineIsQuoted(item);
    QuotedValueReadsBack(ctx, item.1);
    SpacedLineReads(ctx, item.0, value, a, b, c, end, tail);
    PrintedItemIsNext(ctx, item, end, tail);
  }

  // ----- Broken `export` lines

  /** Behind `export` a key and its equals sign must follow: if there is no key the line is broken
      where one should begin, without the sign where the sign should be. */
  lemma ExportNeedsAnAssignment(blanks: string, k: string, bad: string)
    requires AllBlank(blanks) && blanks != "" && LegalKey(k)
    requires Solid(bad) && bad[0] != '='
    ensures TakeHead("export") == Broken(0)
    ensures !IsKeyStart(bad[0]) ==> TakeHead("export" + (blanks + bad)) == Broken(ByteLength(bad))
    ensures !IsKeyChar(bad[0]) ==> TakeHead("export" + (blanks + (k + bad))) == Broken(ByteLength(bad))
  {
    ExportAlone();
    ExportIsAKey();
    if !IsKeyStart(bad[0]) {
      ExportThen(blanks, bad);
    }
    if !IsKeyChar(bad[0]) {
      KeyWithoutEquals(k, bad);
      ExportThen(blanks, k + bad);
    }
  }

  lemma KeyWithoutEquals(k: string, bad: string)
    requires LegalKey(k) && Solid(bad) && bad[0] != '=' && !IsKeyChar(bad[0])
    ensures Solid(k + bad) && (k + bad)[0] != '=' && BehindExport(k + bad) == Broken(ByteLength(bad))
  {
    assert (k + bad)[0] == k[0] && (k + bad)[|k + bad| - 1] == bad[|bad| - 1];
    KeyIsTaken(k, bad);
  }

  lemma ExportAlone()
    ensures TakeHead("export") == Broken(0)
  {
    ExportIsAKey();
    AllKeyChars("export");
    assert "export"[..6] == "export" && "export"[6..] == "";
  }

  lemma {:induction false} AllKeyChars(k: string)
    requires forall c <- k :: IsKeyChar(c)
    ensures KeyLength(k) == |k|
    decreases |k|
  {
    if k != "" {
      assert k[0] in k && forall c <- k[1..] :: c in k;
      AllKeyChars(k[1..]);
    }
  }

  /** What a line is when `s` stands behind its `export`. */
  function BehindExport(s: string): Head {
    match TakeKey(s)
    case None => Broken(ByteLength(s))
    case Some((key, after)) => TakeEquals(key, TrimStart(after))
  }

  lemma ExportThen(blanks: string, s: string)
    requires AllBlank(blanks) && blanks != "" && Solid(s) && s[0] != '='
    ensures TakeHead("export" + (blanks + s)) == BehindExport(s)
  {
    var line := "export" + (blanks + s);
    assert line[0] == "export"[0] && line[|line| - 1] == s[|s| - 1];
    ExportIsAKey();
    KeyIsTaken("export", blanks + s);
    SkipBlanks(blanks, s);
  }
}
