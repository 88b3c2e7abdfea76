/** Printed `.env` files read back, for double and for single quotes, and what references do. */
module DotenvRoundTrip {
  import opened Wrappers
  import opened Sequences
  import opened Texts
  import opened DotenvChars
  import opened DotenvParse
  import opened DotenvLines
  import opened DotenvLoad

  // ----- Printing

  function EscapeChar(c: char): string {
    if c == '\\' || c == '"' || c == '$' then ['\\', c] else [c]
  }

  function EscapeText(v: string): string {
    if v == "" then "" else EscapeChar(v[0]) + EscapeText(v[1..])
  }

  predicate LegalKey(k: string) {
    k != "" && IsKeyStart(k[0]) && forall c <- k :: IsKeyChar(c)
  }

  const UPPER := "ABCDEFGHIJKLMNOPQRSTUVWXYZ"
  const LOWER := "abcdefghijklmnopqrstuvwxyz"
  const DIGITS := "0123456789"

  lemma UpperCase(c: char)
    ensures 'A' <= c <= 'Z' <==> c in UPPER
  {
    assert 'A' <= c <= 'Z' ==> UPPER[c as int - 'A' as int] == c;
  }

  lemma LowerCase(c: char)
    ensures 'a' <= c <= 'z' <==> c in LOWER
  {
    assert 'a' <= c <= 'z' ==> LOWER[c as int - 'a' as int] == c;
  }

  lemma ADigit(c: char)
    ensures '0' <= c <= '9' <==> c in DIGITS
  {
    assert '0' <= c <= '9' ==> DIGITS[c as int - '0' as int] == c;
  }

  /** The legal keys, with their characters written out. */
  lemma LegalKeysAreThese(k: string)
    ensures LegalKey(k) <==>
      && k != "" && (k[0] == '_' || k[0] in UPPER || k[0] in LOWER)
      && forall c <- k :: c == '_' || c == '.' || c in UPPER || c in LOWER || c in DIGITS
  {
    forall c | c in k
      ensures IsKeyStart(c) <==> c == '_' || c in UPPER || c in LOWER
      ensures IsKeyChar(c) <==> c == '_' || c == '.' || c in UPPER || c in LOWER || c in DIGITS
    {
      UpperCase(c);
      LowerCase(c);
      ADigit(c);
    }
    assert k != "" ==> k[0] in k;
  }

  predicate LegalKeys(items: seq<Item>) {
    forall item <- items :: LegalKey(item.0)
  }

  /** `key="escaped value"`, without the line feed. */
  function PrintItem(item: Item): string {
    item.0 + "=" + Quoted(item.1)
  }

  function Quoted(v: string): string {
    ['"'] + EscapeText(v) + ['"']
  }

  /** Lines end in a line feed, or in a carriage return and a line feed. */
  predicate IsLineEnd(end: string) {
    end == "\n" || end == "\r\n"
  }

  function PrintFile(items: seq<Item>, end: string): string {
    if items == [] then "" else PrintItem(items[0]) + end + PrintFile(items[1..], end)
  }

  // ----- The value parser reads the escapes back

  /** No key is empty, so the empty name stands for nothing. */
  predicate NoEmptyKey(ctx: Context) {
    "" !in ctx.data
  }

  /** The value parser over text that is not the end of the value. */
  function Run(ctx: Context, st: ValueState, s: string): Outcome
    decreases |s|
  {
    if s == "" then Continue(st)
    else match StepValue(ctx, st, s[0])
      case Continue(st') => Run(ctx, st', s[1..])
      case outcome => outcome
  }

  lemma {:induction false} RunAppend(ctx: Context, st: ValueState, a: string, b: string)
    requires Run(ctx, st, a).Continue?
    ensures Run(ctx, st, a + b) == Run(ctx, Run(ctx, st, a).st, b)
    decreases |a|
  {
    if a == "" {
      assert a + b == b;
    } else {
      assert (a + b)[1..] == a[1..] + b;
      RunAppend(ctx, StepValue(ctx, st, a[0]).st, a[1..], b);
    }
  }

  lemma RunCharacter(ctx: Context, st: ValueState, c: char)
    ensures Run(ctx, st, [c]) == StepValue(ctx, st, c)
  {
  }

  lemma {:induction false} RunReads(ctx: Context, st: ValueState, input: string, i: nat)
    requires i <= |input| && Run(ctx, st, input[i..]).Continue?
    ensures ValueFrom(ctx, st, input, i) == FinishValue(ctx, Run(ctx, st, input[i..]).st, input)
    decreases |input| - i
  {
    if i < |input| {
      assert input[i..][1..] == input[i + 1..];
      RunReads(ctx, StepValue(ctx, st, input[i]).st, input, i + 1);
    }
  }

  const WEAK := VALUE_INIT.(weak := true)
  const STRONG := VALUE_INIT.(strong := true)

  /** A quoted value is what the text between the quotes writes. */
  lemma BetweenQuotes(ctx: Context, quote: char, body: string, output: string)
    requires NoEmptyKey(ctx) && (quote == '"' || quote == '\'')
    requires var inside := if quote == '"' then WEAK else STRONG;
      Run(ctx, inside, body) == Continue(inside.(output := output))
    ensures ParseValue(ctx, [quote] + body + [quote]) == Ok(output)
  {
    var inside := if quote == '"' then WEAK else STRONG;
    var input := [quote] + body + [quote];
    RunCharacter(ctx, VALUE_INIT, quote);
    RunAppend(ctx, VALUE_INIT, [quote], body);
    RunAppend(ctx, VALUE_INIT, [quote] + body, [quote]);
    RunCharacter(ctx, inside.(output := output), quote);
    assert input[0..] == input;
    RunReads(ctx, VALUE_INIT, input, 0);
    assert output + "" == output;
  }

  lemma EscapedCharacter(ctx: Context, output: string, c: char)
    ensures Run(ctx, WEAK.(output := output), EscapeChar(c)) == Continue(WEAK.(output := output + [c]))
  {
    var st := WEAK.(output := output);
    if |EscapeChar(c)| == 2 {
      RunCharacter(ctx, st, '\\');
      RunAppend(ctx, st, ['\\'], [c]);
      RunCharacter(ctx, st.(escaped := true), c);
      assert ['\\'] + [c] == EscapeChar(c);
    } else {
      RunCharacter(ctx, st, c);
    }
  }

  lemma {:induction false} EscapedText(ctx: Context, output: string, v: string)
    ensures Run(ctx, WEAK.(output := output), EscapeText(v)) == Continue(WEAK.(output := output + v))
    decreases |v|
  {
    if v == "" {
      assert output + "" == output;
    } else {
      EscapedCharacter(ctx, output, v[0]);
      RunAppend(ctx, WEAK.(output := output), EscapeChar(v[0]), EscapeText(v[1..]));
      EscapedText(ctx, output + [v[0]], v[1..]);
    }
  }

  lemma NothingBefore(v: string)
    ensures "" + v == v
  {
  }

  lemma QuotedValueReadsBack(ctx: Context, v: string)
    requires NoEmptyKey(ctx)
    ensures ParseValue(ctx, Quoted(v)) == Ok(v)
  {
    EscapedText(ctx, "", v);
    NothingBefore(v);
    BetweenQuotes(ctx, '"', EscapeText(v), v);
  }

  // ----- The line parser finds key and value

  lemma {:induction false} KeyLengthStops(k: string, rest: string)
    requires (forall c <- k :: IsKeyChar(c)) && rest != "" && !IsKeyChar(rest[0])
    ensures KeyLength(k + rest) == |k|
    decreases |k|
  {
    if k != "" {
      assert (k + rest)[1..] == k[1..] + rest;
      KeyLengthStops(k[1..], rest);
    } else {
      assert k + rest == rest;
    }
  }

  predicate Solid(s: string) {
    s != "" && !IsWhitespace(s[0]) && !IsWhitespace(s[|s| - 1])
  }

  lemma HeadOfAssignment(k: string, value: string)
    requires LegalKey(k) && Solid(value)
    ensures TakeHead(k + "=" + value) == Assignment(k, value)
  {
    var line := k + "=" + value;
    assert line[0] == k[0] && line[|line| - 1] == value[|value| - 1];
    assert TrimStart(TrimEnd(line)) == line;
    assert line == k + ("=" + value);
    KeyLengthStops(k, "=" + value);
    assert line[..|k|] == k && line[|k|..] == "=" + value;
    assert ("=" + value)[1..] == value;
  }

  lemma PrintedLineParses(ctx: Context, item: Item)
    requires LegalKey(item.0) && NoEmptyKey(ctx)
    ensures ParseLine(ctx, PrintItem(item)) == (Ok(Some(item)), ctx.data[item.0 := Some(item.1)])
  {
    var value := Quoted(item.1);
    assert value[0] == '"' && value[|value| - 1] == '"';
    HeadOfAssignment(item.0, value);
    QuotedValueReadsBack(ctx, item.1);
  }

  // ----- The splitter delivers the printed line, whatever line feeds it contains

  lemma {:induction false} EndStateAppend(st: ParseState, a: string, b: string)
    requires !EndState(st, a).1.Comment?
    ensures EndState(st, a + b).1 == EndState(EndState(st, a).1, b).1
    ensures EndState(st, a + b).0 == |a| + EndState(EndState(st, a).1, b).0
    decreases |a|
  {
    if a == "" {
      assert a + b == b;
    } else {
      assert (a + b)[1..] == a[1..] + b;
      EndStateAppend(NextState(st, a[0]), a[1..], b);
    }
  }

  /** One byte order mark in front of a text is taken away, and nothing else is. */
  lemma RemovesOneBom(content: string)
    ensures RemoveBom("\U{FEFF}" + content) == content
    ensures !("\U{FEFF}" <= content) ==> RemoveBom(content) == content
  {
    assert ("\U{FEFF}" + content)[1..] == content;
    if StartsWith(content, '\U{FEFF}') {
      assert "\U{FEFF}" == content[..1];
    }
  }

  predicate IsOpen(st: ParseState) {
    st.StrongOpen? || st.StrongOpenEscape? || st.WeakOpen? || st.WeakOpenEscape?
  }

  /** A quote is open behind each line feed of `b`. */
  ghost predicate OpenAtNewlines(st: ParseState, b: string) {
    forall i | 0 <= i < |b| && b[i] == '\n' :: IsOpen(EndState(st, b[..i + 1]).1)
  }

  lemma LineLengthOf(s: string, n: nat)
    requires n < |s| && s[n] == '\n' && forall i | 0 <= i < n :: s[i] != '\n'
    ensures LineLength(s) == n + 1
    decreases n
  {
    if n > 0 {
      LineLengthOf(s[1..], n - 1);
    }
  }

  lemma FirstNewline(s: string) returns (n: nat)
    requires '\n' in s
    ensures n < |s| && s[n] == '\n' && forall i | 0 <= i < n :: s[i] != '\n'
  {
    n := 0;
    while s[n] != '\n'
      invariant n < |s| && '\n' in s[n..]
      invariant forall i | 0 <= i < n :: s[i] != '\n'
      decreases |s| - n
    {
      assert s[n..] == [s[n]] + s[n + 1..];
      n := n + 1;
    }
  }

  lemma OpenAtLaterNewlines(st: ParseState, b: string, n: nat)
    requires n < |b| && b[n] == '\n' && OpenAtNewlines(st, b)
    ensures OpenAtNewlines(EndState(st, b[..n + 1]).1, b[n + 1..])
  {
    var first, later := b[..n + 1], b[n + 1..];
    forall i | 0 <= i < |later| && later[i] == '\n' ensures IsOpen(EndState(EndState(st, first).1, later[..i + 1]).1) {
      assert b[..n + 1 + i + 1] == first + later[..i + 1];
      EndStateAppend(st, first, later[..i + 1]);
    }
  }

  /** The line read so far does not look like a comment. */
  predicate NoComment(buf: string) {
    buf != "" && !IsWhitespace(buf[0]) && buf[0] != '#'
  }

  lemma FirstLineOf(b: string, n: nat, tail: string)
    requires n <= |b| && (n == |b| || b[n] == '\n') && forall i | 0 <= i < n :: b[i] != '\n'
    ensures var input := b + "\n" + tail;
      && LineLength(input) == n + 1
      && input[..n + 1] == (if n == |b| then b + "\n" else b[..n + 1])
      && input[n + 1..] == (if n == |b| then tail else b[n + 1..] + "\n" + tail)
  {
    LineLengthOf(b + "\n" + tail, n);
  }

  /** A physical line that leaves a quote open is only the beginning of the logical line. */
  lemma OpenLineContinues(st: ParseState, buf: string, line: string, input: string)
    requires line != "" && line <= input && LineLength(input) == |line|
    requires IsOpen(EndState(st, line).1) && NoComment(buf + line)
    ensures LogicalLine(input, buf, st) == LogicalLine(input[|line|..], buf + line, EndState(st, line).1)
  {
    assert input[..|line|] == line;
  }

  /** The physical line that closes it is the end. */
  lemma ClosedLineEnds(st: ParseState, buf: string, line: string, input: string)
    requires line != "" && line <= input && LineLength(input) == |line|
    requires EndState(st, line).1.Complete? && NoComment(buf + line)
    ensures LogicalLine(input, buf, st) == (Some(Ok(StripNewline(buf + line))), input[|line|..])
  {
    assert input[..|line|] == line;
  }

  /** One step along text that is open at its inner line feeds. */
  lemma FirstOpenLine(st: ParseState, buf: string, b: string, tail: string) returns (first: string, later: string)
    requires '\n' in b && OpenAtNewlines(st, b) && NoComment(buf + b)
    ensures b == first + later && first != "" && NoComment(buf + first + later)
    ensures OpenAtNewlines(EndState(st, first).1, later)
    ensures EndState(st, b + "\n").1 == EndState(EndState(st, first).1, later + "\n").1
    ensures LogicalLine(b + "\n" + tail, buf, st) ==
            LogicalLine(later + "\n" + tail, buf + first, EndState(st, first).1)
  {
    var n := FirstNewline(b);
    FirstLineOf(b, n, tail);
    first, later := b[..n + 1], b[n + 1..];
    assert b == first + later;
    OpenAtLaterNewlines(st, b, n);
    Regroup(first, later, "\n");
    EndStateAppend(st, first, later + "\n");
    OpenLineContinues(st, buf, first, b + "\n" + tail);
  }

  /** Text whose quotes are open at every inner line feed and closed at the end is one line. */
  lemma {:induction false} QuotedTextIsOneLine(st: ParseState, buf: string, b: string, tail: string)
    requires OpenAtNewlines(st, b) && EndState(st, b + "\n").1.Complete? && NoComment(buf + b)
    ensures LogicalLine(b + "\n" + tail, buf, st) == (Some(Ok(StripNewline(buf + (b + "\n")))), tail)
    decreases |b|
  {
    if '\n' in b {
      var first, later := FirstOpenLine(st, buf, b, tail);
      QuotedTextIsOneLine(EndState(st, first).1, buf + first, later, tail);
      Regroup(buf, first, later + "\n");
      Regroup(first, later, "\n");
    } else {
      FirstLineOf(b, |b|, tail);
      assert (buf + (b + "\n"))[0] == (buf + b)[0];
      ClosedLineEnds(st, buf, b + "\n", b + "\n" + tail);
    }
  }

  /** Text whose quotes are open at every line feed up to the end of the input is an error behind
      the whole text. */
  lemma {:induction false} OpenTextIsError(st: ParseState, buf: string, b: string)
    requires OpenAtNewlines(st, b) && IsOpen(EndState(st, b + "\n").1) && NoComment(buf + b)
    ensures var all := buf + (b + "\n");
      LogicalLine(b + "\n" + "", buf, st).0 == Some(Err(LineParse(all, ByteLength(all))))
    decreases |b|
  {
    if '\n' in b {
      var first, later := FirstOpenLine(st, buf, b, "");
      OpenTextIsError(EndState(st, first).1, buf + first, later);
      Regroup(buf, first, later + "\n");
      Regroup(first, later, "\n");
    } else {
      FirstLineOf(b, |b|, "");
      assert (buf + (b + "\n"))[0] == (buf + b)[0];
      OpenLineContinues(st, buf, b + "\n", b + "\n" + "");
    }
  }

  lemma {:induction false} KeyKeepsComplete(k: string)
    requires forall c <- k :: IsKeyChar(c)
    ensures EndState(Complete, k).1 == Complete
    decreases |k|
  {
    if k != "" {
      assert k[0] in k && NextState(Complete, k[0]) == Complete;
      KeyKeepsComplete(k[1..]);
    }
  }

  /** The state behind `key=` and a quote. */
  lemma QuoteOpens(k: string, quote: char)
    requires LegalKey(k) && (quote == '"' || quote == '\'')
    ensures EndState(Complete, k + "=" + [quote]).1 == if quote == '"' then WeakOpen else StrongOpen
  {
    KeyKeepsComplete(k);
    EndStateAppend(Complete, k, "=" + [quote]);
    assert k + ("=" + [quote]) == k + "=" + [quote];
    assert ("=" + [quote])[1..] == [quote] && [quote][1..] == "";
    assert EndState(Complete, [quote]).1 == NextState(Complete, quote);
    assert EndState(Complete, "=" + [quote]).1 == EndState(Complete, [quote]).1;
  }

  lemma {:induction false} EscapesStayOpen(v: string, j: nat)
    requires j <= |EscapeText(v)|
    ensures var st := EndState(WeakOpen, EscapeText(v)[..j]).1;
      (st.WeakOpen? || st.WeakOpenEscape?) && (j == |EscapeText(v)| ==> st.WeakOpen?)
    decreases |v|
  {
    if v != "" {
      var e, later := EscapeChar(v[0]), EscapeText(v[1..]);
      assert EndState(WeakOpen, e[..1]).1 == NextState(WeakOpen, e[0]) by {
        assert e[..1][1..] == "";
      }
      assert EndState(WeakOpen, e).1 == WeakOpen by {
        if |e| == 2 {
          assert e == e[..1] + e[1..] && e[1..][1..] == "";
          EndStateAppend(WeakOpen, e[..1], e[1..]);
          assert EndState(WeakOpenEscape, e[1..]).1 == NextState(WeakOpenEscape, e[1]);
        } else {
          assert e[..1] == e;
        }
      }
      if j >= |e| {
        assert EscapeText(v)[..j] == e + later[..j - |e|];
        EndStateAppend(WeakOpen, e, later[..j - |e|]);
        EscapesStayOpen(v[1..], j - |e|);
      } else {
        assert EscapeText(v)[..j] == e[..j];
        assert j == 0 || e[..j] == e[..1];
      }
    }
  }

  /** What is between the quotes keeps them open: the assignment is open at its line feeds. */
  lemma OpenBetweenQuotes(k: string, quote: char, body: string)
    requires LegalKey(k) && (quote == '"' || quote == '\'')
    requires var start := if quote == '"' then WeakOpen else StrongOpen;
      forall j | 0 <= j <= |body| :: IsOpen(EndState(start, body[..j]).1)
    ensures OpenAtNewlines(Complete, k + "=" + ([quote] + body + [quote]))
  {
    var prefix := k + "=" + [quote];
    var b := k + "=" + ([quote] + body + [quote]);
    assert b == prefix + body + [quote];
    QuoteOpens(k, quote);
    forall i | 0 <= i < |prefix| ensures b[i] != '\n' {
      assert b[i] == prefix[i] && (i < |k| ==> prefix[i] in k);
    }
    forall i | 0 <= i < |b| && b[i] == '\n' ensures IsOpen(EndState(Complete, b[..i + 1]).1) {
      var j := i - |prefix|;
      assert j < |body|;
      assert b[..i + 1] == prefix + body[..j + 1];
      EndStateAppend(Complete, prefix, body[..j + 1]);
    }
  }

  lemma ClosingQuote(k: string, quote: char, body: string)
    requires LegalKey(k) && (quote == '"' || quote == '\'')
    ensures var start := if quote == '"' then WeakOpen else StrongOpen;
      var end := EndState(start, body).1;
      IsOpen(end) ==> EndState(Complete, k + "=" + ([quote] + body + [quote])).1 == NextState(end, quote)
  {
    var start := if quote == '"' then WeakOpen else StrongOpen;
    var end := EndState(start, body).1;
    if IsOpen(end) {
      var prefix := k + "=" + [quote];
      QuoteOpens(k, quote);
      EndStateAppend(start, body, [quote]);
      assert k + "=" + ([quote] + body + [quote]) == prefix + (body + [quote]);
      EndStateAppend(Complete, prefix, body + [quote]);
      assert [quote][1..] == "";
      assert EndState(end, [quote]).1 == NextState(end, quote);
    }
  }

  lemma PrintedLineIsQuoted(item: Item)
    requires LegalKey(item.0)
    ensures OpenAtNewlines(Complete, PrintItem(item))
    ensures EndState(Complete, PrintItem(item)).1.Complete?
  {
    var (k, v) := item;
    var body := EscapeText(v);
    forall j | 0 <= j <= |body| ensures IsOpen(EndState(WeakOpen, body[..j]).1) {
      EscapesStayOpen(v, j);
    }
    OpenBetweenQuotes(k, '"', body);
    EscapesStayOpen(v, |body|);
    assert body[..|body|] == body;
    ClosingQuote(k, '"', body);
  }

  lemma StripLineEnd(b: string, end: string)
    requires IsLineEnd(end) && b != "" && b[|b| - 1] != '\r'
    ensures StripNewline(b + end) == b
  {
  }

  lemma CarriageReturn(b: string)
    requires OpenAtNewlines(Complete, b) && EndState(Complete, b).1.Complete?
    ensures OpenAtNewlines(Complete, b + "\r") && EndState(Complete, b + "\r" + "\n").1.Complete?
  {
    assert EndState(Complete, "\r").1 == NextState(Complete, '\r') by {
      assert "\r"[1..] == "";
    }
    assert EndState(Complete, "\n").1 == NextState(Complete, '\n') by {
      assert "\n"[1..] == "";
    }
    EndStateAppend(Complete, b, "\r");
    EndStateAppend(Complete, b + "\r", "\n");
    var c := b + "\r";
    forall i | 0 <= i < |c| && c[i] == '\n' ensures IsOpen(EndState(Complete, c[..i + 1]).1) {
      assert c[..i + 1] == b[..i + 1];
    }
  }

  /** A line that is complete at its end and open at its line feeds is one line, however it ends. */
  lemma OneLineFromStart(b: string, end: string, tail: string)
    requires OpenAtNewlines(Complete, b) && EndState(Complete, b).1.Complete? && NoComment(b)
    requires IsLineEnd(end) && b[|b| - 1] != '\r'
    ensures LogicalLine(b + end + tail, "", Complete) == (Some(Ok(b)), tail)
  {
    StripLineEnd(b, end);
    if end == "\n" {
      NewlineCompletes(b);
      WholeLine(b, tail);
    } else {
      CarriageReturn(b);
      assert b + end == b + "\r" + "\n";
      WholeLine(b + "\r", tail);
    }
  }

  lemma NewlineCompletes(b: string)
    requires EndState(Complete, b).1.Complete?
    ensures EndState(Complete, b + "\n").1.Complete?
  {
    EndStateAppend(Complete, b, "\n");
    assert "\n"[1..] == "";
  }

  lemma WholeLine(b: string, tail: string)
    requires OpenAtNewlines(Complete, b) && EndState(Complete, b + "\n").1.Complete? && NoComment(b)
    ensures LogicalLine(b + "\n" + tail, "", Complete) == (Some(Ok(StripNewline(b + "\n"))), tail)
  {
    NothingBefore(b);
    NothingBefore(b + "\n");
    QuotedTextIsOneLine(Complete, "", b, tail);
  }

  lemma PrintedLineIsOneLine(item: Item, end: string, tail: string)
    requires LegalKey(item.0) && IsLineEnd(end)
    ensures LogicalLine(PrintItem(item) + end + tail, "", Complete) == (Some(Ok(PrintItem(item))), tail)
  {
    var b := PrintItem(item);
    PrintedLineIsQuoted(item);
    assert b[0] == item.0[0] && b[|b| - 1] == '"';
    OneLineFromStart(b, end, tail);
  }

  // ----- The file round trip

  function OkItems(items: seq<Item>): seq<ItemResult> {
    if items == [] then [] else [Ok(items[0])] + OkItems(items[1..])
  }

  lemma PrintedItemIsNext(ctx: Context, item: Item, end: string, tail: string)
    requires LegalKey(item.0) && NoEmptyKey(ctx) && IsLineEnd(end)
    ensures NextItem(ctx, PrintItem(item) + end + tail) == (Some(Ok(item)), tail, ctx.data[item.0 := Some(item.1)])
  {
    PrintedLineIsOneLine(item, end, tail);
    PrintedLineParses(ctx, item);
  }

  /** Reading back a printed file yields exactly the printed list, for every list with legal
      keys, whatever the values, the line ends, the environment and the keys read before. */
  lemma {:induction false} PrintedFileReadsBack(ctx: Context, items: seq<Item>, end: string)
    requires LegalKeys(items) && NoEmptyKey(ctx) && IsLineEnd(end)
    ensures Items(ctx, PrintFile(items, end)) == OkItems(items)
    decreases |items|
  {
    if items != [] {
      PrintedItemIsNext(ctx, items[0], end, PrintFile(items[1..], end));
      PrintedFileReadsBack(ctx.(data := ctx.data[items[0].0 := Some(items[0].1)]), items[1..], end);
    }
  }

  /** The context after one loaded item. */
  function AfterItem(override: bool, ctx: Context, item: Item): Context {
    var env := if override || item.0 !in ctx.env then ctx.env[item.0 := item.1] else ctx.env;
    ctx.(env := env, data := ctx.data[item.0 := Some(item.1)])
  }

  lemma PrintedItemLoads(override: bool, ctx: Context, item: Item, end: string, tail: string)
    requires LegalKey(item.0) && NoEmptyKey(ctx) && IsLineEnd(end)
    ensures var run, rest := LoadFrom(override, ctx, PrintItem(item) + end + tail),
                             LoadFrom(override, AfterItem(override, ctx, item), tail);
      run.items == [item] + rest.items && run.error == rest.error && run.env == rest.env
    ensures NoEmptyKey(AfterItem(override, ctx, item))
  {
    PrintedItemIsNext(ctx, item, end, tail);
  }

  /** The context after loaded items. */
  function AfterItems(override: bool, ctx: Context, items: seq<Item>): Context
    decreases |items|
  {
    if items == [] then ctx else AfterItems(override, AfterItem(override, ctx, items[0]), items[1..])
  }

  /** Behind printed items the load goes on with the rest of the file. */
  lemma {:induction false} PrintedItemsLoad(override: bool, ctx: Context, items: seq<Item>, end: string, tail: string)
    requires LegalKeys(items) && NoEmptyKey(ctx) && IsLineEnd(end)
    ensures var run, rest := LoadFrom(override, ctx, PrintFile(items, end) + tail),
                             LoadFrom(override, AfterItems(override, ctx, items), tail);
      run.items == items + rest.items && run.error == rest.error && run.env == rest.env
    ensures NoEmptyKey(AfterItems(override, ctx, items))
    decreases |items|
  {
    if items == [] {
      assert PrintFile(items, end) + tail == tail;
      var rest := LoadFrom(override, ctx, tail).items;
      assert items + rest == rest;
    } else {
      var first, later := PrintItem(items[0]) + end, PrintFile(items[1..], end);
      var next := AfterItem(override, ctx, items[0]);
      Regroup(first, later, tail);
      PrintedItemLoads(override, ctx, items[0], end, later + tail);
      PrintedItemsLoad(override, next, items[1..], end, tail);
      assert [items[0]] + items[1..] == items;
      Regroup([items[0]], items[1..], LoadFrom(override, AfterItems(override, next, items[1..]), tail).items);
    }
  }

  lemma NothingToLoad(override: bool, ctx: Context)
    ensures LoadFrom(override, ctx, "") == LoadRun([], ctx.env, 0, 0, None)
  {
  }

  lemma PrintedFileLoadsFrom(override: bool, ctx: Context, items: seq<Item>, end: string)
    requires LegalKeys(items) && NoEmptyKey(ctx) && IsLineEnd(end)
    ensures var run := LoadFrom(override, ctx, PrintFile(items, end)); run.items == items && run.error == None
  {
    PrintedItemsLoad(override, ctx, items, end, "");
    NothingToLoad(override, AfterItems(override, ctx, items));
    assert PrintFile(items, end) + "" == PrintFile(items, end) && items + [] == items;
  }

  /** End to end: loading a printed file sets every key to its last (`load_override`) or first
      (`load`, unless it existed) printed value and touches nothing else, with or without a byte
      order mark. */
  lemma PrintedFileLoads(override: bool, env: map<string, string>, alnum: char -> bool,
                         items: seq<Item>, end: string, marked: bool, key: string)
    requires LegalKeys(items) && IsLineEnd(end)
    ensures var run := Load(override, env, alnum, (if marked then [BOM] else []) + PrintFile(items, end));
      && run.error == None && run.items == items
      && Lookup(run.env, key) ==
           (if override then (if LastValue(items, key).Some? then LastValue(items, key) else Lookup(env, key))
            else if key in env then Lookup(env, key) else FirstValue(items, key))
  {
    var file := PrintFile(items, end);
    assert RemoveBom((if marked then [BOM] else []) + file) == file by {
      if items != [] {
        assert items[0] in items && file[0] == items[0].0[0];
      }
    }
    var ctx := Context(env, map[], alnum);
    PrintedFileLoadsFrom(override, ctx, items, end);
    if override {
      OverrideTakesLast(ctx, file, key);
    } else {
      LoadKeepsExisting(ctx, file, key);
    }
  }

  // ----- Single quotes

  function TrailingBackslashes(v: string): nat {
    if v != "" && v[|v| - 1] == '\\' then 1 + TrailingBackslashes(v[..|v| - 1]) else 0
  }

  /** The splitter, unlike the value parser, lets a backslash escape inside single quotes. */
  lemma {:induction false} StrongQuoteState(v: string)
    requires '\'' !in v
    ensures EndState(StrongOpen, v).1 == if TrailingBackslashes(v) % 2 == 0 then StrongOpen else StrongOpenEscape
    decreases |v|
  {
    if v != "" {
      var front, c := v[..|v| - 1], v[|v| - 1];
      assert c in v && v == front + [c];
      StrongQuoteState(front);
      EndStateAppend(StrongOpen, front, [c]);
      assert [c][1..] == "";
      assert EndState(EndState(StrongOpen, front).1, [c]).1 == NextState(EndState(StrongOpen, front).1, c);
    }
  }

  lemma {:induction false} StrongText(ctx: Context, output: string, v: string)
    requires '\'' !in v
    ensures Run(ctx, STRONG.(output := output), v) == Continue(STRONG.(output := output + v))
    decreases |v|
  {
    if v == "" {
      assert output + "" == output;
    } else {
      assert v[0] in v;
      StrongText(ctx, output + [v[0]], v[1..]);
    }
  }

  function PrintSingle(k: string, v: string): string {
    k + "=" + (['\''] + v + ['\''])
  }

  lemma SingleLineParses(ctx: Context, k: string, v: string)
    requires LegalKey(k) && '\'' !in v && NoEmptyKey(ctx)
    ensures ParseLine(ctx, PrintSingle(k, v)).0 == Ok(Some((k, v)))
  {
    var value := ['\''] + v + ['\''];
    assert value[0] == '\'' && value[|value| - 1] == '\'';
    HeadOfAssignment(k, value);
    StrongText(ctx, "", v);
    NothingBefore(v);
    BetweenQuotes(ctx, '\'', v, v);
  }

  lemma SingleQuotesStayOpen(k: string, v: string)
    requires LegalKey(k) && '\'' !in v
    ensures OpenAtNewlines(Complete, PrintSingle(k, v))
    ensures EndState(Complete, PrintSingle(k, v)).1 == if TrailingBackslashes(v) % 2 == 0 then Complete else StrongOpen
  {
    forall j | 0 <= j <= |v| ensures IsOpen(EndState(StrongOpen, v[..j]).1) {
      StrongQuoteState(v[..j]);
    }
    OpenBetweenQuotes(k, '\'', v);
    assert v[..|v|] == v;
    StrongQuoteState(v);
    ClosingQuote(k, '\'', v);
  }

  lemma SingleItemIsNext(ctx: Context, k: string, v: string)
    requires LegalKey(k) && '\'' !in v && NoEmptyKey(ctx) && TrailingBackslashes(v) % 2 == 0
    ensures NextItem(ctx, PrintSingle(k, v) + "\n").0 == Some(Ok((k, v)))
    ensures NextItem(ctx, PrintSingle(k, v) + "\n").1 == ""
  {
    var b := PrintSingle(k, v);
    SingleQuotesStayOpen(k, v);
    assert b[0] == k[0] && b[|b| - 1] == '\'';
    OneLineFromStart(b, "\n", "");
    assert b + "\n" + "" == b + "\n";
    SingleLineParses(ctx, k, v);
  }

  lemma SingleItemIsError(ctx: Context, k: string, v: string)
    requires LegalKey(k) && '\'' !in v && TrailingBackslashes(v) % 2 != 0
    ensures NextItem(ctx, PrintSingle(k, v) + "\n").0.Some? && NextItem(ctx, PrintSingle(k, v) + "\n").0.value.Err?
  {
    var b := PrintSingle(k, v);
    SingleQuotesStayOpen(k, v);
    EndStateAppend(Complete, b, "\n");
    assert "\n"[1..] == "";
    assert "" + b == b && b[0] == k[0];
    OpenTextIsError(Complete, "", b);
    assert b + "\n" + "" == b + "\n";
  }

  /** A value printed in single quotes (and without one inside) is read back exactly when it
      does not end in an odd number of backslashes. */
  lemma SingleQuotesReadBackExactly(ctx: Context, k: string, v: string)
    requires LegalKey(k) && '\'' !in v && NoEmptyKey(ctx)
    ensures Items(ctx, PrintSingle(k, v) + "\n") == [Ok((k, v))] <==> TrailingBackslashes(v) % 2 == 0
  {
    var input := PrintSingle(k, v) + "\n";
    if TrailingBackslashes(v) % 2 == 0 {
      SingleItemIsNext(ctx, k, v);
      var data := NextItem(ctx, input).2;
      assert Items(ctx.(data := data), "") == [];
    } else {
      SingleItemIsError(ctx, k, v);
      assert Items(ctx, input)[0].Err?;
    }
  }
}
