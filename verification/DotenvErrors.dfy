/** Where a load stops, what it has done by then, and which lines and values stop it. */
module DotenvErrors {
  import opened Wrappers
  import opened Sequences
  import opened Texts
  import opened DotenvChars
  import opened DotenvParse
  import opened DotenvLines
  import opened DotenvLoad
  import opened DotenvRoundTrip
  import opened DotenvUnquoted
  import opened DotenvComments
  import opened DotenvBlanks

  // ----- The first error ends a load

  /** Everything the iterator has to give during a load, going on behind errors. */
  function Readings(override: bool, ctx: Context, input: string): seq<ItemResult>
    decreases |input|
  {
    var (next, rest, data) := NextItem(ctx, input);
    match next
    case None => []
    case Some(Err(e)) => [Err(e)] + Readings(override, ctx.(data := data), rest)
    case Some(Ok((key, value))) =>
      var env := if override || key !in ctx.env then ctx.env[key := value] else ctx.env;
      [Ok((key, value))] + Readings(override, ctx.(env := env, data := data), rest)
  }

  /** A load takes the items before the first error and reports that error; without an error it
      takes everything. */
  lemma {:induction false} LoadTakesItemsBeforeError(override: bool, ctx: Context, input: string)
    ensures var run := LoadFrom(override, ctx, input);
      var all := Readings(override, ctx, input);
      if run.error.None? then OkItems(run.items) == all
      else OkItems(run.items) + [Err(run.error.value)] <= all
    decreases |input|
  {
    var (next, rest, data) := NextItem(ctx, input);
    if next.Some? && next.value.Ok? {
      var (key, value) := next.value.value;
      var env := if override || key !in ctx.env then ctx.env[key := value] else ctx.env;
      LoadTakesItemsBeforeError(override, ctx.(env := env, data := data), rest);
      var run := LoadFrom(override, ctx.(env := env, data := data), rest);
      assert LoadFrom(override, ctx, input).items == [(key, value)] + run.items;
      assert ([(key, value)] + run.items)[1..] == run.items;
    }
  }

  /** Printed items and then an error: the load ends with that error, has read exactly the printed
      items, and leaves the environment that they alone make. */
  lemma LoadStopsAtError(override: bool, ctx: Context, items: seq<Item>, end: string, tail: string, e: Error, key: string)
    requires LegalKeys(items) && NoEmptyKey(ctx) && IsLineEnd(end)
    requires NextItem(AfterItems(override, ctx, items), tail).0 == Some(Err(e))
    ensures var run := LoadFrom(override, ctx, PrintFile(items, end) + tail);
      && run.error == Some(e) && run.items == items
      && run.env == AfterItems(override, ctx, items).env
      && Lookup(run.env, key) ==
           (if override then (if LastValue(items, key).Some? then LastValue(items, key) else Lookup(ctx.env, key))
            else if key in ctx.env then Lookup(ctx.env, key) else FirstValue(items, key))
  {
    PrintedItemsLoad(override, ctx, items, end, tail);
    if override {
      OverrideTakesLast(ctx, PrintFile(items, end) + tail, key);
    } else {
      LoadKeepsExisting(ctx, PrintFile(items, end) + tail, key);
    }
    assert items + [] == items;
  }

  // ----- Lines without an assignment

  /** Nothing the line splitter looks at. */
  predicate Ordinary(c: char) {
    !IsWhitespace(c) && c != '\\' && c != '"' && c != '\''
  }

  predicate AllOrdinary(s: string) {
    forall c <- s :: Ordinary(c)
  }

  lemma {:induction false} OrdinaryStaysComplete(s: string)
    requires AllOrdinary(s)
    ensures EndState(Complete, s).1 == Complete
    decreases |s|
  {
    if s != "" {
      assert s[0] in s && NextState(Complete, s[0]) == Complete;
      assert forall c <- s[1..] :: c in s;
      OrdinaryStaysComplete(s[1..]);
    }
  }

  lemma OrdinaryLineIsOneLine(line: string, tail: string)
    requires line != "" && AllOrdinary(line) && line[0] != '#'
    ensures LogicalLine(line + "\n" + tail, "", Complete) == (Some(Ok(line)), tail)
    ensures TrimStart(TrimEnd(line)) == line
  {
    OrdinaryStaysComplete(line);
    assert line[0] in line && line[|line| - 1] in line;
    assert '\n' !in line && line[|line| - 1] != '\r';
    OneLineFromStart(line, "\n", tail);
  }

  lemma HeadWithoutEquals(k: string, bad: string)
    requires LegalKey(k) && k != "export" && (bad == "" || (!IsKeyChar(bad[0]) && bad[0] != '='))
    requires TrimStart(TrimEnd(k + bad)) == k + bad && TrimStart(bad) == bad
    ensures TakeHead(k + bad) == Broken(ByteLength(bad)) && ByteLength(k + bad) == |k| + ByteLength(bad)
  {
    var line := k + bad;
    assert line[0] == k[0];
    if bad == "" {
      AllKeyChars(k);
      assert line == k;
    } else {
      KeyLengthStops(k, bad);
    }
    assert line[..|k|] == k && line[|k|..] == bad;
    KeyBytes(line);
  }

  lemma KeyIsOrdinary(k: string, bad: string)
    requires LegalKey(k) && AllOrdinary(bad)
    ensures var line := k + bad;
      line != "" && AllOrdinary(line) && line[0] != '#' && Ordinary(line[|line| - 1])
    ensures TrimStart(bad) == bad
  {
    var line := k + bad;
    forall c | c in line ensures Ordinary(c) {
      assert c in k || c in bad;
    }
    assert line[0] == k[0] && line[|line| - 1] in line;
    assert bad != "" ==> bad[0] in bad;
  }

  /** A key without its equals sign is an error at the byte behind the key. */
  lemma MissingEqualsIsError(ctx: Context, k: string, bad: string, tail: string)
    requires LegalKey(k) && k != "export" && AllOrdinary(bad)
    requires bad == "" || (!IsKeyChar(bad[0]) && bad[0] != '=')
    ensures NextItem(ctx, k + bad + "\n" + tail) == (Some(Err(LineParse(k + bad, |k|))), tail, ctx.data)
  {
    var line := k + bad;
    KeyIsOrdinary(k, bad);
    OrdinaryLineIsOneLine(line, tail);
    HeadWithoutEquals(k, bad);
  }

  lemma {:induction false} BlankBytes(blanks: string, s: string)
    requires AllBlank(blanks)
    ensures ByteLength(blanks + s) == |blanks| + ByteLength(s)
    decreases |blanks|
  {
    if blanks == "" {
      assert blanks + s == s;
    } else {
      assert (blanks + s)[1..] == blanks[1..] + s;
      BlankBytes(blanks[1..], s);
    }
  }

  lemma BetweenBlanks(line: string, a: string, s: string, d: string)
    requires line == a + s + d && AllBlank(a) && AllBlank(d) && Solid(s)
    ensures TrimStart(TrimEnd(line)) == TrimStart(TrimEnd(s)) && ByteLength(TrimEnd(line)) == |a| + ByteLength(s)
  {
    assert (a + s)[|a + s| - 1] == s[|s| - 1];
    TrimBoth(a, s, d);
    TrimBlanks(a + s, d);
    BlankBytes(a, s);
  }

  /** Blanks in front of a broken line count for the position of its error, blanks behind do not. */
  lemma BlanksMoveThePosition(ctx: Context, line: string, a: string, s: string, d: string, left: nat)
    requires line == a + s + d && AllBlank(a) && AllBlank(d) && Solid(s)
    requires TakeHead(s) == Broken(left) && left <= ByteLength(s)
    ensures ParseLine(ctx, line) == (Err(LineParse(line, |a| + ByteLength(s) - left)), ctx.data)
  {
    BetweenBlanks(line, a, s, d);
  }

  /** A line that begins with another character than a key does is an error at its first byte. */
  lemma IllegalStartIsError(ctx: Context, line: string, tail: string)
    requires line != "" && AllOrdinary(line) && !IsKeyStart(line[0]) && line[0] != '#'
    ensures NextItem(ctx, line + "\n" + tail) == (Some(Err(LineParse(line, 0))), tail, ctx.data)
  {
    OrdinaryLineIsOneLine(line, tail);
    assert line[|line| - 1] in line;
  }

  /** A file that breaks off its assignments: nothing behind the broken line is loaded. */
  lemma BrokenFileLoads(override: bool, env: map<string, string>, alnum: char -> bool,
                        items: seq<Item>, end: string, k: string, bad: string, tail: string, key: string)
    requires LegalKeys(items) && IsLineEnd(end) && LegalKey(k) && k != "export" && AllOrdinary(bad)
    requires bad == "" || (!IsKeyChar(bad[0]) && bad[0] != '=')
    ensures var run := Load(override, env, alnum, PrintFile(items, end) + (k + bad + "\n" + tail));
      && run.error == Some(LineParse(k + bad, |k|)) && run.items == items
      && Lookup(run.env, key) ==
           (if override then (if LastValue(items, key).Some? then LastValue(items, key) else Lookup(env, key))
            else if key in env then Lookup(env, key) else FirstValue(items, key))
  {
    var file := PrintFile(items, end) + (k + bad + "\n" + tail);
    var ctx := Context(env, map[], alnum);
    assert RemoveBom(file) == file by {
      if items != [] {
        assert items[0] in items && file[0] == items[0].0[0];
      } else {
        assert file[0] == k[0];
      }
    }
    MissingEqualsIsError(AfterItems(override, ctx, items), k, bad, tail);
    LoadStopsAtError(override, ctx, items, end, k + bad + "\n" + tail, LineParse(k + bad, |k|), key);
  }

  // ----- Values that are errors

  predicate IsEscape(c: char) {
    c in "\\'\"$ n"
  }

  lemma ValueFailsAt(ctx: Context, front: string, c: char, rest: string)
    requires Run(ctx, VALUE_INIT, front).Continue? && StepValue(ctx, Run(ctx, VALUE_INIT, front).st, c).Fail?
    ensures ParseValue(ctx, front + ([c] + rest)) == Err(LineParse(front + ([c] + rest), |front|))
  {
    var input := front + ([c] + rest);
    assert input[0..] == input;
    RunReadsOn(ctx, VALUE_INIT, input, 0, front, [c] + rest);
    assert input[|front|] == c;
  }

  /** Behind a backslash there are six legal characters, outside single quotes; any other is an
      error at its place, counted in characters. */
  lemma BadEscapeIsError(ctx: Context, quoted: bool, v: string, c: char, rest: string)
    requires !IsEscape(c) && (quoted || '\t' !in v)
    ensures var front := (if quoted then ['"'] + EscapeText(v) else EscapePlainText(v)) + ['\\'];
      ParseValue(ctx, front + ([c] + rest)) == Err(LineParse(front + ([c] + rest), |front|))
  {
    var body := if quoted then ['"'] + EscapeText(v) else EscapePlainText(v);
    NothingBefore(v);
    if quoted {
      EscapedText(ctx, "", v);
      RunCharacter(ctx, VALUE_INIT, '"');
      RunAppend(ctx, VALUE_INIT, ['"'], EscapeText(v));
    } else {
      PlainText(ctx, "", v);
    }
    RunAppend(ctx, VALUE_INIT, body, ['\\']);
    RunCharacter(ctx, Run(ctx, VALUE_INIT, body).st, '\\');
    ValueFailsAt(ctx, body + ['\\'], c, rest);
  }

  lemma OpenEndIsError(ctx: Context, input: string)
    requires Run(ctx, VALUE_INIT, input).Continue? && input != ""
    requires var st := Run(ctx, VALUE_INIT, input).st; st.strong || st.weak || st.mode.EscapedBlock?
    ensures ParseValue(ctx, input) == Err(LineParse(input, ByteLength(input) - 1))
  {
    assert input[0..] == input;
    RunReads(ctx, VALUE_INIT, input, 0);
    assert ByteLength(input) == Utf8Length(input[0]) + ByteLength(input[1..]);
  }

  /** A quote that is not closed is an error at the last byte of the value. */
  lemma UnclosedQuoteIsError(ctx: Context, v: string)
    ensures var input := ['"'] + EscapeText(v); ParseValue(ctx, input) == Err(LineParse(input, ByteLength(input) - 1))
    ensures '\'' !in v ==>
      var input := ['\''] + v; ParseValue(ctx, input) == Err(LineParse(input, ByteLength(input) - 1))
  {
    NothingBefore(v);
    EscapedText(ctx, "", v);
    RunCharacter(ctx, VALUE_INIT, '"');
    RunAppend(ctx, VALUE_INIT, ['"'], EscapeText(v));
    OpenEndIsError(ctx, ['"'] + EscapeText(v));
    if '\'' !in v {
      StrongText(ctx, "", v);
      RunCharacter(ctx, VALUE_INIT, '\'');
      RunAppend(ctx, VALUE_INIT, ['\''], v);
      OpenEndIsError(ctx, ['\''] + v);
    }
  }

  // ----- Values of several parts

  datatype Part = Single(text: string) | Double(text: string) | Bare(text: string)

  predicate LegalPart(p: Part) {
    (p.Single? ==> '\'' !in p.text) && (p.Bare? ==> '\t' !in p.text)
  }

  function PrintPart(p: Part): string {
    match p
    case Single(text) => ['\''] + text + ['\'']
    case Double(text) => ['"'] + EscapeText(text) + ['"']
    case Bare(text) => EscapePlainText(text)
  }

  function PrintParts(parts: seq<Part>): string {
    if parts == [] then "" else PrintPart(parts[0]) + PrintParts(parts[1..])
  }

  function Joined(parts: seq<Part>): string {
    if parts == [] then "" else parts[0].text + Joined(parts[1..])
  }

  lemma PartIsRead(ctx: Context, output: string, p: Part)
    requires LegalPart(p)
    ensures Run(ctx, VALUE_INIT.(output := output), PrintPart(p)) == Continue(VALUE_INIT.(output := output + p.text))
  {
    var st := VALUE_INIT.(output := output);
    match p
    case Single(text) =>
      RunCharacter(ctx, st, '\'');
      StrongText(ctx, output, text);
      RunAppend(ctx, st, ['\''], text);
      RunAppend(ctx, st, ['\''] + text, ['\'']);
      RunCharacter(ctx, STRONG.(output := output + text), '\'');
    case Double(text) =>
      RunCharacter(ctx, st, '"');
      EscapedText(ctx, output, text);
      RunAppend(ctx, st, ['"'], EscapeText(text));
      RunAppend(ctx, st, ['"'] + EscapeText(text), ['"']);
      RunCharacter(ctx, WEAK.(output := output + text), '"');
    case Bare(text) => PlainText(ctx, output, text);
  }

  lemma {:induction false} PartsAreRead(ctx: Context, output: string, parts: seq<Part>)
    requires forall p <- parts :: LegalPart(p)
    ensures Run(ctx, VALUE_INIT.(output := output), PrintParts(parts)) == Continue(VALUE_INIT.(output := output + Joined(parts)))
    decreases |parts|
  {
    if parts == [] {
      assert output + "" == output;
    } else {
      var text := parts[0].text;
      PartIsRead(ctx, output, parts[0]);
      RunAppend(ctx, VALUE_INIT.(output := output), PrintPart(parts[0]), PrintParts(parts[1..]));
      PartsAreRead(ctx, output + text, parts[1..]);
      Regroup(output, text, Joined(parts[1..]));
    }
  }

  /** Quoted and bare parts side by side, in any order, are read as one value. */
  lemma PartsReadBack(ctx: Context, parts: seq<Part>)
    requires (forall p <- parts :: LegalPart(p)) && NoEmptyKey(ctx)
    ensures ParseValue(ctx, PrintParts(parts)) == Ok(Joined(parts))
  {
    var input := PrintParts(parts);
    PartsAreRead(ctx, "", parts);
    NothingBefore(Joined(parts));
    assert input[0..] == input;
    RunReads(ctx, VALUE_INIT, input, 0);
    assert Joined(parts) + "" == Joined(parts);
  }
}
