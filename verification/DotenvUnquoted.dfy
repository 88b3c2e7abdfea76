/** Values without quotes, what may follow them, and the `export` prefix. */
module DotenvUnquoted {
  import opened Wrappers
  import opened Texts
  import opened DotenvChars
  import opened DotenvParse
  import opened DotenvRoundTrip

  // ----- Printing without quotes

  /** Outside quotes a blank needs a backslash too, and a line feed is written `\n`. */
  function EscapePlain(c: char): string {
    if c == '\n' then "\\n"
    else if c == '\\' || c == '\'' || c == '"' || c == '$' || c == ' ' then ['\\', c]
    else [c]
  }

  function EscapePlainText(v: string): string {
    if v == "" then "" else EscapePlain(v[0]) + EscapePlainText(v[1..])
  }

  lemma PlainCharacter(ctx: Context, output: string, c: char)
    requires c != '\t'
    ensures Run(ctx, VALUE_INIT.(output := output), EscapePlain(c)) == Continue(VALUE_INIT.(output := output + [c]))
  {
    var st := VALUE_INIT.(output := output);
    var e := EscapePlain(c);
    RunCharacter(ctx, st, e[0]);
    if |e| == 2 {
      RunAppend(ctx, st, ['\\'], [e[1]]);
      RunCharacter(ctx, st.(escaped := true), e[1]);
      assert ['\\'] + [e[1]] == e;
    } else {
      assert [e[0]] == e;
    }
  }

  lemma {:induction false} PlainText(ctx: Context, output: string, v: string)
    requires '\t' !in v
    ensures Run(ctx, VALUE_INIT.(output := output), EscapePlainText(v)) == Continue(VALUE_INIT.(output := output + v))
    decreases |v|
  {
    if v == "" {
      assert output + "" == output;
    } else {
      PlainCharacter(ctx, output, v[0]);
      RunAppend(ctx, VALUE_INIT.(output := output), EscapePlain(v[0]), EscapePlainText(v[1..]));
      PlainText(ctx, output + [v[0]], v[1..]);
    }
  }

  // ----- Reading on from the middle

  lemma {:induction false} RunReadsOn(ctx: Context, st: ValueState, input: string, i: nat, part: string, rest: string)
    requires i <= |input| && input[i..] == part + rest && Run(ctx, st, part).Continue?
    ensures i + |part| <= |input| && input[i + |part|..] == rest
    ensures ValueFrom(ctx, st, input, i) == ValueFrom(ctx, Run(ctx, st, part).st, input, i + |part|)
    decreases |part|
  {
    if part == "" {
      assert part + rest == rest;
    } else {
      assert input[i] == input[i..][0] == part[0];
      assert input[i + 1..] == input[i..][1..] == part[1..] + rest;
      RunReadsOn(ctx, StepValue(ctx, st, input[i]).st, input, i + 1, part[1..], rest);
    }
  }

  /** A value printed without quotes is read back, for every text without a tab. */
  lemma UnquotedValueReadsBack(ctx: Context, v: string)
    requires '\t' !in v && NoEmptyKey(ctx)
    ensures ParseValue(ctx, EscapePlainText(v)) == Ok(v)
  {
    var input := EscapePlainText(v);
    PlainText(ctx, "", v);
    NothingBefore(v);
    assert input[0..] == input;
    RunReads(ctx, VALUE_INIT, input, 0);
    assert v + "" == v;
  }

  /** A lone backslash at the end escapes nothing; it is lost without an error. */
  lemma LastBackslashIsLost(ctx: Context, v: string)
    requires '\t' !in v && NoEmptyKey(ctx)
    ensures ParseValue(ctx, EscapePlainText(v) + ['\\']) == Ok(v)
  {
    var input := EscapePlainText(v) + ['\\'];
    PlainText(ctx, "", v);
    NothingBefore(v);
    RunAppend(ctx, VALUE_INIT, EscapePlainText(v), ['\\']);
    RunCharacter(ctx, VALUE_INIT.(output := v), '\\');
    assert input[0..] == input;
    RunReads(ctx, VALUE_INIT, input, 0);
    assert v + "" == v;
  }

  predicate IsBlank(c: char) {
    c == ' ' || c == '\t'
  }

  predicate AllBlank(s: string) {
    forall i | 0 <= i < |s| :: IsBlank(s[i])
  }

  lemma {:induction false} BlanksAreSkipped(ctx: Context, st: ValueState, blanks: string)
    requires AllBlank(blanks) && (st.expectingEnd || (blanks != "" && st == VALUE_INIT.(output := st.output)))
    ensures Run(ctx, st, blanks) == Continue(st.(expectingEnd := true))
    decreases |blanks|
  {
    if blanks != "" {
      BlanksAreSkipped(ctx, st.(expectingEnd := true), blanks[1..]);
    }
  }

  lemma ValueAndBlanks(ctx: Context, v: string, blanks: string)
    requires '\t' !in v && AllBlank(blanks) && blanks != ""
    ensures Run(ctx, VALUE_INIT, EscapePlainText(v) + blanks) == Continue(VALUE_INIT.(output := v, expectingEnd := true))
  {
    PlainText(ctx, "", v);
    NothingBefore(v);
    RunAppend(ctx, VALUE_INIT, EscapePlainText(v), blanks);
    BlanksAreSkipped(ctx, VALUE_INIT.(output := v), blanks);
  }

  /** Behind a value and blanks only a comment may follow, which is ignored whatever it holds;
      anything else is an error at its position. */
  lemma OnlyCommentsFollow(ctx: Context, v: string, blanks: string, c: char, rest: string)
    requires '\t' !in v && NoEmptyKey(ctx)
    requires AllBlank(blanks) && blanks != "" && !IsBlank(c)
    ensures var front := EscapePlainText(v) + blanks;
      var input := front + ([c] + rest);
      ParseValue(ctx, input) == if c == '#' then Ok(v) else Err(LineParse(input, |front|))
  {
    var front := EscapePlainText(v) + blanks;
    var input := front + ([c] + rest);
    ValueAndBlanks(ctx, v, blanks);
    assert input[0..] == front + ([c] + rest);
    RunReadsOn(ctx, VALUE_INIT, input, 0, front, [c] + rest);
    assert input[|front|] == c;
    assert v + "" == v;
  }

  // ----- The export prefix

  predicate AllWhitespace(s: string) {
    forall i | 0 <= i < |s| :: IsWhitespace(s[i])
  }

  lemma {:induction false} SkipBlanks(blanks: string, s: string)
    requires AllWhitespace(blanks) && s != "" && !IsWhitespace(s[0])
    ensures TrimStart(blanks + s) == s
    decreases |blanks|
  {
    if blanks == "" {
      assert blanks + s == s;
    } else {
      assert (blanks + s)[1..] == blanks[1..] + s;
      SkipBlanks(blanks[1..], s);
    }
  }

  lemma KeyIsTaken(k: string, rest: string)
    requires LegalKey(k) && rest != "" && !IsKeyChar(rest[0])
    ensures TakeKey(k + rest) == Some((k, rest))
  {
    KeyLengthStops(k, rest);
    assert (k + rest)[..|k|] == k && (k + rest)[|k|..] == rest;
  }

  /** `export` before a key changes nothing, even if the key is `export`. */
  lemma ExportIsTransparent(k: string, value: string, blanks: string)
    requires LegalKey(k) && Solid(value) && AllBlank(blanks) && blanks != ""
    ensures TakeHead("export" + (blanks + (k + ("=" + value)))) == TakeHead(k + "=" + value) == Assignment(k, value)
  {
    var assignment := k + ("=" + value);
    var line := "export" + (blanks + assignment);
    HeadOfAssignment(k, value);
    assert line[0] == "export"[0] && line[|line| - 1] == value[|value| - 1];
    assert TrimStart(TrimEnd(line)) == line;
    ExportIsAKey();
    KeyIsTaken("export", blanks + assignment);
    SkipBlanks(blanks, assignment);
    AssignmentIsTaken(k, value);
    ExportThenKey(line, blanks + assignment, assignment, k, "=" + value);
  }

  lemma ExportThenKey(line: string, after: string, s: string, k: string, rest: string)
    requires line != "" && line[0] != '#' && TrimStart(TrimEnd(line)) == line
    requires TakeKey(line) == Some(("export", after)) && TrimStart(after) == s
    requires !StartsWith(s, '=') && TakeKey(s) == Some((k, rest))
    ensures TakeHead(line) == TakeEquals(k, TrimStart(rest))
  {
  }

  lemma ExportIsAKey()
    ensures LegalKey("export")
  {
  }

  lemma AssignmentIsTaken(k: string, value: string)
    requires LegalKey(k) && Solid(value)
    ensures TakeKey(k + ("=" + value)) == Some((k, "=" + value))
    ensures TakeEquals(k, TrimStart("=" + value)) == Assignment(k, value)
  {
    KeyIsTaken(k, "=" + value);
    assert ("=" + value)[1..] == value;
  }
}
