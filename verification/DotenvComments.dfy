/** Comments behind a value. */
module DotenvComments {
  import opened Wrappers
  import opened Texts
  import opened DotenvChars
  import opened DotenvParse
  import opened DotenvLines
  import opened DotenvLoad
  import opened DotenvRoundTrip
  import opened DotenvUnquoted

  /** White space inside a line. */
  predicate Inner(blanks: string) {
    forall i | 0 <= i < |blanks| :: IsWhitespace(blanks[i]) && blanks[i] != '\n' && blanks[i] != '\r'
  }

  /** Two blanks cancel out: the splitter forgets a blank at the next one. */
  lemma {:induction false} BlanksToggle(st: ParseState, blanks: string)
    requires (st.Complete? || st.WhiteSpace?) && Inner(blanks)
    ensures EndState(st, blanks).1 == if |blanks| % 2 == 0 then st else if st.Complete? then WhiteSpace else Complete
    decreases |blanks|
  {
    if blanks != "" {
      BlanksToggle(NextState(st, blanks[0]), blanks[1..]);
    }
  }

  lemma ValueAndBlanksEnd(k: string, v: string, blanks: string)
    requires LegalKey(k) && (forall c <- v :: IsKeyChar(c)) && Inner(blanks)
    ensures EndState(Complete, k + "=" + v + blanks).1 == if |blanks| % 2 == 0 then Complete else WhiteSpace
  {
    KeyKeepsComplete(k);
    EndStateAppend(Complete, k, "=");
    assert EndState(Complete, "=").1 == Complete by {
      assert "="[1..] == "";
    }
    KeyKeepsComplete(v);
    EndStateAppend(Complete, k + "=", v);
    BlanksToggle(Complete, blanks);
    EndStateAppend(Complete, k + "=" + v, blanks);
  }

  lemma HashSign(text: string)
    ensures EndState(WhiteSpace, "#" + text) == (0, Comment)
    ensures EndState(Complete, "#" + text) == (EndState(Complete, text).0 + 1, EndState(Complete, text).1)
  {
  }

  lemma {:induction false} NoNewline(s: string)
    requires '\n' !in s
    ensures LineLength(s) == |s|
    decreases |s|
  {
    if s != "" {
      NoNewline(s[1..]);
    }
  }

  lemma HashBehind(front: string, hash: string, text: string, st: ParseState)
    requires hash == "#" + text && EndState(Complete, front).1 == st && (st.WhiteSpace? || st.Complete?)
    ensures EndState(Complete, front + hash) ==
      if st.WhiteSpace? then (|front|, Comment)
      else (|front| + 1 + EndState(Complete, text).0, EndState(Complete, text).1)
  {
    HashSign(text);
    EndStateAppend(Complete, front, hash);
    var r := EndState(Complete, front + hash);
    assert r == (r.0, r.1);
  }

  lemma HashBehindBlanks(k: string, v: string, blanks: string, text: string)
    requires LegalKey(k) && (forall c <- v :: IsKeyChar(c)) && Inner(blanks)
    ensures var front := k + "=" + v + blanks;
      EndState(Complete, front + ("#" + text)) ==
        if |blanks| % 2 == 1 then (|front|, Comment)
        else (|front| + 1 + EndState(Complete, text).0, EndState(Complete, text).1)
  {
    ValueAndBlanksEnd(k, v, blanks);
    HashBehind(k + "=" + v + blanks, "#" + text, text, if |blanks| % 2 == 1 then WhiteSpace else Complete);
  }

  lemma OneLine(input: string)
    requires '\n' !in input && NoComment(input)
    ensures var (pos, st) := EndState(Complete, input);
      LogicalLine(input, "", Complete) ==
        if st.Complete? then (Some(Ok(StripNewline(input))), "")
        else if st.Comment? then (Some(Ok(input[..pos])), "")
        else LogicalLine("", input, st)
  {
    NoNewline(input);
    NothingBefore(input);
    WholeSlice(input);
  }

  lemma WholeSlice(s: string)
    ensures s[..|s|] == s && s[|s|..] == ""
  {
  }

  /** A line without a line feed is the last: complete, cut at a comment, or an error. */
  lemma LastLine(input: string, pos: nat, st: ParseState)
    requires '\n' !in input && NoComment(input)
    requires EndState(Complete, input) == (pos, st) && pos <= |input|
    ensures var line := LogicalLine(input, "", Complete).0;
      line == Some(if st.Complete? then Ok(input) else if st.Comment? then Ok(input[..pos])
                   else Err(LineParse(input, ByteLength(input))))
  {
    OneLine(input);
  }

  // ----- A plain value before a comment is read

  lemma {:induction false} TrimEndKeeps(a: string, b: string)
    requires b != "" && !IsWhitespace(b[0])
    ensures TrimEnd(a + b) == a + TrimEnd(b)
    ensures TrimEnd(b) != "" && TrimEnd(b)[0] == b[0]
    decreases |b|
  {
    if IsWhitespace(b[|b| - 1]) {
      assert (a + b)[..|a + b| - 1] == a + b[..|b| - 1];
      TrimEndKeeps(a, b[..|b| - 1]);
    }
  }

  lemma {:induction false} TrimBlanks(a: string, blanks: string)
    requires a != "" && !IsWhitespace(a[|a| - 1]) && AllWhitespace(blanks)
    ensures TrimEnd(a + blanks) == a
    decreases |blanks|
  {
    if blanks == "" {
      assert a + blanks == a;
    } else {
      assert (a + blanks)[..|a + blanks| - 1] == a + blanks[..|blanks| - 1];
      TrimBlanks(a, blanks[..|blanks| - 1]);
    }
  }

  lemma KeyCharIsItself(c: char)
    requires IsKeyChar(c)
    ensures EscapePlain(c) == [c] && c != '\t'
  {
  }

  lemma {:induction false} PlainIsItself(v: string)
    requires forall c <- v :: IsKeyChar(c)
    ensures EscapePlainText(v) == v && '\t' !in v
    decreases |v|
  {
    if v != "" {
      assert v[0] in v && forall c <- v[1..] :: c in v;
      PlainIsItself(v[1..]);
      KeyCharIsItself(v[0]);
    }
  }

  /** What is left of the spaces and the comment when the line has been trimmed. */
  predicate IsTail(tail: string) {
    tail == "" || exists i | 0 < i < |tail| :: AllBlank(tail[..i]) && tail[i] == '#'
  }

  lemma TrimmedTail(front: string, blanks: string, comment: string) returns (tail: string)
    requires front != "" && !IsWhitespace(front[|front| - 1]) && AllBlank(blanks)
    requires comment == "" || (comment[0] == '#' && blanks != "")
    ensures TrimEnd(front + blanks + comment) == front + tail && IsTail(tail)
  {
    if comment == "" {
      TrimBlanks(front, blanks);
      assert front + blanks + comment == front + blanks;
      tail := "";
      assert front + tail == front;
    } else {
      TrimEndKeeps(front + blanks, comment);
      tail := blanks + TrimEnd(comment);
      assert front + blanks + TrimEnd(comment) == front + tail;
      assert tail[..|blanks|] == blanks && tail[|blanks|] == '#';
    }
  }

  lemma ValueBeforeTail(ctx: Context, v: string, tail: string)
    requires v != "" && (forall c <- v :: IsKeyChar(c)) && IsTail(tail) && NoEmptyKey(ctx)
    ensures ParseValue(ctx, v + tail) == Ok(v)
  {
    PlainIsItself(v);
    if tail == "" {
      UnquotedValueReadsBack(ctx, v);
      assert v + tail == v;
    } else {
      var i :| 0 < i < |tail| && AllBlank(tail[..i]) && tail[i] == '#';
      OnlyCommentsFollow(ctx, v, tail[..i], '#', tail[i + 1..]);
      assert v + tail == v + tail[..i] + (['#'] + tail[i + 1..]);
    }
  }

  lemma EmptyValueBeforeTail(tail: string)
    requires IsTail(tail)
    ensures TrimStart(tail) == "" || TrimStart(tail)[0] == '#'
  {
    if tail != "" {
      var i :| 0 < i < |tail| && AllBlank(tail[..i]) && tail[i] == '#';
      SkipBlanks(tail[..i], tail[i..]);
      assert tail[..i] + tail[i..] == tail;
    }
  }

  lemma HeadOf(line: string, trimmed: string, k: string, value: string)
    requires TrimEnd(line) == trimmed && trimmed != "" && !IsWhitespace(trimmed[0]) && trimmed[0] != '#'
    requires TakeKey(trimmed) == Some((k, "=" + value))
    ensures TakeHead(line) == Assignment(k, TrimStart(value))
  {
  }

  lemma HeadBeforeTail(line: string, k: string, v: string, tail: string)
    requires LegalKey(k) && TrimEnd(line) == k + "=" + v + tail
    ensures TakeHead(line) == Assignment(k, TrimStart(v + tail))
  {
    var rest := "=" + (v + tail);
    assert k + "=" + v + tail == k + rest;
    KeyIsTaken(k, rest);
    HeadOf(line, k + rest, k, v + tail);
  }

  /** A plain value is read from its line, with spaces and a comment behind it or without. */
  lemma PlainLineIsRead(ctx: Context, k: string, v: string, blanks: string, comment: string)
    requires LegalKey(k) && (forall c <- v :: IsKeyChar(c)) && NoEmptyKey(ctx)
    requires AllBlank(blanks) && (comment == "" || (comment[0] == '#' && blanks != ""))
    ensures ParseLine(ctx, k + "=" + v + blanks + comment).0 == Ok(Some((k, v)))
  {
    var front := k + "=" + v;
    assert v != "" ==> v[|v| - 1] in v && v[0] in v;
    var tail := TrimmedTail(front, blanks, comment);
    HeadBeforeTail(front + blanks + comment, k, v, tail);
    if v == "" {
      assert v + tail == tail;
      EmptyValueBeforeTail(tail);
    } else {
      ValueBeforeTail(ctx, v, tail);
    }
  }

  // ----- When a trailing comment is taken for one

  /** What the splitter makes of a comment sign behind a value and any white space. */
  lemma CommentedLine(k: string, v: string, blanks: string, text: string) returns (pos: nat)
    requires LegalKey(k) && (forall c <- v :: IsKeyChar(c)) && Inner(blanks) && '\n' !in text
    ensures var front := k + "=" + v + blanks;
      var input := front + ("#" + text);
      var line := LogicalLine(input, "", Complete).0;
      var st := EndState(Complete, text).1;
      && pos <= |text|
      && line == Some(if |blanks| % 2 == 1 then Ok(front) else if st.Complete? then Ok(input)
                      else if st.Comment? then Ok(front + ("#" + text[..pos])) else Err(LineParse(input, ByteLength(input))))
  {
    var front := k + "=" + v + blanks;
    var input := front + ("#" + text);
    HashBehindBlanks(k, v, blanks, text);
    pos := EndState(Complete, text).0;
    var (end, st) := EndState(Complete, input);
    LastLine(input, end, st);
    FrontAndPart(front, text, pos);
  }

  lemma FrontAndPart(front: string, text: string, pos: nat)
    requires pos <= |text|
    ensures var input := front + ("#" + text);
      input[..|front|] == front && input[..|front| + 1 + pos] == front + ("#" + text[..pos])
  {
  }

  /** The value of the last line is read, and its comment ignored, exactly when the number of
      blanks before the comment is odd or the comment's own text leaves the splitter complete or
      at a further comment sign; otherwise, as with `# don't`, the file ends in an error. */
  lemma CommentNeedsOddBlanks(ctx: Context, k: string, v: string, blanks: string, text: string)
    requires LegalKey(k) && (forall c <- v :: IsKeyChar(c)) && NoEmptyKey(ctx)
    requires AllBlank(blanks) && blanks != "" && '\n' !in text
    ensures var st := EndState(Complete, text).1;
      NextItem(ctx, k + "=" + v + blanks + ("#" + text)).0 == Some(Ok((k, v)))
      <==> |blanks| % 2 == 1 || st.Complete? || st.Comment?
  {
    var front, st := k + "=" + v + blanks, EndState(Complete, text).1;
    var pos := CommentedLine(k, v, blanks, text);
    PlainLineIsRead(ctx, k, v, blanks, "");
    assert front + "" == front;
    PlainLineIsRead(ctx, k, v, blanks, "#" + text);
    PlainLineIsRead(ctx, k, v, blanks, "#" + text[..pos]);
  }
}
