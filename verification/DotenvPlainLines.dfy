/** Assignments without quotes, as lines of a file. */
module DotenvPlainLines {
  import opened Wrappers
  import opened Sequences
  import opened Texts
  import opened DotenvChars
  import opened DotenvParse
  import opened DotenvLines
  import opened DotenvLoad
  import opened DotenvRoundTrip
  import opened DotenvUnquoted
  import opened DotenvComments

  /** Other white space has no escape. */
  predicate OnlySpacesAndNewlines(v: string) {
    forall c <- v :: IsWhitespace(c) ==> c == ' ' || c == '\n'
  }

  function PrintPlain(k: string, v: string): string {
    k + "=" + EscapePlainText(v)
  }

  /** The first and the last character decide: a leading number sign makes a comment of the value,
      and the last of its spaces is trimmed away although it is escaped. */
  function WhatIsRead(v: string): string {
    if v == "" || v[0] == '#' then ""
    else if v[|v| - 1] == ' ' then v[..|v| - 1]
    else v
  }

  lemma {:induction false} EscapeLast(v: string, c: char)
    ensures EscapePlainText(v + [c]) == EscapePlainText(v) + EscapePlain(c)
    decreases |v|
  {
    if v == "" {
      assert v + [c] == [c] && [c][1..] == "";
      assert EscapePlain(c) + "" == EscapePlain(c) && "" + EscapePlain(c) == EscapePlain(c);
    } else {
      assert (v + [c])[1..] == v[1..] + [c];
      EscapeLast(v[1..], c);
      assert EscapePlain(v[0]) + (EscapePlainText(v[1..]) + EscapePlain(c))
          == EscapePlain(v[0]) + EscapePlainText(v[1..]) + EscapePlain(c);
    }
  }

  lemma EscapeStaysComplete(c: char)
    requires IsWhitespace(c) ==> c == ' ' || c == '\n'
    ensures EndState(Complete, EscapePlain(c)).1 == Complete && '\n' !in EscapePlain(c)
  {
    var e := EscapePlain(c);
    if |e| == 2 {
      assert e == ['\\'] + [e[1]] && ['\\'][1..] == "" && [e[1]][1..] == "";
      assert EndState(Complete, ['\\']).1 == Escape && EndState(Escape, [e[1]]).1 == Complete;
      EndStateAppend(Complete, ['\\'], [e[1]]);
    } else {
      assert e[1..] == "" && NextState(Complete, e[0]) == Complete;
    }
  }

  lemma {:induction false} PlainTextStaysComplete(v: string)
    requires OnlySpacesAndNewlines(v)
    ensures EndState(Complete, EscapePlainText(v)).1 == Complete && '\n' !in EscapePlainText(v)
    decreases |v|
  {
    if v != "" {
      assert v[0] in v && forall c <- v[1..] :: c in v;
      EscapeStaysComplete(v[0]);
      PlainTextStaysComplete(v[1..]);
      EndStateAppend(Complete, EscapePlain(v[0]), EscapePlainText(v[1..]));
    }
  }

  lemma PlainTextEnds(front: string, c: char)
    requires IsWhitespace(c) ==> c == ' ' || c == '\n'
    ensures var e := EscapePlainText(front + [c]);
      if c == ' ' then e == EscapePlainText(front) + ['\\'] + [' '] else e != "" && !IsWhitespace(e[|e| - 1])
  {
    EscapeLast(front, c);
    if c == ' ' {
      Regroup(EscapePlainText(front), ['\\'], [' ']);
    }
  }

  lemma PlainLineIsOneLine(k: string, v: string, tail: string)
    requires LegalKey(k) && OnlySpacesAndNewlines(v)
    ensures LogicalLine(PrintPlain(k, v) + "\n" + tail, "", Complete) == (Some(Ok(PrintPlain(k, v))), tail)
  {
    var b := PrintPlain(k, v);
    KeyKeepsComplete(k);
    EndStateAppend(Complete, k, "=");
    assert EndState(Complete, "=").1 == Complete by {
      assert "="[1..] == "";
    }
    PlainTextStaysComplete(v);
    EndStateAppend(Complete, k + "=", EscapePlainText(v));
    assert '\n' !in b && b[0] == k[0];
    assert b[|b| - 1] != '\r' by {
      if v == "" {
        assert b == k + "=";
      } else {
        var front, c := v[..|v| - 1], v[|v| - 1];
        assert v == front + [c] && c in v;
        PlainTextEnds(front, c);
        assert c == ' ' ==> EscapePlainText(v)[|EscapePlainText(v)| - 1] == ' ';
        assert b[|b| - 1] == EscapePlainText(v)[|EscapePlainText(v)| - 1];
      }
    }
    OneLineFromStart(b, "\n", tail);
  }

  lemma PlainHead(k: string, text: string, line: string)
    requires LegalKey(k) && TrimStart(text) == text && TrimEnd(line) == k + "=" + text
    ensures TakeHead(line) == Assignment(k, text)
  {
    Regroup(k, "=", text);
    KeyIsTaken(k, "=" + text);
    HeadOf(line, k + ("=" + text), k, text);
  }

  lemma SpaceIsTrimmed(k: string, text: string)
    ensures k + "=" + (text + ['\\'] + [' ']) == k + "=" + (text + ['\\']) + [' ']
    ensures TrimEnd(k + "=" + (text + ['\\']) + [' ']) == k + "=" + (text + ['\\'])
  {
    var s := k + "=" + (text + ['\\']);
    assert s[|s| - 1] == '\\';
  }

  lemma PlainLineWithSpace(k: string, front: string)
    requires LegalKey(k) && OnlySpacesAndNewlines(front)
    ensures TakeHead(PrintPlain(k, front + [' '])) == Assignment(k, EscapePlainText(front) + ['\\'])
  {
    var text := EscapePlainText(front);
    PlainTextEnds(front, ' ');
    SpaceIsTrimmed(k, text);
    assert !IsWhitespace((text + ['\\'])[0]);
    PlainHead(k, text + ['\\'], PrintPlain(k, front + [' ']));
  }

  lemma PlainLineAsIs(k: string, front: string, c: char)
    requires LegalKey(k) && OnlySpacesAndNewlines(front + [c]) && c != ' '
    ensures TakeHead(PrintPlain(k, front + [c])) == Assignment(k, EscapePlainText(front + [c]))
  {
    var v := front + [c];
    var line, e := PrintPlain(k, v), EscapePlainText(v);
    assert v[|front|] == c;
    PlainTextEnds(front, c);
    assert line[|line| - 1] == e[|e| - 1];
    PlainHead(k, e, line);
  }

  lemma PlainLineParses(ctx: Context, k: string, v: string)
    requires LegalKey(k) && OnlySpacesAndNewlines(v) && NoEmptyKey(ctx)
    ensures ParseLine(ctx, PrintPlain(k, v)).0 == Ok(Some((k, WhatIsRead(v))))
  {
    if v == "" {
      assert k + "=" + "" == k + "=";
      PlainHead(k, "", PrintPlain(k, v));
    } else {
      var front, c := v[..|v| - 1], v[|v| - 1];
      assert v == front + [c];
      assert '\t' !in v;
      if c == ' ' {
        assert forall d <- front :: d in v;
        PlainLineWithSpace(k, front);
        LastBackslashIsLost(ctx, front);
      } else {
        PlainLineAsIs(k, front, c);
        UnquotedValueReadsBack(ctx, v);
      }
    }
  }

  /** What a line without quotes is read as, for every value without other white space than
      spaces and line feeds. */
  lemma PlainLineReads(ctx: Context, k: string, v: string, tail: string)
    requires LegalKey(k) && OnlySpacesAndNewlines(v) && NoEmptyKey(ctx)
    ensures var (next, rest, _) := NextItem(ctx, PrintPlain(k, v) + "\n" + tail);
      next == Some(Ok((k, WhatIsRead(v)))) && rest == tail
    ensures WhatIsRead(v) == v <==> v == "" || (v[0] != '#' && v[|v| - 1] != ' ')
  {
    PlainLineIsOneLine(k, v, tail);
    PlainLineParses(ctx, k, v);
  }
}
