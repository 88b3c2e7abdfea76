/** Character classes of the `.env` reader. */
module DotenvChars {
  import opened Texts

  predicate IsAsciiAlphabetic(c: char) {
    'a' <= c <= 'z' || 'A' <= c <= 'Z'
  }

  predicate IsAsciiAlphanumeric(c: char) {
    IsAsciiAlphabetic(c) || '0' <= c <= '9'
  }

  predicate IsKeyStart(c: char) {
    IsAsciiAlphabetic(c) || c == '_'
  }

  predicate IsKeyChar(c: char) {
    IsAsciiAlphanumeric(c) || c == '_' || c == '.'
  }

  function TrimStart(s: string): string {
    if s != "" && IsWhitespace(s[0]) then TrimStart(s[1..]) else s
  }

  function TrimEnd(s: string): string {
    if s != "" && IsWhitespace(s[|s| - 1]) then TrimEnd(s[..|s| - 1]) else s
  }

  /** Number of leading key characters. */
  function KeyLength(s: string): (n: nat)
    ensures n <= |s|
  {
    if s != "" && IsKeyChar(s[0]) then 1 + KeyLength(s[1..]) else 0
  }

  predicate StartsWith(s: string, c: char) {
    s != "" && s[0] == c
  }
}

/** One logical line: the key, the equals sign, and a value with quotes, escapes and references. */
module DotenvParse {
  import opened Wrappers
  import opened Texts
  import opened DotenvChars

  /** `Error::LineParse`.  A position counts bytes, except that of a bad character inside a value,
      which counts characters. */
  datatype Error = LineParse(line: string, position: nat)

  type Substitutions = map<string, Option<string>>

  /** What a value may refer to: the process environment and the keys read before.  `alnum` is
      `char::is_alphanumeric`. */
  datatype Context = Context(env: map<string, string>, data: Substitutions, alnum: char -> bool)

  /** `apply_substitution`: the environment wins; unknown names expand to nothing. */
  function Substitute(ctx: Context, name: string): string {
    if name != "" && name in ctx.env then ctx.env[name]
    else if name in ctx.data && ctx.data[name].Some? then ctx.data[name].value
    else ""
  }

  // ----- parse_value

  datatype Mode = NoSubstitution | Block | EscapedBlock

  datatype ValueState = ValueState(
    strong: bool, weak: bool, escaped: bool, expectingEnd: bool,
    mode: Mode, name: string, output: string)

  const VALUE_INIT := ValueState(false, false, false, false, NoSubstitution, "", "")

  datatype Outcome = Continue(st: ValueState) | Break | Fail

  function Push(st: ValueState, c: char): ValueState {
    st.(output := st.output + [c])
  }

  function Expand(ctx: Context, st: ValueState): ValueState {
    st.(output := st.output + Substitute(ctx, st.name), name := "")
  }

  function StepEscaped(st: ValueState, c: char): Outcome {
    if c == '\\' || c == '\'' || c == '"' || c == '$' || c == ' ' then Continue(Push(st, c).(escaped := false))
    else if c == 'n' then Continue(Push(st, '\n').(escaped := false))
    else Fail
  }

  function StepReference(ctx: Context, st: ValueState, c: char): ValueState {
    if ctx.alnum(c) then st.(name := st.name + [c])
    else if st.mode.Block? then
      if c == '{' && st.name == "" then st.(mode := EscapedBlock)
      else if c == '$' then Expand(ctx, st)
      else Push(Expand(ctx, st), c).(mode := NoSubstitution)
    else if c == '}' then Expand(ctx, st).(mode := NoSubstitution)
    else st.(name := st.name + [c])
  }

  function StepPlain(st: ValueState, c: char): ValueState {
    if c == '\'' then st.(strong := true)
    else if c == '"' then st.(weak := true)
    else if c == '\\' then st.(escaped := true)
    else if c == ' ' || c == '\t' then st.(expectingEnd := true)
    else Push(st, c)
  }

  function StepWeak(st: ValueState, c: char): ValueState {
    if c == '"' then st.(weak := false)
    else if c == '\\' then st.(escaped := true)
    else Push(st, c)
  }

  /** One character of a value. */
  function StepValue(ctx: Context, st: ValueState, c: char): Outcome {
    if st.expectingEnd then
      if c == ' ' || c == '\t' then Continue(st) else if c == '#' then Break else Fail
    else if st.escaped then StepEscaped(st, c)
    else if st.strong then Continue(if c == '\'' then st.(strong := false) else Push(st, c))
    else if !st.mode.NoSubstitution? then Continue(StepReference(ctx, st, c))
    else if c == '$' then Continue(st.(mode := Block))
    else if st.weak then Continue(StepWeak(st, c))
    else Continue(StepPlain(st, c))
  }

  function FinishValue(ctx: Context, st: ValueState, input: string): Result<string, Error> {
    if st.mode.EscapedBlock? || st.strong || st.weak then
      Err(LineParse(input, if ByteLength(input) == 0 then 0 else ByteLength(input) - 1))
    else Ok(Expand(ctx, st).output)
  }

  /** The rest of a value, from character `i` on. */
  function ValueFrom(ctx: Context, st: ValueState, input: string, i: nat): Result<string, Error>
    requires i <= |input|
    decreases |input| - i
  {
    if i == |input| then FinishValue(ctx, st, input)
    else match StepValue(ctx, st, input[i])
      case Continue(st') => ValueFrom(ctx, st', input, i + 1)
      case Break => FinishValue(ctx, st, input)
      case Fail => Err(LineParse(input, i))
  }

  function ParseValue(ctx: Context, input: string): Result<string, Error> {
    ValueFrom(ctx, VALUE_INIT, input, 0)
  }

  /** `parse_value` with the flags it updates character by character. */
  method ParseValueLoop(ctx: Context, input: string) returns (r: Result<string, Error>)
    ensures r == ParseValue(ctx, input)
  {
    var strongQuote, weakQuote, escaped, expectingEnd := false, false, false, false;
    var output, name := "", "";
    var mode := NoSubstitution;
    var index := 0;
    while index < |input|
      invariant 0 <= index <= |input|
      invariant ParseValue(ctx, input) ==
        ValueFrom(ctx, ValueState(strongQuote, weakQuote, escaped, expectingEnd, mode, name, output), input, index)
    {
      var c := input[index];
      if expectingEnd {
        if c == ' ' || c == '\t' {
        } else if c == '#' {
          break;
        } else {
          return Err(LineParse(input, index));
        }
      } else if escaped {
        if c == '\\' || c == '\'' || c == '"' || c == '$' || c == ' ' {
          output := output + [c];
        } else if c == 'n' {
          output := output + ['\n'];
        } else {
          return Err(LineParse(input, index));
        }
        escaped := false;
      } else if strongQuote {
        if c == '\'' {
          strongQuote := false;
        } else {
          output := output + [c];
        }
      } else if mode != NoSubstitution {
        if ctx.alnum(c) {
          name := name + [c];
        } else if mode == Block {
          if c == '{' && name == "" {
            mode := EscapedBlock;
          } else {
            output := output + Substitute(ctx, name);
            name := "";
            if c == '$' {
              mode := Block;
            } else {
              mode := NoSubstitution;
              output := output + [c];
            }
          }
        } else if c == '}' {
          mode := NoSubstitution;
          output := output + Substitute(ctx, name);
          name := "";
        } else {
          name := name + [c];
        }
      } else if c == '$' {
        mode := Block;
      } else if weakQuote {
        if c == '"' {
          weakQuote := false;
        } else if c == '\\' {
          escaped := true;
        } else {
          output := output + [c];
        }
      } else if c == '\'' {
        strongQuote := true;
      } else if c == '"' {
        weakQuote := true;
      } else if c == '\\' {
        escaped := true;
      } else if c == ' ' || c == '\t' {
        expectingEnd := true;
      } else {
        output := output + [c];
      }
      index := index + 1;
    }
    if mode == EscapedBlock || strongQuote || weakQuote {
      r := Err(LineParse(input, if ByteLength(input) == 0 then 0 else ByteLength(input) - 1));
    } else {
      r := Ok(output + Substitute(ctx, name));
    }
  }

  // ----- parse_line

  type Item = (string, string)

  /** The key at the front of `s`, and what follows it. */
  function TakeKey(s: string): Option<(string, string)> {
    if s == "" || !IsKeyStart(s[0]) then None
    else Some((s[..KeyLength(s)], s[KeyLength(s)..]))
  }

  /** Keys are ASCII: their bytes are their characters. */
  lemma {:induction false} KeyBytes(s: string)
    ensures ByteLength(s) == KeyLength(s) + ByteLength(s[KeyLength(s)..])
    decreases |s|
  {
    if s != "" && IsKeyChar(s[0]) {
      KeyBytes(s[1..]);
      assert s[1..][KeyLength(s[1..])..] == s[KeyLength(s)..];
    } else {
      assert s[0..] == s;
    }
  }

  /** How a line is read up to its value: nothing there, an error with `left` bytes unread,
      or a key and the text behind the equals sign. */
  datatype Head = Blank | Broken(left: nat) | Assignment(key: string, value: string)

  function TakeEquals(key: string, s: string): Head {
    if StartsWith(s, '=') then Assignment(key, TrimStart(s[1..])) else Broken(ByteLength(s))
  }

  function TakeHead(line: string): Head {
    var s := TrimStart(TrimEnd(line));
    if s == "" || s[0] == '#' then Blank
    else match TakeKey(s)
      case None => Broken(ByteLength(s))
      case Some((key, after)) =>
        var s1 := TrimStart(after);
        if key == "export" && !StartsWith(s1, '=') then
          (match TakeKey(s1)
           case None => Broken(ByteLength(s1))
           case Some((key2, after2)) => TakeEquals(key2, TrimStart(after2)))
        else TakeEquals(key, s1)
  }

  /** The item of one logical line, if any, and the substitution data after it. */
  function ParseLine(ctx: Context, line: string): (Result<Option<Item>, Error>, Substitutions) {
    LineFrom(ctx, line, TakeHead(line))
  }

  function LineFrom(ctx: Context, line: string, head: Head): (Result<Option<Item>, Error>, Substitutions) {
    match head
    case Blank => (Ok(None), ctx.data)
    case Broken(left) =>
      var trimmed := ByteLength(TrimEnd(line));
      (Err(LineParse(line, if left <= trimmed then trimmed - left else 0)), ctx.data)
    case Assignment(key, value) =>
      if value == "" || value[0] == '#' then (Ok(Some((key, ""))), ctx.data[key := None])
      else match ParseValue(ctx, value)
        case Ok(v) => (Ok(Some((key, v))), ctx.data[key := Some(v)])
        case Err(e) => (Err(e), ctx.data)
  }

  /** The parser over one line: `line` is what is left of it, `pos` what has been consumed. */
  class LineParser {
    const originalLine: string
    const env: map<string, string>
    const alnum: char -> bool
    var data: Substitutions
    var line: string
    var pos: nat

    ghost predicate Valid()
      reads this
    {
      ByteLength(line) + pos == ByteLength(TrimEnd(originalLine))
    }

    constructor (line: string, ctx: Context)
      ensures Valid() && originalLine == line && this.line == TrimEnd(line)
      ensures env == ctx.env && data == ctx.data && alnum == ctx.alnum
    {
      originalLine := line;
      env, data, alnum := ctx.env, ctx.data, ctx.alnum;
      this.line := TrimEnd(line);
      pos := 0;
    }

    method SkipWhitespace()
      requires Valid()
      modifies `line, `pos
      ensures Valid() && line == TrimStart(old(line))
    {
      ghost var start := line;
      while line != "" && IsWhitespace(line[0])
        invariant Valid() && TrimStart(line) == TrimStart(start)
        decreases |line|
      {
        pos := pos + Utf8Length(line[0]);
        line := line[1..];
      }
    }

    method ParseKey() returns (r: Result<string, Error>)
      requires Valid()
      modifies `line, `pos
      ensures Valid()
      ensures match TakeKey(old(line))
        case None => r == Err(LineParse(originalLine, pos)) && line == old(line)
        case Some((key, after)) => r == Ok(key) && line == after
    {
      if line == "" || !IsKeyStart(line[0]) {
        return Err(LineParse(originalLine, pos));
      }
      var index := KeyLength(line);
      KeyBytes(line);
      pos := pos + index;
      r := Ok(line[..index]);
      line := line[index..];
    }

    method ExpectEqual() returns (ok: bool)
      requires Valid()
      modifies `line, `pos
      ensures Valid() && ok == StartsWith(old(line), '=')
      ensures line == if ok then old(line)[1..] else old(line)
    {
      ok := StartsWith(line, '=');
      if ok {
        pos := pos + Utf8Length(line[0]);
        line := line[1..];
      }
    }

    /** The key, with its optional `export`, and the equals sign. */
    method ParseHead() returns (r: Head)
      requires Valid() && line == TrimEnd(originalLine)
      modifies `line, `pos
      ensures Valid() && r == TakeHead(originalLine)
      ensures r.Broken? ==> r.left == ByteLength(line)
      ensures r.Assignment? ==> r.value == line
    {
      SkipWhitespace();
      if line == "" || line[0] == '#' {
        return Blank;
      }
      var parsed := ParseKey();
      if parsed.Err? {
        return Broken(ByteLength(line));
      }
      var key := parsed.value;
      SkipWhitespace();
      var ok := ExpectEqual();
      if key == "export" && !ok {
        parsed := ParseKey();
        if parsed.Err? {
          return Broken(ByteLength(line));
        }
        key := parsed.value;
        SkipWhitespace();
        ok := ExpectEqual();
      }
      if !ok {
        return Broken(ByteLength(line));
      }
      SkipWhitespace();
      r := Assignment(key, line);
    }

    method Parse() returns (r: Result<Option<Item>, Error>)
      requires Valid() && line == TrimEnd(originalLine)
      modifies this
      ensures (r, data) == ParseLine(Context(env, old(data), alnum), originalLine)
    {
      var head := ParseHead();
      match head
      case Blank => r := Ok(None);
      case Broken(_) => r := Err(LineParse(originalLine, pos));
      case Assignment(key, _) =>
        if line == "" || line[0] == '#' {
          data := data[key := None];
          return Ok(Some((key, "")));
        }
        var value := ParseValueLoop(Context(env, data, alnum), line);
        if value.Err? {
          return Err(value.error);
        }
        data := data[key := Some(value.value)];
        r := Ok(Some((key, value.value)));
    }
  }
}
