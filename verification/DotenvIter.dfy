/** Logical lines: physical lines are joined while a quote or an escape is open. */
module DotenvLines {
  import opened Wrappers
  import opened Texts
  import opened DotenvChars
  import opened DotenvParse

  datatype ParseState =
    | Complete | Escape | StrongOpen | StrongOpenEscape | WeakOpen | WeakOpenEscape | Comment | WhiteSpace

  /** The splitter's automaton on one character. */
  function NextState(st: ParseState, c: char): ParseState {
    match st
    case WhiteSpace =>
      if c == '#' then Comment
      else if c == '\\' then Escape
      else if c == '"' then WeakOpen
      else if c == '\'' then StrongOpen
      else Complete
    case Escape => Complete
    case Complete =>
      if IsWhitespace(c) && c != '\n' && c != '\r' then WhiteSpace
      else if c == '\\' then Escape
      else if c == '"' then WeakOpen
      else if c == '\'' then StrongOpen
      else Complete
    case WeakOpen => if c == '\\' then WeakOpenEscape else if c == '"' then Complete else WeakOpen
    case WeakOpenEscape => WeakOpen
    case StrongOpen => if c == '\\' then StrongOpenEscape else if c == '\'' then Complete else StrongOpen
    case StrongOpenEscape => StrongOpen
    case Comment => Comment
  }

  /** The state after `s`, and the number of characters before the comment sign if it ends there. */
  function EndState(st: ParseState, s: string): (r: (nat, ParseState))
    ensures r.0 <= |s|
    decreases |s|
  {
    if s == "" then (0, st)
    else
      var next := NextState(st, s[0]);
      if next.Comment? then (0, Comment)
      else
        var (n, end) := EndState(next, s[1..]);
        (n + 1, end)
  }

  /** `eval_end_state`; the position matters only at a comment. */
  method EvalEndState(prev: ParseState, buf: string) returns (pos: nat, state: ParseState)
    requires !prev.Comment?
    ensures state == EndState(prev, buf).1
    ensures state.Comment? ==> pos == EndState(prev, buf).0
  {
    state := prev;
    pos := 0;
    for i := 0 to |buf|
      invariant !state.Comment?
      invariant EndState(prev, buf).1 == EndState(state, buf[i..]).1
      invariant EndState(prev, buf).0 == i + EndState(state, buf[i..]).0
    {
      assert buf[i..][0] == buf[i] && buf[i..][1..] == buf[i + 1..];
      pos := i;
      var next := NextState(state, buf[i]);
      if next.Comment? {
        return pos, Comment;
      }
      state := next;
    }
  }

  /** `read_line`: up to and including the next line feed. */
  function LineLength(s: string): (n: nat)
    ensures n <= |s| && (s != "" ==> n > 0)
  {
    if s == "" then 0 else if s[0] == '\n' then 1 else 1 + LineLength(s[1..])
  }

  function StripNewline(buf: string): string {
    if buf == "" || buf[|buf| - 1] != '\n' then buf
    else
      var b := buf[..|buf| - 1];
      if b != "" && b[|b| - 1] == '\r' then b[..|b| - 1] else b
  }

  predicate IsCommentLine(buf: string) {
    StartsWith(TrimStart(buf), '#')
  }

  type Line = Result<string, Error>

  /** The next logical line of `input` after `buf` has been read in state `st`, and the input
      behind it. */
  function LogicalLine(input: string, buf: string, st: ParseState): (r: (Option<Line>, string))
    ensures |r.1| <= |input|
    ensures input != "" ==> |r.1| < |input|
    decreases |input|
  {
    if input == "" then
      (if st.Complete? then None else Some(Err(LineParse(buf, ByteLength(buf)))), "")
    else
      var n := LineLength(input);
      var rest, all := input[n..], buf + input[..n];
      if IsCommentLine(all) then (Some(Ok("")), rest)
      else
        var (pos, st') := EndState(st, input[..n]);
        if st'.Complete? then (Some(Ok(StripNewline(all))), rest)
        else if st'.Comment? then (Some(Ok(all[..|buf| + pos])), rest)
        else LogicalLine(rest, all, st')
  }

  class QuotedLines {
    var input: string

    constructor (input: string)
      ensures this.input == input
    {
      this.input := input;
    }

    method Next() returns (r: Option<Line>)
      modifies this
      ensures (r, input) == LogicalLine(old(input), "", Complete)
    {
      var buf := "";
      var curState := Complete;
      while true
        invariant !curState.Comment?
        invariant LogicalLine(old(input), "", Complete) == LogicalLine(input, buf, curState)
        decreases |input|
      {
        var bufPos := |buf|;
        var n := LineLength(input);
        if n == 0 {
          return if curState == Complete then None else Some(Err(LineParse(buf, ByteLength(buf))));
        }
        var line := input[..n];
        buf := buf + line;
        assert buf[bufPos..] == line;
        input := input[n..];
        if IsCommentLine(buf) {
          return Some(Ok(""));
        }
        var curPos, next := EvalEndState(curState, buf[bufPos..]);
        curState := next;
        match curState
        case Complete => return Some(Ok(StripNewline(buf)));
        case Comment => return Some(Ok(buf[..bufPos + curPos]));
        case _ =>
      }
    }
  }
}

/** Items of a file, and loading them into the environment. */
module DotenvLoad {
  import opened Wrappers
  import opened DotenvChars
  import opened DotenvParse
  import opened DotenvLines

  type ItemResult = Result<Item, Error>

  /** The next item, the input behind it and the substitution data after it. */
  function NextItem(ctx: Context, input: string): (r: (Option<ItemResult>, string, Substitutions))
    ensures |r.1| <= |input| && (r.0.Some? ==> |r.1| < |input|)
    decreases |input|
  {
    var (line, rest) := LogicalLine(input, "", Complete);
    match line
    case None => (None, rest, ctx.data)
    case Some(Err(e)) => (Some(Err(e)), rest, ctx.data)
    case Some(Ok(text)) =>
      match ParseLine(ctx, text)
      case (Ok(Some(item)), data) => (Some(Ok(item)), rest, data)
      case (Ok(None), data) => NextItem(ctx.(data := data), rest)
      case (Err(e), data) => (Some(Err(e)), rest, data)
  }

  /** Everything the iterator yields while the environment does not change. */
  function Items(ctx: Context, input: string): seq<ItemResult>
    decreases |input|
  {
    var (item, rest, data) := NextItem(ctx, input);
    match item
    case None => []
    case Some(r) => [r] + Items(ctx.(data := data), rest)
  }

  const BOM := '\U{FEFF}'

  function RemoveBom(content: string): string {
    if StartsWith(content, BOM) then content[1..] else content
  }

  /** What a load has done when it stops. */
  datatype LoadRun = LoadRun(
    items: seq<Item>,           // the pairs read, in order
    env: map<string, string>,   // the environment afterwards
    loaded: nat,
    skippedOrOverridden: nat,
    error: Option<Error>)       // the error that stopped it

  /** `load` (first value wins) and `load_override` (last value wins) from a point on. */
  function LoadFrom(override: bool, ctx: Context, input: string): (r: LoadRun)
    decreases |input|
  {
    var (next, rest, data) := NextItem(ctx, input);
    match next
    case None => LoadRun([], ctx.env, 0, 0, None)
    case Some(Err(e)) => LoadRun([], ctx.env, 0, 0, Some(e))
    case Some(Ok((key, value))) =>
      var known := key in ctx.env;
      var env := if override || !known then ctx.env[key := value] else ctx.env;
      var run := LoadFrom(override, ctx.(env := env, data := data), rest);
      run.(items := [(key, value)] + run.items,
           loaded := run.loaded + (if override || !known then 1 else 0),
           skippedOrOverridden := run.skippedOrOverridden + (if known then 1 else 0))
  }

  function Load(override: bool, env: map<string, string>, alnum: char -> bool, content: string): LoadRun {
    LoadFrom(override, Context(env, map[], alnum), RemoveBom(content))
  }

  /** `LoadResult`. */
  datatype LoadResult = LoadResult(loaded: nat, skippedOrOverridden: nat)

  class Iter {
    var lines: QuotedLines
    var data: Substitutions

    constructor (content: string)
      ensures fresh(lines) && lines.input == content && data == map[]
    {
      lines := new QuotedLines(content);
      data := map[];
    }

    method RemoveByteOrderMark()
      modifies lines
      ensures lines.input == RemoveBom(old(lines.input))
    {
      if StartsWith(lines.input, BOM) {
        lines.input := lines.input[1..];
      }
    }

    method Next(env: map<string, string>, alnum: char -> bool) returns (r: Option<ItemResult>)
      modifies this, lines
      ensures lines == old(lines)
      ensures (r, lines.input, data) == NextItem(Context(env, old(data), alnum), old(lines.input))
    {
      while true
        invariant lines == old(lines)
        invariant NextItem(Context(env, old(data), alnum), old(lines.input))
               == NextItem(Context(env, data, alnum), lines.input)
        decreases |lines.input|
      {
        var line := lines.Next();
        if line.None? {
          return None;
        }
        if line.value.Err? {
          return Some(Err(line.value.error));
        }
        var parser := new LineParser(line.value.value, Context(env, data, alnum));
        var parsed := parser.Parse();
        data := parser.data;
        if parsed.Err? {
          return Some(Err(parsed.error));
        }
        if parsed.value.Some? {
          return Some(Ok(parsed.value.value));
        }
      }
    }
  }

  /** The process environment, as the loaders change it. */
  class Environment {
    var vars: map<string, string>

    constructor (vars: map<string, string>)
      ensures this.vars == vars
    {
      this.vars := vars;
    }

    /** `Iter::load`. */
    method LoadFile(content: string, alnum: char -> bool) returns (r: Result<LoadResult, Error>)
      modifies this
      ensures var run := Load(false, old(vars), alnum, content);
        && vars == run.env
        && r == (if run.error.Some? then Err(run.error.value) else Ok(LoadResult(run.loaded, run.skippedOrOverridden)))
    {
      var iter := new Iter(content);
      iter.RemoveByteOrderMark();
      var loaded, skipped := 0, 0;
      ghost var total := Load(false, vars, alnum, content);
      while true
        invariant fresh(iter) && fresh(iter.lines)
        invariant var run := LoadFrom(false, Context(vars, iter.data, alnum), iter.lines.input);
          && total.env == run.env && total.error == run.error
          && total.loaded == loaded + run.loaded
          && total.skippedOrOverridden == skipped + run.skippedOrOverridden
        decreases |iter.lines.input|
      {
        var item := iter.Next(vars, alnum);
        if item.None? {
          return Ok(LoadResult(loaded, skipped));
        }
        if item.value.Err? {
          return Err(item.value.error);
        }
        var (key, value) := item.value.value;
        if key !in vars {
          vars := vars[key := value];
          loaded := loaded + 1;
        } else {
          skipped := skipped + 1;
        }
      }
    }

    /** `Iter::load_override`. */
    method LoadFileOverride(content: string, alnum: char -> bool) returns (r: Result<LoadResult, Error>)
      modifies this
      ensures var run := Load(true, old(vars), alnum, content);
        && vars == run.env
        && r == (if run.error.Some? then Err(run.error.value) else Ok(LoadResult(run.loaded, run.skippedOrOverridden)))
    {
      var iter := new Iter(content);
      iter.RemoveByteOrderMark();
      var loaded, overridden := 0, 0;
      ghost var total := Load(true, vars, alnum, content);
      while true
        invariant fresh(iter) && fresh(iter.lines)
        invariant var run := LoadFrom(true, Context(vars, iter.data, alnum), iter.lines.input);
          && total.env == run.env && total.error == run.error
          && total.loaded == loaded + run.loaded
          && total.skippedOrOverridden == overridden + run.skippedOrOverridden
        decreases |iter.lines.input|
      {
        var item := iter.Next(vars, alnum);
        if item.None? {
          return Ok(LoadResult(loaded, overridden));
        }
        if item.value.Err? {
          return Err(item.value.error);
        }
        var (key, value) := item.value.value;
        if key in vars {
          overridden := overridden + 1;
        }
        vars := vars[key := value];
        loaded := loaded + 1;
      }
    }
  }

  // ----- What a load leaves in the environment

  /** The value of the first item with this key. */
  function FirstValue(items: seq<Item>, key: string): Option<string> {
    if items == [] then None
    else if items[0].0 == key then Some(items[0].1)
    else FirstValue(items[1..], key)
  }

  /** The value of the last item with this key. */
  function LastValue(items: seq<Item>, key: string): Option<string> {
    if items == [] then None
    else
      var later := LastValue(items[1..], key);
      if later.Some? then later else if items[0].0 == key then Some(items[0].1) else None
  }

  function Lookup(env: map<string, string>, key: string): Option<string> {
    if key in env then Some(env[key]) else None
  }

  /** `load`: variables that exist stay as they are, every other key gets its first value. */
  lemma {:induction false} LoadKeepsExisting(ctx: Context, input: string, key: string)
    ensures var run := LoadFrom(false, ctx, input);
      Lookup(run.env, key) == (if key in ctx.env then Some(ctx.env[key]) else FirstValue(run.items, key))
    decreases |input|
  {
    var (next, rest, data) := NextItem(ctx, input);
    if next.Some? && next.value.Ok? {
      var (k, v) := next.value.value;
      var env := if k !in ctx.env then ctx.env[k := v] else ctx.env;
      LoadKeepsExisting(ctx.(env := env, data := data), rest, key);
    }
  }

  /** `load_override`: every key of the file gets its last value, the rest stays. */
  lemma {:induction false} OverrideTakesLast(ctx: Context, input: string, key: string)
    ensures var run := LoadFrom(true, ctx, input);
      Lookup(run.env, key) ==
        (if LastValue(run.items, key).Some? then LastValue(run.items, key) else Lookup(ctx.env, key))
    decreases |input|
  {
    var (next, rest, data) := NextItem(ctx, input);
    if next.Some? && next.value.Ok? {
      var (k, v) := next.value.value;
      OverrideTakesLast(ctx.(env := ctx.env[k := v], data := data), rest, key);
    }
  }

  lemma KeysAfterSet(env: map<string, string>, key: string, value: string)
    ensures |env[key := value]| == |env| + (if key in env then 0 else 1)
  {
  }

  /** The counters of `load`: every item is either a new variable or skipped. */
  lemma {:induction false} LoadCountsAddUp(ctx: Context, input: string)
    ensures var run := LoadFrom(false, ctx, input);
      run.loaded == |run.env| - |ctx.env| && run.loaded + run.skippedOrOverridden == |run.items|
    decreases |input|
  {
    var (next, rest, data) := NextItem(ctx, input);
    if next.Some? && next.value.Ok? {
      var (k, v) := next.value.value;
      KeysAfterSet(ctx.env, k, v);
      var env := if k !in ctx.env then ctx.env[k := v] else ctx.env;
      LoadCountsAddUp(ctx.(env := env, data := data), rest);
    }
  }

  /** The counters of `load_override`: every item is loaded, and overrides unless it creates. */
  lemma {:induction false} OverrideCountsAddUp(ctx: Context, input: string)
    ensures var run := LoadFrom(true, ctx, input);
      run.loaded == |run.items| && run.skippedOrOverridden == |run.items| - (|run.env| - |ctx.env|)
    decreases |input|
  {
    var (next, rest, data) := NextItem(ctx, input);
    if next.Some? && next.value.Ok? {
      var (k, v) := next.value.value;
      KeysAfterSet(ctx.env, k, v);
      OverrideCountsAddUp(ctx.(env := ctx.env[k := v], data := data), rest);
    }
  }

  // ----- References during a load

  /** Every key read so far is in the environment, none of them empty. */
  ghost predicate DataInEnv(ctx: Context) {
    forall name <- ctx.data :: name != "" && name in ctx.env
  }

  lemma LineAddsItsKey(ctx: Context, line: string)
    ensures var (r, data) := ParseLine(ctx, line);
      if r.Ok? && r.value.Some? then r.value.value.0 != "" && data.Keys == ctx.data.Keys + {r.value.value.0}
      else data == ctx.data
  {
  }

  lemma {:induction false} NextItemAddsItsKey(ctx: Context, input: string)
    ensures var (next, rest, data) := NextItem(ctx, input);
      if next.Some? && next.value.Ok? then
        next.value.value.0 != "" && data.Keys == ctx.data.Keys + {next.value.value.0}
      else data == ctx.data
    decreases |input|
  {
    var (line, rest) := LogicalLine(input, "", Complete);
    if line.Some? && line.value.Ok? {
      LineAddsItsKey(ctx, line.value.value);
      if ParseLine(ctx, line.value.value).0 == Ok(None) {
        NextItemAddsItsKey(ctx, rest);
      }
    }
  }

  /** The contexts in which the items of a load are parsed. */
  function LoadContexts(override: bool, ctx: Context, input: string): seq<Context>
    decreases |input|
  {
    var (next, rest, data) := NextItem(ctx, input);
    match next
    case Some(Ok((key, value))) =>
      var env := if override || key !in ctx.env then ctx.env[key := value] else ctx.env;
      [ctx] + LoadContexts(override, ctx.(env := env, data := data), rest)
    case _ => [ctx]
  }

  lemma {:induction false} ContextsStayInEnv(override: bool, ctx: Context, input: string)
    requires DataInEnv(ctx)
    ensures forall c <- LoadContexts(override, ctx, input) :: DataInEnv(c)
    decreases |input|
  {
    var (next, rest, data) := NextItem(ctx, input);
    NextItemAddsItsKey(ctx, input);
    if next.Some? && next.value.Ok? {
      var (key, value) := next.value.value;
      var env := if override || key !in ctx.env then ctx.env[key := value] else ctx.env;
      ContextsStayInEnv(override, ctx.(env := env, data := data), rest);
    }
  }

  /** During either kind of load the substitution data is never consulted: a reference expands
      to the current value of the environment variable, or to nothing. */
  lemma ReferencesReadTheEnvironment(override: bool, env: map<string, string>, alnum: char -> bool,
                                     content: string, ctx: Context, name: string)
    requires ctx in LoadContexts(override, Context(env, map[], alnum), RemoveBom(content))
    ensures Substitute(ctx, name) == (if name != "" && name in ctx.env then ctx.env[name] else "")
  {
    ContextsStayInEnv(override, Context(env, map[], alnum), RemoveBom(content));
  }
}
