/** What a client makes of the Anthropic event stream: block bracketing, delta typing, the
    message start, and agreement with the buffered path. */
module AnthropicClient {
  import opened Wrappers
  import opened RustInt
  import opened StreamMessages
  import opened Transducers
  import opened AnthropicStream

  // ----- Bracketing

  /** How many blocks have been opened, and whether the last of them is still open. */
  datatype Brackets = Brackets(count: nat, open: bool)

  /** Blocks are numbered 0, 1, 2, ... (as u32), never nested, and only the open one is written. */
  function Track(b: Brackets, e: Event): Option<Brackets> {
    match e
    case BlockStart(i, _) => if !b.open && i == b.count % U32_RANGE then Some(Brackets(b.count + 1, true)) else None
    case BlockDelta(i, _) => if b.open && b.count > 0 && i == (b.count - 1) % U32_RANGE then Some(b) else None
    case BlockStop(i) =>
      if b.open && b.count > 0 && i == (b.count - 1) % U32_RANGE then Some(Brackets(b.count, false)) else None
    case _ => Some(b)
  }

  function TrackAll(b: Brackets, events: seq<Event>): Option<Brackets>
    decreases |events|
  {
    if events == [] then Some(b)
    else match Track(b, events[0])
      case None => None
      case Some(b') => TrackAll(b', events[1..])
  }

  lemma {:induction false} TrackAppend(b: Brackets, first: seq<Event>, second: seq<Event>)
    ensures TrackAll(b, first + second) ==
            (match TrackAll(b, first) case None => None case Some(b') => TrackAll(b', second))
    decreases |first|
  {
    if first == [] {
      assert first + second == second;
    } else {
      assert (first + second)[1..] == first[1..] + second;
      if Track(b, first[0]).Some? {
        TrackAppend(Track(b, first[0]).value, first[1..], second);
      }
    }
  }

  ghost predicate Tracks(st: State, b: Brackets) {
    && (b.open <==> !st.last.NoContent?)
    && (b.open ==> b.count > 0 && st.index == (b.count - 1) % U32_RANGE)
    && (!b.open ==> b.count == 0 && st.index == 0)
  }

  lemma TrackTwo(b: Brackets, e: Event, f: Event)
    ensures TrackAll(b, [e]) == Track(b, e)
    ensures TrackAll(b, [e, f]) == (match Track(b, e) case None => None case Some(b') => Track(b', f))
  {
    assert [e][1..] == [] && [e, f][1..] == [f] && [f][1..] == [];
    if Track(b, e).Some? {
      var b' := Track(b, e).value;
      assert TrackAll(b, [e, f]) == TrackAll(b', [f]);
      assert Track(b', f).Some? ==> TrackAll(Track(b', f).value, []) == Track(b', f);
    }
  }

  lemma TrackCloseAndOpen(st: State, b: Brackets, block: ContentBlock)
    requires Tracks(st, b)
    ensures TrackAll(b, CloseAndOpen(st, block)) == Some(Brackets(b.count + 1, true))
  {
    TrackTwo(b, BlockStop(st.index), BlockStart(NextIndex(st), block));
    TrackTwo(b, BlockStart(NextIndex(st), block), Ping);
    assert [] + [BlockStart(NextIndex(st), block)] == [BlockStart(NextIndex(st), block)];
  }

  lemma TrackOpen(st: State, b: Brackets, kind: ContentType, block: ContentBlock)
    requires Tracks(st, b) && !kind.NoContent?
    ensures var (st', events) := Open(st, kind, block);
      var b' := if st.last == kind then b else Brackets(b.count + 1, true);
      TrackAll(b, events) == Some(b') && Tracks(st', b') && b'.open
  {
    TrackTwo(b, MessageStart, Ping);
    if st.last != kind {
      var started := if st.stream.NotStarted? then [MessageStart] else [];
      var ping := if st.stream.NotStarted? then [Ping] else [];
      var b' := Brackets(b.count + 1, true);
      TrackCloseAndOpen(st, b, block);
      TrackTwo(b', Ping, Ping);
      TrackAppend(b, started, CloseAndOpen(st, block));
      TrackAppend(b, started + CloseAndOpen(st, block), ping);
    }
  }

  lemma TrackDeltas(b: Brackets, index: nat, d: Delta, e: Delta)
    requires b.open && b.count > 0 && index == (b.count - 1) % U32_RANGE
    ensures TrackAll(b, [BlockDelta(index, d)]) == Some(b)
    ensures TrackAll(b, [BlockDelta(index, d), BlockDelta(index, e)]) == Some(b)
  {
    TrackTwo(b, BlockDelta(index, d), BlockDelta(index, e));
  }

  lemma TrackStep(st: State, b: Brackets, m: Message) returns (b': Brackets)
    requires Tracks(st, b) && !m.StreamEnd?
    ensures TrackAll(b, Step(st, m).1) == Some(b') && Tracks(Step(st, m).0, b')
  {
    match m
    case ThinkingMessage(thinking) =>
      var (st', events) := Open(st, ThinkingContent, ThinkingBlock("", None));
      TrackOpen(st, b, ThinkingContent, ThinkingBlock("", None));
      b' := TrackAll(b, events).value;
      TrackDeltas(b', st'.index, ThinkingDelta(if thinking.Text? then thinking.text else ""), TextDelta(""));
      TrackDeltas(b', st'.index, SignatureDelta(if thinking.Signature? then thinking.signature else ""), TextDelta(""));
      TrackAppend(b, events, ThinkingEvents(st'.index, thinking));
    case Content(text) =>
      var (st', events) := Open(st, TextContent, TextBlock(""));
      TrackOpen(st, b, TextContent, TextBlock(""));
      b' := TrackAll(b, events).value;
      TrackDeltas(b', st'.index, TextDelta(text), TextDelta(""));
      TrackAppend(b, events, [BlockDelta(st'.index, TextDelta(text))]);
    case ToolCall(id, name, input) =>
      b' := TrackToolCall(st, b, id, name, input);
    case WebReference => b' := b;
  }

  lemma TrackToolCall(st: State, b: Brackets, id: string, name: string, input: string) returns (b': Brackets)
    requires Tracks(st, b)
    ensures TrackAll(b, Step(st, ToolCall(id, name, input)).1) == Some(b')
    ensures Tracks(Step(st, ToolCall(id, name, input)).0, b')
  {
    var (st', events) := OpenTool(st, id, name);
    b' := if st.last.InputJsonContent? then b else Brackets(b.count + 1, true);
    if !st.last.InputJsonContent? {
      TrackCloseAndOpen(st, b, ToolUseBlock(id, name, ""));
      TrackDeltas(b', st'.index, InputJsonDelta(""), InputJsonDelta(""));
      TrackAppend(b, CloseAndOpen(st, ToolUseBlock(id, name, "")), [BlockDelta(st'.index, InputJsonDelta(""))]);
    }
    TrackDeltas(b', st'.index, InputJsonDelta(input), InputJsonDelta(""));
    TrackAppend(b, events, [BlockDelta(st'.index, InputJsonDelta(input))]);
  }

  lemma {:induction false} TrackProcess(st: State, b: Brackets, messages: seq<Message>) returns (b': Brackets)
    requires Tracks(st, b) && Unfinished(messages)
    ensures TrackAll(b, Process(st, messages).1) == Some(b') && Tracks(Process(st, messages).0, b')
    decreases |messages|
  {
    if messages == [] {
      b' := b;
    } else {
      var (st1, events) := Step(st, messages[0]);
      var b1 := TrackStep(st, b, messages[0]);
      b' := TrackProcess(st1, b1, messages[1..]);
      TrackAppend(b, events, Process(st1, messages[1..]).1);
    }
  }

  lemma EndEvents(messages: seq<Message>)
    requires Unfinished(messages)
    ensures var (st, events) := Process(INIT, messages);
      Process(INIT, messages + [StreamEnd]).1 == events + (if st.last.NoContent? then [] else [BlockStop(st.index)])
  {
    RunAppend(Step, INIT, messages, [StreamEnd]);
    var st := Process(INIT, messages).0;
    assert Process(st, [StreamEnd]) == Step(st, StreamEnd);
  }

  /** For every message sequence in every batching, blocks are opened with contiguous indices,
      written only while open, closed before the next one, and none is open after the end. */
  lemma BlocksAreBracketed(messages: seq<Message>, batches: seq<seq<Message>>)
    requires Unfinished(messages) && Flatten(batches) == messages + [StreamEnd]
    ensures exists n: nat :: TrackAll(Brackets(0, false), ProcessBatches(INIT, batches).1) == Some(Brackets(n, false))
  {
    BatchingIsInvisible(Step, INIT, batches);
    EndEvents(messages);
    var b := TrackProcess(INIT, Brackets(0, false), messages);
    var (st, events) := Process(INIT, messages);
    TrackTwo(b, BlockStop(st.index), Ping);
    TrackAppend(Brackets(0, false), events, if st.last.NoContent? then [] else [BlockStop(st.index)]);
    assert TrackAll(Brackets(0, false), ProcessBatches(INIT, batches).1) == Some(Brackets(b.count, false));
  }

  // ----- The client's reconstruction of the content

  datatype View = View(content: seq<ContentBlock>, open: bool)

  /** A delta must fit the block it goes to. */
  function ApplyDelta(b: ContentBlock, d: Delta): Option<ContentBlock> {
    match (b, d)
    case (ThinkingBlock(thinking, signature), ThinkingDelta(t)) => Some(ThinkingBlock(thinking + t, signature))
    case (ThinkingBlock(thinking, _), SignatureDelta(s)) => Some(ThinkingBlock(thinking, Some(s)))
    case (TextBlock(text), TextDelta(t)) => Some(TextBlock(text + t))
    case (ToolUseBlock(id, name, json), InputJsonDelta(j)) => Some(ToolUseBlock(id, name, json + j))
    case _ => None
  }

  predicate AtLast(v: View, i: nat) {
    v.open && |v.content| > 0 && i == (|v.content| - 1) % U32_RANGE
  }

  /** One event; None where the stream breaks the protocol. */
  function Receive(v: View, e: Event): Option<View> {
    match e
    case BlockStart(i, block) =>
      if !v.open && i == |v.content| % U32_RANGE then Some(View(v.content + [block], true)) else None
    case BlockDelta(i, d) =>
      if !AtLast(v, i) then None
      else
        var last := |v.content| - 1;
        (match ApplyDelta(v.content[last], d)
         case None => None
         case Some(block) => Some(View(v.content[last := block], true)))
    case BlockStop(i) => if AtLast(v, i) then Some(View(v.content, false)) else None
    case _ => Some(v)
  }

  function ReceiveAll(v: View, events: seq<Event>): Option<View>
    decreases |events|
  {
    if events == [] then Some(v)
    else match Receive(v, events[0])
      case None => None
      case Some(v') => ReceiveAll(v', events[1..])
  }

  lemma {:induction false} ReceiveAppend(v: View, first: seq<Event>, second: seq<Event>)
    ensures ReceiveAll(v, first + second) ==
            (match ReceiveAll(v, first) case None => None case Some(v') => ReceiveAll(v', second))
    decreases |first|
  {
    if first == [] {
      assert first + second == second;
    } else {
      assert (first + second)[1..] == first[1..] + second;
      if Receive(v, first[0]).Some? {
        ReceiveAppend(Receive(v, first[0]).value, first[1..], second);
      }
    }
  }

  lemma ReceiveTwo(v: View, e: Event, f: Event)
    ensures ReceiveAll(v, [e]) == Receive(v, e)
    ensures ReceiveAll(v, [e, f]) == (match Receive(v, e) case None => None case Some(v') => Receive(v', f))
  {
    assert [e][1..] == [] && [e, f][1..] == [f] && [f][1..] == [];
    if Receive(v, e).Some? {
      var v' := Receive(v, e).value;
      assert ReceiveAll(v, [e, f]) == ReceiveAll(v', [f]);
      assert Receive(v', f).Some? ==> ReceiveAll(Receive(v', f).value, []) == Receive(v', f);
    }
  }

  function LastBlock(v: View): Option<ContentBlock> {
    if v.content == [] then None else Some(v.content[|v.content| - 1])
  }

  predicate InTool(v: View) {
    LastBlock(v).Some? && LastBlock(v).value.ToolUseBlock?
  }

  /** The writer's state and the client's view of it between two messages. */
  ghost predicate Related(st: State, v: View) {
    && (v.open <==> v.content != [])
    && (match st.last
        case NoContent => v.content == [] && st.index == 0
        case ThinkingContent => v.content != [] && LastBlock(v).value.ThinkingBlock?
        case TextContent => v.content != [] && (LastBlock(v).value.TextBlock? || InTool(v))
        case InputJsonContent => false)
    && (v.content != [] ==> st.index == (|v.content| - 1) % U32_RANGE)
  }

  lemma ReceiveOpening(st: State, v: View, block: ContentBlock)
    requires Related(st, v)
    ensures ReceiveAll(v, CloseAndOpen(st, block)) == Some(View(v.content + [block], true))
  {
    var start := BlockStart(NextIndex(st), block);
    if st.last.NoContent? {
      assert CloseAndOpen(st, block) == [start];
      ReceiveTwo(v, start, Ping);
    } else {
      assert CloseAndOpen(st, block) == [BlockStop(st.index), start];
      ReceiveTwo(v, BlockStop(st.index), start);
    }
  }

  /** The view in which a thinking or text delta arrives. */
  function Opened(st: State, v: View, kind: ContentType, block: ContentBlock): View {
    if st.last == kind then v else View(v.content + [block], true)
  }

  lemma ReceiveOpen(st: State, v: View, kind: ContentType, block: ContentBlock)
    requires Related(st, v)
    requires (kind.ThinkingContent? && block == ThinkingBlock("", None))
          || (kind.TextContent? && block == TextBlock(""))
    ensures var (st', events) := Open(st, kind, block);
      var v' := Opened(st, v, kind, block);
      && ReceiveAll(v, events) == Some(v') && AtLast(v', st'.index) && Related(st', v')
  {
    ReceiveTwo(v, MessageStart, Ping);
    if st.last != kind {
      var started := if st.stream.NotStarted? then [MessageStart] else [];
      var ping := if st.stream.NotStarted? then [Ping] else [];
      var v' := View(v.content + [block], true);
      ReceiveOpening(st, v, block);
      ReceiveTwo(v', Ping, Ping);
      ReceiveAppend(v, started, CloseAndOpen(st, block));
      ReceiveAppend(v, started + CloseAndOpen(st, block), ping);
    }
  }

  lemma ReceiveThinkingDelta(st: State, v: View, thinking: Thinking, d: Delta) returns (v': View)
    requires Related(st, v)
    requires (thinking.Text? && d == ThinkingDelta(thinking.text))
          || (thinking.Signature? && d == SignatureDelta(thinking.signature))
    ensures ReceiveAll(v, Step(st, ThinkingMessage(thinking)).1) == Some(v')
    ensures Related(Step(st, ThinkingMessage(thinking)).0, v') && !InTool(v')
    ensures v'.content == Collect1(v.content, ThinkingMessage(thinking))
  {
    var (st', events) := Open(st, ThinkingContent, ThinkingBlock("", None));
    ReceiveOpen(st, v, ThinkingContent, ThinkingBlock("", None));
    var v1 := Opened(st, v, ThinkingContent, ThinkingBlock("", None));
    var block := ApplyDelta(LastBlock(v1).value, d).value;
    v' := View(v1.content[|v1.content| - 1 := block], true);
    ReceiveAppend(v, events, ThinkingEvents(st'.index, thinking));
    assert thinking.Text? ==> "" + thinking.text == thinking.text;
  }

  lemma ReceiveThinking(st: State, v: View, thinking: Thinking) returns (v': View)
    requires Related(st, v)
    ensures ReceiveAll(v, Step(st, ThinkingMessage(thinking)).1) == Some(v')
    ensures Related(Step(st, ThinkingMessage(thinking)).0, v') && !InTool(v')
    ensures !thinking.Redacted? ==> v'.content == Collect1(v.content, ThinkingMessage(thinking))
    ensures thinking.Redacted? ==> v'.content == v.content || v'.content == v.content + [ThinkingBlock("", None)]
  {
    match thinking {
      case Text(text) => v' := ReceiveThinkingDelta(st, v, thinking, ThinkingDelta(text));
      case Signature(signature) => v' := ReceiveThinkingDelta(st, v, thinking, SignatureDelta(signature));
      case Redacted(_) =>
        ReceiveOpen(st, v, ThinkingContent, ThinkingBlock("", None));
        v' := Opened(st, v, ThinkingContent, ThinkingBlock("", None));
        var events := Open(st, ThinkingContent, ThinkingBlock("", None)).1;
        assert events + [] == events;
    }
  }

  lemma ReceiveContent(st: State, v: View, text: string)
    requires Related(st, v)
    ensures st.last.TextContent? && InTool(v) ==> ReceiveAll(v, Step(st, Content(text)).1) == None
    ensures !(st.last.TextContent? && InTool(v)) ==>
      var v' := View(Collect1(v.content, Content(text)), true);
      ReceiveAll(v, Step(st, Content(text)).1) == Some(v') && Related(Step(st, Content(text)).0, v') && !InTool(v')
  {
    var (st', events) := Open(st, TextContent, TextBlock(""));
    ReceiveOpen(st, v, TextContent, TextBlock(""));
    var v1 := Opened(st, v, TextContent, TextBlock(""));
    ReceiveAppend(v, events, [BlockDelta(st'.index, TextDelta(text))]);
    if LastBlock(v1).value.TextBlock? {
      var block := TextBlock(LastBlock(v1).value.text + text);
      assert "" + text == text;
      assert v1.content[|v1.content| - 1 := block] == Collect1(v.content, Content(text));
    } else {
      ReceiveTwo(v1, BlockDelta(st'.index, TextDelta(text)), Ping);
    }
  }

  lemma ReceiveToolCall(st: State, v: View, id: string, name: string, input: string) returns (v': View)
    requires Related(st, v)
    ensures ReceiveAll(v, Step(st, ToolCall(id, name, input)).1) == Some(v')
    ensures v' == View(v.content + [ToolUseBlock(id, name, input)], true)
    ensures Related(Step(st, ToolCall(id, name, input)).0, v')
  {
    var (st', events) := OpenTool(st, id, name);
    var v1 := View(v.content + [ToolUseBlock(id, name, "")], true);
    var none := BlockDelta(st'.index, InputJsonDelta(""));
    ReceiveOpening(st, v, ToolUseBlock(id, name, ""));
    ReceiveTwo(v1, none, Ping);
    ReceiveAppend(v, CloseAndOpen(st, ToolUseBlock(id, name, "")), [none]);
    assert "" + "" == "";
    assert Receive(v1, none).value.content == v1.content;
    ReceiveTwo(v1, BlockDelta(st'.index, InputJsonDelta(input)), Ping);
    ReceiveAppend(v, events, [BlockDelta(st'.index, InputJsonDelta(input))]);
    v' := Receive(v1, BlockDelta(st'.index, InputJsonDelta(input))).value;
    assert "" + input == input;
  }

  // ----- Delta typing

  /** Some text follows a tool call with nothing but ignored messages between them. */
  predicate TextAfterTool(afterTool: bool, messages: seq<Message>)
    decreases |messages|
  {
    messages != [] &&
    match messages[0]
    case Content(_) => afterTool || TextAfterTool(false, messages[1..])
    case ToolCall(_, _, _) => TextAfterTool(true, messages[1..])
    case ThinkingMessage(_) => TextAfterTool(false, messages[1..])
    case _ => TextAfterTool(afterTool, messages[1..])
  }

  lemma {:induction false} TypedProcess(st: State, v: View, messages: seq<Message>)
    requires Related(st, v) && Unfinished(messages)
    ensures var r := ReceiveAll(v, Process(st, messages).1);
      && (r.Some? <==> !TextAfterTool(InTool(v), messages))
      && (r.Some? ==> Related(Process(st, messages).0, r.value))
    decreases |messages|
  {
    if messages != [] {
      var (st1, events) := Step(st, messages[0]);
      ReceiveAppend(v, events, Process(st1, messages[1..]).1);
      match messages[0] {
        case ThinkingMessage(thinking) =>
          var v1 := ReceiveThinking(st, v, thinking);
          TypedProcess(st1, v1, messages[1..]);
        case Content(text) =>
          ReceiveContent(st, v, text);
          if !InTool(v) {
            TypedProcess(st1, View(Collect1(v.content, Content(text)), true), messages[1..]);
          }
        case ToolCall(id, name, input) =>
          var v1 := ReceiveToolCall(st, v, id, name, input);
          TypedProcess(st1, v1, messages[1..]);
        case WebReference =>
          TypedProcess(st1, v, messages[1..]);
      }
    }
  }

  lemma ReceiveEnd(messages: seq<Message>)
    requires Unfinished(messages)
    ensures var (st, events) := Process(INIT, messages);
      match ReceiveAll(View([], false), events)
      case None => ReceiveAll(View([], false), Process(INIT, messages + [StreamEnd]).1) == None
      case Some(v) => Related(st, v) ==>
        ReceiveAll(View([], false), Process(INIT, messages + [StreamEnd]).1) == Some(View(v.content, false))
  {
    EndEvents(messages);
    var (st, events) := Process(INIT, messages);
    ReceiveAppend(View([], false), events, if st.last.NoContent? then [] else [BlockStop(st.index)]);
    if ReceiveAll(View([], false), events).Some? {
      var v := ReceiveAll(View([], false), events).value;
      ReceiveTwo(v, BlockStop(st.index), Ping);
    }
  }

  /** Every delta fits its block exactly when no text directly follows a tool call; the writer
      would send that text into the tool's block. */
  lemma DeltasFitExactly(messages: seq<Message>)
    requires Unfinished(messages)
    ensures ReceiveAll(View([], false), Process(INIT, messages + [StreamEnd]).1).Some?
            <==> !TextAfterTool(false, messages)
  {
    TypedProcess(INIT, View([], false), messages);
    ReceiveEnd(messages);
  }

  /** The shortest stream whose deltas do not fit. */
  lemma TextAfterToolBreaksTyping(id: string, name: string, input: string, text: string)
    ensures ReceiveAll(View([], false), Process(INIT, [ToolCall(id, name, input), Content(text), StreamEnd]).1) == None
  {
    var messages := [ToolCall(id, name, input), Content(text)];
    assert messages[1..] == [Content(text)];
    assert TextAfterTool(false, messages);
    DeltasFitExactly(messages);
    assert messages + [StreamEnd] == [ToolCall(id, name, input), Content(text), StreamEnd];
  }

  // ----- Tool calls

  predicate StartsTool(e: Event) {
    e.BlockStart? && e.block.ToolUseBlock?
  }

  function CountToolStarts(events: seq<Event>): nat {
    if events == [] then 0 else (if StartsTool(events[0]) then 1 else 0) + CountToolStarts(events[1..])
  }

  function CountToolCalls(messages: seq<Message>): nat {
    if messages == [] then 0
    else (if messages[0].ToolCall? then 1 else 0) + CountToolCalls(messages[1..])
  }

  lemma {:induction false} CountAppend(first: seq<Event>, second: seq<Event>)
    ensures CountToolStarts(first + second) == CountToolStarts(first) + CountToolStarts(second)
    decreases |first|
  {
    if first == [] {
      assert first + second == second;
    } else {
      assert (first + second)[1..] == first[1..] + second;
      CountAppend(first[1..], second);
    }
  }

  lemma {:induction false} NoToolStarts(events: seq<Event>)
    requires forall e <- events :: !StartsTool(e)
    ensures CountToolStarts(events) == 0
    decreases |events|
  {
    if events != [] {
      assert events[0] in events && forall e <- events[1..] :: e in events;
      NoToolStarts(events[1..]);
    }
  }

  /** A tool call starts one block, although its recorded type says otherwise. */
  lemma ToolCallStartsOne(st: State, id: string, name: string, input: string)
    requires !st.last.InputJsonContent?
    ensures CountToolStarts(Step(st, ToolCall(id, name, input)).1) == 1
  {
    var n := NextIndex(st);
    var stop := if st.last.NoContent? then [] else [BlockStop(st.index)];
    var start := [BlockStart(n, ToolUseBlock(id, name, ""))];
    var deltas := [BlockDelta(n, InputJsonDelta("")), BlockDelta(n, InputJsonDelta(input))];
    assert Step(st, ToolCall(id, name, input)).1 == stop + (start + deltas);
    NoToolStarts(stop);
    NoToolStarts(deltas);
    CountAppend(stop, start + deltas);
    CountAppend(start, deltas);
    assert start[1..] == [];
  }

  /** Every tool-call message starts a tool block of its own, also when it continues the input of
      the call before it, and nothing else starts one: for every stream. */
  lemma {:induction false} ToolCallsAreNeverMerged(st: State, messages: seq<Message>)
    requires !st.last.InputJsonContent? && Unfinished(messages)
    ensures CountToolStarts(Process(st, messages).1) == CountToolCalls(messages)
    decreases |messages|
  {
    if messages != [] {
      var (st1, events) := Step(st, messages[0]);
      if messages[0].ToolCall? {
        ToolCallStartsOne(st, messages[0].id, messages[0].name, messages[0].input);
      } else {
        NoToolStarts(events);
      }
      CountAppend(events, Process(st1, messages[1..]).1);
      ToolCallsAreNeverMerged(st1, messages[1..]);
    }
  }

  // ----- Agreement with the buffered path

  /** Each tool call arrives with its whole input, as one JSON text. */
  predicate WholeToolCalls(rules: ToolRules, messages: seq<Message>) {
    forall m <- messages :: m.ToolCall? ==> rules.processed && rules.isJson(m.input)
  }

  predicate NoRedacted(messages: seq<Message>) {
    forall m <- messages :: !(m.ThinkingMessage? && m.thinking.Redacted?)
  }

  predicate NoRedactedBlock(content: seq<ContentBlock>) {
    forall b <- content :: !b.RedactedBlock?
  }

  lemma {:induction false} ProcessCollects(rules: ToolRules, st: State, v: View, messages: seq<Message>) returns (v': View)
    requires Related(st, v) && NoRedactedBlock(v.content)
    requires Unfinished(messages) && WholeToolCalls(rules, messages) && !TextAfterTool(InTool(v), messages)
    ensures ReceiveAll(v, Process(st, messages).1) == Some(v') && Related(Process(st, messages).0, v')
    ensures NoRedactedBlock(v'.content)
    ensures NoRedacted(messages) ==> v'.content == CollectChunk(rules, v.content, messages)
    decreases |messages|
  {
    if messages == [] {
      v' := v;
    } else {
      var m := messages[0];
      assert m in messages && forall n <- messages[1..] :: n in messages;
      var (st1, events) := Step(st, m);
      var v1 := v;
      match m {
        case ThinkingMessage(thinking) => v1 := ReceiveThinking(st, v, thinking);
        case Content(text) =>
          ReceiveContent(st, v, text);
          v1 := View(Collect1(v.content, m), true);
        case ToolCall(id, name, input) =>
          v1 := ReceiveToolCall(st, v, id, name, input);
          assert "" + input == input;
        case WebReference =>
      }
      v' := ProcessCollects(rules, st1, v1, messages[1..]);
      ReceiveAppend(v, events, Process(st1, messages[1..]).1);
    }
  }

  /** What was redacted is in the buffered content, and nothing else is given as redacted. */
  lemma {:induction false} CollectKeepsRedacted(rules: ToolRules, b: Buffered, messages: seq<Message>, data: string)
    ensures RedactedBlock(data) in CollectFrom(rules, b, messages).content
       <==> RedactedBlock(data) in b.content || ThinkingMessage(Redacted(data)) in messages
    decreases |messages|
  {
    if messages != [] {
      var (m, next) := (messages[0], CollectStep(rules, b, messages[0]));
      assert messages == [m] + messages[1..];
      if RedactedBlock(data) in b.content {
        var i :| 0 <= i < |b.content| && b.content[i] == RedactedBlock(data);
        assert next.content[i] == b.content[i];
      } else if m == ThinkingMessage(Redacted(data)) {
        assert next.content[|b.content|] == RedactedBlock(data);
      } else {
        assert RedactedBlock(data) !in next.content;
      }
      CollectKeepsRedacted(rules, next, messages[1..], data);
    }
  }

  lemma {:induction false} CollectAppend(rules: ToolRules, b: Buffered, first: seq<Message>, second: seq<Message>)
    ensures CollectFrom(rules, b, first + second) == CollectFrom(rules, CollectFrom(rules, b, first), second)
    decreases |first|
  {
    if first == [] {
      assert first + second == second;
    } else {
      assert (first + second)[1..] == first[1..] + second;
      CollectAppend(rules, CollectStep(rules, b, first[0]), first[1..], second);
    }
  }

  lemma {:induction false} WholeCallsLeaveNoInput(rules: ToolRules, content: seq<ContentBlock>, messages: seq<Message>)
    requires WholeToolCalls(rules, messages)
    ensures CollectFrom(rules, Buffered(content, ""), messages).json == ""
    decreases |messages|
  {
    if messages != [] {
      var m := messages[0];
      assert m in messages && forall n <- messages[1..] :: n in messages;
      if m.ToolCall? {
        assert "" + m.input == m.input;
      }
      WholeCallsLeaveNoInput(rules, CollectStep(rules, Buffered(content, ""), m).content, messages[1..]);
    }
  }

  /** No thinking and no text joins the last block. */
  predicate Settled(content: seq<ContentBlock>) {
    content == [] || content[|content| - 1].RedactedBlock? || content[|content| - 1].ToolUseBlock?
  }

  lemma {:induction false} CollectBehind(rules: ToolRules, before: seq<ContentBlock>, b: Buffered, messages: seq<Message>)
    requires Settled(before) || b.content != []
    ensures var r := CollectFrom(rules, b, messages);
      CollectFrom(rules, Buffered(before + b.content, b.json), messages) == Buffered(before + r.content, r.json)
    decreases |messages|
  {
    if messages != [] {
      var next := CollectStep(rules, b, messages[0]);
      var behind := CollectStep(rules, Buffered(before + b.content, b.json), messages[0]);
      assert behind.content == before + next.content;
      CollectBehind(rules, before, next, messages[1..]);
    }
  }

  /** A redacted message cuts the buffered content in two independent parts, its block between
      them. */
  lemma RedactedCuts(rules: ToolRules, before: seq<Message>, data: string, behind: seq<Message>)
    requires WholeToolCalls(rules, before)
    ensures CollectChunk(rules, [], before + [ThinkingMessage(Redacted(data))] + behind)
         == CollectChunk(rules, [], before) + [RedactedBlock(data)] + CollectChunk(rules, [], behind)
  {
    var redacted := ThinkingMessage(Redacted(data));
    var content := CollectChunk(rules, [], before) + [RedactedBlock(data)];
    WholeCallsLeaveNoInput(rules, [], before);
    CollectAppend(rules, Buffered([], ""), before, [redacted]);
    assert [redacted][1..] == [];
    CollectAppend(rules, Buffered([], ""), before + [redacted], behind);
    assert content + [] == content;
    CollectBehind(rules, content, Buffered([], ""), behind);
  }

  function Inputs(calls: seq<Message>): string
    requires forall m <- calls :: m.ToolCall?
    decreases |calls|
  {
    if calls == [] then "" else Inputs(calls[..|calls| - 1]) + calls[|calls| - 1].input
  }

  lemma CollectOneMore(rules: ToolRules, b: Buffered, messages: seq<Message>, m: Message)
    ensures CollectFrom(rules, b, messages + [m]) == CollectStep(rules, CollectFrom(rules, b, messages), m)
  {
    CollectAppend(rules, b, messages, [m]);
    assert [m][1..] == [];
  }

  lemma {:induction false} PiecesWait(rules: ToolRules, content: seq<ContentBlock>, calls: seq<Message>)
    requires forall m <- calls :: m.ToolCall?
    requires forall k | 0 < k <= |calls| :: !(rules.processed && rules.isJson(Inputs(calls[..k])))
    ensures CollectFrom(rules, Buffered(content, ""), calls) == Buffered(content, Inputs(calls))
    decreases |calls|
  {
    if calls != [] {
      var init, last := calls[..|calls| - 1], calls[|calls| - 1];
      assert calls == init + [last] && calls[..|calls|] == calls;
      forall k | 0 < k <= |init| ensures init[..k] == calls[..k] {}
      PiecesWait(rules, content, init);
      CollectOneMore(rules, Buffered(content, ""), init, last);
      assert last in calls && !(rules.processed && rules.isJson(Inputs(calls)));
    }
  }

  /** A tool call that comes in pieces becomes one block, under the last piece's id and name, when
      the pieces are complete; pieces that are not complete at the end of a chunk leave nothing. */
  lemma PiecesBecomeOneBlock(rules: ToolRules, content: seq<ContentBlock>, calls: seq<Message>)
    requires calls != [] && forall m <- calls :: m.ToolCall?
    requires forall k | 0 < k < |calls| :: !(rules.processed && rules.isJson(Inputs(calls[..k])))
    ensures var last := calls[|calls| - 1];
      CollectChunk(rules, content, calls) == content +
        if rules.processed && rules.isJson(Inputs(calls)) then [ToolUseBlock(last.id, last.name, Inputs(calls))] else []
  {
    var init, last := calls[..|calls| - 1], calls[|calls| - 1];
    var b := Buffered(content, "");
    assert calls == init + [last] && last in calls;
    forall k | 0 < k <= |init| ensures init[..k] == calls[..k] {}
    PiecesWait(rules, content, init);
    CollectOneMore(rules, b, init, last);
    assert CollectFrom(rules, b, calls) == CollectStep(rules, Buffered(content, Inputs(init)), last);
  }

  /** Chunk boundaries do not matter to the buffered path either. */
  lemma {:induction false} CollectChunksIsOne(rules: ToolRules, content: seq<ContentBlock>, chunks: seq<seq<Message>>)
    requires WholeToolCalls(rules, Flatten(chunks))
    ensures CollectChunks(rules, content, chunks) == CollectChunk(rules, content, Flatten(chunks))
    decreases |chunks|
  {
    if chunks != [] {
      var first, rest := chunks[0], Flatten(chunks[1..]);
      assert forall m <- first :: m in first + rest;
      assert forall m <- rest :: m in first + rest;
      WholeCallsLeaveNoInput(rules, content, first);
      CollectAppend(rules, Buffered(content, ""), first, rest);
      CollectChunksIsOne(rules, CollectChunk(rules, content, first), chunks[1..]);
    }
  }

  /** For every stream whose tool calls arrive whole, in every batching, the blocks a client
      assembles from the events are the content of the buffered path, exactly when nothing is
      redacted and no text directly follows a tool call. */
  lemma StreamedEqualsBuffered(rules: ToolRules, messages: seq<Message>, batches: seq<seq<Message>>)
    requires Unfinished(messages) && WholeToolCalls(rules, messages)
    requires Flatten(batches) == messages + [StreamEnd]
    ensures ReceiveAll(View([], false), ProcessBatches(INIT, batches).1)
            == Some(View(CollectChunks(rules, [], batches), false))
            <==> NoRedacted(messages) && !TextAfterTool(false, messages)
  {
    BatchingIsInvisible(Step, INIT, batches);
    ReceiveEnd(messages);
    CollectChunksIsOne(rules, [], batches);
    CollectAppend(rules, Buffered([], ""), messages, [StreamEnd]);
    assert [StreamEnd][1..] == [];
    assert CollectChunk(rules, [], messages + [StreamEnd]) == CollectChunk(rules, [], messages);
    if TextAfterTool(false, messages) {
      DeltasFitExactly(messages);
    } else {
      var v := ProcessCollects(rules, INIT, View([], false), messages);
      if !NoRedacted(messages) {
        var m :| m in messages && m.ThinkingMessage? && m.thinking.Redacted?;
        CollectKeepsRedacted(rules, Buffered([], ""), messages, m.thinking.data);
      }
    }
  }

  // ----- The message start

  /** Neither a message start nor a ping. */
  predicate NoOpening(events: seq<Event>) {
    forall e <- events :: !e.MessageStart? && !e.Ping?
  }

  function FirstEffective(messages: seq<Message>): Option<Message>
    decreases |messages|
  {
    if messages == [] then None
    else if messages[0].WebReference? then FirstEffective(messages[1..])
    else Some(messages[0])
  }

  lemma {:induction false} StartedStaysSilent(st: State, messages: seq<Message>)
    requires !st.stream.NotStarted?
    ensures NoOpening(Process(st, messages).1)
    decreases |messages|
  {
    if messages != [] {
      StartedStaysSilent(Step(st, messages[0]).0, messages[1..]);
    }
  }

  /** The three events that open a message, and no others of their kind behind them. */
  predicate OpensMessage(events: seq<Event>, block: ContentBlock) {
    && |events| >= 3 && events[0] == MessageStart && events[1] == BlockStart(0, block) && events[2] == Ping
    && NoOpening(events[3..])
  }

  function FirstBlock(m: Message): ContentBlock {
    if m.Content? then TextBlock("") else ThinkingBlock("", None)
  }

  /** When the first effective message is thinking or text, the stream opens with the message
      start, the start of block 0 and the ping, and has no other message start or ping; otherwise
      it has neither of them. */
  lemma {:induction false} MessageStartExactly(messages: seq<Message>)
    ensures var events := Process(INIT, messages).1;
      var first := FirstEffective(messages);
      if first.Some? && (first.value.ThinkingMessage? || first.value.Content?)
      then OpensMessage(events, FirstBlock(first.value)) else NoOpening(events)
    decreases |messages|
  {
    if messages != [] {
      var (st, events) := Step(INIT, messages[0]);
      if messages[0].WebReference? {
        MessageStartExactly(messages[1..]);
        assert [] + Process(INIT, messages[1..]).1 == Process(INIT, messages[1..]).1;
      } else {
        StartedStaysSilent(st, messages[1..]);
      }
    }
  }
}
