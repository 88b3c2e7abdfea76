/** The Anthropic response writer: a transducer from decoder messages to server-sent events that
    keeps its state between network chunks, and the buffered loop that builds the same answer in
    one piece. */
module AnthropicStream {
  import opened Wrappers
  import opened RustInt
  import opened StreamMessages
  import opened Transducers

  datatype ContentBlock =
    | ThinkingBlock(thinking: string, signature: Option<string>)
    | RedactedBlock(data: string)
    | TextBlock(text: string)
    | ToolUseBlock(id: string, name: string, json: string)

  datatype Delta =
    | ThinkingDelta(thinking: string)
    | SignatureDelta(signature: string)
    | TextDelta(text: string)
    | InputJsonDelta(json: string)

  datatype Event =
    | MessageStart
    | Ping
    | BlockStart(index: nat, block: ContentBlock)
    | BlockDelta(index: nat, delta: Delta)
    | BlockStop(index: nat)

  datatype StreamState = NotStarted | ContentBlockActive | Completed

  datatype ContentType = NoContent | ThinkingContent | TextContent | InputJsonContent

  datatype State = State(stream: StreamState, last: ContentType, index: nat)

  const INIT := State(NotStarted, NoContent, 0)

  // ----- The transducer as a function

  /** The index of the block to open; `fetch_add` on an `AtomicU32` wraps around. */
  function NextIndex(st: State): nat {
    if st.last.NoContent? then st.index else (st.index + 1) % U32_RANGE
  }

  function CloseAndOpen(st: State, block: ContentBlock): seq<Event> {
    (if st.last.NoContent? then [] else [BlockStop(st.index)]) + [BlockStart(NextIndex(st), block)]
  }

  /** Opening events of a thinking or text message. */
  function Open(st: State, kind: ContentType, block: ContentBlock): (State, seq<Event>) {
    var started := if st.stream.NotStarted? then [MessageStart] else [];
    if st.last == kind then (st, started)
    else
      var ping := if st.stream.NotStarted? then [Ping] else [];
      (State(ContentBlockActive, kind, NextIndex(st)), started + CloseAndOpen(st, block) + ping)
  }

  function ThinkingEvents(index: nat, thinking: Thinking): seq<Event> {
    match thinking
    case Text(text) => [BlockDelta(index, ThinkingDelta(text))]
    case Signature(signature) => [BlockDelta(index, SignatureDelta(signature))]
    case Redacted(_) => []
  }

  /** After a tool call the recorded type is text, not input JSON. */
  function OpenTool(st: State, id: string, name: string): (State, seq<Event>) {
    if st.last.InputJsonContent? then (st, [])
    else
      (State(ContentBlockActive, TextContent, NextIndex(st)),
       CloseAndOpen(st, ToolUseBlock(id, name, "")) + [BlockDelta(NextIndex(st), InputJsonDelta(""))])
  }

  /** One message: the new state and the events it emits. */
  function Step(st: State, m: Message): (State, seq<Event>) {
    match m
    case ThinkingMessage(thinking) =>
      var (st', events) := Open(st, ThinkingContent, ThinkingBlock("", None));
      (st', events + ThinkingEvents(st'.index, thinking))
    case Content(text) =>
      var (st', events) := Open(st, TextContent, TextBlock(""));
      (st', events + [BlockDelta(st'.index, TextDelta(text))])
    case ToolCall(id, name, input) =>
      var (st', events) := OpenTool(st, id, name);
      (st', events + [BlockDelta(st'.index, InputJsonDelta(input))])
    case StreamEnd =>
      (st.(stream := Completed), if st.last.NoContent? then [] else [BlockStop(st.index)])
    case WebReference => (st, [])
  }

  /** One batch: messages behind an end marker are not looked at. */
  function Process(st: State, messages: seq<Message>): (State, seq<Event>) {
    Run(Step, st, messages)
  }

  function ProcessBatches(st: State, batches: seq<seq<Message>>): (State, seq<Event>) {
    RunBatches(Step, st, batches)
  }

  // ----- The transducer as the program runs it

  /** The atomics shared by all chunks of one response. */
  class Writer {
    var streamState: StreamState
    var lastContentType: ContentType
    var index: nat

    function Current(): State
      reads this
    {
      State(streamState, lastContentType, index)
    }

    constructor ()
      ensures Current() == INIT
    {
      streamState, lastContentType, index := NotStarted, NoContent, 0;
    }

    /** The switch of the current content block. */
    method SwitchBlock(block: ContentBlock) returns (events: seq<Event>)
      modifies `index
      ensures index == NextIndex(old(Current()))
      ensures events == CloseAndOpen(old(Current()), block)
    {
      events := [];
      if lastContentType != NoContent {
        events := events + [BlockStop(index)];
        index := (index + 1) % U32_RANGE;
      }
      events := events + [BlockStart(index, block)];
    }

    /** The start of a thinking or text message. */
    method OpenBlock(kind: ContentType, block: ContentBlock) returns (events: seq<Event>)
      modifies this
      ensures (Current(), events) == Open(old(Current()), kind, block)
    {
      var isStart := streamState == NotStarted;
      events := if isStart then [MessageStart] else [];
      if lastContentType != kind {
        var switch := SwitchBlock(block);
        events := events + switch;
        if isStart {
          events := events + [Ping];
        }
        lastContentType := kind;
        streamState := ContentBlockActive;
      }
      assert events + [] == events;
    }

    method Write(m: Message) returns (events: seq<Event>)
      modifies this
      ensures (Current(), events) == Step(old(Current()), m)
    {
      events := [];
      match m
      case ThinkingMessage(thinking) =>
        events := OpenBlock(ThinkingContent, ThinkingBlock("", None));
        match thinking {
          case Text(text) => events := events + [BlockDelta(index, ThinkingDelta(text))];
          case Signature(signature) => events := events + [BlockDelta(index, SignatureDelta(signature))];
          case Redacted(_) => assert events + [] == events;
        }
      case Content(text) =>
        events := OpenBlock(TextContent, TextBlock(""));
        events := events + [BlockDelta(index, TextDelta(text))];
      case ToolCall(id, name, input) =>
        if lastContentType != InputJsonContent {
          events := SwitchBlock(ToolUseBlock(id, name, ""));
          events := events + [BlockDelta(index, InputJsonDelta(""))];
          lastContentType := TextContent;
          streamState := ContentBlockActive;
        }
        events := events + [BlockDelta(index, InputJsonDelta(input))];
      case StreamEnd =>
        if lastContentType != NoContent {
          events := [BlockStop(index)];
        }
        streamState := Completed;
      case WebReference =>
    }

    /** `process_messages`: the loop over one batch, left at the end marker. */
    method ProcessMessages(messages: seq<Message>) returns (response: seq<Event>)
      modifies this
      ensures (Current(), response) == Process(old(Current()), messages)
    {
      response := [];
      var i := 0;
      StartOfBatch(Step, Current(), messages);
      while i < |messages|
        invariant 0 <= i <= |messages|
        invariant Process(old(Current()), messages) == Prepend(response, Process(Current(), messages[i..]))
      {
        NextOfBatch(Step, Current(), messages, i, response);
        var events := Write(messages[i]);
        response := response + events;
        if messages[i].StreamEnd? {
          return;
        }
        i := i + 1;
      }
      assert response + [] == response;
    }
  }

  // ----- The buffered path

  /** What decides whether collected tool input is complete: the decoder's flag for the chunk, and
      whether a text parses as JSON. */
  datatype ToolRules = ToolRules(processed: bool, isJson: string -> bool)

  /** The content so far, and the tool input collected in this chunk. */
  datatype Buffered = Buffered(content: seq<ContentBlock>, json: string)

  /** One thinking or text message of the buffered loop. */
  function Collect1(content: seq<ContentBlock>, m: Message): seq<ContentBlock> {
    var inThinking := content != [] && content[|content| - 1].ThinkingBlock?;
    var inText := content != [] && content[|content| - 1].TextBlock?;
    match m
    case ThinkingMessage(Text(text)) =>
      if inThinking then
        var b := content[|content| - 1];
        content[|content| - 1 := b.(thinking := b.thinking + text)]
      else content + [ThinkingBlock(text, None)]
    case ThinkingMessage(Signature(signature)) =>
      if inThinking then content[|content| - 1 := content[|content| - 1].(signature := Some(signature))]
      else content + [ThinkingBlock("", Some(signature))]
    case ThinkingMessage(Redacted(data)) => content + [RedactedBlock(data)]
    case Content(text) =>
      if inText then content[|content| - 1 := TextBlock(content[|content| - 1].text + text)]
      else content + [TextBlock(text)]
    case _ => content
  }

  function CollectStep(rules: ToolRules, b: Buffered, m: Message): Buffered {
    match m
    case ToolCall(id, name, input) =>
      var json := b.json + input;
      if rules.processed && rules.isJson(json) then Buffered(b.content + [ToolUseBlock(id, name, json)], "")
      else b.(json := json)
    case _ => b.(content := Collect1(b.content, m))
  }

  function CollectFrom(rules: ToolRules, b: Buffered, messages: seq<Message>): Buffered
    decreases |messages|
  {
    if messages == [] then b else CollectFrom(rules, CollectStep(rules, b, messages[0]), messages[1..])
  }

  /** The content lives across chunks, the tool input does not. */
  function CollectChunk(rules: ToolRules, content: seq<ContentBlock>, messages: seq<Message>): seq<ContentBlock> {
    CollectFrom(rules, Buffered(content, ""), messages).content
  }

  function CollectChunks(rules: ToolRules, content: seq<ContentBlock>, chunks: seq<seq<Message>>): seq<ContentBlock>
    decreases |chunks|
  {
    if chunks == [] then content else CollectChunks(rules, CollectChunk(rules, content, chunks[0]), chunks[1..])
  }

  /** The buffered loop over one decoded chunk. */
  method CollectMessages(rules: ToolRules, content: seq<ContentBlock>, messages: seq<Message>)
    returns (r: seq<ContentBlock>)
    ensures r == CollectChunk(rules, content, messages)
  {
    r := content;
    var inputJson := "";
    assert messages[0..] == messages;
    for i := 0 to |messages|
      invariant CollectFrom(rules, Buffered(content, ""), messages) == CollectFrom(rules, Buffered(r, inputJson), messages[i..])
    {
      assert messages[i..][1..] == messages[i + 1..];
      match messages[i] {
        case ThinkingMessage(Text(text)) =>
          if r != [] && r[|r| - 1].ThinkingBlock? {
            var b := r[|r| - 1];
            r := r[|r| - 1 := b.(thinking := b.thinking + text)];
          } else {
            r := r + [ThinkingBlock(text, None)];
          }
        case ThinkingMessage(Signature(signature)) =>
          if r != [] && r[|r| - 1].ThinkingBlock? {
            r := r[|r| - 1 := r[|r| - 1].(signature := Some(signature))];
          } else {
            r := r + [ThinkingBlock("", Some(signature))];
          }
        case ThinkingMessage(Redacted(data)) =>
          r := r + [RedactedBlock(data)];
        case Content(text) =>
          if r != [] && r[|r| - 1].TextBlock? {
            r := r[|r| - 1 := TextBlock(r[|r| - 1].text + text)];
          } else {
            r := r + [TextBlock(text)];
          }
        case ToolCall(id, name, input) =>
          inputJson := inputJson + input;
          if rules.processed && rules.isJson(inputJson) {
            r := r + [ToolUseBlock(id, name, inputJson)];
            inputJson := "";
          }
        case StreamEnd =>
        case WebReference =>
      }
    }
  }
}
