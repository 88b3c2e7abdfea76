/** The whole event stream of a response, laid out without running the writer: from the messages
    to blocks with their deltas, and from the blocks to numbered events. */
module AnthropicLayout {
  import opened Wrappers
  import opened RustInt
  import opened StreamMessages
  import opened Transducers
  import opened AnthropicStream

  /** A block as it is announced, and everything that is written into it. */
  datatype Part = Part(block: ContentBlock, deltas: seq<Delta>)

  function DeltasOf(m: Message): seq<Delta> {
    match m
    case ThinkingMessage(Text(text)) => [ThinkingDelta(text)]
    case ThinkingMessage(Signature(signature)) => [SignatureDelta(signature)]
    case Content(text) => [TextDelta(text)]
    case ToolCall(_, _, input) => [InputJsonDelta(""), InputJsonDelta(input)]
    case _ => []
  }

  /** Thinking goes on in a thinking block, text in any other block; a tool call never goes on. */
  predicate Joins(part: Part, m: Message) {
    match m
    case ThinkingMessage(_) => part.block.ThinkingBlock?
    case Content(_) => !part.block.ThinkingBlock?
    case _ => false
  }

  function Grow(parts: seq<Part>, m: Message): seq<Part> {
    var last := |parts| - 1;
    if m.StreamEnd? || m.WebReference? then parts
    else if parts != [] && Joins(parts[last], m) then
      parts[..last] + [Part(parts[last].block, parts[last].deltas + DeltasOf(m))]
    else
      var block := match m
        case ThinkingMessage(_) => ThinkingBlock("", None)
        case ToolCall(id, name, _) => ToolUseBlock(id, name, "")
        case _ => TextBlock("");
      parts + [Part(block, DeltasOf(m))]
  }

  function Parts(messages: seq<Message>): seq<Part>
    decreases |messages|
  {
    if messages == [] then []
    else Grow(Parts(messages[..|messages| - 1]), messages[|messages| - 1])
  }

  function Deltas(index: nat, deltas: seq<Delta>): seq<Event> {
    seq(|deltas|, j requires 0 <= j < |deltas| => BlockDelta(index, deltas[j]))
  }

  /** Only thinking and text announce the message: with its start, and a ping behind block 0. */
  predicate Announced(parts: seq<Part>) {
    parts != [] && !parts[0].block.ToolUseBlock?
  }

  /** The start of block number i. */
  function Opening(parts: seq<Part>, i: nat): seq<Event>
    requires i < |parts|
  {
    if i == 0 && Announced(parts) then [MessageStart, BlockStart(0, parts[0].block), Ping]
    else [BlockStart(i % U32_RANGE, parts[i].block)]
  }

  /** The events of block number i up to its last delta. */
  function PartEvents(parts: seq<Part>, i: nat): seq<Event>
    requires i < |parts|
  {
    Opening(parts, i) + Deltas(i % U32_RANGE, parts[i].deltas)
  }

  /** The first n blocks, each with its stop. */
  function Layout(parts: seq<Part>, n: nat): seq<Event>
    requires n <= |parts|
  {
    if n == 0 then [] else Layout(parts, n - 1) + PartEvents(parts, n - 1) + [BlockStop((n - 1) % U32_RANGE)]
  }

  /** The stream while its last block is still open. */
  function OpenLayout(parts: seq<Part>): seq<Event> {
    if parts == [] then [] else Layout(parts, |parts| - 1) + PartEvents(parts, |parts| - 1)
  }

  lemma {:induction false} LayoutOfPrefix(parts: seq<Part>, more: seq<Part>, n: nat)
    requires n <= |parts| && n <= |more| && parts[..n] == more[..n]
    requires n > 0 ==> Announced(parts) == Announced(more)
    ensures Layout(parts, n) == Layout(more, n)
  {
    if n > 0 {
      assert parts[..n - 1] == parts[..n][..n - 1] && more[..n - 1] == more[..n][..n - 1];
      assert parts[n - 1] == parts[..n][n - 1] && more[n - 1] == more[..n][n - 1];
      LayoutOfPrefix(parts, more, n - 1);
    }
  }

  /** The writer's state when the parts are written and the last block is still open. */
  ghost predicate Holds(st: State, parts: seq<Part>) {
    if parts == [] then st == INIT
    else
      && st.stream.ContentBlockActive?
      && st.index == (|parts| - 1) % U32_RANGE
      && st.last == if parts[|parts| - 1].block.ThinkingBlock? then ThinkingContent else TextContent
  }

  lemma DeltasAppend(index: nat, a: seq<Delta>, b: seq<Delta>)
    ensures Deltas(index, a + b) == Deltas(index, a) + Deltas(index, b)
  {
  }

  lemma JoinedStep(st: State, parts: seq<Part>, m: Message)
    requires Holds(st, parts) && parts != [] && Joins(parts[|parts| - 1], m)
    ensures Step(st, m) == (st, Deltas(st.index, DeltasOf(m)))
    ensures Holds(st, Grow(parts, m))
  {
    match m
    case ThinkingMessage(thinking) =>
      assert Deltas(st.index, DeltasOf(m)) == ThinkingEvents(st.index, thinking);
      assert [] + ThinkingEvents(st.index, thinking) == ThinkingEvents(st.index, thinking);
    case Content(text) =>
      assert Deltas(st.index, DeltasOf(m)) == [BlockDelta(st.index, TextDelta(text))];
      assert [] + [BlockDelta(st.index, TextDelta(text))] == [BlockDelta(st.index, TextDelta(text))];
  }

  /** More deltas in the last part are written behind everything before. */
  lemma LastPartGrows(parts: seq<Part>, deltas: seq<Delta>)
    requires parts != []
    ensures var (last, end) := (|parts| - 1, parts[|parts| - 1]);
      var more := parts[..last] + [Part(end.block, end.deltas + deltas)];
      OpenLayout(more) == OpenLayout(parts) + Deltas(last % U32_RANGE, deltas)
  {
    var (last, end) := (|parts| - 1, parts[|parts| - 1]);
    var more := parts[..last] + [Part(end.block, end.deltas + deltas)];
    var index := last % U32_RANGE;
    LayoutOfPrefix(parts, more, last);
    DeltasAppend(index, end.deltas, deltas);
    assert Opening(more, last) == Opening(parts, last);
    assert PartEvents(more, last) == PartEvents(parts, last) + Deltas(index, deltas);
    assert Layout(parts, last) + (PartEvents(parts, last) + Deltas(index, deltas))
        == (Layout(parts, last) + PartEvents(parts, last)) + Deltas(index, deltas);
  }

  lemma JoinedPart(st: State, parts: seq<Part>, m: Message)
    requires Holds(st, parts) && parts != [] && Joins(parts[|parts| - 1], m)
    ensures Holds(Step(st, m).0, Grow(parts, m))
    ensures OpenLayout(Grow(parts, m)) == OpenLayout(parts) + Step(st, m).1
  {
    JoinedStep(st, parts, m);
    LastPartGrows(parts, DeltasOf(m));
  }

  function Stopped(st: State, parts: seq<Part>): seq<Event> {
    if parts == [] then [] else [BlockStop(st.index)]
  }

  function EventsOf(index: nat, m: Message): seq<Event> {
    match m
    case ThinkingMessage(thinking) => ThinkingEvents(index, thinking)
    case Content(text) => [BlockDelta(index, TextDelta(text))]
    case ToolCall(_, _, input) => [BlockDelta(index, InputJsonDelta("")), BlockDelta(index, InputJsonDelta(input))]
    case _ => []
  }

  lemma EventsAreDeltas(index: nat, m: Message)
    ensures EventsOf(index, m) == Deltas(index, DeltasOf(m))
  {
  }

  lemma StartedStep(st: State, parts: seq<Part>, m: Message)
    requires Holds(st, parts) && !m.StreamEnd? && !m.WebReference?
    requires parts == [] || !Joins(parts[|parts| - 1], m)
    ensures Holds(Step(st, m).0, Grow(parts, m)) && |Grow(parts, m)| == |parts| + 1
    ensures Step(st, m).1 == Stopped(st, parts) + (Opening(Grow(parts, m), |parts|) + EventsOf(|parts| % U32_RANGE, m))
  {
    var more := Grow(parts, m);
    assert NextIndex(st) == |parts| % U32_RANGE;
    assert Announced(more) == if parts == [] then !m.ToolCall? else Announced(parts);
  }

  lemma StartedPart(st: State, parts: seq<Part>, m: Message)
    requires Holds(st, parts) && !m.StreamEnd? && !m.WebReference?
    requires parts == [] || !Joins(parts[|parts| - 1], m)
    ensures Holds(Step(st, m).0, Grow(parts, m))
    ensures |Grow(parts, m)| == |parts| + 1 && Grow(parts, m) == parts + [Grow(parts, m)[|parts|]]
    ensures Step(st, m).1 == Stopped(st, parts) + PartEvents(Grow(parts, m), |parts|)
  {
    StartedStep(st, parts, m);
    EventsAreDeltas(|parts| % U32_RANGE, m);
    assert Grow(parts, m)[|parts|].deltas == DeltasOf(m);
  }

  /** A new part is written behind the stop of the one before. */
  lemma PartFollows(parts: seq<Part>, part: Part, stop: seq<Event>)
    requires stop == if parts == [] then [] else [BlockStop((|parts| - 1) % U32_RANGE)]
    ensures OpenLayout(parts + [part]) == OpenLayout(parts) + (stop + PartEvents(parts + [part], |parts|))
  {
    var n, more := |parts|, parts + [part];
    assert more[..n] == parts[..n];
    LayoutOfPrefix(parts, more, n);
    assert Layout(more, n) == OpenLayout(parts) + stop;
    assert (OpenLayout(parts) + stop) + PartEvents(more, n) == OpenLayout(parts) + (stop + PartEvents(more, n));
  }

  lemma NewPart(st: State, parts: seq<Part>, m: Message)
    requires Holds(st, parts) && !m.StreamEnd? && !m.WebReference?
    requires parts == [] || !Joins(parts[|parts| - 1], m)
    ensures Holds(Step(st, m).0, Grow(parts, m))
    ensures OpenLayout(Grow(parts, m)) == OpenLayout(parts) + Step(st, m).1
  {
    StartedPart(st, parts, m);
    PartFollows(parts, Grow(parts, m)[|parts|], Stopped(st, parts));
  }

  lemma {:induction false} ProcessLaysOut(messages: seq<Message>)
    requires Unfinished(messages)
    ensures Holds(Process(INIT, messages).0, Parts(messages))
    ensures Process(INIT, messages).1 == OpenLayout(Parts(messages))
    decreases |messages|
  {
    if messages != [] {
      var (init, m) := (messages[..|messages| - 1], messages[|messages| - 1]);
      assert messages == init + [m];
      assert forall n <- init :: n in messages;
      ProcessLaysOut(init);
      RunOneMore(Step, INIT, init, m);
      var (st, parts) := (Process(INIT, init).0, Parts(init));
      if !m.WebReference? {
        if parts != [] && Joins(parts[|parts| - 1], m) {
          JoinedPart(st, parts, m);
        } else {
          NewPart(st, parts, m);
        }
      }
    }
  }

  /** The exact stream of a finished response, for every message sequence in every batching: the
      blocks of its messages in order, each with its start, its deltas and its stop. */
  lemma ResponseIsLaidOut(messages: seq<Message>, batches: seq<seq<Message>>)
    requires Unfinished(messages) && Flatten(batches) == messages + [StreamEnd]
    ensures ProcessBatches(INIT, batches).1 == Layout(Parts(messages), |Parts(messages)|)
    ensures ProcessBatches(INIT, batches).0.stream.Completed?
  {
    BatchingIsInvisible(Step, INIT, batches);
    ProcessLaysOut(messages);
    RunOneMore(Step, INIT, messages, StreamEnd);
  }

  /** A response without its end marker is never taken for completed. */
  lemma CompletedExactlyAtEnd(messages: seq<Message>)
    ensures Process(INIT, messages).0.stream.Completed? <==> StreamEnd in messages
  {
    if StreamEnd in messages {
      var before, rest := UpToTheEnd(messages);
      NothingBehindTheEnd(Step, INIT, before, rest);
      RunOneMore(Step, INIT, before, StreamEnd);
    } else {
      ProcessLaysOut(messages);
    }
  }
}
