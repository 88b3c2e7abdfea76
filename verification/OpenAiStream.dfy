/** The OpenAI response writer: thinking text is wrapped in tags inside the content, and a second,
    buffered path builds the whole text at once. */
module OpenAiStream {
  import opened Wrappers
  import opened StreamMessages
  import opened Transducers

  /** `choices[0].delta` of one chunk; the model and the role are either present or not. */
  datatype Chunk = Chunk(hasModel: bool, hasRole: bool, content: Option<string>, finish: bool)

  datatype Tags = Tags(open: string, close: string)

  /** `<tag>` and `</tag>` for the configured tag. */
  function TagsFor(tag: string): Tags {
    Tags("<" + tag + ">", "</" + tag + ">")
  }

  datatype State = State(isStart: bool, meetThinking: bool, isEnd: bool)

  const INIT := State(true, false, false)

  /** Removes two leading newlines, once. */
  function TrimLeadingNewlines(text: string): string {
    if |text| >= 2 && text[0] == '\n' && text[1] == '\n' then text[2..] else text
  }

  // ----- The transducer as a function

  function TextChunk(st: State, text: string, marked: bool): Chunk {
    Chunk(marked, marked, Some(if st.isStart then TrimLeadingNewlines(text) else text), false)
  }

  function Step(tags: Tags, st: State, m: Message): (State, seq<Chunk>) {
    match m
    case Content(text) =>
      (st.(isStart := false, meetThinking := false),
       (if st.meetThinking then [Chunk(false, false, Some(tags.close), false)] else [])
       + [TextChunk(st, text, st.isStart)])
    case ThinkingMessage(Text(text)) =>
      (st.(isStart := false, meetThinking := true),
       (if st.meetThinking then [] else [Chunk(st.isStart, st.isStart, Some(tags.open), false)])
       + [TextChunk(st, text, false)])
    case StreamEnd => (st.(isEnd := true), [Chunk(false, false, None, true)])
    case _ => (st, [])
  }

  function StepFor(tags: Tags): (State, Message) -> (State, seq<Chunk>) {
    (st, m) => Step(tags, st, m)
  }

  /** One batch: messages behind an end marker are not looked at. */
  function Process(tags: Tags, st: State, messages: seq<Message>): (State, seq<Chunk>) {
    Run(StepFor(tags), st, messages)
  }

  function ProcessBatches(tags: Tags, st: State, batches: seq<seq<Message>>): (State, seq<Chunk>) {
    RunBatches(StepFor(tags), st, batches)
  }

  // ----- The transducer as the program runs it

  class Writer {
    const tags: Tags
    var isStart: bool
    var meetThinking: bool
    var isEnd: bool

    function Current(): State
      reads this
    {
      State(isStart, meetThinking, isEnd)
    }

    constructor (tags: Tags)
      ensures Current() == INIT && this.tags == tags
    {
      this.tags := tags;
      isStart, meetThinking, isEnd := true, false, false;
    }

    method Write(m: Message) returns (chunks: seq<Chunk>)
      modifies this
      ensures (Current(), chunks) == Step(tags, old(Current()), m)
    {
      chunks := [];
      match m
      case Content(text) =>
        var isFirst := isStart;
        if meetThinking {
          meetThinking := false;
          chunks := [Chunk(false, false, Some(tags.close), false)];
        }
        var content := text;
        if isFirst {
          isStart := false;
          content := TrimLeadingNewlines(text);
        }
        chunks := chunks + [Chunk(isFirst, isFirst, Some(content), false)];
      case ThinkingMessage(Text(text)) =>
        var isFirst := isStart;
        if !meetThinking {
          meetThinking := true;
          chunks := [Chunk(isFirst, isFirst, Some(tags.open), false)];
        }
        var content := text;
        if isFirst {
          isStart := false;
          content := TrimLeadingNewlines(text);
        }
        chunks := chunks + [Chunk(false, false, Some(content), false)];
      case StreamEnd =>
        chunks := [Chunk(false, false, None, true)];
        isEnd := true;
      case _ =>
    }

    /** `process_messages`: the loop over one batch, left at the end marker. */
    method ProcessMessages(messages: seq<Message>) returns (response: seq<Chunk>)
      modifies this
      ensures (Current(), response) == Process(tags, old(Current()), messages)
    {
      response := [];
      var i := 0;
      StartOfBatch(StepFor(tags), Current(), messages);
      while i < |messages|
        invariant 0 <= i <= |messages|
        invariant Process(tags, old(Current()), messages) == Prepend(response, Process(tags, Current(), messages[i..]))
      {
        NextOfBatch(StepFor(tags), Current(), messages, i, response);
        var chunks := Write(messages[i]);
        response := response + chunks;
        if messages[i].StreamEnd? {
          return;
        }
        i := i + 1;
      }
      assert response + [] == response;
    }
  }

  // ----- The buffered path

  function ThinkingText(messages: seq<Message>): string
    decreases |messages|
  {
    if messages == [] then ""
    else match messages[0]
      case ThinkingMessage(Text(text)) => text + ThinkingText(messages[1..])
      case _ => ThinkingText(messages[1..])
  }

  function ContentText(messages: seq<Message>): string
    decreases |messages|
  {
    if messages == [] then ""
    else match messages[0]
      case Content(text) => text + ContentText(messages[1..])
      case _ => ContentText(messages[1..])
  }

  /** The text of the single, non-streamed answer. */
  function BufferedText(tags: Tags, messages: seq<Message>): string {
    var thinking, content := ThinkingText(messages), ContentText(messages);
    if thinking != "" then tags.open + TrimLeadingNewlines(thinking) + tags.close + content
    else TrimLeadingNewlines(content)
  }

  /** The buffered loop and the assembly after it. */
  method BuildText(tags: Tags, messages: seq<Message>) returns (r: string)
    ensures r == BufferedText(tags, messages)
  {
    var thinkingText, fullText := "", "";
    assert messages[0..] == messages;
    assert "" + ThinkingText(messages) == ThinkingText(messages) && "" + ContentText(messages) == ContentText(messages);
    for i := 0 to |messages|
      invariant ThinkingText(messages) == thinkingText + ThinkingText(messages[i..])
      invariant ContentText(messages) == fullText + ContentText(messages[i..])
    {
      assert messages[i..][1..] == messages[i + 1..];
      ghost var thinkingRest, contentRest := ThinkingText(messages[i + 1..]), ContentText(messages[i + 1..]);
      match messages[i] {
        case Content(text) =>
          assert fullText + (text + contentRest) == (fullText + text) + contentRest;
          fullText := fullText + text;
        case ThinkingMessage(Text(text)) =>
          assert thinkingText + (text + thinkingRest) == (thinkingText + text) + thinkingRest;
          thinkingText := thinkingText + text;
        case _ =>
      }
    }
    assert thinkingText + "" == thinkingText && fullText + "" == fullText;
    if thinkingText != "" {
      r := tags.open + TrimLeadingNewlines(thinkingText) + tags.close + fullText;
    } else {
      r := TrimLeadingNewlines(fullText);
    }
  }
}

/** What the OpenAI writer's chunks say when put together, and when that is the buffered text. */
module OpenAiText {
  import opened Wrappers
  import opened Sequences
  import opened StreamMessages
  import opened Transducers
  import opened OpenAiStream

  /** The text a client has after all chunks. */
  function Text(chunks: seq<Chunk>): string
    decreases |chunks|
  {
    if chunks == [] then ""
    else (if chunks[0].content.Some? then chunks[0].content.value else "") + Text(chunks[1..])
  }

  lemma {:induction false} TextAppend(first: seq<Chunk>, second: seq<Chunk>)
    ensures Text(first + second) == Text(first) + Text(second)
    decreases |first|
  {
    if first == [] {
      assert first + second == second;
      assert "" + Text(second) == Text(second);
    } else {
      assert (first + second)[1..] == first[1..] + second;
      TextAppend(first[1..], second);
    }
  }

  lemma TextTwo(c: Chunk, d: Chunk)
    requires c.content.Some? && d.content.Some?
    ensures Text([c]) == c.content.value
    ensures Text([c, d]) == c.content.value + d.content.value
  {
    assert [c][1..] == [] && [d][1..] == [] && [c, d][1..] == [d];
    assert Text([d]) == d.content.value + "" == d.content.value;
    assert c.content.value + "" == c.content.value;
  }

  // ----- Independent reference: alternating segments

  datatype Segment = Thought(text: string) | Answer(text: string)

  function Fragment(m: Message): Option<Segment> {
    match m
    case Content(text) => Some(Answer(text))
    case ThinkingMessage(Text(text)) => Some(Thought(text))
    case _ => None
  }

  /** Appends to the last segment if it has the same kind, else opens a new one. */
  function AddFragment(segments: seq<Segment>, f: Segment): seq<Segment> {
    var n := |segments|;
    if n > 0 && segments[n - 1].Thought? && f.Thought? then segments[n - 1 := Thought(segments[n - 1].text + f.text)]
    else if n > 0 && segments[n - 1].Answer? && f.Answer? then segments[n - 1 := Answer(segments[n - 1].text + f.text)]
    else segments + [f]
  }

  function TrimSegment(f: Segment): Segment {
    match f
    case Thought(text) => Thought(TrimLeadingNewlines(text))
    case Answer(text) => Answer(TrimLeadingNewlines(text))
  }

  /** The segments after one more message. */
  function Extend(segments: seq<Segment>, m: Message): seq<Segment> {
    match Fragment(m)
    case None => segments
    case Some(f) => AddFragment(segments, if segments == [] then TrimSegment(f) else f)
  }

  /** The message texts merged into segments; only the very first text is trimmed. */
  function Segments(segments: seq<Segment>, messages: seq<Message>): seq<Segment>
    decreases |messages|
  {
    if messages == [] then segments else Segments(Extend(segments, messages[0]), messages[1..])
  }

  function RenderClosed(tags: Tags, s: Segment): string {
    match s
    case Thought(text) => tags.open + text + tags.close
    case Answer(text) => text
  }

  /** Every thought is wrapped in tags; a thought at the very end is not closed yet. */
  function Render(tags: Tags, segments: seq<Segment>): string {
    if segments == [] then ""
    else
      var n := |segments| - 1;
      RenderAll(tags, segments[..n]) +
      (if segments[n].Thought? then tags.open + segments[n].text else segments[n].text)
  }

  function RenderAll(tags: Tags, segments: seq<Segment>): string {
    if segments == [] then ""
    else RenderAll(tags, segments[..|segments| - 1]) + RenderClosed(tags, segments[|segments| - 1])
  }

  /** What adding a fragment adds to the rendered text. */
  function Glue(tags: Tags, segments: seq<Segment>, f: Segment): string {
    var afterThought := segments != [] && segments[|segments| - 1].Thought?;
    if f.Thought? then (if afterThought then f.text else tags.open + f.text)
    else (if afterThought then tags.close + f.text else f.text)
  }

  lemma RenderAdd(tags: Tags, segments: seq<Segment>, f: Segment)
    ensures Render(tags, AddFragment(segments, f)) == Render(tags, segments) + Glue(tags, segments, f)
  {
  }

  ghost predicate Related(st: State, segments: seq<Segment>) {
    && (st.isStart <==> segments == [])
    && (st.meetThinking <==> segments != [] && segments[|segments| - 1].Thought?)
  }

  lemma StepGlues(tags: Tags, st: State, segments: seq<Segment>, m: Message)
    requires Related(st, segments) && Fragment(m).Some?
    ensures var f := Fragment(m).value;
      Text(Step(tags, st, m).1) == Glue(tags, segments, if segments == [] then TrimSegment(f) else f)
  {
    var chunks := Step(tags, st, m).1;
    var c := chunks[|chunks| - 1];
    TextTwo(c, c);
    if |chunks| == 1 {
      assert chunks == [c];
    } else {
      assert chunks == [chunks[0], c];
      TextTwo(chunks[0], c);
    }
  }

  lemma StepStaysRelated(tags: Tags, st: State, segments: seq<Segment>, m: Message)
    requires Related(st, segments) && !m.StreamEnd?
    ensures Related(Step(tags, st, m).0, Extend(segments, m))
  {
  }

  lemma StepText(tags: Tags, st: State, segments: seq<Segment>, m: Message)
    requires Related(st, segments) && !m.StreamEnd?
    ensures Render(tags, Extend(segments, m)) == Render(tags, segments) + Text(Step(tags, st, m).1)
  {
    match Fragment(m) {
      case None =>
        assert Text(Step(tags, st, m).1) == "";
        assert Render(tags, segments) + "" == Render(tags, segments);
      case Some(f) =>
        StepGlues(tags, st, segments, m);
        RenderAdd(tags, segments, if segments == [] then TrimSegment(f) else f);
    }
  }

  lemma {:induction false} ProcessText(tags: Tags, st: State, segments: seq<Segment>, messages: seq<Message>)
    requires Related(st, segments) && Unfinished(messages)
    ensures Render(tags, Segments(segments, messages)) == Render(tags, segments) + Text(Process(tags, st, messages).1)
    ensures Related(Process(tags, st, messages).0, Segments(segments, messages))
    decreases |messages|
  {
    if messages == [] {
      assert Render(tags, segments) + "" == Render(tags, segments);
    } else {
      var (st1, chunks) := Step(tags, st, messages[0]);
      var rest := Process(tags, st1, messages[1..]).1;
      StepStaysRelated(tags, st, segments, messages[0]);
      StepText(tags, st, segments, messages[0]);
      ProcessText(tags, st1, Extend(segments, messages[0]), messages[1..]);
      TextAppend(chunks, rest);
      Regroup(Render(tags, segments), Text(chunks), Text(rest));
    }
  }

  /** For every message sequence the streamed text is its segments with each thought wrapped in
      one pair of tags, the last thought left open if nothing follows it; the writer's flags tell
      whether there is a segment and whether such a thought is open. */
  lemma StreamedTextIsTagged(tags: Tags, messages: seq<Message>)
    requires Unfinished(messages)
    ensures var (st, chunks) := Process(tags, INIT, messages);
      var segments := Segments([], messages);
      && Text(chunks) == Render(tags, segments)
      && (st.isStart <==> segments == [])
      && (st.meetThinking <==> segments != [] && segments[|segments| - 1].Thought?)
  {
    ProcessText(tags, INIT, [], messages);
    assert "" + Text(Process(tags, INIT, messages).1) == Text(Process(tags, INIT, messages).1);
  }

  // ----- Role and model

  predicate Unmarked(chunks: seq<Chunk>) {
    forall c <- chunks :: !c.hasModel && !c.hasRole
  }

  predicate HasFragment(messages: seq<Message>) {
    exists m <- messages :: Fragment(m).Some?
  }

  lemma {:induction false} LaterChunksUnmarked(tags: Tags, st: State, messages: seq<Message>)
    requires !st.isStart
    ensures Unmarked(Process(tags, st, messages).1)
    decreases |messages|
  {
    if messages != [] {
      LaterChunksUnmarked(tags, Step(tags, st, messages[0]).0, messages[1..]);
    }
  }

  /** Model and role are on the first chunk and on no other; without any text on none. */
  lemma {:induction false} FirstChunkIsMarked(tags: Tags, messages: seq<Message>)
    requires Unfinished(messages)
    ensures var chunks := Process(tags, INIT, messages).1;
      if HasFragment(messages) then
        chunks != [] && chunks[0].hasModel && chunks[0].hasRole && Unmarked(chunks[1..])
      else chunks == []
    decreases |messages|
  {
    if messages != [] {
      var (st1, chunks) := Step(tags, INIT, messages[0]);
      if Fragment(messages[0]).None? {
        FirstChunkIsMarked(tags, messages[1..]);
        assert [] + Process(tags, INIT, messages[1..]).1 == Process(tags, INIT, messages[1..]).1;
        assert HasFragment(messages) <==> HasFragment(messages[1..]);
      } else {
        assert messages[0] in messages;
        LaterChunksUnmarked(tags, st1, messages[1..]);
      }
    }
  }

  // ----- Chunk boundaries and the end marker

  predicate NoneFinishes(chunks: seq<Chunk>) {
    forall c <- chunks :: !c.finish
  }

  lemma {:induction false} NoChunkFinishes(tags: Tags, st: State, messages: seq<Message>)
    requires Unfinished(messages)
    ensures NoneFinishes(Process(tags, st, messages).1) && Process(tags, st, messages).0.isEnd == st.isEnd
    decreases |messages|
  {
    if messages != [] {
      NoChunkFinishes(tags, Step(tags, st, messages[0]).0, messages[1..]);
    }
  }

  /** The finish reason is on the last chunk only, which has no content, and the writer knows
      about the end exactly then. */
  lemma FinishesExactlyAtEnd(tags: Tags, messages: seq<Message>)
    requires Unfinished(messages)
    ensures var (st, chunks) := Process(tags, INIT, messages);
      && NoneFinishes(chunks) && !st.isEnd
      && Process(tags, INIT, messages + [StreamEnd]) == (st.(isEnd := true), chunks + [Chunk(false, false, None, true)])
  {
    NoChunkFinishes(tags, INIT, messages);
    RunAppend(StepFor(tags), INIT, messages, [StreamEnd]);
  }

  lemma EndAddsNoText(tags: Tags, messages: seq<Message>)
    requires Unfinished(messages)
    ensures Text(Process(tags, INIT, messages + [StreamEnd]).1) == Text(Process(tags, INIT, messages).1)
  {
    RunAppend(StepFor(tags), INIT, messages, [StreamEnd]);
    var (st, chunks) := Process(tags, INIT, messages);
    var end := Chunk(false, false, None, true);
    assert Process(tags, st, [StreamEnd]).1 == [end];
    TextAppend(chunks, [end]);
    assert [end][1..] == [] && Text([end]) == "" + "";
    assert Text(chunks) + "" == Text(chunks);
  }

  // ----- Agreement with the buffered path

  predicate IsThinkingText(m: Message) {
    m.ThinkingMessage? && m.thinking.Text?
  }

  predicate NoThinking(messages: seq<Message>) {
    forall m <- messages :: !IsThinkingText(m)
  }

  /** No thinking text after content. */
  predicate ThinkingFirst(messages: seq<Message>) {
    forall i, j | 0 <= i < j < |messages| && messages[i].Content? :: !IsThinkingText(messages[j])
  }

  predicate HasContent(messages: seq<Message>) {
    exists m <- messages :: m.Content?
  }

  function FirstFragment(messages: seq<Message>): Option<Segment>
    decreases |messages|
  {
    if messages == [] then None
    else if Fragment(messages[0]).Some? then Fragment(messages[0])
    else FirstFragment(messages[1..])
  }

  predicate StartsWithTwoNewlines(text: string) {
    |text| >= 2 && text[0] == '\n' && text[1] == '\n'
  }

  /** The first fragment is too short to show the two newlines its text starts with. */
  predicate CutsNewlines(fragment: string, whole: string) {
    |fragment| < 2 && StartsWithTwoNewlines(whole)
  }

  /** What a caller can check on the messages: the first fragment shows its leading newlines, and
      thinking is neither empty nor left without content behind it. */
  predicate Agreeable(messages: seq<Message>) {
    match FirstFragment(messages)
    case None => true
    case Some(Answer(text)) => !CutsNewlines(text, ContentText(messages))
    case Some(Thought(text)) =>
      HasContent(messages) && ThinkingText(messages) != "" && !CutsNewlines(text, ThinkingText(messages))
  }

  lemma {:induction false} ContentShape(segments: seq<Segment>, text: string, messages: seq<Message>)
    requires NoThinking(messages)
    ensures Segments(segments + [Answer(text)], messages) == segments + [Answer(text + ContentText(messages))]
    ensures ThinkingText(messages) == ""
    decreases |messages|
  {
    var before := segments + [Answer(text)];
    if messages == [] {
      assert text + "" == text;
    } else {
      assert messages[0] in messages;
      var next := if messages[0].Content? then text + messages[0].text else text;
      assert Extend(before, messages[0]) == segments + [Answer(next)];
      ContentShape(segments, next, messages[1..]);
      if messages[0].Content? {
        Regroup(text, messages[0].text, ContentText(messages[1..]));
      }
    }
  }

  lemma TailThinkingFirst(messages: seq<Message>)
    requires messages != [] && ThinkingFirst(messages)
    ensures ThinkingFirst(messages[1..])
    ensures messages[0].Content? ==> NoThinking(messages[1..])
  {
  }

  lemma {:induction false} ThinkingShape(text: string, messages: seq<Message>)
    requires ThinkingFirst(messages)
    ensures Segments([Thought(text)], messages) ==
      [Thought(text + ThinkingText(messages))] + (if HasContent(messages) then [Answer(ContentText(messages))] else [])
    ensures !HasContent(messages) ==> ContentText(messages) == ""
    decreases |messages|
  {
    if messages == [] {
      assert text + "" == text;
    } else {
      var m := messages[0];
      TailThinkingFirst(messages);
      assert m in messages && HasContent(messages) == (m.Content? || HasContent(messages[1..]));
      if m.Content? {
        assert [Thought(text)] + [Answer(m.text)] == Extend([Thought(text)], m);
        ContentShape([Thought(text)], m.text, messages[1..]);
        assert text + "" == text;
      } else if IsThinkingText(m) {
        assert Extend([Thought(text)], m) == [Thought(text + m.thinking.text)];
        ThinkingShape(text + m.thinking.text, messages[1..]);
        Regroup(text, m.thinking.text, ThinkingText(messages[1..]));
      } else {
        ThinkingShape(text, messages[1..]);
      }
    }
  }

  /** The streamed segments, in terms of the two texts of the buffered path. */
  lemma {:induction false} StreamedShape(messages: seq<Message>)
    requires ThinkingFirst(messages)
    ensures match FirstFragment(messages)
      case None => Segments([], messages) == [] && ThinkingText(messages) == ContentText(messages) == ""
      case Some(Answer(text)) =>
        && text <= ContentText(messages) && ThinkingText(messages) == ""
        && Segments([], messages) == [Answer(TrimLeadingNewlines(text) + ContentText(messages)[|text|..])]
      case Some(Thought(text)) =>
        && text <= ThinkingText(messages) && (!HasContent(messages) ==> ContentText(messages) == "")
        && Segments([], messages) == [Thought(TrimLeadingNewlines(text) + ThinkingText(messages)[|text|..])]
             + (if HasContent(messages) then [Answer(ContentText(messages))] else [])
    decreases |messages|
  {
    if messages != [] {
      var m := messages[0];
      TailThinkingFirst(messages);
      assert m in messages && HasContent(messages) == (m.Content? || HasContent(messages[1..]));
      if m.Content? {
        ContentShape([], TrimLeadingNewlines(m.text), messages[1..]);
        assert [] + [Answer(TrimLeadingNewlines(m.text))] == Extend([], m);
        assert ContentText(messages)[|m.text|..] == ContentText(messages[1..]);
      } else if IsThinkingText(m) {
        assert Extend([], m) == [Thought(TrimLeadingNewlines(m.thinking.text))];
        ThinkingShape(TrimLeadingNewlines(m.thinking.text), messages[1..]);
        assert ThinkingText(messages)[|m.thinking.text|..] == ThinkingText(messages[1..]);
      } else {
        StreamedShape(messages[1..]);
      }
    }
  }

  lemma RenderOne(tags: Tags, s: Segment, answer: string)
    ensures Render(tags, [s]) == if s.Thought? then tags.open + s.text else s.text
    ensures s.Thought? ==> Render(tags, [s, Answer(answer)]) == tags.open + s.text + tags.close + answer
  {
  }

  /** The streamed and the buffered thinking text agree behind the same opening tag. */
  lemma ThoughtAgrees(tags: Tags, streamed: string, buffered: string, content: string)
    ensures tags.open + streamed + tags.close + content == tags.open + buffered + tags.close + content
            <==> streamed == buffered
  {
    var n := |tags.open|;
    var x, y := tags.open + streamed + tags.close + content, tags.open + buffered + tags.close + content;
    if x == y {
      assert |streamed| == |buffered|;
      assert streamed == x[n..n + |streamed|] && buffered == y[n..n + |buffered|];
    }
  }

  /** The streamed form of a text whose first fragment is `first`. */
  function TrimmedFirst(first: string, whole: string): string
    requires first <= whole
  {
    TrimLeadingNewlines(first) + whole[|first|..]
  }

  lemma TrimmedFirstAgrees(first: string, whole: string)
    requires first <= whole
    ensures TrimmedFirst(first, whole) == TrimLeadingNewlines(whole) <==> !CutsNewlines(first, whole)
    ensures |TrimmedFirst(first, whole)| <= |whole|
  {
  }

  lemma AnswerCase(tags: Tags, messages: seq<Message>, text: string)
    requires ThinkingFirst(messages) && FirstFragment(messages) == Some(Answer(text))
    ensures Render(tags, Segments([], messages)) == BufferedText(tags, messages) <==> Agreeable(messages)
  {
    StreamedShape(messages);
    RenderOne(tags, Answer(TrimmedFirst(text, ContentText(messages))), "");
    TrimmedFirstAgrees(text, ContentText(messages));
  }

  lemma ClosedThoughtCase(tags: Tags, messages: seq<Message>, text: string)
    requires |tags.open| > 0
    requires ThinkingFirst(messages) && FirstFragment(messages) == Some(Thought(text)) && HasContent(messages)
    ensures Render(tags, Segments([], messages)) == BufferedText(tags, messages) <==> Agreeable(messages)
  {
    StreamedShape(messages);
    var thinking, content := ThinkingText(messages), ContentText(messages);
    var streamed := TrimmedFirst(text, thinking);
    assert [Thought(streamed)] + [Answer(content)] == [Thought(streamed), Answer(content)];
    RenderOne(tags, Thought(streamed), content);
    TrimmedFirstAgrees(text, thinking);
    ThoughtAgrees(tags, streamed, TrimLeadingNewlines(thinking), content);
    if thinking == "" {
      assert |tags.open + streamed + tags.close + content| > |content| >= |TrimLeadingNewlines(content)|;
    }
  }

  /** Without content the streamed thought is never closed, and the buffered one is. */
  lemma OpenThoughtCase(tags: Tags, messages: seq<Message>, text: string)
    requires |tags.open| > 0 && |tags.close| > 2
    requires ThinkingFirst(messages) && FirstFragment(messages) == Some(Thought(text)) && !HasContent(messages)
    ensures Render(tags, Segments([], messages)) != BufferedText(tags, messages)
  {
    StreamedShape(messages);
    var thinking := ThinkingText(messages);
    var streamed := TrimmedFirst(text, thinking);
    assert [Thought(streamed)] + [] == [Thought(streamed)];
    RenderOne(tags, Thought(streamed), "");
    TrimmedFirstAgrees(text, thinking);
    assert |TrimLeadingNewlines(thinking)| + 2 >= |thinking|;
    assert |tags.open + streamed| <= |tags.open| + |thinking|;
  }

  /** For every stream whose thinking text comes before its content, in whatever fragments and
      batches, the chunks add up to the buffered text exactly when the messages are agreeable. */
  lemma StreamedEqualsBuffered(tag: string, messages: seq<Message>, batches: seq<seq<Message>>)
    requires Unfinished(messages) && ThinkingFirst(messages) && Flatten(batches) == messages + [StreamEnd]
    ensures var tags := TagsFor(tag);
      Text(ProcessBatches(tags, INIT, batches).1) == BufferedText(tags, messages) <==> Agreeable(messages)
  {
    var tags := TagsFor(tag);
    BatchingIsInvisible(StepFor(tags), INIT, batches);
    EndAddsNoText(tags, messages);
    StreamedTextIsTagged(tags, messages);
    match FirstFragment(messages) {
      case None => StreamedShape(messages);
      case Some(Answer(text)) => AnswerCase(tags, messages, text);
      case Some(Thought(text)) =>
        if HasContent(messages) {
          ClosedThoughtCase(tags, messages, text);
        } else {
          OpenThoughtCase(tags, messages, text);
        }
    }
  }

  /** A stream of one newline per fragment is trimmed by the buffered path only. */
  lemma CutNewlinesDisagree(tag: string)
    ensures var tags := TagsFor(tag);
      var messages := [Content("\n"), Content("\n")];
      Text(Process(tags, INIT, messages + [StreamEnd]).1) != BufferedText(tags, messages)
  {
  }
}
