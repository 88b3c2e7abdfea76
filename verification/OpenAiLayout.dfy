/** The whole chunk stream of a response, laid out without running the writer, and what both paths
    make of two leading newlines. */
module OpenAiLayout {
  import opened Wrappers
  import opened Sequences
  import opened StreamMessages
  import opened Transducers
  import opened OpenAiStream
  import opened OpenAiText

  // ----- Leading newlines

  /** Two newlines in front of a text are taken away, and nothing else is. */
  lemma TrimsTwoNewlines(text: string)
    ensures TrimLeadingNewlines("\n\n" + text) == text
    ensures !("\n\n" <= text) ==> TrimLeadingNewlines(text) == text
  {
    assert ("\n\n" + text)[2..] == text;
    if |text| >= 2 && text[0] == '\n' && text[1] == '\n' {
      assert "\n\n" == text[..2];
    }
  }

  /** A stream that starts with the content "\n\n" + text: the first chunk says the text alone, and
      without thinking so does the buffered answer. */
  lemma ContentBehindNewlines(tag: string, text: string, messages: seq<Message>)
    ensures var tags := TagsFor(tag);
      var all := [Content("\n\n" + text)] + messages;
      && Process(tags, INIT, all).1 ==
           [Chunk(true, true, Some(text), false)] + Process(tags, State(false, false, false), messages).1
      && (NoThinking(messages) ==> BufferedText(tags, all) == text + ContentText(messages))
  {
    var tags, m := TagsFor(tag), Content("\n\n" + text);
    TrimsTwoNewlines(text);
    assert Step(tags, INIT, m).1 == [Chunk(true, true, Some(text), false)];
    if NoThinking(messages) {
      ContentShape([], "", messages);
      assert ([m] + messages)[1..] == messages;
      assert ContentText([m] + messages) == "\n\n" + text + ContentText(messages);
      Regroup("\n\n", text, ContentText(messages));
      TrimsTwoNewlines(text + ContentText(messages));
    }
  }

  /** A stream that starts with the thinking "\n\n" + text, likewise, behind the opening tag. */
  lemma ThinkingBehindNewlines(tag: string, text: string, messages: seq<Message>)
    ensures var tags := TagsFor(tag);
      var all := [ThinkingMessage(Text("\n\n" + text))] + messages;
      && Process(tags, INIT, all).1 ==
           [Chunk(true, true, Some("<" + tag + ">"), false), Chunk(false, false, Some(text), false)]
           + Process(tags, State(false, true, false), messages).1
      && BufferedText(tags, all) ==
           "<" + tag + ">" + (text + ThinkingText(messages)) + ("</" + tag + ">") + ContentText(messages)
  {
    var tags, m := TagsFor(tag), ThinkingMessage(Text("\n\n" + text));
    TrimsTwoNewlines(text);
    assert Step(tags, INIT, m).1 ==
      [Chunk(true, true, Some("<" + tag + ">"), false), Chunk(false, false, Some(text), false)];
    assert ([m] + messages)[1..] == messages;
    assert ThinkingText([m] + messages) == "\n\n" + text + ThinkingText(messages);
    Regroup("\n\n", text, ThinkingText(messages));
    TrimsTwoNewlines(text + ThinkingText(messages));
  }

  // ----- All chunks

  /** The texts of a message list in order, thinking or answer. */
  function Fragments(messages: seq<Message>): seq<Segment>
    decreases |messages|
  {
    if messages == [] then []
    else
      var f := Fragment(messages[|messages| - 1]);
      Fragments(messages[..|messages| - 1]) + (if f.Some? then [f.value] else [])
  }

  /** The chunk that comes before fragment i: a tag where thinking begins or ends. */
  function TagBefore(tags: Tags, fragments: seq<Segment>, i: nat): seq<Chunk>
    requires i < |fragments|
  {
    var behindThought := i > 0 && fragments[i - 1].Thought?;
    if fragments[i].Thought? && !behindThought then [Chunk(i == 0, i == 0, Some(tags.open), false)]
    else if fragments[i].Answer? && behindThought then [Chunk(false, false, Some(tags.close), false)]
    else []
  }

  function TextOf(fragments: seq<Segment>, i: nat): Chunk
    requires i < |fragments|
  {
    var marked := i == 0 && fragments[i].Answer?;
    Chunk(marked, marked, Some(if i == 0 then TrimLeadingNewlines(fragments[i].text) else fragments[i].text), false)
  }

  /** The chunks of the first n fragments. */
  function ChunksOf(tags: Tags, fragments: seq<Segment>, n: nat): seq<Chunk>
    requires n <= |fragments|
  {
    if n == 0 then []
    else ChunksOf(tags, fragments, n - 1) + (TagBefore(tags, fragments, n - 1) + [TextOf(fragments, n - 1)])
  }

  function AllChunks(tags: Tags, fragments: seq<Segment>): seq<Chunk> {
    ChunksOf(tags, fragments, |fragments|)
  }

  lemma {:induction false} ChunksOfPrefix(tags: Tags, fragments: seq<Segment>, f: Segment, n: nat)
    requires n <= |fragments|
    ensures ChunksOf(tags, fragments + [f], n) == ChunksOf(tags, fragments, n)
  {
    if n > 0 {
      ChunksOfPrefix(tags, fragments, f, n - 1);
    }
  }

  ghost predicate Holds(st: State, fragments: seq<Segment>) {
    && (st.isStart <==> fragments == [])
    && (st.meetThinking <==> fragments != [] && fragments[|fragments| - 1].Thought?)
  }

  lemma StepLaysOut(tags: Tags, st: State, fragments: seq<Segment>, m: Message)
    requires Holds(st, fragments) && Fragment(m).Some?
    ensures var (more, n) := (fragments + [Fragment(m).value], |fragments|);
      && Holds(Step(tags, st, m).0, more)
      && AllChunks(tags, more) == AllChunks(tags, fragments) + Step(tags, st, m).1
  {
    var (f, n) := (Fragment(m).value, |fragments|);
    var more := fragments + [f];
    ChunksOfPrefix(tags, fragments, f, n);
    assert n > 0 ==> more[n - 1] == fragments[n - 1];
    assert Step(tags, st, m).1 == TagBefore(tags, more, n) + [TextOf(more, n)];
  }

  lemma {:induction false} ProcessLaysOut(tags: Tags, messages: seq<Message>)
    requires Unfinished(messages)
    ensures Holds(Process(tags, INIT, messages).0, Fragments(messages))
    ensures Process(tags, INIT, messages).1 == AllChunks(tags, Fragments(messages))
    decreases |messages|
  {
    if messages != [] {
      var (init, m) := (messages[..|messages| - 1], messages[|messages| - 1]);
      assert messages == init + [m];
      assert forall n <- init :: n in messages;
      ProcessLaysOut(tags, init);
      RunOneMore(StepFor(tags), INIT, init, m);
      var (st, fragments) := (Process(tags, INIT, init).0, Fragments(init));
      assert Process(tags, INIT, messages) == Prepend(Process(tags, INIT, init).1, Step(tags, st, m));
      if Fragment(m).Some? {
        StepLaysOut(tags, st, fragments, m);
      } else {
        assert Step(tags, st, m) == (st, []) && fragments + [] == fragments;
        assert Fragments(messages) == fragments;
        assert Process(tags, INIT, init).1 + [] == Process(tags, INIT, init).1;
      }
    }
  }

  /** The exact chunks of a finished response, for every message sequence in every batching: a
      chunk for each text in order, a tag chunk where thinking begins or ends, and the finish. */
  lemma ResponseIsLaidOut(tag: string, messages: seq<Message>, batches: seq<seq<Message>>)
    requires Unfinished(messages) && Flatten(batches) == messages + [StreamEnd]
    ensures ProcessBatches(TagsFor(tag), INIT, batches).1
         == AllChunks(Tags("<" + tag + ">", "</" + tag + ">"), Fragments(messages)) + [Chunk(false, false, None, true)]
  {
    var tags := TagsFor(tag);
    BatchingIsInvisible(StepFor(tags), INIT, batches);
    ProcessLaysOut(tags, messages);
    FinishesExactlyAtEnd(tags, messages);
  }

  // ----- The buffered texts

  /** All thinking text, and all content, of a message list are those of its parts in order. */
  lemma {:induction false} TextsAreJoined(first: seq<Message>, second: seq<Message>)
    ensures ThinkingText(first + second) == ThinkingText(first) + ThinkingText(second)
    ensures ContentText(first + second) == ContentText(first) + ContentText(second)
    decreases |first|
  {
    if first == [] {
      assert first + second == second;
      assert "" + ThinkingText(second) == ThinkingText(second) && "" + ContentText(second) == ContentText(second);
    } else {
      assert (first + second)[1..] == first[1..] + second;
      TextsAreJoined(first[1..], second);
      if Fragment(first[0]).Some? {
        Regroup(Fragment(first[0]).value.text, ThinkingText(first[1..]), ThinkingText(second));
        Regroup(Fragment(first[0]).value.text, ContentText(first[1..]), ContentText(second));
      }
    }
  }
}
