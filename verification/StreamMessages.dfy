/** The messages that the upstream decoder hands to the response writers. */
module StreamMessages {

  datatype Thinking = Text(text: string) | Signature(signature: string) | Redacted(data: string)

  datatype Message =
    | ThinkingMessage(thinking: Thinking)
    | Content(text: string)
    | ToolCall(id: string, name: string, input: string)
    | StreamEnd
    | WebReference // not converted to content; every writer ignores it

  /** No end marker yet. */
  predicate Unfinished(messages: seq<Message>) {
    forall m <- messages :: !m.StreamEnd?
  }
}

/** A response writer: for each message a new state and the output to send.  A batch is left at its
    end marker; the state is kept from one batch to the next. */
module Transducers {
  import opened StreamMessages

  function Run<S, E>(step: (S, Message) -> (S, seq<E>), st: S, messages: seq<Message>): (S, seq<E>)
    decreases |messages|
  {
    if messages == [] then (st, [])
    else
      var (st1, output) := step(st, messages[0]);
      if messages[0].StreamEnd? then (st1, output)
      else
        var (st2, rest) := Run(step, st1, messages[1..]);
        (st2, output + rest)
  }

  function RunBatches<S, E>(step: (S, Message) -> (S, seq<E>), st: S, batches: seq<seq<Message>>): (S, seq<E>)
    decreases |batches|
  {
    if batches == [] then (st, [])
    else
      var (st1, output) := Run(step, st, batches[0]);
      var (st2, rest) := RunBatches(step, st1, batches[1..]);
      (st2, output + rest)
  }

  // ----- The loop over one batch

  /** A result behind output that is already written. */
  function Prepend<S, E>(written: seq<E>, result: (S, seq<E>)): (S, seq<E>) {
    (result.0, written + result.1)
  }

  lemma StartOfBatch<S, E>(step: (S, Message) -> (S, seq<E>), st: S, messages: seq<Message>)
    ensures Run(step, st, messages) == Prepend([], Run(step, st, messages[0..]))
  {
    assert messages[0..] == messages;
    var output := Run(step, st, messages).1;
    assert [] + output == output;
  }

  lemma NextOfBatch<S, E>(step: (S, Message) -> (S, seq<E>), st: S, messages: seq<Message>, i: nat, written: seq<E>)
    requires i < |messages|
    ensures var (st1, output) := step(st, messages[i]);
      Prepend(written, Run(step, st, messages[i..])) ==
        if messages[i].StreamEnd? then (st1, written + output)
        else Prepend(written + output, Run(step, st1, messages[i + 1..]))
  {
    assert messages[i..][0] == messages[i] && messages[i..][1..] == messages[i + 1..];
    var (st1, output) := step(st, messages[i]);
    var rest := Run(step, st1, messages[i + 1..]).1;
    assert written + (output + rest) == (written + output) + rest;
  }

  // ----- Batches

  function Flatten(batches: seq<seq<Message>>): seq<Message> {
    if batches == [] then [] else batches[0] + Flatten(batches[1..])
  }

  /** Nothing comes after an end marker. */
  predicate EndsOnce(messages: seq<Message>) {
    forall i | 0 <= i < |messages| - 1 :: !messages[i].StreamEnd?
  }

  lemma {:induction false} RunAppend<S, E>(step: (S, Message) -> (S, seq<E>), st: S, first: seq<Message>, second: seq<Message>)
    requires Unfinished(first)
    ensures Run(step, st, first + second) ==
            (var (st1, output1) := Run(step, st, first);
             var (st2, output2) := Run(step, st1, second);
             (st2, output1 + output2))
    decreases |first|
  {
    if first == [] {
      assert first + second == second;
      assert [] + Run(step, st, second).1 == Run(step, st, second).1;
    } else {
      assert (first + second)[1..] == first[1..] + second;
      var (st1, output) := step(st, first[0]);
      RunAppend(step, st1, first[1..], second);
      var (st2, rest) := Run(step, st1, first[1..]);
      var last := Run(step, st2, second).1;
      assert output + (rest + last) == (output + rest) + last;
    }
  }

  lemma RunOneMore<S, E>(step: (S, Message) -> (S, seq<E>), st: S, messages: seq<Message>, m: Message)
    requires Unfinished(messages)
    ensures var (st1, output) := Run(step, st, messages);
      Run(step, st, messages + [m]) == Prepend(output, step(st1, m))
  {
    RunAppend(step, st, messages, [m]);
    var (st2, last) := step(Run(step, st, messages).0, m);
    assert [m][1..] == [] && last + [] == last;
  }

  lemma {:induction false} EmptyBatches<S, E>(step: (S, Message) -> (S, seq<E>), st: S, batches: seq<seq<Message>>)
    requires Flatten(batches) == []
    ensures RunBatches(step, st, batches) == (st, [])
    decreases |batches|
  {
    if batches != [] {
      assert batches[0] == [] && Flatten(batches[1..]) == [];
      EmptyBatches(step, st, batches[1..]);
    }
  }

  lemma FirstBatchIsUnfinished(first: seq<Message>, rest: seq<Message>)
    requires EndsOnce(first + rest)
    ensures rest != [] ==> Unfinished(first)
    ensures EndsOnce(rest)
  {
    var all := first + rest;
    forall i | 0 <= i < |rest| - 1 ensures !rest[i].StreamEnd? {
      assert rest[i] == all[|first| + i];
    }
    if rest != [] {
      forall m <- first ensures !m.StreamEnd? {
        var i :| 0 <= i < |first| && first[i] == m;
        assert all[i] == m;
      }
    }
  }

  /** Chunk boundaries are invisible: any batching gives the output of the whole message list. */
  lemma {:induction false} BatchingIsInvisible<S, E>(step: (S, Message) -> (S, seq<E>), st: S, batches: seq<seq<Message>>)
    requires EndsOnce(Flatten(batches))
    ensures RunBatches(step, st, batches) == Run(step, st, Flatten(batches))
    decreases |batches|
  {
    if batches != [] {
      var first, rest := batches[0], Flatten(batches[1..]);
      FirstBatchIsUnfinished(first, rest);
      if rest == [] {
        assert first + rest == first;
        EmptyBatches(step, Run(step, st, first).0, batches[1..]);
        assert Run(step, st, first).1 + [] == Run(step, st, first).1;
      } else {
        RunAppend(step, st, first, rest);
        BatchingIsInvisible(step, Run(step, st, first).0, batches[1..]);
      }
    }
  }

  // ----- The end marker

  lemma {:induction false} UpToTheEnd(messages: seq<Message>) returns (before: seq<Message>, rest: seq<Message>)
    requires StreamEnd in messages
    ensures messages == before + [StreamEnd] + rest && Unfinished(before)
    decreases |messages|
  {
    if messages[0].StreamEnd? {
      before, rest := [], messages[1..];
    } else {
      before, rest := UpToTheEnd(messages[1..]);
      before := [messages[0]] + before;
    }
  }

  /** Messages behind the first end marker change nothing. */
  lemma NothingBehindTheEnd<S, E>(step: (S, Message) -> (S, seq<E>), st: S, before: seq<Message>, rest: seq<Message>)
    requires Unfinished(before)
    ensures Run(step, st, before + [StreamEnd] + rest) == Run(step, st, before + [StreamEnd])
  {
    assert before + [StreamEnd] + rest == before + ([StreamEnd] + rest);
    RunAppend(step, st, before, [StreamEnd] + rest);
    RunAppend(step, st, before, [StreamEnd]);
  }
}
