# Formal model of the server's stateful cores

This project models, in Dafny 4.11, the parts of the server that keep state, run loops or do
bounded arithmetic, and proves what they are for. `dafny verify dfyconfig.toml` checks everything.

* **Interning pool** (`ArcStr.dfy`, `ArcStrSafety.dfy`, `ArcStrTable.dfy`, `Str.dfy`). `new`, `clone`
  and `drop` are interleaved steps of any number of threads over one table: search under the read
  lock, second search under the write lock, increments outside any lock, and a two-phase drop. The
  invariant is proved for every run. A block can be revived between the decrement and the clean-up;
  the project shows the run in which two drops then wait for one block, and that nothing else leads
  there. The methods of `Table` are the code as one thread executes it, proved to be such runs.
* **Response writers** (`StreamMessages.dfy`, `AnthropicStream.dfy`, `AnthropicClient.dfy`,
  `AnthropicLayout.dfy`, `OpenAiStream.dfy`, `OpenAiLayout.dfy`). Both `process_messages` are transducers whose state survives from chunk to
  chunk; what batches do to either is proved once. A client that rebuilds the content is modelled
  beside them, and the result is compared with the buffered path of the same endpoint. The whole
  stream is also laid out from the messages without running a writer. After a tool call the writer records the type *text*; what follows from that is stated exactly.
* **gRPC framing** (`GrpcFrames.dfy`). The frame iterator and the decoder with its carry-over, after
  the Length-Prefixed-Message rule in the "Requests" section of the gRPC over HTTP2 protocol.
* **`.env` reader** (`DotenvParse.dfy`, `DotenvIter.dfy`, `DotenvRoundTrip.dfy`,
  `DotenvTemplates.dfy`, `DotenvUnquoted.dfy`, `DotenvPlainLines.dfy`, `DotenvComments.dfy`,
  `DotenvBlanks.dfy`, `DotenvErrors.dfy`). Value parser, line parser, logical-line splitter, iterator
  and both loaders, with round trips for printed files, plain and with references, with what
  comments, blanks and missing quotes do, and with what stops a load and what it has done by then.
* **Time arithmetic** (`TimeDelta.dfy`, `TimeDeltaDisplay.dfy`, `Round.dfy`, `DaysFromCe.dfy`). Bounded
  durations with division toward zero, their printed form, rounding of instants, and the day count.
* **Model index** (`Models.dfy`, `ModelCache.dfy`, `ModelFetch.dfy`). The list of models, the index by id and the
  offered ids that are maintained from one update to the next, with the exact condition under which
  they stay those of the list, and the built-in models that do not meet it.
* **Command line** (`NaturalArgs.dfy`, `NaturalSpeech.dfy`). Tokeniser, phrase parser, and the
  documented phrases.

`Wrappers.dfy`, `Sequences.dfy`, `Texts.dfy` and `RustInt.dfy` hold shared datatypes, text functions and
machine integers.

Where the code's documentation says otherwise, the code is followed: `round_subsecs` is documented as
rounding halfway values away from zero, but before 1970 it rounds them up, which is toward zero
(`Rounding.SubsecsAgreeWithDuration`); `duration_round` and its siblings are documented to fail when
the span exceeds the stamp, which they no longer do (`Rounding.RoundIsNearest`); `drop` describes
its re-check as a guard against a concurrent `clone`, while only a concurrent `new` can revive a
count of zero (`ArcStrSafety.OnlyNewRevives`).

## Model

| member | source | states |
|---|---|---|
| ArcStrPool.StepKeepsInv | crates/interned/src/arc_str.rs:130-335 | every enabled step of any thread (search, count and release of the lock, insertion, clone, decrement, lock, re-check, removal) keeps the invariant: the table lists exactly the allocated blocks under their text's hash, texts are pairwise distinct, each handle's block is allocated with its text, counts equal numbers of handles, a zero count has a drop waiting on it, writers are alone |
| ArcStrPool.RunKeepsInv | crates/interned/src/arc_str.rs:130-335 | the invariant holds after every interleaving of every length |
| ArcStrPool.ReachableInv | crates/interned/src/arc_str.rs:130-335 | so it holds in every state reachable from the empty pool |
| ArcStrPool.FindIsExact | crates/interned/src/arc_str.rs:252-263 | a search under a lock finds the block holding the text if there is one, and otherwise no allocated block holds it |
| ArcStrSafety.LiveHandleIsSafe | crates/interned/src/arc_str.rs:130-181 | a live handle's block is allocated, listed under its hash, holds the requested text, and its count is the number of live handles on it |
| ArcStrSafety.PointerEqualityIsTextEquality | crates/interned/src/arc_str.rs:358 | two live handles point to one block exactly when their texts are equal |
| ArcStrSafety.QuiescentPoolIsEmpty | crates/interned/src/arc_str.rs:300-335 | with no handle left and no thread inside `new` or `drop`, table and heap are empty |
| ArcStrSafety.UnusedEntryIsBeingDropped | crates/interned/src/arc_str.rs:300-335 | an entry no handle points to always has a drop on its way to it |
| ArcStrSafety.LockHolderCanMove | crates/interned/src/arc_str.rs:142-181 | a thread that holds the lock can take its next step |
| ArcStrSafety.NoDeadlock | crates/interned/src/arc_str.rs:130-335 | while a thread is inside `new` or `drop`, some such thread can move |
| ArcStrSafety.AccessesAreFree | crates/interned/src/arc_str.rs:277-320 | no lock is needed to clone a live handle or to release one, and none but a writer keeps a search waiting: these steps are enabled whatever other threads hold |
| ArcStrSafety.RunKeepsDropsExclusive | crates/interned/src/arc_str.rs:309-320 | along runs in which no search hit revives a zero count, every waiting drop is the only one for its block, which is still allocated |
| ArcStrSafety.NoRevivalCleansOnce | crates/interned/src/arc_str.rs:309-320 | hence runs without such a revival never have two drops waiting for one block, nor a drop waiting for a block that is gone; revivals need not lead there |
| ArcStrSafety.SecondDropExactly | crates/interned/src/arc_str.rs:309-320 | a step makes two drops wait for one block if and only if it takes the count to zero while an earlier drop is still waiting |
| ArcStrSafety.OnlyNewRevives | crates/interned/src/arc_str.rs:130-181 | no step but a search hit of `new` takes a count of zero up again |
| ArcStrSafety.DanglesExactlyOnDoubleDrop | crates/interned/src/arc_str.rs:315-335 | a step makes a drop wait for a freed block if and only if it frees the block under a second waiting drop |
| ArcStrSafety.DoubleDropRun | crates/interned/src/arc_str.rs:309-335 | for every hash function there is a run in which that happens: "cleaned up exactly once" is false without the condition above |
| ArcStrTable.Table.Search | crates/interned/src/arc_str.rs:252-256 | the raw-entry search on the mutable table is the protocol's search |
| ArcStrTable.Table.IncStrong | crates/interned/src/arc_str.rs:738-746 | the counted handle, or the abort beyond `isize::MAX` with nothing changed |
| ArcStrTable.Table.Insert | crates/interned/src/arc_str.rs:159-178 | a new block with count 1 filed under its hash, exactly the protocol's creation step |
| ArcStrTable.Table.TryFindExisting | crates/interned/src/arc_str.rs:252-263 | a hit is the protocol's search result with one more handle; a miss changes nothing and happens exactly when no block has the text; the abort happens exactly when the block of the text has a count beyond `isize::MAX` |
| ArcStrTable.Table.New | crates/interned/src/arc_str.rs:130-181 | a handle for the text, sharing the existing block or on a new one, by a run of the protocol that adds exactly this handle; it fails exactly when the block of the text has a count beyond `isize::MAX`, with nothing changed |
| ArcStrTable.Table.Clone | crates/interned/src/arc_str.rs:277-281 | a run of the protocol that adds exactly one handle to the same block; it fails exactly when the count is beyond `isize::MAX` |
| ArcStrTable.Table.Drop | crates/interned/src/arc_str.rs:300-335 | a run of the protocol that removes exactly this handle; the block stays allocated exactly while some other handle points to it |
| StrValues.EqIsContentEquality | crates/interned/src/str.rs:780-787 | equality of any two `Str`, static or counted, in any reachable pool is equality of contents |
| StrValues.EqIsEquivalence | crates/interned/src/str.rs:780-790 | it is reflexive, symmetric and transitive across the variants |
| StrValues.EqAgreesWithOrderAndHash | crates/interned/src/str.rs:873-919 | equal exactly when the order says so, the order reverses, and equal values give any hasher the same text |
| StrValues.CmpTextEqualIff | crates/interned/src/str.rs:919 | the order's `Equal` is equality of texts |
| StrValues.CmpTextIsLexicographic | crates/interned/src/str.rs:919 | `Less` is: the same up to some place, where the left text ends or has the smaller character |
| StrValues.CmpTextReverses | crates/interned/src/str.rs:919 | swapping the operands swaps less and greater |
| StrValues.CmpTextTransitive | crates/interned/src/str.rs:919 | less-than is transitive |
| AnthropicStream.Writer.Write | src/core/service.rs:1286-1484 | one message on the shared atomics: new state and events are those of the transducer's step |
| AnthropicStream.Writer.ProcessMessages | src/core/service.rs:1278-1503 | one batch on the shared atomics, left at the end marker, is the transducer run over the batch |
| AnthropicStream.Writer.SwitchBlock | src/core/service.rs:1306-1324 | closes the open block, advances the 32-bit index, opens the next block |
| AnthropicStream.Writer.OpenBlock | src/core/service.rs:1287-1346 | message start, block switch and ping in front of a thinking or text delta |
| AnthropicStream.CollectMessages | src/core/service.rs:1724-1800 | the buffered loop folds the messages of a chunk into the content blocks, tool calls once their collected input is complete JSON |
| Transducers.RunAppend | src/core/service.rs:1278-1503 | for either writer, stopping after a prefix and continuing on the kept state gives the output of one call |
| Transducers.BatchingIsInvisible | src/core/service.rs:1278-1503 | for either writer, any cut of the messages into batches gives the output of the whole list, if nothing follows the end marker |
| Transducers.NothingBehindTheEnd | src/core/service.rs:1467-1484 | for either writer, messages behind the first end marker of a batch change nothing |
| AnthropicClient.BlocksAreBracketed | src/core/service.rs:1284-1503 | for every message sequence in every batching: blocks start with indices 0, 1, 2, ... (mod 2^32), are written only while open, stop before the next starts, and none is open after the end |
| AnthropicClient.DeltasFitExactly | src/core/service.rs:1417-1465 | every delta has the type of the block it goes to if and only if no text directly follows a tool call |
| AnthropicClient.TextAfterToolBreaksTyping | src/core/service.rs:1452-1453 | a tool call followed by text is the shortest stream in which a text delta goes into a tool block |
| AnthropicClient.ToolCallsAreNeverMerged | src/core/service.rs:1417-1465 | in every stream there are exactly as many starts of tool blocks as tool-call messages, because the recorded type is text |
| AnthropicClient.StreamedEqualsBuffered | src/core/service.rs:1286-1465 | for every stream whose tool calls arrive whole, in every batching, the blocks assembled from the events equal the content of the buffered path if and only if nothing is redacted and no text directly follows a tool call |
| AnthropicClient.CollectChunksIsOne | src/core/service.rs:1724-1800 | with whole tool calls, chunk boundaries do not matter to the buffered path |
| AnthropicClient.CollectKeepsRedacted | src/core/service.rs:1758-1762 | the buffered content has exactly the redacted blocks that the redacted messages bring |
| AnthropicClient.RedactedCuts | src/core/service.rs:1724-1762 | a redacted message cuts the buffered content in two independent parts with its block between them |
| AnthropicClient.PiecesBecomeOneBlock | src/core/service.rs:1764-1800 | a tool call in pieces becomes one buffered block, under the last piece's id and name, once the pieces together are complete JSON; incomplete pieces leave nothing behind their chunk |
| AnthropicClient.MessageStartExactly | src/core/service.rs:1287-1346 | when the first effective message is thinking or text, the stream opens with message start, start of block 0 and ping, and has no other message start or ping; otherwise it has neither |
| AnthropicLayout.ResponseIsLaidOut | src/core/service.rs:1286-1484 | every event of a finished response, for every message sequence in every batching, laid out from the messages without a state: a block for each run of messages that join, numbered modulo 2^32, with start, deltas and stop, message start before block 0 and ping behind its start exactly when thinking or text comes first |
| AnthropicLayout.CompletedExactlyAtEnd | src/core/service.rs:1467-1484 | the stream is recorded as completed exactly when an end marker was among the messages |
| OpenAiStream.Writer.Write | src/core/service.rs:456-572 | one message on the shared atomics: new state and chunks are those of the transducer's step |
| OpenAiStream.Writer.ProcessMessages | src/core/service.rs:447-602 | one batch, left at the end marker, is the transducer run over the batch |
| OpenAiStream.BuildText | src/core/service.rs:834-884 | the buffered loop and the assembly after it compute tags, trimmed thinking and content |
| OpenAiText.StreamedTextIsTagged | src/core/service.rs:456-559 | for every message sequence the concatenated chunks are the alternating thought and answer segments, each thought in one pair of tags, only the last possibly left open, only the first text trimmed; the flags tell exactly whether anything was sent and whether a thought is open |
| OpenAiText.FirstChunkIsMarked | src/core/service.rs:456-559 | model and role are on the first chunk and on no other |
| OpenAiText.FinishesExactlyAtEnd | src/core/service.rs:555-579 | the finish reason is on the chunk of the end marker only, which carries no content, and the end is recorded exactly then |
| OpenAiLayout.ResponseIsLaidOut | src/core/service.rs:447-602 | every chunk of a finished response, for every message sequence in every batching, laid out from the texts without a state: a chunk for each text, a tag chunk exactly where thinking begins or ends, the finish chunk; model and role on the first only |
| OpenAiLayout.TrimsTwoNewlines | src/common/utils.rs:196-218 | two newlines in front of a text are taken away, once, and no other text is changed |
| OpenAiLayout.ContentBehindNewlines | src/core/service.rs:480-500 | a stream that starts with content of two newlines and a text says the text alone in its first chunk; without thinking so does the buffered answer |
| OpenAiLayout.ThinkingBehindNewlines | src/core/service.rs:530-559 | a stream that starts with thinking of two newlines and a text sends the opening tag and the text; the buffered answer is `<tag>`, the thinking without them, `</tag>`, the content |
| OpenAiLayout.TextsAreJoined | src/core/service.rs:834-870 | the buffered thinking and content of a message list are those of its parts, one behind the other |
| OpenAiText.StreamedEqualsBuffered | src/core/service.rs:456-559 | with thinking before content, in every batching, streamed text equals buffered text if and only if the first fragment shows its leading newlines and any thinking is non-empty and followed by content |
| OpenAiText.CutNewlinesDisagree | src/core/service.rs:874-884 | two one-newline fragments are trimmed by the buffered path only |
| GrpcFrames.FromBeToBe | crates/grpc-stream/src/buffer.rs:74-76 | reading a big-endian number back, for every width it fits |
| GrpcFrames.ToBeFromBe | crates/grpc-stream/src/buffer.rs:74-76 | writing a read number back gives the same bytes |
| GrpcFrames.HeaderIsBigEndian | crates/grpc-stream/src/buffer.rs:65-81 | five bytes are a header: a flag and a length with its highest byte first; the frame is complete exactly when that many bytes follow |
| GrpcFrames.FrameIsCutOut | crates/grpc-stream/src/buffer.rs:63-90 | a complete frame is its flag and the bytes its length counts, and reading goes on right behind them |
| GrpcFrames.RestIsIncomplete | crates/grpc-stream/src/buffer.rs:65-81 | what is left behind the last frame holds no complete frame |
| GrpcFrames.DecodeEncode | crates/grpc-stream/src/buffer.rs:63-90 | frames with lengths below 2^32 are read back from their encoding, whatever follows, which is then read as if alone |
| GrpcFrames.EncodeDecode | crates/grpc-stream/src/buffer.rs:63-90 | the consumed bytes are exactly the encoding of the yielded frames |
| GrpcFrames.FramesAppend | crates/grpc-stream/src/buffer.rs:63-90 | reading on after more bytes arrive continues where the first reading stopped |
| GrpcDecoder.MessageIter.Next | crates/grpc-stream/src/buffer.rs:63-90 | yields the frame at the offset and moves behind it, or stays for ever when none is complete |
| GrpcDecoder.MessageIter.SizeHint | crates/grpc-stream/src/buffer.rs:93-121 | the exact number of frames `next` will still yield, at every position |
| GrpcDecoder.StreamDecoder.Decode | crates/grpc-stream/src/decoder.rs:80-96 | hands every complete frame of carry-over plus chunk to the processor in order and keeps exactly the incomplete rest |
| GrpcDecoder.ProcessedAround | crates/grpc-stream/src/decoder.rs:80-96 | each frame adds its message at its place, or nothing when the processor has none for it |
| GrpcDecoder.SplitInvariance | crates/grpc-stream/src/decoder.rs:80-96 | however a byte stream is cut into chunks, messages and carry-over are those of one call |
| DotenvParse.ParseValueLoop | patch/dotenvy-0.15.7/src/parse.rs:123-258 | the character loop with its flags computes the value automaton's result, errors and positions included |
| DotenvParse.LineParser.SkipWhitespace | patch/dotenvy-0.15.7/src/parse.rs:105-113 | drops leading white space and keeps the position in step |
| DotenvParse.LineParser.ParseKey | patch/dotenvy-0.15.7/src/parse.rs:76-94 | takes the longest legal key, or fails at the position |
| DotenvParse.LineParser.ExpectEqual | patch/dotenvy-0.15.7/src/parse.rs:96-103 | takes an equals sign if there is one |
| DotenvParse.LineParser.ParseHead | patch/dotenvy-0.15.7/src/parse.rs:41-66 | key, optional `export`, equals sign, as the head grammar says |
| DotenvParse.LineParser.Parse | patch/dotenvy-0.15.7/src/parse.rs:41-74 | result and substitution data of a whole line |
| DotenvErrors.MissingEqualsIsError | patch/dotenvy-0.15.7/src/parse.rs:76-103 | a key without an equals sign is an error at the byte behind the key, in any file |
| DotenvErrors.IllegalStartIsError | patch/dotenvy-0.15.7/src/parse.rs:76-94 | a line that begins with another character than a key does is an error at its first byte |
| DotenvErrors.BlanksMoveThePosition | patch/dotenvy-0.15.7/src/parse.rs:105-113 | blanks in front of a broken line count for the position of its error, blanks behind do not |
| DotenvErrors.BadEscapeIsError | patch/dotenvy-0.15.7/src/parse.rs:151-170 | outside single quotes a backslash before any but the six legal characters is an error at that character, counted in characters |
| DotenvErrors.UnclosedQuoteIsError | patch/dotenvy-0.15.7/src/parse.rs:239-250 | a quote that is not closed is an error at the last byte of the value |
| DotenvErrors.PartsReadBack | patch/dotenvy-0.15.7/src/parse.rs:123-258 | single-quoted, double-quoted and bare parts side by side are read as one value, for every list of parts |
| DotenvRoundTrip.LegalKeysAreThese | patch/dotenvy-0.15.7/src/parse.rs:76-94 | the legal keys with their characters written out |
| Texts.WhitespaceIsThese | patch/dotenvy-0.15.7/src/parse.rs:105-113 | the white space of `char::is_whitespace`, code point by code point |
| DotenvBlanks.SilentLineIsSkipped | patch/dotenvy-0.15.7/src/iter.rs:181-190 | a line of white space and a comment line are passed over |
| DotenvBlanks.CommentIsBlank | patch/dotenvy-0.15.7/src/parse.rs:43-46 | the line parser too sees nothing in a comment line |
| DotenvBlanks.SpacedLineReads | patch/dotenvy-0.15.7/src/iter.rs:119-213 | white space in front of a key, behind it and behind the equals sign changes nothing in a file, whatever value follows |
| DotenvBlanks.SpacedItemReadsBack | patch/dotenvy-0.15.7/src/iter.rs:119-213 | in particular a quoted value behind white space may still hold line feeds and comment signs |
| DotenvBlanks.ExportNeedsAnAssignment | patch/dotenvy-0.15.7/src/parse.rs:51-60 | behind `export` a missing key is an error where it should begin, a missing equals sign where that should be |
| DotenvPlainLines.PlainLineReads | patch/dotenvy-0.15.7/src/iter.rs:119-233 | what an assignment without quotes is read as in a file, for every value whose white space is spaces and line feeds: itself, except that a last space is lost although it is escaped and a leading number sign makes it empty |
| DotenvLines.EvalEndState | patch/dotenvy-0.15.7/src/iter.rs:119-158 | the automaton over a physical line, stopping at a comment with its position |
| DotenvLines.QuotedLines.Next | patch/dotenvy-0.15.7/src/iter.rs:163-213 | joins physical lines while a quote or escape is open; comments cut, line ends stripped, an open end is an error |
| DotenvLoad.Iter.Next | patch/dotenvy-0.15.7/src/iter.rs:219-233 | the next item: blank lines are skipped, errors are yielded |
| DotenvLoad.Iter.RemoveByteOrderMark | patch/dotenvy-0.15.7/src/iter.rs:93-101 | one leading byte order mark is dropped |
| DotenvRoundTrip.RemovesOneBom | patch/dotenvy-0.15.7/src/iter.rs:93-101 | U+FEFF in front of a file is taken away once, and nothing else is |
| DotenvLoad.Environment.LoadFile | patch/dotenvy-0.15.7/src/iter.rs:43-63 | the environment and counters after `load`, or the error that stopped it |
| DotenvLoad.Environment.LoadFileOverride | patch/dotenvy-0.15.7/src/iter.rs:72-91 | the environment and counters after `load_override`, or the error that stopped it |
| DotenvLoad.LoadKeepsExisting | patch/dotenvy-0.15.7/src/iter.rs:43-63 | after `load` existing variables are unchanged and every other key has its first file value |
| DotenvLoad.OverrideTakesLast | patch/dotenvy-0.15.7/src/iter.rs:72-91 | after `load_override` every key of the file has its last file value, the rest is unchanged |
| DotenvLoad.LoadCountsAddUp | patch/dotenvy-0.15.7/src/iter.rs:49-63 | loaded is the number of new variables, and loaded plus skipped the number of items |
| DotenvLoad.OverrideCountsAddUp | patch/dotenvy-0.15.7/src/iter.rs:78-91 | every item is loaded; those that create no variable are overriding |
| DotenvErrors.LoadTakesItemsBeforeError | patch/dotenvy-0.15.7/src/iter.rs:49-79 | a load of either kind takes exactly the items that come before the first error of the sequence of readings, and reports that error; without one it takes all |
| DotenvErrors.LoadStopsAtError | patch/dotenvy-0.15.7/src/iter.rs:49-79 | printed items and then a line that is an error in the state they leave: the load ends with that error, has read exactly those items, and the environment is theirs alone |
| DotenvErrors.BrokenFileLoads | patch/dotenvy-0.15.7/src/iter.rs:43-91 | a file of printed items with a line that lacks its equals sign: the error with its byte position, the items before it in the environment, nothing behind it read |
| DotenvLoad.ContextsStayInEnv | patch/dotenvy-0.15.7/src/iter.rs:49-58 | between items of either load, every key with substitution data is in the environment |
| DotenvLoad.ReferencesReadTheEnvironment | patch/dotenvy-0.15.7/src/parse.rs:260-274 | so during a load a reference is the current environment value or nothing |
| DotenvRoundTrip.QuotedValueReadsBack | patch/dotenvy-0.15.7/src/parse.rs:123-258 | a value in double quotes with backslash, quote and dollar escaped is read back, for every text |
| DotenvRoundTrip.PrintedFileReadsBack | patch/dotenvy-0.15.7/src/iter.rs:119-233 | a printed file of any pairs with legal keys, raw line feeds included and with either line end, is read back as exactly that list, whatever the environment holds |
| DotenvRoundTrip.PrintedFileLoads | patch/dotenvy-0.15.7/src/iter.rs:43-91 | loading a printed file gives each key its first or last printed value and touches nothing else, with or without a byte order mark |
| DotenvRoundTrip.StrongQuoteState | patch/dotenvy-0.15.7/src/iter.rs:147-152 | inside single quotes the splitter's state tells the parity of trailing backslashes |
| DotenvRoundTrip.SingleQuotesReadBackExactly | patch/dotenvy-0.15.7/src/iter.rs:147-152 | a value in single quotes is read back if and only if it does not end in an odd number of backslashes: the splitter escapes there, the value parser does not |
| DotenvUnquoted.UnquotedValueReadsBack | patch/dotenvy-0.15.7/src/parse.rs:151-236 | a value without quotes, with backslashes before the special characters and `\n` for a line feed, is read back, for every text without a tab |
| DotenvUnquoted.LastBackslashIsLost | patch/dotenvy-0.15.7/src/parse.rs:239-257 | a lone backslash at the end of a value is dropped without an error |
| DotenvUnquoted.OnlyCommentsFollow | patch/dotenvy-0.15.7/src/parse.rs:143-150 | behind a value and blanks a comment is ignored whatever it holds, and anything else is an error at its position |
| DotenvUnquoted.ExportIsTransparent | patch/dotenvy-0.15.7/src/parse.rs:51-60 | `export` before an assignment changes neither key nor value, even for a key named `export` |
| DotenvTemplates.TemplateExpands | patch/dotenvy-0.15.7/src/parse.rs:171-211 | double-quoted text mixed with `${name}` references is read as the text with each reference's meaning, for every template |
| DotenvTemplates.TemplatesMeanWhatTheySay | patch/dotenvy-0.15.7/src/iter.rs:163-233 | a printed file of templates is read as its assignments evaluated in order, each seeing the earlier ones unless the environment has the name |
| DotenvTemplates.BareReferenceExpands | patch/dotenvy-0.15.7/src/parse.rs:171-197 | outside quotes `$name` is the name's meaning |
| DotenvTemplates.ReferencesExpand | patch/dotenvy-0.15.7/src/parse.rs:171-197 | references without braces one directly behind the other are each expanded |
| DotenvTemplates.EarlierLineIsSeen | patch/dotenvy-0.15.7/src/parse.rs:260-274 | a reference in the second of two lines is the environment's value, else the first line's, else nothing |
| DotenvTemplates.BareReferenceEatsTheQuote | patch/dotenvy-0.15.7/src/parse.rs:177-197 | inside double quotes a bare reference right before the closing quote is always an error: the quote ends the name and is taken as text |
| DotenvTemplates.BareReferenceInQuotesExpands | patch/dotenvy-0.15.7/src/parse.rs:177-197 | inside double quotes a bare reference followed by any other character that ends its name is expanded, and that character is text |
| DotenvComments.BlanksToggle | patch/dotenvy-0.15.7/src/iter.rs:126-140 | the splitter's blank state toggles with each white-space character inside a line |
| DotenvComments.CommentedLine | patch/dotenvy-0.15.7/src/iter.rs:126-140 | so a comment sign behind a value cuts the line exactly when the number of white-space characters before it is odd |
| DotenvComments.PlainLineIsRead | patch/dotenvy-0.15.7/src/parse.rs:41-74 | a plain value is read from its line with blanks and any comment behind it, or without |
| DotenvComments.CommentNeedsOddBlanks | patch/dotenvy-0.15.7/src/iter.rs:126-140 | for every comment behind a last line's value: the value is read if and only if the number of blanks is odd or the comment's text leaves the splitter complete or at a further comment sign |
| RustInt.QuotRem | patch/chrono-0.4.42/src/time_delta.rs:416-432 | `/` and `%` round toward zero with the dividend's sign on the remainder |
| RustInt.QuotIsUnique | patch/chrono-0.4.42/src/time_delta.rs:416-432 | those laws determine quotient and remainder |
| TimeDeltas.BoundsAreMilliseconds | patch/chrono-0.4.42/src/time_delta.rs:62-72 | MIN and MAX are minus and plus `i64::MAX` milliseconds |
| TimeDeltas.NewAcceptsExactly | patch/chrono-0.4.42/src/time_delta.rs:85-95 | `new` accepts a value if and only if its nanoseconds are below 10^9 and its total is within the bounds |
| TimeDeltas.SecondsTruncate | patch/chrono-0.4.42/src/time_delta.rs:304-372 | whole seconds and their fraction are truncated quotient and remainder of the total |
| TimeDeltas.NumNanosecondsExactly | patch/chrono-0.4.42/src/time_delta.rs:357-361 | Some, and the total, exactly when it fits i64 |
| TimeDeltas.NumMicrosecondsExactly | patch/chrono-0.4.42/src/time_delta.rs:340-344 | Some exactly when the truncated total fits i64 |
| TimeDeltas.NumMillisecondsExactly | patch/chrono-0.4.42/src/time_delta.rs:320-327 | the truncated total, with no overflow on the way |
| TimeDeltas.NumDaysTruncates | patch/chrono-0.4.42/src/time_delta.rs:287-289 | dividing twice truncates like dividing once |
| TimeDeltas.UnitsRoundTrip | patch/chrono-0.4.42/src/time_delta.rs:243-277 | each constructor is undone by its reader; only `i64::MIN` milliseconds is refused |
| TimeDeltas.UnitsInNanoseconds | patch/chrono-0.4.42/src/time_delta.rs:221-300 | nanoseconds, microseconds, milliseconds and seconds as numbers of nanoseconds |
| TimeDeltas.CheckedAdd | patch/chrono-0.4.42/src/time_delta.rs:374-384 | for all operands whose seconds can be added without overflow: Some if and only if the exact sum is within the bounds, and then equal to it |
| TimeDeltas.CheckedSub | patch/chrono-0.4.42/src/time_delta.rs:388-398 | the same for the difference |
| TimeDeltas.SumFitsExactly | patch/chrono-0.4.42/src/time_delta.rs:375-379 | the unchecked intermediate seconds overflow exactly when the seconds' sum or the exact sum's whole seconds leave i64; valid operands never do |
| TimeDeltas.SignsFlip | patch/chrono-0.4.42/src/time_delta.rs:436-442 | negation and absolute value are exact and stay valid without a check |
| TimeDeltas.MulIsExact | patch/chrono-0.4.42/src/time_delta.rs:402-412 | the product is exact, or absent when its whole seconds leave the open i64 range |
| TimeDeltas.MulInRangeExactly | patch/chrono-0.4.42/src/time_delta.rs:402-412 | it is a valid delta if and only if the exact product is within the bounds |
| TimeDeltas.MulLeavesTheRange | patch/chrono-0.4.42/src/time_delta.rs:408-411 | the product does not check the bounds: concrete results outside, whose sum would overflow |
| TimeDeltas.DivIsClose | patch/chrono-0.4.42/src/time_delta.rs:416-432 | for every nonzero divisor: nanoseconds in range after one correction, never upward, and the error is at most 2(abs(rhs) - 1) nanoseconds |
| TimeDeltas.DivNanosRange | patch/chrono-0.4.42/src/time_delta.rs:423-430 | the uncorrected nanoseconds are strictly between plus and minus one second, so the casts lose nothing and the second match arm is dead |
| TimeDeltas.DivStaysValid | patch/chrono-0.4.42/src/time_delta.rs:416-432 | a valid delta divided stays within the bounds |
| TimeDeltas.DivIsAbsentExactly | patch/chrono-0.4.42/src/time_delta.rs:416-419 | only a divisor of zero has no quotient |
| TimeDeltas.DivLeftOver | patch/chrono-0.4.42/src/time_delta.rs:420-424 | what the result lacks is the sum of the two separate remainders |
| TimeDeltas.DivTruncatesExactly | patch/chrono-0.4.42/src/time_delta.rs:416-432 | the result is the truncated exact quotient if and only if that sum is itself a remainder |
| TimeDeltas.DivMayBeOneShort | patch/chrono-0.4.42/src/time_delta.rs:420-424 | 1.000000002 s divided by 3 is one nanosecond short |
| TimeDeltas.MulThenDivExactly | patch/chrono-0.4.42/src/time_delta.rs:402-432 | a product divided by its factor is the original if and only if the product is negative or its nanoseconds are a multiple of the factor |
| TimeDeltas.MulThenDivMayBeOneShort | patch/chrono-0.4.42/src/time_delta.rs:402-432 | 0.333333334 s times and then divided by 3 is one nanosecond short |
| TimeDeltaDisplay.Display | patch/chrono-0.4.42/src/time_delta.rs:587-617 | the formatter with its digit loop prints sign, seconds and stripped fraction; the loop terminates |
| TimeDeltaDisplay.StripKeepsTheFraction | patch/chrono-0.4.42/src/time_delta.rs:604-613 | stripping zeros keeps the fraction's value and leaves a last digit that is not zero |
| TimeDeltaDisplay.PrintedDenotesTotal | patch/chrono-0.4.42/src/time_delta.rs:587-617 | an independent reader of the duration format gets exactly the delta's nanoseconds from the printed text |
| TimeDeltaDisplay.PrintingIsInjective | patch/chrono-0.4.42/src/time_delta.rs:587-617 | different deltas print differently |
| TimeDeltaDisplay.NoTrailingZero | patch/chrono-0.4.42/src/time_delta.rs:601-614 | a printed fraction does not end in zero |
| TimeDeltaDisplay.ZeroIsZeroDays | patch/chrono-0.4.42/src/time_delta.rs:592-596 | `P0D` is printed for zero and for nothing else |
| TimeDeltaDisplay.SecondsAreCanonical | patch/chrono-0.4.42/src/time_delta.rs:587-617 | every other delta is printed as sign, `PT` and its whole seconds without a zero in front |
| Rounding.TimestampNanosExactly | patch/chrono-0.4.42/src/datetime/mod.rs:350-364 | the stamp is present exactly when it fits i64, although an intermediate could not |
| Rounding.TruncIsFloor | patch/chrono-0.4.42/src/round.rs:254-277 | the greatest multiple of the span not above the local time, or the right error |
| Rounding.RoundUpIsCeiling | patch/chrono-0.4.42/src/round.rs:279-302 | the least multiple not below, or the right error |
| Rounding.RoundIsNearest | patch/chrono-0.4.42/src/round.rs:220-252 | the nearest multiple with ties upward, or the right error |
| Rounding.MeetsIsUnique | patch/chrono-0.4.42/src/round.rs:220-302 | each of the three conditions leaves one multiple |
| Rounding.RoundingIsMonotone | patch/chrono-0.4.42/src/round.rs:220-302 | later local times never round to earlier ones |
| Rounding.RoundingIsBracketed | patch/chrono-0.4.42/src/round.rs:220-302 | truncated, rounded and rounded-up times are ordered, at most a span apart, and the middle one is one of the outer |
| Rounding.RoundingTwice | patch/chrono-0.4.42/src/round.rs:220-302 | rounding again changes nothing if and only if the time is not so close to an end of the i64 range that it rounds out of it, told from time and span; otherwise it is refused |
| Rounding.RoundedFitsExactly | patch/chrono-0.4.42/src/round.rs:220-302 | the rounded time fits i64 nanoseconds exactly when the time lies between limits given by the first and last multiples that do |
| Rounding.RoundedTimeMayNotFit | patch/chrono-0.4.42/src/round.rs:254-277 | truncating the earliest stamp to a second leaves that range |
| Rounding.SubsecsMeanTheSame | patch/chrono-0.4.42/src/round.rs:56-80 | rounding and truncating to digits are nearest and floor multiples of 10^(9 - digits) nanoseconds of the whole stamp, before 1970 too |
| Rounding.SpanIsPowerOfTen | patch/chrono-0.4.42/src/round.rs:83-98 | the table is ten to the number of digits dropped from nine |
| Rounding.SubsecsAgreeWithDuration | patch/chrono-0.4.42/src/round.rs:56-97 | they agree with `duration_round` and `duration_trunc` by the duration of the last digit |
| DaysFromCe.NumDaysFromCe | patch/chrono-0.4.42/src/traits.rs:252-267 | the shift-based count is the sum of the lengths of all years before plus the ordinal, for negative years too; no intermediate leaves i32 |
| DaysFromCe.FormulaCountsYears | patch/chrono-0.4.42/src/traits.rs:252-267 | 365(y-1) plus and minus the rounded-down quarters, hundredths and four-hundredths is the sum of year lengths |
| DaysFromCe.NextDayIsOneMore | patch/chrono-0.4.42/src/traits.rs:252-267 | the next date counts one more, across year ends |
| DaysFromCe.DocumentedDates | patch/chrono-0.4.42/src/traits.rs:241-252 | the documented counts of dates around the year one and of 1970 |
| DaysFromCe.CountsFollowTheCalendar | patch/chrono-0.4.42/src/traits.rs:252-267 | counts are ordered exactly as the dates are |
| ModelIndex.Models.constructor | src/core/constant.rs:242-282 | list, offered ids and index at start-up |
| ModelIndex.Models.FindId | src/core/constant.rs:321-324 | the last model of the list with that id, as a linear search from the end finds it |
| ModelIndex.Models.Update | src/core/constant.rs:330-566 | raw list, list, offered ids and index after an update, or nothing changed and an error for an empty list |
| ModelIndex.IndexIsLastPosition | src/core/constant.rs:273 | the map built from the list holds exactly its ids, each at its last position |
| ModelIndex.ModeDecidesWhoWins | src/core/constant.rs:452-496 | which model a name finds after the list is replaced: the fetched one, or with appending the one listed before |
| ModelIndex.FetchedAreFound | src/core/constant.rs:336-353 | after the list is replaced, every fetched model has an entry under the id the server declares for the chosen source |
| ModelFetch.ConvertKeepsAll | src/core/constant.rs:336-445 | each fetched model is converted at its place, under its three declared ids and with each of its two mode flags |
| ModelFetch.FirstFetchOffersExactly | src/core/constant.rs:504-558 | after the first fetch into an empty list, in any mode, an id is offered if and only if some fetched model declares it, with or without `-online`, or behind `-max` if the server gives it both flags |
| ModelFetch.ReplacedListOffersExactly | src/core/constant.rs:504-558 | the same after an undisturbed update that replaces any list |
| ModelFetch.OffersAreInOrder | src/core/constant.rs:242-272 | a further model adds its two or four offers at the end, in order |
| ModelFetch.KeptOfTwo | src/core/constant.rs:518-545 | what stays offered stays in its order |
| ModelFetch.LetThroughListHasItsIds | src/core/constant.rs:498-564 | an answer that is let through leaves a list that has the new one's ids at every place, and is the new one unless the ids were already those |
| ModelFetch.OneMoreFetched | src/core/constant.rs:452-496 | what one more fetched model adds to the list, and removes from it, in each mode |
| ModelFetch.OneMoreListed | src/core/constant.rs:452-480 | which listed models stay in front when the list is replaced |
| ModelFetch.LookupIsGreatest | src/core/constant.rs:273 | a lookup finds the model at the greatest position with the id |
| ModelFetch.SameListMeansSameIds | src/core/constant.rs:498-501 | a fetch counts as the list already there exactly when the three ids agree at every place, whatever the flags |
| ModelFetch.LastAnswerIsKept | src/core/constant.rs:356-361 | after any updates the last non-empty answer is kept as it came |
| ModelFetch.ThrottledRunKeepsList | src/core/constant.rs:363-379 | throttled and empty answers change neither the list nor what is offered or found |
| ModelCache.IndexIsAlwaysCurrent | src/core/constant.rs:561 | after every sequence of updates the index has every id of the list at an in-range position of its last model |
| ModelCache.RemovesExactly | src/core/constant.rs:518-545 | a removed model takes exactly the four forms of its id out of the cache |
| ModelCache.CreatedIsExact | src/core/constant.rs:263-272 | at start-up the offered ids are exactly those of the list |
| ModelCache.CacheStaysExactExactly | src/core/constant.rs:504-558 | for any lists and ids, the incrementally maintained offers equal those of the new list if and only if no model that goes takes an offer of one that stays and no model that stays gains or gives up an offer, except where an added or removed model makes up for it |
| ModelCache.AgreeingFlagsKeepOffers | src/core/constant.rs:504-558 | where no id that stays changes between one mode and both, only taking can disturb |
| ModelCache.BareIdsOnlyChangeModes | src/core/constant.rs:504-558 | among ids without the suffixes nothing is taken, so exactness is that the modes agree |
| ModelCache.OffersAreExactExactly | src/core/constant.rs:263-272 | from start-up on, for any list and any updates, the offers are those of the list at every point of the run if and only if every update leaves the list alone or is undisturbed in that sense |
| ModelCache.SteadyRunsAreQuiet | src/core/constant.rs:504-564 | runs in which no id ends in a suffix and modes depend on the id are of that kind |
| ModelCache.BuiltInListIsNotSteady | src/core/constant.rs:610-622 | the built-in list is not: it names a model `gemini-2.5-pro-max` |
| ModelCache.BuiltInMaxIsLost | src/core/constant.rs:518-545 | with any source of ids, the first fetch with a dual `gemini-2.5-pro` and no `gemini-2.5-pro-max` ends the offer of the former's `-max` form |
| ModelCache.NamesakeTakesOffer | src/core/constant.rs:518-545 | a model named like the `-max` form of a dual one takes that offer along when it goes |
| ModelCache.NamesakeIsTaken | src/core/constant.rs:518-545 | a model that goes takes the offer of one named like its `-max` form |
| ModelCache.ModeChangeIsNotHeard | src/core/constant.rs:498-501 | a fetch with the ids of the list leaves the offers as they are, so they are those of the fetched models exactly when no id has changed between one mode and both |
| NaturalArgs.FromArgs | src/natural_args.rs:109-139 | the nested loops produce the tokens of all words of all arguments in order |
| NaturalArgs.TakePhrase | src/natural_args.rs:148-243 | one round of the loop takes at least one token and only tokens that are there, and keeps what is still to be done |
| NaturalArgs.Parse | src/natural_args.rs:144-247 | the loop yields the actions of the whole token list and ends |
| NaturalPhrases.LongestPhraseIsTaken | src/natural_args.rs:154-241 | on any tokens, the longest documented phrase at the position is taken with its meaning; where there is none one token is skipped |
| NaturalPhrases.PhrasesAreUnambiguous | src/natural_args.rs:154-241 | phrases with the same tokens mean the same |
| NaturalPhrases.SplitOnceBehind | src/natural_args.rs:213-223 | an address splits at the first colon; without one it does not |
| NaturalSpeech.SpeechIsUnderstood | src/natural_args.rs:109-247 | any list of documented phrases with unrelated words between them, tokenised and parsed, yields the phrases' actions in order |
| NaturalSpeech.PortsAreNumbersExactly | src/natural_args.rs:127-133 | a decimal numeral is a number token if and only if it is at most 65535 |
| NaturalSpeech.NumeralsAreNumbers | src/natural_args.rs:127-133 | digits are a number token if and only if their value is at most 65535, with or without a plus sign and with leading zeros |
| NaturalSpeech.WordsAreToldApart | src/natural_args.rs:109-139 | the twelve keywords, the numbers and the plain words, each by its own list |
| NaturalSpeech.AddressIsPlain | src/natural_args.rs:127-133 | a word with a colon is neither keyword nor number |
| NaturalSpeech.OneArgumentEach | src/natural_args.rs:112-113 | words given as one argument each are the words |
| NaturalSpeech.OneArgumentForAll | src/natural_args.rs:112-113 | so are words given in one quoted argument |

## Left out

- ArcStrPool.StepKeepsInv: memory layout, `unsafe` reads, memory orderings and allocation failure; blocks are abstract ids, atomics are sequentially consistent steps, the table is a map with one arbitrary fixed hash, and the lock is only its mutual exclusion.
- ArcStrPool.RunKeepsInv: a drop that re-checks a block another drop has already freed is modelled as changing nothing. What the code then reads is outside the model; `ArcStrSafety.DoubleDropRun` and `ArcStrSafety.DanglesExactlyOnDoubleDrop` say when that state arises.
- ArcStrPool.ReachableInv: the abort on a count beyond `isize::MAX` is the absence of a step.
- AnthropicClient.StreamedEqualsBuffered: streams whose tool calls arrive in pieces; the writer starts a block for each piece (`AnthropicLayout.ResponseIsLaidOut`), the buffered path collects them until they parse (`AnthropicClient.PiecesBecomeOneBlock`).
- OpenAiText.StreamedEqualsBuffered: streams with thinking after content, where the buffered path moves all thinking to the front by design.
- AnthropicStream.Writer.ProcessMessages: message ids, model names, usage and timing, and the bytes of the server-sent events; an event is a datatype value.
- GrpcDecoder.StreamDecoder.Decode: the processor is any partial function; gzip and protobuf decoding are libraries. Offsets are unbounded, as for 64-bit `usize`.
- DotenvParse.ParseValueLoop: `char::is_alphanumeric` is a parameter, of which lemmas about references assume that braces, double quote and dollar are not alphanumeric.
- DotenvLines.QuotedLines.Next: read errors and invalid UTF-8.
- DotenvLoad.Environment.LoadFile: environment values that are not Unicode, and names or values that `set_var` refuses.
- DotenvRoundTrip.PrintedFileReadsBack: it assumes that no earlier key is empty, which `DotenvLoad.ContextsStayInEnv` proves for every load.
- TimeDeltas.CheckedAdd: what a sum is whose seconds overflow, which the code does not check; products can lead there (`TimeDeltas.MulLeavesTheRange`).
- Rounding.RoundIsNearest: leap seconds, and time zones whose offset changes between the two instants; local time and instant differ by a fixed amount.
- Rounding.SubsecsMeanTheSame: the ends of the calendar, where adding to the last second panics; stamps are unbounded.
- ModelIndex.Models.Update: display names, owners and the other flags, the clock behind the half-hour throttle and the reading of the fetch mode, which are inputs.
- NaturalArgs.Parse: carrying the actions out, and the exit after help.
- HTTP handlers, request building, authentication, logging, profiles and the user interface: input and output.
- The rest of chrono: calendar fields, formats, time zones and week sets.
- `src/leak/manually_init.rs`, and the older copy of the interner in `src/leak/arc.rs`, which is not compiled.
