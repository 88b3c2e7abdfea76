/** Length-Prefixed-Message framing (the "Requests" section of the gRPC over HTTP2 protocol): one
    flag byte, a four-byte big-endian length, then the message. */
module GrpcFrames {
  import opened Wrappers
  import opened Sequences
  import opened RustInt

  type Byte = b: int | 0 <= b < 256

  datatype Frame = Frame(kind: Byte, data: seq<Byte>)

  /** `u32::from_be_bytes`, for any number of bytes. */
  function FromBe(bytes: seq<Byte>): nat {
    if bytes == [] then 0
    else FromBe(bytes[..|bytes| - 1]) * 256 + bytes[|bytes| - 1]
  }

  /** The message length in the header of a complete first frame. */
  function FirstLength(s: seq<Byte>): Option<nat> {
    if |s| < 5 then None
    else
      var n := FromBe(s[1..5]);
      if 5 + n > |s| then None else Some(n)
  }

  /** All complete frames from the front. */
  function Frames(s: seq<Byte>): seq<Frame>
    decreases |s|
  {
    match FirstLength(s)
    case None => []
    case Some(n) => [Frame(s[0], s[5..5 + n])] + Frames(s[5 + n..])
  }

  /** What is left behind the last complete frame. */
  function Rest(s: seq<Byte>): seq<Byte>
    decreases |s|
  {
    match FirstLength(s)
    case None => s
    case Some(n) => Rest(s[5 + n..])
  }

  // ----- Encoding, the inverse

  /** `u32::to_be_bytes`, for any number of bytes. */
  function ToBe(n: nat, size: nat): (r: seq<Byte>)
    ensures |r| == size
  {
    if size == 0 then [] else ToBe(n / 256, size - 1) + [n % 256]
  }

  function Power256(size: nat): nat {
    if size == 0 then 1 else 256 * Power256(size - 1)
  }

  predicate Encodable(f: Frame) {
    |f.data| < U32_RANGE
  }

  predicate AllEncodable(frames: seq<Frame>) {
    forall f <- frames :: Encodable(f)
  }

  function Encode(f: Frame): seq<Byte>
    requires Encodable(f)
  {
    [f.kind] + ToBe(|f.data|, 4) + f.data
  }

  function EncodeAll(frames: seq<Frame>): seq<Byte>
    requires AllEncodable(frames)
  {
    if frames == [] then [] else Encode(frames[0]) + EncodeAll(frames[1..])
  }

  lemma Power256Of4()
    ensures Power256(4) == U32_RANGE
  {
  }

  lemma {:induction false} FromBeToBe(n: nat, size: nat)
    requires n < Power256(size)
    ensures FromBe(ToBe(n, size)) == n
  {
    if size > 0 {
      FromBeToBe(n / 256, size - 1);
      assert ToBe(n, size)[..size - 1] == ToBe(n / 256, size - 1);
    }
  }

  lemma {:induction false} ToBeFromBe(bytes: seq<Byte>)
    ensures FromBe(bytes) < Power256(|bytes|)
    ensures ToBe(FromBe(bytes), |bytes|) == bytes
    decreases |bytes|
  {
    if bytes != [] {
      var high, low := bytes[..|bytes| - 1], bytes[|bytes| - 1];
      ToBeFromBe(high);
      assert FromBe(bytes) / 256 == FromBe(high) && FromBe(bytes) % 256 == low;
      assert bytes == high + [low];
    }
  }

  lemma {:induction false} RestIsIncomplete(s: seq<Byte>)
    ensures FirstLength(Rest(s)) == None
    decreases |s|
  {
    var length := FirstLength(s);
    if length.Some? {
      RestIsIncomplete(s[5 + length.value..]);
    }
  }

  /** The header byte by byte: a flag, then the length with its highest byte first. */
  lemma HeaderIsBigEndian(kind: Byte, a: Byte, b: Byte, c: Byte, d: Byte, rest: seq<Byte>)
    ensures var n := a * 0x100_0000 + b * 0x1_0000 + c * 0x100 + d;
      FirstLength([kind, a, b, c, d] + rest) == if n <= |rest| then Some(n) else None
  {
    var s := [kind, a, b, c, d] + rest;
    assert s[1..5] == [a, b, c, d];
    FromBeOfFour(a, b, c, d);
  }

  lemma FromBeOfOneMore(bytes: seq<Byte>, b: Byte)
    ensures FromBe(bytes + [b]) == FromBe(bytes) * 256 + b
  {
    assert (bytes + [b])[..|bytes|] == bytes;
  }

  lemma FromBeOfFour(a: Byte, b: Byte, c: Byte, d: Byte)
    ensures FromBe([a, b, c, d]) == a * 0x100_0000 + b * 0x1_0000 + c * 0x100 + d
  {
    FromBeOfOneMore([], a);
    FromBeOfOneMore([a], b);
    FromBeOfOneMore([a, b], c);
    FromBeOfOneMore([a, b, c], d);
    assert [] + [a] == [a] && [a] + [b] == [a, b] && [a, b] + [c] == [a, b, c] && [a, b, c] + [d] == [a, b, c, d];
  }

  /** A complete frame is its flag and the bytes that the length counts, and reading goes on right
      behind them. */
  lemma FrameIsCutOut(kind: Byte, a: Byte, b: Byte, c: Byte, d: Byte, data: seq<Byte>, rest: seq<Byte>)
    requires |data| == a * 0x100_0000 + b * 0x1_0000 + c * 0x100 + d
    ensures var s := [kind, a, b, c, d] + (data + rest);
      Frames(s) == [Frame(kind, data)] + Frames(rest) && Rest(s) == Rest(rest)
  {
    var s := [kind, a, b, c, d] + (data + rest);
    HeaderIsBigEndian(kind, a, b, c, d, data + rest);
    assert s[5..5 + |data|] == data && s[5 + |data|..] == rest;
  }

  lemma HeaderReadsBack(f: Frame, s: seq<Byte>)
    requires Encodable(f) && |s| >= 5 + |f.data| && s[..5] == [f.kind] + ToBe(|f.data|, 4)
    ensures FirstLength(s) == Some(|f.data|) && s[0] == f.kind
  {
    assert s[1..5] == s[..5][1..] == ToBe(|f.data|, 4);
    assert s[0] == s[..5][0];
    Power256Of4();
    FromBeToBe(|f.data|, 4);
  }

  /** A frame at the front of anything is read back, and what follows is read as if alone. */
  lemma FirstFrameReadsBack(f: Frame, tail: seq<Byte>)
    requires Encodable(f)
    ensures Frames(Encode(f) + tail) == [f] + Frames(tail)
    ensures Rest(Encode(f) + tail) == Rest(tail)
  {
    var s := Encode(f) + tail;
    assert s[..5] == [f.kind] + ToBe(|f.data|, 4);
    HeaderReadsBack(f, s);
    assert s[5..5 + |f.data|] == f.data && s[5 + |f.data|..] == tail;
  }

  lemma FirstFrameEncodes(s: seq<Byte>, n: nat)
    requires FirstLength(s) == Some(n)
    ensures n < U32_RANGE && s == Encode(Frame(s[0], s[5..5 + n])) + s[5 + n..]
  {
    Power256Of4();
    ToBeFromBe(s[1..5]);
    assert s == [s[0]] + s[1..5] + s[5..5 + n] + s[5 + n..];
  }

  /** Round trip: encoded frames are decoded to themselves, whatever follows them. */
  lemma {:induction false} DecodeEncode(frames: seq<Frame>, tail: seq<Byte>)
    requires AllEncodable(frames)
    ensures Frames(EncodeAll(frames) + tail) == frames + Frames(tail)
    ensures Rest(EncodeAll(frames) + tail) == Rest(tail)
    decreases |frames|
  {
    if frames == [] {
      assert EncodeAll(frames) + tail == tail;
    } else {
      var f, later := frames[0], frames[1..];
      assert frames == [f] + later;
      Regroup(Encode(f), EncodeAll(later), tail);
      FirstFrameReadsBack(f, EncodeAll(later) + tail);
      DecodeEncode(later, tail);
      Regroup([f], later, Frames(tail));
    }
  }

  /** The bytes consumed are exactly the encoding of the frames yielded. */
  lemma {:induction false} EncodeDecode(s: seq<Byte>)
    ensures AllEncodable(Frames(s))
    ensures s == EncodeAll(Frames(s)) + Rest(s)
    decreases |s|
  {
    var length := FirstLength(s);
    if length.Some? {
      var n := length.value;
      var f, later := Frame(s[0], s[5..5 + n]), s[5 + n..];
      FirstFrameEncodes(s, n);
      EncodeDecode(later);
      Regroup(Encode(f), EncodeAll(Frames(later)), Rest(later));
    }
  }

  /** Reading on after more bytes have arrived. */
  lemma {:induction false} FramesAppend(s: seq<Byte>, t: seq<Byte>)
    ensures Frames(s + t) == Frames(s) + Frames(Rest(s) + t)
    ensures Rest(s + t) == Rest(Rest(s) + t)
  {
    EncodeDecode(s);
    assert s + t == EncodeAll(Frames(s)) + (Rest(s) + t);
    DecodeEncode(Frames(s), Rest(s) + t);
  }
}

/** The iterator over the complete frames of a buffer, and the decoder that carries the
    incomplete rest from one chunk to the next. */
module GrpcDecoder {
  import opened Wrappers
  import opened Sequences
  import opened GrpcFrames

  lemma HeaderAt(buffer: seq<Byte>, at: nat)
    requires at + 5 <= |buffer|
    ensures buffer[at..][1..5] == buffer[at + 1..at + 5]
  {
  }

  class MessageIter {
    const buffer: seq<Byte>
    var offset: nat

    ghost predicate Valid()
      reads this
    {
      offset <= |buffer|
    }

    constructor (buffer: seq<Byte>)
      ensures Valid() && this.buffer == buffer && offset == 0
    {
      this.buffer := buffer;
      offset := 0;
    }

    /** Yields the frame at the offset, or stays where it is for ever. */
    method Next() returns (r: Option<Frame>)
      requires Valid()
      modifies `offset
      ensures Valid()
      ensures match r
        case None => offset == old(offset) && Frames(buffer[offset..]) == []
        case Some(f) =>
          && Frames(old(buffer[offset..])) == [f] + Frames(buffer[offset..])
          && old(offset) + 5 + |f.data| == offset
      ensures Rest(buffer[offset..]) == Rest(old(buffer[offset..]))
    {
      if offset + 5 > |buffer| {
        return None;
      }
      ghost var s := buffer[offset..];
      HeaderAt(buffer, offset);
      var kind := buffer[offset];
      var n := FromBe(buffer[offset + 1..offset + 5]);
      if offset + 5 + n > |buffer| {
        return None;
      }
      offset := offset + 5;
      var data := buffer[offset..offset + n];
      offset := offset + n;
      assert FirstLength(s) == Some(n) && s[5..5 + n] == data && s[5 + n..] == buffer[offset..];
      r := Some(Frame(kind, data));
    }

    /** `size_hint` and `len`: exactly the number of frames `Next` will still yield. */
    method SizeHint() returns (count: nat)
      requires Valid()
      ensures count == |Frames(buffer[offset..])|
    {
      count := 0;
      var at := offset;
      while at + 5 <= |buffer|
        invariant offset <= at <= |buffer|
        invariant |Frames(buffer[offset..])| == count + |Frames(buffer[at..])|
        decreases |buffer| - at
      {
        ghost var s := buffer[at..];
        var n := FromBe(buffer[at + 1..at + 5]);
        HeaderAt(buffer, at);
        if at + 5 + n > |buffer| {
          break;
        }
        assert FirstLength(s) == Some(n) && s[5 + n..] == buffer[at + 5 + n..];
        count := count + 1;
        at := at + 5 + n;
      }
    }
  }

  /** What the processor keeps of a list of frames. */
  function Processed<T>(processor: Frame -> Option<T>, frames: seq<Frame>): seq<T> {
    if frames == [] then []
    else
      (match processor(frames[0]) case None => [] case Some(m) => [m]) + Processed(processor, frames[1..])
  }

  class StreamDecoder<T> {
    var buffer: seq<Byte>

    constructor ()
      ensures buffer == []
    {
      buffer := [];
    }

    /** Appends the chunk, hands every complete frame to the processor, keeps the rest. */
    method Decode(data: seq<Byte>, processor: Frame -> Option<T>) returns (messages: seq<T>)
      modifies this
      ensures messages == Processed(processor, Frames(old(buffer) + data))
      ensures buffer == Rest(old(buffer) + data)
    {
      buffer := buffer + data;
      var iter := new MessageIter(buffer);
      var exactCount := iter.SizeHint();
      messages := [];
      assert buffer[0..] == buffer;
      assert [] + Processed(processor, Frames(buffer)) == Processed(processor, Frames(buffer));
      while true
        invariant iter.Valid() && iter.buffer == buffer == old(buffer) + data
        invariant messages + Processed(processor, Frames(buffer[iter.offset..])) == Processed(processor, Frames(buffer))
        invariant Rest(buffer[iter.offset..]) == Rest(buffer)
        decreases |buffer| - iter.offset
      {
        var raw := iter.Next();
        if raw.None? {
          break;
        }
        ProcessedCons(processor, raw.value, Frames(buffer[iter.offset..]), messages);
        match processor(raw.value) {
          case None =>
          case Some(m) => messages := messages + [m];
        }
      }
      assert messages + [] == messages;
      NoFrameLeft(buffer[iter.offset..]);
      buffer := buffer[iter.offset..];
    }
  }

  lemma ProcessedCons<T>(processor: Frame -> Option<T>, f: Frame, frames: seq<Frame>, messages: seq<T>)
    ensures messages + Processed(processor, [f] + frames) ==
      match processor(f)
      case None => messages + Processed(processor, frames)
      case Some(m) => (messages + [m]) + Processed(processor, frames)
  {
  }

  lemma NoFrameLeft(s: seq<Byte>)
    requires Frames(s) == []
    ensures Rest(s) == s
  {
  }

  // ----- Any split into chunks

  /** Calling `Decode` on one chunk after the other. */
  function DecodeChunks<T>(processor: Frame -> Option<T>, buffer: seq<Byte>, chunks: seq<seq<Byte>>)
      : (seq<T>, seq<Byte>)
    decreases |chunks|
  {
    if chunks == [] then ([], buffer)
    else
      var all := buffer + chunks[0];
      var (messages, rest) := DecodeChunks(processor, Rest(all), chunks[1..]);
      (Processed(processor, Frames(all)) + messages, rest)
  }

  function Concat(chunks: seq<seq<Byte>>): seq<Byte> {
    if chunks == [] then [] else chunks[0] + Concat(chunks[1..])
  }

  lemma {:induction false} ProcessedAppend<T>(processor: Frame -> Option<T>, first: seq<Frame>, second: seq<Frame>)
    ensures Processed(processor, first + second) == Processed(processor, first) + Processed(processor, second)
    decreases |first|
  {
    if first == [] {
      assert first + second == second;
    } else {
      assert (first + second)[1..] == first[1..] + second;
      ProcessedAppend(processor, first[1..], second);
    }
  }

  /** Split invariance: however a byte stream is cut into chunks, the messages and the carry-over
      are those of decoding it in one call. */
  lemma {:induction false} SplitInvariance<T>(processor: Frame -> Option<T>, buffer: seq<Byte>, chunks: seq<seq<Byte>>)
    requires FirstLength(buffer) == None
    ensures DecodeChunks(processor, buffer, chunks) ==
      (var all := buffer + Concat(chunks); (Processed(processor, Frames(all)), Rest(all)))
    decreases |chunks|
  {
    if chunks == [] {
      assert buffer + Concat(chunks) == buffer;
    } else {
      var first, later := buffer + chunks[0], Concat(chunks[1..]);
      Regroup(buffer, chunks[0], later);
      FramesAppend(first, later);
      RestIsIncomplete(first);
      ProcessedAppend(processor, Frames(first), Frames(Rest(first) + later));
      SplitInvariance(processor, Rest(first), chunks[1..]);
    }
  }

  /** Each frame adds its message at its place, or nothing if the processor has none for it. */
  lemma ProcessedAround<T>(processor: Frame -> Option<T>, first: seq<Frame>, f: Frame, second: seq<Frame>)
    ensures Processed(processor, first + [f] + second) == Processed(processor, first) +
      (if processor(f).Some? then [processor(f).value] else []) + Processed(processor, second)
  {
    ProcessedAppend(processor, first + [f], second);
    ProcessedAppend(processor, first, [f]);
    assert [f][1..] == [];
  }
}
