/** Exactly which messages survive being written and parsed again. */
module ChunkExact {
  import opened Bytes
  import opened RtmpTypes
  import opened ChunkGrammar
  import opened ChunkParser
  import opened ChunkRefinement
  import opened ChunkDelivery
  import opened ChunkWriter
  import opened ChunkRoundTrip

  /** Chunks needed for `n` payload bytes. */
  function Pieces(n: nat, size: U32): nat
    requires 0 < size
  {
    if n == 0 then 0 else if n <= size then 1 else 1 + Pieces(n - size, size)
  }

  /** Fewest bytes that carry `n` payload bytes on stream `csid`: a basic header for every piece. */
  function Cost(n: nat, csid: nat, size: U32): nat
    requires 0 < size
  {
    n + Width(csid) * Pieces(n, size)
  }

  lemma {:induction false} CostMonotone(a: nat, b: nat, csid: nat, size: U32)
    requires 0 < size && a <= b
    ensures Cost(a, csid, size) <= Cost(b, csid, size)
    decreases b
  {
    if b > size && a > size {
      CostMonotone(a - size, b - size, csid, size);
    }
  }

  /** Fewest bytes still needed before a message of `length` bytes can come out of `s`. */
  function Need(s: Stream, length: nat, csid: nat, size: U32): nat
    requires 0 < size && s.Valid()
  {
    if s.Known? && s.length == length && s.received != [] then Cost(length - |s.received|, csid, size)
    else Cost(length, csid, size)
  }

  lemma NeedAtMost(s: Stream, length: nat, csid: nat, size: U32)
    requires 0 < size && s.Valid()
    ensures Need(s, length, csid, size) <= Cost(length, csid, size)
  {
    if s.Known? && s.length == length && s.received != [] {
      CostMonotone(length - |s.received|, length, csid, size);
    }
  }

  predicate Long(m: Message, length: nat, csid: nat) {
    m.chunkStreamId == csid && |m.payload| == length
  }

  /** A chunk brings a long message nearer by no more than its own bytes, less its message header. */
  lemma ChunkPays(s: Stream, c: Chunk, length: nat, csid: nat, size: U32)
    requires 0 < size < length && s.Valid() && LegalOn(s, c, csid, size) && csid < 65600
    ensures var (s', out) := After(s, c, csid);
      var paid := Width(csid) + |c.data|;
      && s'.Valid()
      && (out != [] && Long(out[0], length, csid) ==> Need(s, length, csid, size) <= paid)
      && Need(s, length, csid, size) <= Need(s', length, csid, size) + paid
  {
    hide Header.Bytes;
    NeedAtMost(s, length, csid, size);
    var s1 := OnHeader(s, c.header);
    if s1.length == length && |s1.received| + |c.data| < length {
      var left := length - |s1.received|;
      assert |c.data| == size;
      assert Pieces(left, size) == 1 + Pieces(left - size, size);
      CostSplit(left, csid, size);
      if s1.received == [] {
        assert Cost(left, csid, size) == Cost(length, csid, size);
      }
    }
  }

  lemma CostSplit(n: nat, csid: nat, size: U32)
    requires 0 < size < n
    ensures Cost(n, csid, size) == size + Width(csid) + Cost(n - size, csid, size)
  {
    var w, p := Width(csid), Pieces(n - size, size);
    assert w * (1 + p) == w + w * p;
  }

  /** A chunk on `csid` is at least as long as what it pays for, plus its message header. */
  lemma ChunkLength(c: Chunk)
    requires c.basic.Valid() && c.header.Valid()
    ensures |Serialize(c)| >= Width(c.basic.csid) + |c.header.Bytes()| + |c.data|
  {
    hide Header.Bytes;
  }

  lemma {:induction false} Starved(streams: Streams, b: seq<Byte>, length: nat, csid: nat, size: U32)
    requires 0 < size < length && csid < 65600 && ValidStreams(streams)
    requires Get(streams, csid).Valid() && |b| < Need(Get(streams, csid), length, csid, size)
    ensures forall m :: m in ParseAll(streams, b, size).out ==> !Long(m, length, csid)
    decreases |b|
  {
    hide Frame, ParseAll, Serialize, OnHeader, OnData, Expected, Need, Header.Bytes, Basic.Valid;
    ParseAllUnfold(streams, b, size);
    match Frame(streams, b, size)
    case More =>
    case Bad =>
    case One(c) =>
      var (next, out) := Deliver(streams, c);
      var rest := b[|Serialize(c)|..];
      ChunkLength(c);
      assert Get(next, csid).Valid();
      if c.basic.csid == csid {
        ChunkPays(Get(streams, csid), c, length, csid, size);
      } else {
        OtherOutput(streams, c, size, csid);
      }
      OneOutput(streams, c, size);
      Starved(next, rest, length, csid, size);
  }

  lemma OneOutput(streams: Streams, c: Chunk, size: U32)
    requires LegalChunk(streams, c, size)
    ensures |Deliver(streams, c).1| <= 1
  {
  }

  lemma OtherOutput(streams: Streams, c: Chunk, size: U32, csid: nat)
    requires LegalChunk(streams, c, size) && c.basic.csid != csid
    ensures Get(Deliver(streams, c).0, csid) == Get(streams, csid)
    ensures forall m :: m in Deliver(streams, c).1 ==> m.chunkStreamId != csid
  {
  }

  lemma {:induction false} MoreBytesCost(m: Message, at: nat, size: U32)
    requires WellFormed(m) && 0 < size && at <= |m.payload|
    ensures |MoreBytes(m, at, size)| == Cost(|m.payload| - at, m.chunkStreamId, size)
    decreases |m.payload| - at
  {
    hide MoreBytes, BasicOut;
    if at < |m.payload| {
      var n := Min(|m.payload| - at, size);
      BasicOutIsBasic(3, m.chunkStreamId);
      MoreBytesStep(m, at, size);
      MoreBytesCost(m, at + n, size);
      if n == size && at + n < |m.payload| {
        CostSplit(|m.payload| - at, m.chunkStreamId, size);
      }
    } else {
      MoreBytesEnd(m, size);
    }
  }

  /**
   The parser takes four payload bytes of the second chunk for a repeated extended timestamp, so
   the rest of the bytes cannot finish the message.
   */
  lemma SecondStarves(streams: Streams, m: Message, size: U32)
    requires WellFormed(m) && 0 < size < |m.payload| && m.timestamp >= 0xFFFFFF
    requires Get(streams, m.chunkStreamId) == Receiving(m, size) && ValidStreams(streams)
    ensures m !in ParseAll(streams, MoreBytes(m, size, size), size).out
  {
    hide Frame, ParseAll, Serialize, MoreBytes, OnHeader, OnData, Expected, BasicOut, Header.Bytes, Basic.Valid;
    var csid, length := m.chunkStreamId, |m.payload|;
    var more := MoreBytes(m, size, size);
    MoreBytesCost(m, size, size);
    ParseAllUnfold(streams, more, size);
    if Frame(streams, more, size).One? {
      var c := Frame(streams, more, size).chunk;
      SecondRepeats(streams, m, size);
      ChunkLength(c);
      assert Get(streams, csid).Valid();
      ChunkPays(Get(streams, csid), c, length, csid, size);
      OneOutput(streams, c, size);
      assert Get(Deliver(streams, c).0, csid).Valid();
      Starved(Deliver(streams, c).0, more[|Serialize(c)|..], length, csid, size);
    }
  }

  /** Whatever was parsed before, a long message with an extended time is not among its own bytes' messages. */
  lemma ExtendedIsLost(streams: Streams, m: Message, size: U32)
    requires WellFormed(m) && 0 < size < |m.payload| && m.timestamp >= 0xFFFFFF && ValidStreams(streams)
    ensures m !in ParseAll(streams, Encoded(m, size), size).out
  {
    hide Frame, ParseAll, Serialize, Deliver, MoreBytes, OnHeader, Expected, Encoded, FirstChunk, BasicOut, HeaderOut,
         Header.Bytes, Basic.Valid, Receiving;
    var first, more := FirstChunk(m, size), MoreBytes(m, size, size);
    FirstLeaves(streams, m, size);
    FirstBytes(m, size);
    EncodedParts(m, size);
    FrameComplete(streams, first, more, size);
    ParseAllUnfold(streams, Encoded(m, size), size);
    assert Encoded(m, size)[|Serialize(first)|..] == more;
    SecondStarves(Deliver(streams, first).0, m, size);
  }

  lemma FirstLeaves(streams: Streams, m: Message, size: U32)
    requires WellFormed(m) && 0 < size < |m.payload| && ValidStreams(streams)
    ensures LegalChunk(streams, FirstChunk(m, size), size)
    ensures Deliver(streams, FirstChunk(m, size)) == (streams[m.chunkStreamId := Receiving(m, size)], [])
  {
    assert Get(streams, m.chunkStreamId).Valid();
    assert [] + m.payload[..size] == m.payload[..size];
  }

  lemma SecondRepeats(streams: Streams, m: Message, size: U32)
    requires WellFormed(m) && 0 < size < |m.payload| && m.timestamp >= 0xFFFFFF
    requires Get(streams, m.chunkStreamId) == Receiving(m, size) && ValidStreams(streams)
    requires Frame(streams, MoreBytes(m, size, size), size).One?
    ensures var c := Frame(streams, MoreBytes(m, size, size), size).chunk;
      c.basic.csid == m.chunkStreamId && |c.header.Bytes()| == 4
  {
    hide Frame, ReadBasic, ReadHeader, MoreBytes, OnHeader, Expected, Serialize, BE32, Receiving, Get, BasicBytes;
    var b := MoreBytes(m, size, size);
    MoreStartsBasic(m, size);
    FrameParts(streams, b, size);
    ExtReceiving(streams, m, size);
  }

  lemma MoreStartsBasic(m: Message, size: U32)
    requires WellFormed(m) && 0 < size < |m.payload|
    ensures ReadBasic(MoreBytes(m, size, size)) == Some(Basic(3, m.chunkStreamId, Width(m.chunkStreamId)))
  {
    var tail := MoreStartsOut(m, size);
    BasicOutIsBasic(3, m.chunkStreamId);
    hide *;
    BasicRoundTrip(Basic(3, m.chunkStreamId, Width(m.chunkStreamId)), tail);
  }

  lemma MoreStartsOut(m: Message, size: U32) returns (tail: seq<Byte>)
    requires 0 < size < |m.payload|
    ensures MoreBytes(m, size, size) == BasicOut(3, m.chunkStreamId) + tail
  {
    hide MoreBytes, BasicOut;
    MoreBytesStep(m, size, size);
    var n := Min(|m.payload| - size, size);
    tail := m.payload[size..size + n] + MoreBytes(m, size + n, size);
  }

  lemma ExtReceiving(streams: Streams, m: Message, size: U32)
    requires WellFormed(m) && 0 < size < |m.payload| && m.timestamp >= 0xFFFFFF
    requires Get(streams, m.chunkStreamId) == Receiving(m, size)
    ensures Get(streams, m.chunkStreamId).Known? && Get(streams, m.chunkStreamId).ext != 0
  {
  }

  /** A single message comes back whole exactly when the writer had no extended time to repeat. */
  lemma RoundTripIff(m: Message, size: U32)
    requires WellFormed(m) && 0 < size
    ensures var r := ParseLoop(map[], Encoded(m, size), size);
      r.Outcome? && (r.out == [m] && r.rest == [] && r.ok <==> m.timestamp < 0xFFFFFF || |m.payload| <= size)
  {
    hide ParseLoop, ParseAll, Encoded, AllLegal, DeliverSeq;
    StartIsCoupled();
    AllAgreeCoupled(map[], map[], Encoded(m, size));
    LoopRefines(map[], map[], Encoded(m, size), size);
    if Sendable(m, size) {
      hide Chunks;
      EncodedIsChunks(m, size);
      ChunksDeliver(Fresh, m, size);
      ChunksWritten(m, size);
      OneMessage(map[], m, size);
      ParseSerialized(map[], Chunks(m, size), size);
    } else {
      ExtendedIsLost(map[], m, size);
    }
  }

  // ---------- In the middle of other traffic ----------

  /** Whatever bytes follow, the parser hands out `m` and goes on with them as if `m` had come alone. */
  ghost predicate Transparent(streams: Streams, m: Message, size: U32)
    requires ValidStreams(streams) && WellFormed(m) && 0 < size
  {
    ValidStreams(AfterMessage(streams, m)) && forall rest :: PassesOver(streams, m, rest, size)
  }

  ghost predicate PassesOver(streams: Streams, m: Message, rest: seq<Byte>, size: U32)
    requires ValidStreams(streams) && WellFormed(m) && 0 < size && ValidStreams(AfterMessage(streams, m))
  {
    var p := ParseAll(AfterMessage(streams, m), rest, size);
    ParseAll(streams, Encoded(m, size) + rest, size) == p.(out := [m] + p.out)
  }

  lemma MessageParses(streams: Streams, m: Message, size: U32)
    requires ValidStreams(streams) && Sendable(m, size)
    ensures ParseAll(streams, Encoded(m, size), size) == Parsed(AfterMessage(streams, m), [], [m], true)
  {
    hide ParseAll, Encoded, AllLegal, DeliverSeq, Chunks, AfterMessage;
    EncodedIsChunks(m, size);
    OneMessage(streams, m, size);
    ParseSerialized(streams, Chunks(m, size), size);
  }

  lemma AfterMessageIsValid(streams: Streams, m: Message)
    requires ValidStreams(streams) && WellFormed(m)
    ensures ValidStreams(AfterMessage(streams, m))
  {
    forall k ensures Get(AfterMessage(streams, m), k).Valid() {
      assert Get(streams, k).Valid();
    }
  }

  /**
   The same boundary in any context: writing a message leaves whatever precedes and follows it
   undisturbed exactly when its time is not extended or it fits one chunk. Otherwise the parser may
   well complete the message, but only out of the bytes behind it.
   */
  lemma TransparentIff(streams: Streams, m: Message, size: U32)
    requires ValidStreams(streams) && WellFormed(m) && 0 < size
    ensures Transparent(streams, m, size) <==> m.timestamp < 0xFFFFFF || |m.payload| <= size
  {
    AfterMessageIsValid(streams, m);
    hide ParseAll, Encoded, AfterMessage;
    if Sendable(m, size) {
      MessageParses(streams, m, size);
      forall rest ensures PassesOver(streams, m, rest, size) {
        ParseAllSplit(streams, Encoded(m, size), rest, size);
        assert [] + rest == rest;
      }
    } else {
      ExtendedIsLost(streams, m, size);
      assert Encoded(m, size) + [] == Encoded(m, size);
      var after := ParseAll(AfterMessage(streams, m), [], size).out;
      assert ([m] + after)[0] == m;
      assert !PassesOver(streams, m, [], size);
    }
  }
}
