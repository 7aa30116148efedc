/** The chunk writer (rtmp/RtmpChunkWriter.cc): messages printed as chunks. */
module ChunkWriter {
  import opened Bytes
  import opened RtmpTypes
  import opened ChunkGrammar

  // ---------- The bytes the code appends ----------

  function BasicOut(fmt: nat, csid: U32): seq<Byte>
    requires fmt < 4
  {
    if csid < 64 then [fmt * 64 + csid]
    else if csid < 320 then [fmt * 64, csid - 64]
    else [fmt * 64 + 1, (csid - 64) % 0x100, (csid - 64) / 0x100 % 0x100]
  }

  function HeaderOut(m: Message): seq<Byte> {
    BE24(Min(m.timestamp, 0xFFFFFF)) + BE24(m.messageLength % 0x100_0000) + [m.typeId] + LE32(m.messageStreamId)
    + if m.timestamp >= 0xFFFFFF then BE32(m.timestamp) else []
  }

  /** The payload from `at` on: a format 3 basic header before every piece but the first. */
  function BodyOut(m: Message, at: nat, size: U32): seq<Byte>
    requires 0 < size && at <= |m.payload|
    decreases |m.payload| - at
  {
    if at == |m.payload| then []
    else
      var n := Min(|m.payload| - at, size);
      m.payload[at..at + n]
      + (if at + n < |m.payload| then BasicOut(3, m.chunkStreamId) else [])
      + BodyOut(m, at + n, size)
  }

  function Encoded(m: Message, size: U32): seq<Byte>
    requires 0 < size
  {
    BasicOut(0, m.chunkStreamId) + HeaderOut(m) + BodyOut(m, 0, size)
  }

  method AppendBasicHeader(out: seq<Byte>, fmt: nat, csid: U32) returns (r: seq<Byte>)
    requires fmt < 4
    ensures r == out + BasicOut(fmt, csid)
  {
    if csid < 64 {
      return out + [fmt * 64 + csid];
    }
    if csid < 320 {
      r := out + [fmt * 64];
      r := r + [csid - 64];
      return;
    }
    r := out + [fmt * 64 + 1];
    var value := csid - 64;
    r := r + [value % 0x100];
    r := r + [value / 0x100 % 0x100];
  }

  method AppendMessageHeader(out: seq<Byte>, m: Message) returns (r: seq<Byte>)
    ensures r == out + HeaderOut(m)
  {
    r := out + BE24(Min(m.timestamp, 0xFFFFFF));
    r := r + BE24(m.messageLength % 0x100_0000);
    r := r + [m.typeId];
    r := r + LE32(m.messageStreamId);
    if m.timestamp >= 0xFFFFFF {
      r := r + BE32(m.timestamp);
    }
  }

  lemma BodyOutStep(m: Message, at: nat, size: U32)
    requires 0 < size && at < |m.payload|
    ensures var n := Min(|m.payload| - at, size);
      BodyOut(m, at, size)
        == m.payload[at..at + n]
           + (if at + n < |m.payload| then BasicOut(3, m.chunkStreamId) else [])
           + BodyOut(m, at + n, size)
  {
    hide BasicOut;
  }

  /** A chunk size of zero would keep the code's loop from ending. */
  method EncodeMessage(m: Message, size: U32) returns (out: seq<Byte>)
    requires 0 < size
    ensures out == Encoded(m, size)
  {
    hide BasicOut, HeaderOut, BodyOut;
    out := AppendBasicHeader([], 0, m.chunkStreamId);
    out := AppendMessageHeader(out, m);
    var offset := 0;
    while offset < |m.payload|
      invariant 0 <= offset <= |m.payload|
      invariant out + BodyOut(m, offset, size) == Encoded(m, size)
    {
      var n := Min(|m.payload| - offset, size);
      ghost var before, piece, tail := out, m.payload[offset..offset + n], BodyOut(m, offset + n, size);
      ghost var basic := if offset + n < |m.payload| then BasicOut(3, m.chunkStreamId) else [];
      out := out + m.payload[offset..offset + n];
      if offset + n < |m.payload| {
        out := AppendBasicHeader(out, 3, m.chunkStreamId);
      }
      BodyOutStep(m, offset, size);
      assert out == before + piece + basic;
      Regroup(before, piece, basic, tail);
      offset := offset + n;
    }
    BodyOutEnd(m, size);
  }

  lemma BodyOutEnd(m: Message, size: U32)
    requires 0 < size
    ensures BodyOut(m, |m.payload|, size) == []
  {
  }

  // ---------- The chunks those bytes are ----------

  /** What the writer is for: an id with a basic header, and a length that says what follows. */
  predicate WellFormed(m: Message) {
    && 2 <= m.chunkStreamId < 65600
    && |m.payload| == m.messageLength < 0x100_0000
  }

  function Width(csid: nat): nat {
    if csid < 64 then 1 else if csid < 320 then 2 else 3
  }

  function TimeOf(timestamp: U32): Time {
    if timestamp < 0xFFFFFF then Short(timestamp) else Extended(timestamp)
  }

  function FirstChunk(m: Message, size: U32): Chunk
    requires WellFormed(m)
  {
    Chunk(Basic(0, m.chunkStreamId, Width(m.chunkStreamId)),
          Full(TimeOf(m.timestamp), m.messageLength, m.typeId, m.messageStreamId),
          m.payload[..Min(|m.payload|, size)])
  }

  function PieceChunk(m: Message, at: nat, size: U32): Chunk
    requires at <= |m.payload|
  {
    Chunk(Basic(3, m.chunkStreamId, Width(m.chunkStreamId)), Continue(None),
          m.payload[at..at + Min(|m.payload| - at, size)])
  }

  function MoreChunks(m: Message, at: nat, size: U32): seq<Chunk>
    requires 0 < size && at <= |m.payload|
    decreases |m.payload| - at
  {
    if at == |m.payload| then []
    else
      var n := Min(|m.payload| - at, size);
      [PieceChunk(m, at, size)] + MoreChunks(m, at + n, size)
  }

  function Chunks(m: Message, size: U32): seq<Chunk>
    requires WellFormed(m) && 0 < size
  {
    [FirstChunk(m, size)] + MoreChunks(m, Min(|m.payload|, size), size)
  }

  predicate Written(c: Chunk) {
    c.basic.Valid() && c.header.Valid()
  }

  function SerializeAll(cs: seq<Chunk>): seq<Byte>
    requires forall c :: c in cs ==> Written(c)
  {
    if cs == [] then [] else assert Written(cs[0]); Serialize(cs[0]) + SerializeAll(cs[1..])
  }

  lemma {:induction false} MoreChunksWritten(m: Message, at: nat, size: U32)
    requires WellFormed(m) && 0 < size && at <= |m.payload|
    ensures forall c :: c in MoreChunks(m, at, size) ==>
      Written(c) && c.basic.csid == m.chunkStreamId && c.header == Continue(None)
    decreases |m.payload| - at
  {
    if at < |m.payload| {
      MoreChunksWritten(m, at + Min(|m.payload| - at, size), size);
    }
  }

  lemma ChunksWritten(m: Message, size: U32)
    requires WellFormed(m) && 0 < size
    ensures forall c :: c in Chunks(m, size) ==>
      Written(c) && c.basic.csid == m.chunkStreamId && (c.header.Full? || c.header == Continue(None))
  {
    MoreChunksWritten(m, Min(|m.payload|, size), size);
  }

  lemma BasicOutIsBasic(fmt: nat, csid: nat)
    requires fmt < 4 && 2 <= csid < 65600
    ensures Basic(fmt, csid, Width(csid)).Valid()
    ensures BasicOut(fmt, csid) == BasicBytes(Basic(fmt, csid, Width(csid)))
  {
  }

  lemma HeaderOutIsHeader(m: Message)
    requires WellFormed(m)
    ensures HeaderOut(m) == Full(TimeOf(m.timestamp), m.messageLength, m.typeId, m.messageStreamId).Bytes()
  {
    hide BE24, BE32, LE32;
  }

  function MoreBytes(m: Message, at: nat, size: U32): seq<Byte>
    requires 0 < size && at <= |m.payload|
  {
    (if at < |m.payload| then BasicOut(3, m.chunkStreamId) else []) + BodyOut(m, at, size)
  }

  lemma PieceBytes(m: Message, at: nat, size: U32)
    requires WellFormed(m) && at <= |m.payload|
    ensures Written(PieceChunk(m, at, size))
    ensures Serialize(PieceChunk(m, at, size))
      == BasicOut(3, m.chunkStreamId) + m.payload[at..at + Min(|m.payload| - at, size)]
  {
    BasicOutIsBasic(3, m.chunkStreamId);
    hide BasicOut, BasicBytes, Width, Basic.Valid;
  }

  lemma FirstBytes(m: Message, size: U32)
    requires WellFormed(m) && 0 < size
    ensures Written(FirstChunk(m, size))
    ensures Serialize(FirstChunk(m, size))
      == BasicOut(0, m.chunkStreamId) + HeaderOut(m) + m.payload[..Min(|m.payload|, size)]
  {
    BasicOutIsBasic(0, m.chunkStreamId);
    HeaderOutIsHeader(m);
    hide BasicOut, BasicBytes, Width, Basic.Valid, HeaderOut, Header.Bytes;
  }

  lemma MoreChunksStep(m: Message, at: nat, size: U32)
    requires WellFormed(m) && 0 < size && at < |m.payload|
    ensures var n := Min(|m.payload| - at, size);
      MoreChunks(m, at, size) == [PieceChunk(m, at, size)] + MoreChunks(m, at + n, size)
  {
    hide PieceChunk;
  }

  lemma MoreChunksEnd(m: Message, size: U32)
    requires WellFormed(m) && 0 < size
    ensures MoreChunks(m, |m.payload|, size) == [] && SerializeAll([]) == []
  {
  }

  lemma PieceIsPositive(m: Message, at: nat, size: U32)
    requires 0 < size && at < |m.payload|
    ensures 0 < Min(|m.payload| - at, size) <= |m.payload| - at
  {
  }

  lemma PieceStep(m: Message, at: nat, size: U32)
    requires WellFormed(m) && 0 < size && at < |m.payload|
    ensures var n := Min(|m.payload| - at, size);
      && Written(PieceChunk(m, at, size))
      && MoreBytes(m, at, size) == Serialize(PieceChunk(m, at, size)) + MoreBytes(m, at + n, size)
  {
    MoreBytesStep(m, at, size);
    PieceBytes(m, at, size);
    hide MoreBytes, Serialize, Written, PieceChunk, BasicOut;
  }

  /** If the bytes behind a piece are those of the chunks behind it, so are the bytes from it on. */
  lemma BodyStep(m: Message, at: nat, size: U32)
    requires WellFormed(m) && 0 < size && at < |m.payload|
    requires var rest := MoreChunks(m, at + Min(|m.payload| - at, size), size);
      && (forall c :: c in rest ==> Written(c))
      && MoreBytes(m, at + Min(|m.payload| - at, size), size) == SerializeAll(rest)
    ensures forall c :: c in MoreChunks(m, at, size) ==> Written(c)
    ensures MoreBytes(m, at, size) == SerializeAll(MoreChunks(m, at, size))
  {
    hide *;
    PieceIsPositive(m, at, size);
    PieceStep(m, at, size);
    MoreChunksStep(m, at, size);
    SerializeCons(PieceChunk(m, at, size), MoreChunks(m, at + Min(|m.payload| - at, size), size));
  }

  lemma {:induction false} BodyIsChunks(m: Message, at: nat, size: U32)
    requires WellFormed(m) && 0 < size && at <= |m.payload|
    ensures forall c :: c in MoreChunks(m, at, size) ==> Written(c)
    ensures MoreBytes(m, at, size) == SerializeAll(MoreChunks(m, at, size))
    decreases |m.payload| - at
  {
    hide *;
    if at < |m.payload| {
      PieceIsPositive(m, at, size);
      BodyIsChunks(m, at + Min(|m.payload| - at, size), size);
      BodyStep(m, at, size);
    } else {
      MoreBytesEnd(m, size);
      MoreChunksEnd(m, size);
    }
  }

  lemma MoreBytesEnd(m: Message, size: U32)
    requires 0 < size
    ensures MoreBytes(m, |m.payload|, size) == []
  {
  }

  lemma MoreBytesStep(m: Message, at: nat, size: U32)
    requires 0 < size && at < |m.payload|
    ensures var n := Min(|m.payload| - at, size);
      MoreBytes(m, at, size) == BasicOut(3, m.chunkStreamId) + m.payload[at..at + n] + MoreBytes(m, at + n, size)
  {
    hide BasicOut, BodyOut;
    var n := Min(|m.payload| - at, size);
    var basic := if at + n < |m.payload| then BasicOut(3, m.chunkStreamId) else [];
    BodyOutStep(m, at, size);
    Regroup(BasicOut(3, m.chunkStreamId), m.payload[at..at + n], basic, BodyOut(m, at + n, size));
  }

  lemma SerializeCons(c: Chunk, cs: seq<Chunk>)
    requires Written(c) && forall d :: d in cs ==> Written(d)
    ensures forall d :: d in [c] + cs ==> Written(d)
    ensures SerializeAll([c] + cs) == Serialize(c) + SerializeAll(cs)
  {
    assert ([c] + cs)[1..] == cs;
  }

  /** The code prints the chunks of the message. */
  lemma EncodedIsChunks(m: Message, size: U32)
    requires WellFormed(m) && 0 < size
    ensures forall c :: c in Chunks(m, size) ==> Written(c)
    ensures Encoded(m, size) == SerializeAll(Chunks(m, size))
  {
    ChunksWritten(m, size);
    FirstBytes(m, size);
    var n := Min(|m.payload|, size);
    BodyIsChunks(m, n, size);
    SerializeCons(FirstChunk(m, size), MoreChunks(m, n, size));
    hide *;
    EncodedParts(m, size);
    ChunksParts(m, size);
  }

  lemma EncodedParts(m: Message, size: U32)
    requires 0 < size
    ensures var n := Min(|m.payload|, size);
      Encoded(m, size) == BasicOut(0, m.chunkStreamId) + HeaderOut(m) + m.payload[..n] + MoreBytes(m, n, size)
  {
    BodyStart(m, size);
    hide BasicOut, HeaderOut, BodyOut, MoreBytes;
  }

  lemma ChunksParts(m: Message, size: U32)
    requires WellFormed(m) && 0 < size
    ensures Chunks(m, size) == [FirstChunk(m, size)] + MoreChunks(m, Min(|m.payload|, size), size)
  {
  }

  lemma BodyStart(m: Message, size: U32)
    requires 0 < size
    ensures var n := Min(|m.payload|, size);
      BodyOut(m, 0, size) == m.payload[..n] + MoreBytes(m, n, size)
  {
    hide BasicOut;
    var n := Min(|m.payload|, size);
    if n > 0 {
      assert m.payload[0..0 + n] == m.payload[..n];
    }
  }
}

/** Any interleaving of written messages, cut anywhere, is parsed back stream by stream. */
module ChunkRoundTrip {
  import opened Bytes
  import opened RtmpTypes
  import opened ChunkGrammar
  import opened ChunkParser
  import opened ChunkRefinement
  import opened ChunkDelivery
  import opened ChunkWriter

  /** Every chunk is legal on its stream at its turn. */
  ghost predicate AllLegal(streams: Streams, cs: seq<Chunk>, size: U32)
    decreases |cs|
  {
    cs == [] || (LegalChunk(streams, cs[0], size) && AllLegal(Deliver(streams, cs[0]).0, cs[1..], size))
  }

  ghost function DeliverSeq(streams: Streams, cs: seq<Chunk>, size: U32): (r: (Streams, seq<Message>))
    requires AllLegal(streams, cs, size)
    decreases |cs|
  {
    if cs == [] then (streams, [])
    else
      var (next, out) := Deliver(streams, cs[0]);
      var r := DeliverSeq(next, cs[1..], size);
      (r.0, out + r.1)
  }

  lemma {:induction false} LegalIsWritten(streams: Streams, cs: seq<Chunk>, size: U32)
    requires AllLegal(streams, cs, size)
    ensures forall c :: c in cs ==> Written(c)
    decreases |cs|
  {
    if cs != [] {
      LegalIsWritten(Deliver(streams, cs[0]).0, cs[1..], size);
    }
  }

  /** Legal chunks, written one after the other, are read back with nothing left over. */
  lemma {:induction false} ParseSerialized(streams: Streams, cs: seq<Chunk>, size: U32)
    requires ValidStreams(streams) && AllLegal(streams, cs, size)
    ensures forall c :: c in cs ==> Written(c)
    ensures var r := DeliverSeq(streams, cs, size);
      ParseAll(streams, SerializeAll(cs), size) == Parsed(r.0, [], r.1, true)
    decreases |cs|
  {
    hide Frame, Serialize, Deliver, ParseAll, OnHeader, Expected;
    LegalIsWritten(streams, cs, size);
    ParseAllUnfold(streams, SerializeAll(cs), size);
    if cs == [] {
      EmptyIsMore(streams, size);
    } else {
      var rest := SerializeAll(cs[1..]);
      FrameComplete(streams, cs[0], rest, size);
      assert SerializeAll(cs)[|Serialize(cs[0])|..] == rest;
      ParseSerialized(Deliver(streams, cs[0]).0, cs[1..], size);
    }
  }

  // ---------- One stream at a time ----------

  function Project(cs: seq<Chunk>, csid: nat): seq<Chunk> {
    if cs == [] then []
    else (if cs[0].basic.csid == csid then [cs[0]] else []) + Project(cs[1..], csid)
  }

  function OnStream(ms: seq<Message>, csid: nat): seq<Message> {
    if ms == [] then []
    else (if ms[0].chunkStreamId == csid then [ms[0]] else []) + OnStream(ms[1..], csid)
  }

  lemma {:induction false} OnStreamConcat(a: seq<Message>, b: seq<Message>, csid: nat)
    ensures OnStream(a + b, csid) == OnStream(a, csid) + OnStream(b, csid)
  {
    if a == [] {
      assert a + b == b;
    } else {
      OnStreamConcat(a[1..], b, csid);
      assert (a + b)[0] == a[0] && (a + b)[1..] == a[1..] + b;
      var head := if a[0].chunkStreamId == csid then [a[0]] else [];
      Associate(head, OnStream(a[1..], csid), OnStream(b, csid));
    }
  }

  predicate LegalOn(s: Stream, c: Chunk, csid: nat, size: U32) {
    && c.basic.Valid() && c.basic.csid == csid && c.header.Fmt() == c.basic.fmt
    && s.Valid() && Legal(s, c.header)
    && |c.data| == Expected(OnHeader(s, c.header), size)
  }

  function After(s: Stream, c: Chunk, csid: U32): (Stream, seq<Message>)
    requires Legal(s, c.header)
  {
    OnData(csid, OnHeader(s, c.header), c.data)
  }

  ghost predicate LegalStream(s: Stream, cs: seq<Chunk>, csid: U32, size: U32)
    decreases |cs|
  {
    cs == [] || (LegalOn(s, cs[0], csid, size) && LegalStream(After(s, cs[0], csid).0, cs[1..], csid, size))
  }

  ghost function StreamEnd(s: Stream, cs: seq<Chunk>, csid: U32, size: U32): (r: (Stream, seq<Message>))
    requires LegalStream(s, cs, csid, size)
    decreases |cs|
  {
    if cs == [] then (s, [])
    else
      var (s', out) := After(s, cs[0], csid);
      var r := StreamEnd(s', cs[1..], csid, size);
      (r.0, out + r.1)
  }

  ghost predicate LegalAt(streams: Streams, w: seq<Chunk>, size: U32, csid: U32) {
    LegalStream(Get(streams, csid), Project(w, csid), csid, size)
  }

  ghost predicate DemuxAt(streams: Streams, w: seq<Chunk>, out: seq<Message>, size: U32, csid: U32)
    requires LegalAt(streams, w, size, csid)
  {
    OnStream(out, csid) == StreamEnd(Get(streams, csid), Project(w, csid), csid, size).1
  }

  /** Chunks of different streams do not disturb each other, in whatever order they come. */
  lemma {:induction false} Demultiplex(streams: Streams, w: seq<Chunk>, size: U32)
    requires forall c :: c in w ==> c.basic.csid < 65600
    requires forall csid: U32 :: LegalAt(streams, w, size, csid)
    ensures AllLegal(streams, w, size)
    ensures forall csid: U32 :: DemuxAt(streams, w, DeliverSeq(streams, w, size).1, size, csid)
    decreases |w|
  {
    if w != [] {
      hide OnHeader, OnData, Expected;
      var head: U32, rest := w[0].basic.csid, w[1..];
      assert LegalAt(streams, w, size, head);
      assert Project(w, head)[1..] == Project(rest, head);
      var (next, out) := Deliver(streams, w[0]);
      forall csid: U32 ensures LegalAt(next, rest, size, csid) {
        assert LegalAt(streams, w, size, csid);
        assert [] + Project(rest, csid) == Project(rest, csid);
      }
      Demultiplex(next, rest, size);
      var tail := DeliverSeq(next, rest, size).1;
      OwnMessages(streams, w[0], size);
      forall csid: U32 ensures DemuxAt(streams, w, out + tail, size, csid) {
        assert LegalAt(streams, w, size, csid) && DemuxAt(next, rest, tail, size, csid);
        assert [] + Project(rest, csid) == Project(rest, csid);
        OnStreamConcat(out, tail, csid);
        assert [] + OnStream(tail, csid) == OnStream(tail, csid);
      }
    }
  }

  lemma OwnMessages(streams: Streams, c: Chunk, size: U32)
    requires LegalChunk(streams, c, size)
    ensures var out := Deliver(streams, c).1;
      forall csid :: OnStream(out, csid) == if csid == c.basic.csid then out else []
  {
    var out := Deliver(streams, c).1;
    assert |out| <= 1;
  }

  // ---------- The chunks of one message ----------

  /** Continuation chunks carry no extended timestamp, so there must be none to repeat. */
  predicate Sendable(m: Message, size: U32) {
    WellFormed(m) && 0 < size && (m.timestamp < 0xFFFFFF || |m.payload| <= size)
  }

  /** The stream of `m` after `at` bytes of its payload. */
  function Receiving(m: Message, at: nat): Stream
    requires at <= |m.payload| && m.messageLength < 0x100_0000
  {
    Known(m.timestamp, 0, TimeOf(m.timestamp).Ext(), m.messageLength, m.typeId, m.messageStreamId,
          if at == m.messageLength then [] else m.payload[..at])
  }

  /** One more piece of the payload arrives. */
  lemma PieceDelivers(m: Message, at: nat, size: U32)
    requires Sendable(m, size) && m.timestamp < 0xFFFFFF && 0 < at < |m.payload|
    ensures var n := Min(|m.payload| - at, size);
      var c := PieceChunk(m, at, size);
      && LegalOn(Receiving(m, at), c, m.chunkStreamId, size)
      && After(Receiving(m, at), c, m.chunkStreamId)
         == (Receiving(m, at + n), if at + n == |m.payload| then [m] else [])
  {
    var n := Min(|m.payload| - at, size);
    assert m.payload[..at] + m.payload[at..at + n] == m.payload[..at + n];
    if at + n == |m.payload| {
      assert m.payload[..at + n] == m.payload;
    }
  }

  lemma PieceLegal(m: Message, at: nat, size: U32)
    requires at <= |m.payload| && WellFormed(m) && m.timestamp < 0xFFFFFF
    ensures Legal(Receiving(m, at), Continue(None))
  {
  }

  lemma {:induction false} MoreChunksDeliver(m: Message, at: nat, size: U32)
    requires Sendable(m, size) && m.timestamp < 0xFFFFFF && 0 < at <= |m.payload|
    ensures var s, cs := Receiving(m, at), MoreChunks(m, at, size);
      && LegalStream(s, cs, m.chunkStreamId, size)
      && StreamEnd(s, cs, m.chunkStreamId, size) == (Receiving(m, |m.payload|), if at < |m.payload| then [m] else [])
    decreases |m.payload| - at
  {
    hide After, LegalOn, Receiving, OnHeader, OnData, Expected, Basic.Valid, Width, TimeOf, PieceChunk, Min;
    if at < |m.payload| {
      PieceDelivers(m, at, size);
      PieceIsPositive(m, at, size);
      var n := Min(|m.payload| - at, size);
      MoreChunksDeliver(m, at + n, size);
      MoreChunksStep(m, at, size);
      hide MoreChunks, LegalStream, StreamEnd;
      var c := PieceChunk(m, at, size);
      PieceLegal(m, at, size);
      StreamCons(Receiving(m, at), c, MoreChunks(m, at + n, size), m.chunkStreamId, size);
      Units(m);
    }
  }

  lemma Units(m: Message)
    ensures [] + [m] == [m] && [m] + [] == [m]
  {
  }

  lemma StreamCons(s: Stream, c: Chunk, cs: seq<Chunk>, csid: U32, size: U32)
    requires LegalOn(s, c, csid, size) && Legal(s, c.header) && LegalStream(After(s, c, csid).0, cs, csid, size)
    ensures LegalStream(s, [c] + cs, csid, size)
    ensures var (s', out) := After(s, c, csid);
      var r := StreamEnd(s', cs, csid, size);
      StreamEnd(s, [c] + cs, csid, size) == (r.0, out + r.1)
  {
    assert ([c] + cs)[0] == c && ([c] + cs)[1..] == cs;
  }

  /** Whatever the stream held before, the first chunk of a message starts it. */
  lemma FirstDelivers(s: Stream, m: Message, size: U32)
    requires s.Valid() && Sendable(m, size)
    ensures var n := Min(|m.payload|, size);
      && LegalOn(s, FirstChunk(m, size), m.chunkStreamId, size)
      && After(s, FirstChunk(m, size), m.chunkStreamId)
         == (Receiving(m, n), if n == |m.payload| then [m] else [])
  {
    var n := Min(|m.payload|, size);
    assert [] + m.payload[..n] == m.payload[..n];
    if n == |m.payload| {
      assert m.payload[..n] == m.payload;
    }
  }

  lemma ChunksDeliver(s: Stream, m: Message, size: U32)
    requires s.Valid() && Sendable(m, size)
    ensures LegalStream(s, Chunks(m, size), m.chunkStreamId, size)
    ensures StreamEnd(s, Chunks(m, size), m.chunkStreamId, size) == (Receiving(m, |m.payload|), [m])
  {
    var n := Min(|m.payload|, size);
    FirstDelivers(s, m, size);
    hide After, LegalOn, Receiving, Basic.Valid, OnHeader, OnData;
    if n < |m.payload| {
      MoreChunksDeliver(m, n, size);
    }
    var first, more := FirstChunk(m, size), MoreChunks(m, n, size);
    StreamCons(s, first, more, m.chunkStreamId, size);
    Units(m);
  }

  function AllChunks(ms: seq<Message>, size: U32): seq<Chunk>
    requires 0 < size && forall m :: m in ms ==> WellFormed(m)
  {
    if ms == [] then [] else Chunks(ms[0], size) + AllChunks(ms[1..], size)
  }

  lemma {:induction false} StreamEndConcat(s: Stream, a: seq<Chunk>, b: seq<Chunk>, csid: U32, size: U32)
    requires LegalStream(s, a, csid, size)
    requires LegalStream(StreamEnd(s, a, csid, size).0, b, csid, size)
    ensures LegalStream(s, a + b, csid, size)
    ensures var x := StreamEnd(s, a, csid, size);
      var y := StreamEnd(x.0, b, csid, size);
      StreamEnd(s, a + b, csid, size) == (y.0, x.1 + y.1)
    decreases |a|
  {
    hide OnHeader, OnData, Expected;
    if a == [] {
      assert a + b == b;
      assert [] + StreamEnd(s, b, csid, size).1 == StreamEnd(s, b, csid, size).1;
    } else {
      StreamEndConcat(After(s, a[0], csid).0, a[1..], b, csid, size);
      assert (a + b)[0] == a[0] && (a + b)[1..] == a[1..] + b;
      var y := StreamEnd(StreamEnd(s, a, csid, size).0, b, csid, size);
      var out, tail := After(s, a[0], csid).1, StreamEnd(After(s, a[0], csid).0, a[1..], csid, size).1;
      Associate(out, tail, y.1);
    }
  }

  lemma {:induction false} AllChunksDeliver(s: Stream, ms: seq<Message>, csid: U32, size: U32)
    requires s.Valid() && 0 < size
    requires forall m :: m in ms ==> Sendable(m, size) && m.chunkStreamId == csid
    ensures forall m :: m in ms ==> WellFormed(m)
    ensures LegalStream(s, AllChunks(ms, size), csid, size)
    ensures StreamEnd(s, AllChunks(ms, size), csid, size).1 == ms
    decreases |ms|
  {
    if ms != [] {
      hide OnHeader, OnData, Expected, Chunks, LegalStream, StreamEnd, LegalOn, After;
      assert ms[0] in ms;
      ChunksDeliver(s, ms[0], size);
      var s' := Receiving(ms[0], |ms[0].payload|);
      AllChunksDeliver(s', ms[1..], csid, size);
      StreamEndConcat(s, Chunks(ms[0], size), AllChunks(ms[1..], size), csid, size);
      assert [ms[0]] + ms[1..] == ms;
    } else {
      assert AllChunks(ms, size) == [];
    }
  }

  // ---------- Times ----------

  ghost predicate Still(streams: Streams) {
    forall csid :: StillAt(streams, csid)
  }

  predicate StillAt(streams: Streams, csid: nat) {
    Get(streams, csid).Known? ==> Get(streams, csid).delta == 0
  }

  /** Writers that send no time differences never expose a time. */
  lemma {:induction false} WrittenIsNotExposed(streams: Streams, w: seq<Chunk>, size: U32)
    requires ValidStreams(streams) && AllLegal(streams, w, size) && Still(streams)
    requires forall c :: c in w ==> c.header.Full? || c.header.Continue?
    ensures forall c :: c in w ==> Written(c)
    ensures !Exposed(streams, SerializeAll(w), size, iset{})
    decreases |w|
  {
    hide Frame, Serialize, Exposed, OnData, Expected, BasicBytes, Header.Bytes;
    LegalIsWritten(streams, w, size);
    ExposedUnfold(streams, SerializeAll(w), size, iset{});
    if w == [] {
      EmptyIsMore(streams, size);
    } else {
      var rest := SerializeAll(w[1..]);
      FrameComplete(streams, w[0], rest, size);
      assert SerializeAll(w)[|Serialize(w[0])|..] == rest;
      assert StillAt(streams, w[0].basic.csid);
      var next := Deliver(streams, w[0]).0;
      StaysStill(streams, w[0]);
      assert Taint(streams, w[0], iset{}) == iset{};
      WrittenIsNotExposed(next, w[1..], size);
    }
  }

  lemma StaysStill(streams: Streams, c: Chunk)
    requires c.basic.Valid() && Legal(Get(streams, c.basic.csid), c.header) && Still(streams)
    requires c.header.Full? || c.header.Continue?
    ensures Still(Deliver(streams, c).0)
  {
    forall csid ensures StillAt(Deliver(streams, c).0, csid) {
      assert StillAt(streams, csid) && StillAt(streams, c.basic.csid);
    }
  }

  // ---------- The round trip ----------

  function MessagesOf(traffic: map<nat, seq<Message>>, csid: nat): seq<Message> {
    if csid in traffic then traffic[csid] else []
  }

  /** Each stream carries messages the writer can print, under its own id. */
  ghost predicate GoodTraffic(traffic: map<nat, seq<Message>>, size: U32) {
    forall csid, m :: csid in traffic && m in traffic[csid] ==> Sendable(m, size) && m.chunkStreamId == csid
  }

  /** `w` is an order-preserving shuffle of the chunks of all streams. */
  ghost predicate Shuffle(w: seq<Chunk>, traffic: map<nat, seq<Message>>, size: U32)
    requires 0 < size && GoodTraffic(traffic, size)
  {
    && (forall c :: c in w ==> c.basic.csid in traffic)
    && forall csid :: csid in traffic ==> Project(w, csid) == AllChunks(traffic[csid], size)
  }

  lemma {:induction false} ProjectNone(w: seq<Chunk>, csid: nat)
    requires forall c :: c in w ==> c.basic.csid != csid
    ensures Project(w, csid) == []
  {
    if w != [] {
      ProjectNone(w[1..], csid);
    }
  }

  lemma {:induction false} InProject(w: seq<Chunk>, c: Chunk)
    requires c in w
    ensures c in Project(w, c.basic.csid)
  {
    if w[0] != c {
      InProject(w[1..], c);
    }
  }

  lemma {:induction false} AllChunksWritten(ms: seq<Message>, csid: nat, size: U32)
    requires 0 < size && forall m :: m in ms ==> WellFormed(m) && m.chunkStreamId == csid
    ensures forall c :: c in AllChunks(ms, size) ==>
      Written(c) && c.basic.csid == csid < 65600 && (c.header.Full? || c.header.Continue?)
  {
    if ms != [] {
      ChunksWritten(ms[0], size);
      AllChunksWritten(ms[1..], csid, size);
    }
  }

  lemma ShuffleChunk(w: seq<Chunk>, traffic: map<nat, seq<Message>>, size: U32, c: Chunk)
    requires 0 < size && GoodTraffic(traffic, size) && Shuffle(w, traffic, size) && c in w
    ensures Written(c) && c.basic.csid < 65600 && (c.header.Full? || c.header.Continue?)
  {
    InProject(w, c);
    AllChunksWritten(traffic[c.basic.csid], c.basic.csid, size);
  }

  lemma ShuffleIsLegal(w: seq<Chunk>, traffic: map<nat, seq<Message>>, size: U32)
    requires 0 < size && GoodTraffic(traffic, size) && Shuffle(w, traffic, size)
    ensures AllLegal(map[], w, size)
    ensures forall csid: U32 :: OnStream(DeliverSeq(map[], w, size).1, csid) == MessagesOf(traffic, csid)
  {
    forall c | c in w ensures c.basic.csid < 65600 {
      ShuffleChunk(w, traffic, size, c);
    }
    forall csid: U32
      ensures LegalAt(map[], w, size, csid)
      ensures StreamEnd(Get(map[], csid), Project(w, csid), csid, size).1 == MessagesOf(traffic, csid)
    {
      if csid in traffic {
        AllChunksDeliver(Fresh, traffic[csid], csid, size);
      } else {
        ProjectNone(w, csid);
      }
    }
    Demultiplex(map[], w, size);
    forall csid: U32 ensures OnStream(DeliverSeq(map[], w, size).1, csid) == MessagesOf(traffic, csid) {
      assert DemuxAt(map[], w, DeliverSeq(map[], w, size).1, size, csid);
    }
  }

  /**
   The interleaved round trip: any shuffle of the chunks of any messages on any streams, delivered
   in any pieces, comes back as exactly those messages, in order on each stream, times included,
   with every byte consumed.
   */
  lemma InterleavedRoundTrip(traffic: map<nat, seq<Message>>, w: seq<Chunk>, ds: seq<seq<Byte>>, size: U32)
    requires 0 < size && GoodTraffic(traffic, size) && Shuffle(w, traffic, size)
    ensures forall c :: c in w ==> Written(c)
    ensures Flatten(ds) == SerializeAll(w) ==>
      var r := DeliverAll(map[], [], ds, size);
      && r.Outcome? && r.ok && r.rest == []
      && forall csid: U32 :: OnStream(r.out, csid) == MessagesOf(traffic, csid)
  {
    hide DeliverAll, ParseLoop, ParseAll, DeliverSeq, AllLegal, Exposed;
    forall c | c in w ensures Written(c) && (c.header.Full? || c.header.Continue?) {
      ShuffleChunk(w, traffic, size, c);
    }
    ShuffleIsLegal(w, traffic, size);
    if Flatten(ds) == SerializeAll(w) {
      StartIsCoupled();
      AllAgreeCoupled(map[], map[], SerializeAll(w));
      LoopRefines(map[], map[], SerializeAll(w), size);
      ParseSerialized(map[], w, size);
      SegmentationIndependence(ds, size);
      assert forall csid :: StillAt(map[], csid);
      WrittenIsNotExposed(map[], w, size);
      TimesSurviveIff(SerializeAll(w), size);
    }
  }

  // ---------- Messages one after the other ----------

  /** The streams when `m` has just been received whole. */
  function AfterMessage(streams: Streams, m: Message): Streams
    requires m.messageLength < 0x100_0000
  {
    streams[m.chunkStreamId := Receiving(m, |m.payload|)]
  }

  /** Whatever was parsed before, the chunks of one message deliver it and leave its header behind. */
  lemma OneMessage(streams: Streams, m: Message, size: U32)
    requires ValidStreams(streams) && Sendable(m, size)
    ensures AllLegal(streams, Chunks(m, size), size)
    ensures DeliverSeq(streams, Chunks(m, size), size) == (AfterMessage(streams, m), [m])
  {
    hide Chunks, WellFormed, Receiving;
    assert Get(streams, m.chunkStreamId).Valid();
    ChunksDeliver(Get(streams, m.chunkStreamId), m, size);
    ChunksWritten(m, size);
    OnlyStream(streams, Chunks(m, size), m.chunkStreamId, size);
  }

  /** Chunks of one stream only: the whole parse is the stream's. */
  lemma {:induction false} OnlyStream(streams: Streams, cs: seq<Chunk>, csid: U32, size: U32)
    requires forall c :: c in cs ==> c.basic.csid == csid
    requires LegalStream(Get(streams, csid), cs, csid, size)
    ensures AllLegal(streams, cs, size)
    ensures DeliverSeq(streams, cs, size).1 == StreamEnd(Get(streams, csid), cs, csid, size).1
    ensures cs != [] ==>
      DeliverSeq(streams, cs, size).0 == streams[csid := StreamEnd(Get(streams, csid), cs, csid, size).0]
    decreases |cs|
  {
    if cs != [] {
      hide OnHeader, OnData, Expected;
      var next := Deliver(streams, cs[0]).0;
      OnlyStream(next, cs[1..], csid, size);
      var end := StreamEnd(Get(streams, csid), cs, csid, size).0;
      assert next[csid := end] == streams[csid := end];
    }
  }

  lemma {:induction false} DeliverConcat(streams: Streams, a: seq<Chunk>, b: seq<Chunk>, size: U32)
    requires AllLegal(streams, a, size) && AllLegal(DeliverSeq(streams, a, size).0, b, size)
    ensures AllLegal(streams, a + b, size)
    ensures var x := DeliverSeq(streams, a, size);
      var y := DeliverSeq(x.0, b, size);
      DeliverSeq(streams, a + b, size) == (y.0, x.1 + y.1)
    decreases |a|
  {
    hide LegalChunk, Deliver;
    if a == [] {
      assert a + b == b;
      assert [] + DeliverSeq(streams, b, size).1 == DeliverSeq(streams, b, size).1;
    } else {
      var (next, out) := DeliverHead(streams, a, size);
      DeliverConcat(next, a[1..], b, size);
      assert (a + b)[0] == a[0] && (a + b)[1..] == a[1..] + b;
      var x := DeliverSeq(next, a[1..], size);
      Associate(out, x.1, DeliverSeq(x.0, b, size).1);
    }
  }

  ghost function DeliverHead(streams: Streams, a: seq<Chunk>, size: U32): (Streams, seq<Message>)
    requires a != [] && AllLegal(streams, a, size)
  {
    Deliver(streams, a[0])
  }

  lemma {:induction false} DeliverSeqKeepsValid(streams: Streams, cs: seq<Chunk>, size: U32)
    requires ValidStreams(streams) && AllLegal(streams, cs, size)
    ensures ValidStreams(DeliverSeq(streams, cs, size).0)
    decreases |cs|
  {
    if cs != [] {
      DeliverKeepsValid(streams, cs[0], size);
      hide Deliver, LegalChunk, ValidStreams;
      DeliverSeqKeepsValid(Deliver(streams, cs[0]).0, cs[1..], size);
    }
  }

  lemma {:induction false} SequenceDelivers(streams: Streams, ms: seq<Message>, size: U32)
    requires ValidStreams(streams) && 0 < size && forall m :: m in ms ==> Sendable(m, size)
    ensures forall m :: m in ms ==> WellFormed(m)
    ensures AllLegal(streams, AllChunks(ms, size), size)
    ensures DeliverSeq(streams, AllChunks(ms, size), size).1 == ms
    ensures forall c :: c in AllChunks(ms, size) ==> Written(c) && (c.header.Full? || c.header.Continue?)
    decreases |ms|
  {
    if ms != [] {
      hide Chunks, Deliver, LegalChunk, DeliverSeq, AllLegal;
      assert ms[0] in ms;
      OneMessage(streams, ms[0], size);
      DeliverSeqKeepsValid(streams, Chunks(ms[0], size), size);
      SequenceDelivers(DeliverSeq(streams, Chunks(ms[0], size), size).0, ms[1..], size);
      DeliverConcat(streams, Chunks(ms[0], size), AllChunks(ms[1..], size), size);
      ChunksWritten(ms[0], size);
      assert [ms[0]] + ms[1..] == ms;
    }
  }

  function EncodedAll(ms: seq<Message>, size: U32): seq<Byte>
    requires 0 < size
  {
    if ms == [] then [] else Encoded(ms[0], size) + EncodedAll(ms[1..], size)
  }

  lemma {:induction false} EncodedAllIsChunks(ms: seq<Message>, size: U32)
    requires 0 < size && forall m :: m in ms ==> WellFormed(m)
    ensures forall c :: c in AllChunks(ms, size) ==> Written(c)
    ensures EncodedAll(ms, size) == SerializeAll(AllChunks(ms, size))
  {
    if ms != [] {
      hide Chunks, Encoded, WellFormed, Serialize, Basic.Valid, Header.Valid;
      EncodedIsChunks(ms[0], size);
      EncodedAllIsChunks(ms[1..], size);
      SerializeConcat(Chunks(ms[0], size), AllChunks(ms[1..], size));
    }
  }

  ghost predicate AllWritten(cs: seq<Chunk>) {
    forall c :: c in cs ==> Written(c)
  }

  lemma HeadTail(a: seq<Chunk>, b: seq<Chunk>)
    requires a != []
    ensures a == [a[0]] + a[1..] && a + b == [a[0]] + (a[1..] + b)
    ensures AllWritten(a) && AllWritten(b) ==> AllWritten(a[1..]) && AllWritten(a[1..] + b) && Written(a[0])
  {
    hide Written;
    if AllWritten(a) {
      assert a[0] in a;
    }
  }

  lemma {:induction false} SerializeConcat(a: seq<Chunk>, b: seq<Chunk>)
    requires AllWritten(a) && AllWritten(b)
    ensures AllWritten(a + b)
    ensures SerializeAll(a + b) == SerializeAll(a) + SerializeAll(b)
  {
    if a == [] {
      assert a + b == b;
      assert SerializeAll(a) == [];
    } else {
      hide Serialize, Basic.Valid, Header.Valid, SerializeAll, Written;
      HeadTail(a, b);
      var head, tail := a[0], a[1..];
      SerializeConcat(tail, b);
      SerializeCons(head, tail);
      SerializeCons(head, tail + b);
      hide AllWritten;
      Associate(Serialize(head), SerializeAll(tail), SerializeAll(b));
    }
  }

  /** Messages sent one after the other, on any streams, arrive in exactly that order. */
  lemma SequenceRoundTrip(ms: seq<Message>, ds: seq<seq<Byte>>, size: U32)
    requires 0 < size && forall m :: m in ms ==> Sendable(m, size)
    ensures Flatten(ds) == EncodedAll(ms, size) ==>
      DeliverAll(map[], [], ds, size).Outcome? &&
      var r := DeliverAll(map[], [], ds, size);
      r.ok && r.rest == [] && r.out == ms
  {
    hide DeliverAll, ParseLoop, ParseAll, DeliverSeq, AllLegal, Exposed, AllChunks, SerializeAll, EncodedAll;
    if Flatten(ds) == EncodedAll(ms, size) {
      StartIsCoupled();
      SequenceDelivers(map[], ms, size);
      var w := AllChunks(ms, size);
      EncodedAllIsChunks(ms, size);
      AllAgreeCoupled(map[], map[], SerializeAll(w));
      LoopRefines(map[], map[], SerializeAll(w), size);
      ParseSerialized(map[], w, size);
      SegmentationIndependence(ds, size);
      assert forall csid :: StillAt(map[], csid);
      WrittenIsNotExposed(map[], w, size);
      TimesSurviveIff(SerializeAll(w), size);
    }
  }
}
