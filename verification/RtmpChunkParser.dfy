/** The parser object: chunk states updated in place while a `Buffer` is drained. */
module RtmpChunkParser {
  import opened Bytes
  import opened RtmpTypes
  import opened Buffers
  import opened ChunkGrammar
  import opened ChunkParser
  import opened ChunkRefinement

  const DEFAULT_CHUNK_SIZE: U32 := 128

  class Parser {
    var inChunkSize: U32
    var chunkStreams: ChunkStreams

    /** The streams after the complete chunks and the drift of the attempts so far. */
    ghost var refs: Streams
    /** What the last call left at the front of the buffer. */
    ghost var leftover: seq<Byte>

    ghost predicate Valid()
      reads this
    {
      ValidStreams(refs) && Coupled(chunkStreams, refs, leftover)
    }

    constructor ()
      ensures Valid()
      ensures inChunkSize == 128 && chunkStreams == map[] && refs == map[] && leftover == []
    {
      inChunkSize := DEFAULT_CHUNK_SIZE;
      chunkStreams := map[];
      refs := map[];
      leftover := [];
    }

    method SetInChunkSize(size: U32)
      requires Valid()
      modifies this`inChunkSize
      ensures Valid() && inChunkSize == size
    {
      inChunkSize := size;
    }

    /**
     `parse`: the caller passes the same buffer every time, with bytes added behind what was left.
     The messages, verdict and leftover bytes are those of the chunk grammar; afterwards only the
     stream of an incomplete head chunk can differ from it, by one more time difference.
     */
    method Parse(buf: Buffer) returns (ok: bool, messages: seq<Message>)
      requires Valid() && buf.Valid() && leftover <= buf.Contents()
      modifies this, buf
      ensures Valid() && buf.Valid()
      ensures inChunkSize == old(inChunkSize)
      ensures var p := ParseAll(old(refs), old(buf.Contents()), inChunkSize);
        && ok == p.ok && messages == p.out && buf.Contents() == p.rest
        && refs == AfterParse(p) && leftover == p.rest
      ensures Outcome(ok, chunkStreams, buf.Contents(), messages)
        == ParseLoop(old(chunkStreams), old(buf.Contents()), inChunkSize)
    {
      hide ParseAll, Coupled, StepChunk, Frame, Deliver, Serialize, Retry;
      ghost var start, refs0, streams0 := buf.Contents(), refs, chunkStreams;
      assert start == leftover + start[|leftover|..];
      CoupledExtend(chunkStreams, refs, leftover, start[|leftover|..]);
      LoopRefines(chunkStreams, refs, start, inChunkSize);
      ok, messages := true, [];
      var going := true;
      while going && buf.ReadableBytes() > 0
        invariant buf.Valid() && inChunkSize == old(inChunkSize) && refs == refs0
        invariant if going
          then
            var r := ParseLoop(chunkStreams, buf.Contents(), inChunkSize);
            && ok && r.Outcome?
            && ParseLoop(streams0, start, inChunkSize) == Outcome(r.ok, r.streams, r.rest, messages + r.out)
          else
            ParseLoop(streams0, start, inChunkSize) == Outcome(ok, chunkStreams, buf.Contents(), messages)
        decreases going, |buf.Contents()|
      {
        ghost var before, was := messages, buf.Contents();
        ghost var r := ParseLoop(chunkStreams, was, inChunkSize);
        var readable := buf.ReadableBytes();
        var more: seq<Message>;
        ok, more := ParseOneChunk(buf);
        messages := messages + more;
        if !ok || buf.ReadableBytes() == readable {
          going := false;
        } else {
          ghost var tail := ParseLoop(chunkStreams, buf.Contents(), inChunkSize);
          assert before + (more + tail.out) == before + more + tail.out;
        }
      }
      assert messages + [] == messages;
      refs := AfterParse(ParseAll(refs0, start, inChunkSize));
      leftover := buf.Contents();
      RetryKeepsValid(ParseAll(refs0, start, inChunkSize).streams, leftover);
    }

    /** One round; the caller has shown that it does not run out of bounds. */
    method ParseOneChunk(buf: Buffer) returns (ok: bool, out: seq<Message>)
      requires buf.Valid() && StepChunk(chunkStreams, buf.Contents(), inChunkSize).ChunkStep?
      modifies this`chunkStreams, buf
      ensures buf.Valid()
      ensures var r := StepChunk(old(chunkStreams), old(buf.Contents()), inChunkSize);
        && ok == r.ok && chunkStreams == r.streams && out == r.out
        && buf.Contents() == old(buf.Contents())[r.consumed..]
    {
      hide ReadBasic, StepHeader, StepPayload;
      var data := buf.Peek();
      var readable := buf.ReadableBytes();
      ok, out := true, [];
      var basic := ParseBasicHeader(data);
      if basic.None? {
        return;
      }
      var csid, offset := basic.value.csid, basic.value.size;
      var state, headerSize;
      ok, state, headerSize := ParseMessageHeader(data[offset..], basic.value.fmt, Lookup(chunkStreams, csid));
      chunkStreams := chunkStreams[csid := state];
      if !ok {
        return;
      }
      var bareContinuation := basic.value.fmt == 3 && state.headerInitialized && state.extendedTimestamp == 0;
      if headerSize == 0 && !bareContinuation {
        return;
      }
      offset := offset + headerSize;
      if !state.headerInitialized {
        return;
      }
      var remaining := Wrap32(state.messageLength - state.bytesRead);
      var n := Min(remaining, inChunkSize);
      if readable < offset + n {
        return;
      }
      state, out := StorePayload(csid, state, data[offset..offset + n]);
      buf.Retrieve(offset + n);
      chunkStreams := chunkStreams[csid := state];
    }

    /** The end of a round: the bytes are copied in, and a finished message is handed out. */
    method StorePayload(csid: U32, before: ChunkStreamState, piece: seq<Byte>)
      returns (state: ChunkStreamState, out: seq<Message>)
      requires before.bytesRead + |piece| <= |before.payload|
      ensures (state, out) == StepPayload(csid, before, piece)
    {
      var at := before.bytesRead;
      state := before.(payload := before.payload[..at] + piece + before.payload[at + |piece|..]);
      state := state.(bytesRead := Wrap32(at + |piece|));
      out := [];
      if state.bytesRead == state.messageLength {
        out := [Message(state.timestamp, state.messageLength, state.typeId, state.messageStreamId,
                        csid, state.payload)];
        state := state.(bytesRead := 0, payload := []);
      }
    }

    method ParseBasicHeader(data: seq<Byte>) returns (basic: Option<Basic>)
      ensures basic == ReadBasic(data)
    {
      if |data| < 1 {
        return None;
      }
      var fmt, mark := data[0] / 64, data[0] % 64;
      if mark >= 2 {
        return Some(Basic(fmt, mark, 1));
      }
      if mark == 0 {
        if |data| < 2 {
          return None;
        }
        return Some(Basic(fmt, 64 + data[1] as int, 2));
      }
      if |data| < 3 {
        return None;
      }
      return Some(Basic(fmt, 64 + data[1] as int + data[2] as int * 0x100, 3));
    }

    /** The record is written field by field, also on the paths that then wait for more bytes. */
    method ParseMessageHeader(data: seq<Byte>, fmt: nat, before: ChunkStreamState)
      returns (ok: bool, state: ChunkStreamState, used: nat)
      requires fmt < 4
      ensures HeaderStep(ok, state, used) == StepHeader(before, fmt, data)
    {
      hide ReadBE24, ReadBE32, ReadLE32;
      ok, state, used := true, before, 0;
      if fmt == 0 {
        if |data| < 11 {
          return;
        }
        var timestamp := ReadBE24(data);
        state := state.(messageLength := ReadBE24(data[3..]));
        state := state.(typeId := data[6]);
        state := state.(messageStreamId := ReadLE32(data[7..]));
        state := state.(timestampDelta := 0);
        used := 11;
        if timestamp == 0xFFFFFF {
          if |data| < used + 4 {
            used := 0;
            return;
          }
          state := state.(extendedTimestamp := ReadBE32(data[used..]));
          state := state.(timestamp := state.extendedTimestamp);
          used := used + 4;
        } else {
          state := state.(extendedTimestamp := 0, timestamp := timestamp);
        }
        state := state.(bytesRead := 0, payload := Zeros(state.messageLength), headerInitialized := true);
        return;
      }
      if !state.headerInitialized {
        ok := false;
        return;
      }
      if fmt == 3 {
        if state.bytesRead == 0 && state.messageLength > 0 {
          state := state.(timestamp := Wrap32(state.timestamp + state.timestampDelta));
          state := state.(payload := Zeros(state.messageLength));
        }
        if state.extendedTimestamp != 0 {
          if |data| < 4 {
            return;
          }
          used := 4;
        }
        return;
      }
      var fixed := if fmt == 1 then 7 else 3;
      if |data| < fixed {
        return;
      }
      var delta := ReadBE24(data);
      if fmt == 1 {
        state := state.(messageLength := ReadBE24(data[3..]));
        state := state.(typeId := data[6]);
      }
      used := fixed;
      if delta == 0xFFFFFF {
        if |data| < used + 4 {
          used := 0;
          return;
        }
        state := state.(extendedTimestamp := ReadBE32(data[used..]));
        state := state.(timestampDelta := state.extendedTimestamp);
        used := used + 4;
      } else {
        state := state.(extendedTimestamp := 0, timestampDelta := delta);
      }
      state := state.(timestamp := Wrap32(state.timestamp + state.timestampDelta));
      state := state.(bytesRead := 0, payload := Zeros(state.messageLength));
    }
  }
}

/** A connection whose peer has not announced a chunk size. */
module RtmpFirstMessages {
  import opened Bytes
  import opened RtmpTypes
  import opened Buffers
  import opened ChunkParser
  import opened ChunkDelivery
  import opened ChunkRoundTrip
  import opened RtmpChunkParser

  lemma DeliverOne(streams: ChunkStreams, buffer: seq<Byte>, ds: seq<seq<Byte>>, size: U32)
    requires ds != []
    ensures DeliverAll(streams, buffer, ds, size) ==
      match ParseLoop(streams, buffer + ds[0], size)
      case Undefined => Undefined
      case Outcome(ok, next, rest, out) =>
        match DeliverAll(next, rest, ds[1..], size)
        case Undefined => Undefined
        case Outcome(ok', last, rest', out') =>
          Outcome(if |ds| == 1 then ok else ok', last, rest', out + out')
  {
    hide ParseLoop;
  }

  /**
   A new connection, without any Set Chunk Size: the messages that a peer writes in chunks of 128
   bytes come out exactly, however the bytes arrive, and none are left.
   */
  method FirstMessages(ms: seq<Message>, ds: seq<seq<Byte>>) returns (messages: seq<Message>, rest: seq<Byte>)
    requires forall m :: m in ms ==> Sendable(m, 128)
    requires Flatten(ds) == EncodedAll(ms, 128)
    ensures messages == ms && rest == []
  {
    hide DeliverAll, ParseLoop, EncodedAll, Sendable, Flatten;
    SequenceRoundTrip(ms, ds, 128);
    var parser := new Parser();
    var buf := new Buffer(1024);
    messages := [];
    assert ds[0..] == ds;
    for i := 0 to |ds|
      invariant parser.Valid() && buf.Valid() && parser.inChunkSize == 128 && parser.leftover <= buf.Contents()
      invariant fresh(parser) && fresh(buf)
      invariant var r := DeliverAll(parser.chunkStreams, buf.Contents(), ds[i..], 128);
        r.Outcome? && messages + r.out == ms && r.rest == []
    {
      ghost var streams, held, before := parser.chunkStreams, buf.Contents(), messages;
      DeliverOne(streams, held, ds[i..], 128);
      assert ds[i..][1..] == ds[i + 1..];
      buf.Append(ds[i]);
      var ok, more := parser.Parse(buf);
      messages := messages + more;
      NoDelivery(parser.chunkStreams, buf.Contents(), 128);
      ghost var tail := DeliverAll(parser.chunkStreams, buf.Contents(), ds[i + 1..], 128);
      assert before + (more + tail.out) == messages + tail.out;
    }
    NoDelivery(parser.chunkStreams, buf.Contents(), 128);
    rest := buf.Peek();
  }

  lemma NoDelivery(streams: ChunkStreams, buffer: seq<Byte>, size: U32)
    ensures DeliverAll(streams, buffer, [], size) == Outcome(true, streams, buffer, [])
  {
  }
}
