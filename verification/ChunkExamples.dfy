/** Byte streams on which the conditions of `TimesSurviveIff` and `TransparentIff` fail. */
module ChunkExamples {
  import opened Bytes
  import opened RtmpTypes
  import opened ChunkGrammar
  import opened ChunkDelivery
  import opened ChunkWriter
  import opened ChunkRoundTrip
  import opened ChunkExact

  // ---------- Times that depend on the cut ----------

  /** `second` follows `first` on its stream, adds to the time, has payload and finishes a message. */
  predicate AddsTime(first: Chunk, second: Chunk, size: U32) {
    && LegalChunk(map[], first, size)
    && var next := Deliver(map[], first).0;
       && LegalChunk(next, second, size)
       && second.basic.csid == first.basic.csid
       && (second.header.SameStream? || second.header.TimeOnly?)
       && second.header.time.v != 0
       && second.data != []
       && Deliver(next, second).1 != []
  }

  lemma AddedTimeIsSensitive(first: Chunk, second: Chunk, size: U32)
    requires AddsTime(first, second, size)
    ensures Sensitive(Get(Deliver(map[], first).0, second.basic.csid), second)
  {
    hide Header.Bytes, BasicBytes;
  }

  /** Any message whose header only adds to the time of the one before is exposed to cuts. */
  lemma DeltaIsExposed(first: Chunk, second: Chunk, size: U32)
    requires AddsTime(first, second, size)
    ensures ValidStreams(map[])
    ensures Exposed(map[], Serialize(first) + Serialize(second), size, iset{})
    ensures !TimesSurviveCuts(Serialize(first) + Serialize(second), size)
  {
    var next := Deliver(map[], first).0;
    var data := Serialize(first) + Serialize(second);
    AddedTimeIsSensitive(first, second, size);
    hide Serialize, Deliver, Frame, Exposed, Sensitive, TimesSurviveCuts, LegalChunk;
    DeliverKeepsValid(map[], first, size);
    FrameComplete(map[], first, Serialize(second), size);
    assert Serialize(second) + [] == Serialize(second);
    FrameComplete(next, second, [], size);
    assert data[|Serialize(first)|..] == Serialize(second);
    ExposedUnfold(next, Serialize(second), size, Taint(map[], first, iset{}));
    ExposedUnfold(map[], data, size, iset{});
    TimesSurviveIff(data, size);
  }

  /** One byte of audio at time 5 on stream 2, and one more a millisecond later. */
  const AUDIO_AT_FIVE := Chunk(Basic(0, 2, 1), Full(Short(5), 1, AUDIO, 1), [7])
  const AUDIO_LATER := Chunk(Basic(2, 2, 1), TimeOnly(Short(1)), [9])

  lemma SomeTimesDepend()
    ensures AddsTime(AUDIO_AT_FIVE, AUDIO_LATER, 128)
    ensures !TimesSurviveCuts(Serialize(AUDIO_AT_FIVE) + Serialize(AUDIO_LATER), 128)
  {
    assert Deliver(map[], AUDIO_AT_FIVE).0 == map[2 := Known(5, 0, 0, 1, AUDIO, 1, [])];
    DeltaIsExposed(AUDIO_AT_FIVE, AUDIO_LATER, 128);
  }

  // ---------- A message completed out of the one behind it ----------

  /** A message with an extended time in two chunks of one byte, and an empty one behind it. */
  const LATE := Message(0x100_0000, 2, 8, 1, 3, [7, 9])
  const BEHIND := Message(9, 0, 8, 1, 3, [])

  /** What the parser makes of the second chunk of `LATE` and the start of `BEHIND`. */
  const BORROWED := Chunk(Basic(3, 3, 1), Continue(Some(0x0903_0000)), [9])

  lemma LateBytes()
    ensures MoreBytes(LATE, 1, 1) == [0xC3, 9]
  {
    MoreBytesStep(LATE, 1, 1);
    MoreBytesEnd(LATE, 1);
  }

  lemma BehindBytes()
    ensures |Encoded(BEHIND, 1)| == 12 && Encoded(BEHIND, 1)[..5] == [3, 0, 0, 9, 0]
  {
    EncodedParts(BEHIND, 1);
    MoreBytesEnd(BEHIND, 1);
  }

  lemma BorrowedBytes()
    ensures BORROWED.basic.Valid() && BORROWED.header.Valid()
    ensures Serialize(BORROWED) == [0xC3, 9, 3, 0, 0, 9]
  {
    assert BE32(0x0903_0000) == [9, 3, 0, 0];
  }

  lemma BorrowedCompletes()
    ensures var next := map[3 := Receiving(LATE, 1)];
      && ValidStreams(next)
      && LegalChunk(next, BORROWED, 1)
      && Deliver(next, BORROWED).1 == [LATE]
  {
    assert LATE.payload[..1] + [9] == LATE.payload;
    hide Header.Bytes;
  }

  lemma SpliceBytes(more: seq<Byte>, tail: seq<Byte>)
    requires more == [0xC3, 9] && |tail| == 12 && tail[..5] == [3, 0, 0, 9, 0]
    ensures more + tail == [0xC3, 9, 3, 0, 0, 9] + tail[4..]
  {
    assert forall i :: 0 <= i < 4 ==> tail[i] == tail[..5][i];
  }

  /**
   A message that is not transparent may still be completed, out of the bytes behind it: three bytes
   of the next message pass for a part of the repeated time, and its fourth one for payload.
   */
  lemma CompletedFromBehind()
    ensures WellFormed(LATE) && !Sendable(LATE, 1) && Sendable(BEHIND, 1) && ValidStreams(map[])
    ensures LATE in ParseAll(map[], Encoded(LATE, 1) + Encoded(BEHIND, 1), 1).out
  {
    var first, more, tail := FirstChunk(LATE, 1), MoreBytes(LATE, 1, 1), Encoded(BEHIND, 1);
    LateBytes();
    BehindBytes();
    BorrowedBytes();
    BorrowedCompletes();
    SpliceBytes(more, tail);
    FirstLeaves(map[], LATE, 1);
    FirstBytes(LATE, 1);
    EncodedParts(LATE, 1);
    hide Serialize, Deliver, Encoded, MoreBytes, Frame, ParseAll, FirstChunk, LegalChunk,
         Receiving, BasicOut, HeaderOut;
    Associate(Serialize(first), more, tail);
    FrameComplete(map[], first, more + tail, 1);
    FrameComplete(map[3 := Receiving(LATE, 1)], BORROWED, tail[4..], 1);
    ParseAllUnfold(map[], Encoded(LATE, 1) + tail, 1);
    assert (Encoded(LATE, 1) + tail)[|Serialize(first)|..] == more + tail;
    ParseAllUnfold(map[3 := Receiving(LATE, 1)], more + tail, 1);
  }
}
