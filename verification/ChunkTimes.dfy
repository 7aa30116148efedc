/** Messages under compressed headers (RTMP 1.0, section 5.3.1.2): what they inherit, and their times. */
module ChunkTimes {
  import opened Bytes
  import opened RtmpTypes
  import opened ChunkGrammar
  import opened ChunkParser
  import opened ChunkRefinement
  import opened ChunkDelivery
  import opened ChunkWriter
  import opened ChunkRoundTrip

  /** A message as a sender on one chunk stream writes it: the header of its first chunk, and its payload. */
  datatype Sent = Sent(header: Header, payload: seq<Byte>)

  // ---------- What the headers say, without any parser state ----------

  /** The time difference in force after message `i`: a full header has none, format 3 keeps the last one. */
  function DeltaAt(xs: seq<Sent>, i: nat): U32
    requires i < |xs|
  {
    match xs[i].header
    case Full(_, _, _, _) => 0
    case SameStream(t, _, _) => t.v
    case TimeOnly(t) => t.v
    case Continue(_) => if i == 0 then 0 else DeltaAt(xs, i - 1)
  }

  /** The time of the last full header and all the differences since, as an unbounded number. */
  function Elapsed(xs: seq<Sent>, i: nat): nat
    requires i < |xs|
  {
    if xs[i].header.Full? then xs[i].header.time.v
    else (if i == 0 then 0 else Elapsed(xs, i - 1))
         + if xs[i].header.Continue? && xs[i].payload == [] then 0 else DeltaAt(xs, i)
  }

  /** The extended time of the last header that has a time, zero if it fitted its field. */
  function ExtAt(xs: seq<Sent>, i: nat): U32
    requires i < |xs|
  {
    if !xs[i].header.Continue? then (if xs[i].header.time.Extended? then xs[i].header.time.v else 0)
    else if i == 0 then 0 else ExtAt(xs, i - 1)
  }

  function TypeAt(xs: seq<Sent>, i: nat): Byte
    requires i < |xs|
  {
    if xs[i].header.Full? || xs[i].header.SameStream? then xs[i].header.typeId
    else if i == 0 then 0 else TypeAt(xs, i - 1)
  }

  function StreamIdAt(xs: seq<Sent>, i: nat): U32
    requires i < |xs|
  {
    if xs[i].header.Full? then xs[i].header.streamId
    else if i == 0 then 0 else StreamIdAt(xs, i - 1)
  }

  /** A sender's obligations: it starts with a full header, leaves out only what stays, repeats an extended time. */
  predicate Proper(xs: seq<Sent>, i: nat)
    requires i < |xs|
  {
    var x := xs[i];
    && x.header.Valid() && |x.payload| < 0x100_0000
    && (i == 0 ==> x.header.Full?)
    && match x.header
       case Full(_, len, _, _) => |x.payload| == len
       case SameStream(_, len, _) => |x.payload| == len
       case TimeOnly(_) => i > 0 && |x.payload| == |xs[i - 1].payload|
       case Continue(e) => i > 0 && |x.payload| == |xs[i - 1].payload| && (e.Some? <==> ExtAt(xs, i - 1) != 0)
  }

  predicate AllProper(xs: seq<Sent>) {
    forall i :: 0 <= i < |xs| ==> Proper(xs, i)
  }

  /** What message `i` means. */
  function MessageAt(xs: seq<Sent>, i: nat, csid: U32): Message
    requires i < |xs| && AllProper(xs)
  {
    assert Proper(xs, i);
    Message(Elapsed(xs, i) % 0x1_0000_0000, |xs[i].payload|, TypeAt(xs, i), StreamIdAt(xs, i), csid, xs[i].payload)
  }

  function MessagesTo(xs: seq<Sent>, n: nat, csid: U32): (ms: seq<Message>)
    requires n <= |xs| && AllProper(xs)
    ensures |ms| == n && forall i :: 0 <= i < n ==> ms[i] == MessageAt(xs, i, csid)
  {
    seq(n, i requires 0 <= i < n => MessageAt(xs, i, csid))
  }

  // ---------- The chunks a sender writes ----------

  /** Format 3 chunks for the payload from `at` on; they repeat the extended time if there is one. */
  function Follow(ext: U32, payload: seq<Byte>, at: nat, csid: U32, size: U32): seq<Chunk>
    requires 0 < size && at <= |payload|
    decreases |payload| - at
  {
    if at == |payload| then []
    else
      var n := Min(|payload| - at, size);
      [Chunk(Basic(3, csid, Width(csid)), Continue(if ext != 0 then Some(ext) else None), payload[at..at + n])]
      + Follow(ext, payload, at + n, csid, size)
  }

  function ChunksOf(x: Sent, ext: U32, csid: U32, size: U32): seq<Chunk>
    requires 0 < size
  {
    var n := Min(|x.payload|, size);
    [Chunk(Basic(x.header.Fmt(), csid, Width(csid)), x.header, x.payload[..n])] + Follow(ext, x.payload, n, csid, size)
  }

  function ChunksTo(xs: seq<Sent>, n: nat, csid: U32, size: U32): seq<Chunk>
    requires 0 < size && n <= |xs|
  {
    if n == 0 then [] else ChunksTo(xs, n - 1, csid, size) + ChunksOf(xs[n - 1], ExtAt(xs, n - 1), csid, size)
  }

  // ---------- Their delivery ----------

  lemma CsidIsBasic(fmt: nat, csid: nat)
    requires fmt < 4 && 2 <= csid < 65600
    ensures Basic(fmt, csid, Width(csid)).Valid()
  {
  }

  /** One more piece of the payload arrives. */
  lemma PieceArrives(s: Stream, payload: seq<Byte>, at: nat, csid: U32, size: U32)
    requires s.Known? && s.Valid() && s.length == |payload| && 0 < at < |payload| && s.received == payload[..at]
    requires 0 < size && 2 <= csid < 65600
    ensures var n := Min(|payload| - at, size);
      var e := if s.ext != 0 then Some(s.ext) else None;
      var c := Chunk(Basic(3, csid, Width(csid)), Continue(e), payload[at..at + n]);
      && LegalOn(s, c, csid, size)
      && After(s, c, csid) ==
         if at + n == |payload|
         then (s.(received := []), [Message(s.timestamp, s.length, s.typeId, s.streamId, csid, payload)])
         else (s.(received := payload[..at + n]), [])
  {
    CsidIsBasic(3, csid);
    hide Width, Basic.Valid;
    var n := Min(|payload| - at, size);
    assert payload[..at] + payload[at..at + n] == payload[..at + n];
    if at + n == |payload| {
      assert payload[..at + n] == payload;
    }
  }

  lemma {:induction false} FollowArrives(s: Stream, payload: seq<Byte>, at: nat, csid: U32, size: U32)
    requires s.Known? && s.Valid() && s.length == |payload| && 0 < at < |payload| && s.received == payload[..at]
    requires 0 < size && 2 <= csid < 65600
    ensures var cs := Follow(s.ext, payload, at, csid, size);
      && LegalStream(s, cs, csid, size)
      && StreamEnd(s, cs, csid, size)
         == (s.(received := []), [Message(s.timestamp, s.length, s.typeId, s.streamId, csid, payload)])
    decreases |payload| - at
  {
    hide After, LegalOn, OnHeader, OnData, Expected, Width, LegalStream, StreamEnd;
    PieceArrives(s, payload, at, csid, size);
    var n := Min(|payload| - at, size);
    var e := if s.ext != 0 then Some(s.ext) else None;
    var c := Chunk(Basic(3, csid, Width(csid)), Continue(e), payload[at..at + n]);
    var m := Message(s.timestamp, s.length, s.typeId, s.streamId, csid, payload);
    Units(m);
    if at + n < |payload| {
      FollowArrives(s.(received := payload[..at + n]), payload, at + n, csid, size);
    } else {
      NoChunks(s.(received := []), csid, size);
    }
    StreamCons(s, c, Follow(s.ext, payload, at + n, csid, size), csid, size);
  }

  lemma NoChunks(s: Stream, csid: U32, size: U32)
    ensures LegalStream(s, [], csid, size) && StreamEnd(s, [], csid, size) == (s, [])
  {
  }

  /** The chunks of one message, on a stream between messages, deliver it with what its header says. */
  lemma MessageArrives(s: Stream, x: Sent, csid: U32, size: U32)
    requires s.Valid() && (s.Known? ==> s.received == []) && Legal(s, x.header)
    requires OnHeader(s, x.header).length == |x.payload| && 0 < size && 2 <= csid < 65600
    ensures var s1 := OnHeader(s, x.header);
      var cs := ChunksOf(x, s1.ext, csid, size);
      && LegalStream(s, cs, csid, size)
      && StreamEnd(s, cs, csid, size)
         == (s1, [Message(s1.timestamp, s1.length, s1.typeId, s1.streamId, csid, x.payload)])
  {
    var s1 := OnHeader(s, x.header);
    var n := Min(|x.payload|, size);
    CsidIsBasic(x.header.Fmt(), csid);
    var c := Chunk(Basic(x.header.Fmt(), csid, Width(csid)), x.header, x.payload[..n]);
    assert s1.received == [] && [] + x.payload[..n] == x.payload[..n];
    assert LegalOn(s, c, csid, size);
    var m := Message(s1.timestamp, s1.length, s1.typeId, s1.streamId, csid, x.payload);
    Units(m);
    if n < |x.payload| {
      assert After(s, c, csid) == (s1.(received := x.payload[..n]), []);
      hide After, LegalOn, OnHeader, OnData, Expected, Width, LegalStream, StreamEnd;
      FollowArrives(s1.(received := x.payload[..n]), x.payload, n, csid, size);
    } else {
      assert x.payload[..n] == x.payload;
      assert After(s, c, csid) == (s1, [m]);
      hide After, LegalOn, OnHeader, OnData, Expected, Width, LegalStream, StreamEnd;
      NoChunks(s1, csid, size);
    }
    hide After, LegalOn, OnHeader, OnData, Expected, Width, LegalStream, StreamEnd;
    StreamCons(s, c, Follow(s1.ext, x.payload, n, csid, size), csid, size);
  }

  /** The stream after `n` messages. */
  function StreamAt(xs: seq<Sent>, n: nat): Stream
    requires n <= |xs| && AllProper(xs)
  {
    if n == 0 then Fresh
    else
      assert Proper(xs, n - 1);
      Known(Elapsed(xs, n - 1) % 0x1_0000_0000, DeltaAt(xs, n - 1), ExtAt(xs, n - 1), |xs[n - 1].payload|,
            TypeAt(xs, n - 1), StreamIdAt(xs, n - 1), [])
  }

  lemma WrapSum(a: nat, d: nat)
    ensures Wrap32(a % 0x1_0000_0000 + d) == (a + d) % 0x1_0000_0000
  {
  }

  /** The header of message `n` takes the stream from one message to the next. */
  lemma HeaderArrives(xs: seq<Sent>, n: nat)
    requires n < |xs| && AllProper(xs)
    ensures Legal(StreamAt(xs, n), xs[n].header)
    ensures OnHeader(StreamAt(xs, n), xs[n].header) == StreamAt(xs, n + 1)
  {
    assert Proper(xs, n);
    if n > 0 {
      assert Proper(xs, n - 1);
      WrapSum(Elapsed(xs, n - 1), DeltaAt(xs, n));
    }
  }

  lemma {:induction false} AllArrive(xs: seq<Sent>, n: nat, csid: U32, size: U32)
    requires n <= |xs| && AllProper(xs) && 0 < size && 2 <= csid < 65600
    ensures var cs := ChunksTo(xs, n, csid, size);
      && LegalStream(Fresh, cs, csid, size)
      && StreamEnd(Fresh, cs, csid, size) == (StreamAt(xs, n), MessagesTo(xs, n, csid))
  {
    hide OnHeader, LegalOn, After, LegalStream, StreamEnd, ChunksOf;
    if n == 0 {
      NoChunks(Fresh, csid, size);
    } else {
      AllArrive(xs, n - 1, csid, size);
      HeaderArrives(xs, n - 1);
      MessageArrives(StreamAt(xs, n - 1), xs[n - 1], csid, size);
      StreamEndConcat(Fresh, ChunksTo(xs, n - 1, csid, size), ChunksOf(xs[n - 1], ExtAt(xs, n - 1), csid, size),
                      csid, size);
      assert MessagesTo(xs, n, csid) == MessagesTo(xs, n - 1, csid) + [MessageAt(xs, n - 1, csid)];
    }
  }

  lemma {:induction false} FollowOn(ext: U32, payload: seq<Byte>, at: nat, csid: U32, size: U32)
    requires 0 < size && at <= |payload|
    ensures forall c :: c in Follow(ext, payload, at, csid, size) ==> c.basic.csid == csid
    decreases |payload| - at
  {
    if at < |payload| {
      FollowOn(ext, payload, at + Min(|payload| - at, size), csid, size);
    }
  }

  lemma {:induction false} ChunksOn(xs: seq<Sent>, n: nat, csid: U32, size: U32)
    requires 0 < size && n <= |xs|
    ensures forall c :: c in ChunksTo(xs, n, csid, size) ==> c.basic.csid == csid
  {
    if n > 0 {
      ChunksOn(xs, n - 1, csid, size);
      FollowOn(ExtAt(xs, n - 1), xs[n - 1].payload, Min(|xs[n - 1].payload|, size), csid, size);
    }
  }

  /**
   Messages sent on one chunk stream under any mixture of the four headers, in chunks of any size:
   the parser hands out each with its payload, the type and stream id of the last header that gave
   them, and the time of the last full header plus all differences since, modulo 2^32.
   */
  lemma CompressedRoundTrip(xs: seq<Sent>, csid: U32, size: U32)
    requires AllProper(xs) && 0 < size && 2 <= csid < 65600
    ensures var cs := ChunksTo(xs, |xs|, csid, size);
      && (forall c :: c in cs ==> Written(c))
      && var r := ParseLoop(map[], SerializeAll(cs), size);
         r.Outcome? && r.ok && r.rest == [] && r.out == MessagesTo(xs, |xs|, csid)
  {
    hide ParseLoop, ParseAll, DeliverSeq, AllLegal, SerializeAll, LegalStream, StreamEnd, ChunksTo;
    var cs := ChunksTo(xs, |xs|, csid, size);
    AllArrive(xs, |xs|, csid, size);
    ChunksOn(xs, |xs|, csid, size);
    OnlyStream(map[], cs, csid, size);
    StartIsCoupled();
    ParseSerialized(map[], cs, size);
    AllAgreeCoupled(map[], map[], SerializeAll(cs));
    LoopRefines(map[], map[], SerializeAll(cs), size);
  }

  /** A compressed header on a chunk stream that has had no full one is rejected, and nothing is consumed. */
  lemma UnknownStreamIsRejected(b: seq<Byte>, size: U32)
    requires b != [] && 64 <= b[0]
    requires |b| >= match b[0] % 64 { case 0 => 2 case 1 => 3 case _ => 1 }
    ensures var r := ParseLoop(map[], b, size);
      r.Outcome? && !r.ok && r.rest == b && r.out == []
  {
    hide StepPayload, StepTime;
  }

  // ---------- The standard's times ----------

  /** The difference in force by section 5.3.1.2.4: format 3 behind a full header takes that header's time. */
  function StandardDelta(xs: seq<Sent>, i: nat): U32
    requires i < |xs|
  {
    if !xs[i].header.Continue? then xs[i].header.time.v
    else if i == 0 then 0 else StandardDelta(xs, i - 1)
  }

  /** The time by the standard: every message without a full header adds its difference. */
  function StandardElapsed(xs: seq<Sent>, i: nat): nat
    requires i < |xs|
  {
    if xs[i].header.Full? then xs[i].header.time.v
    else (if i == 0 then 0 else StandardElapsed(xs, i - 1)) + StandardDelta(xs, i)
  }

  /** Since the last full header there have been only format 3 headers. */
  predicate Bare(xs: seq<Sent>, i: nat)
    requires i < |xs|
  {
    xs[i].header.Full? || (xs[i].header.Continue? && i > 0 && Bare(xs, i - 1))
  }

  /** Format 3 messages directly behind the last full header. */
  function BareCount(xs: seq<Sent>, i: nat): nat
    requires i < |xs|
  {
    if xs[i].header.Full? || i == 0 then 0 else BareCount(xs, i - 1) + if Bare(xs, i) then 1 else 0
  }

  /** The time of the last full header. */
  function FullTime(xs: seq<Sent>, i: nat): nat
    requires i < |xs|
  {
    if xs[i].header.Full? then xs[i].header.time.v else if i == 0 then 0 else FullTime(xs, i - 1)
  }

  /** The differences of empty format 3 messages since the last full header. */
  function EmptyDeltas(xs: seq<Sent>, i: nat): nat
    requires i < |xs|
  {
    if xs[i].header.Full? || i == 0 then 0
    else EmptyDeltas(xs, i - 1) + if xs[i].header.Continue? && xs[i].payload == [] then DeltaAt(xs, i) else 0
  }

  lemma {:induction false} DeltasDiffer(xs: seq<Sent>, i: nat)
    requires i < |xs| && AllProper(xs)
    ensures Bare(xs, i) ==> DeltaAt(xs, i) == 0 && StandardDelta(xs, i) == FullTime(xs, i)
    ensures !Bare(xs, i) ==> StandardDelta(xs, i) == DeltaAt(xs, i)
  {
    assert Proper(xs, i);
    if i > 0 {
      DeltasDiffer(xs, i - 1);
    }
  }

  lemma {:induction false} TimesDiffer(xs: seq<Sent>, i: nat)
    requires i < |xs| && AllProper(xs)
    ensures StandardElapsed(xs, i) == Elapsed(xs, i) + BareCount(xs, i) * FullTime(xs, i) + EmptyDeltas(xs, i)
  {
    assert Proper(xs, i);
    DeltasDiffer(xs, i);
    if !xs[i].header.Full? {
      TimesDiffer(xs, i - 1);
      OneMore(BareCount(xs, i - 1), FullTime(xs, i));
    }
    hide AllProper, Proper, StandardDelta, DeltaAt, Bare;
  }

  lemma OneMore(n: nat, t: nat)
    ensures (n + 1) * t == n * t + t
  {
  }

  lemma SameModulo(a: nat, d: nat)
    ensures (a + d) % 0x1_0000_0000 == a % 0x1_0000_0000 <==> d % 0x1_0000_0000 == 0
  {
  }

  /**
   A message comes out with the time that the standard gives it exactly when what the code leaves
   out is a multiple of 2^32: the full header's time for each format 3 message directly behind it,
   and the differences of empty format 3 messages.
   */
  lemma StandardTimeIff(xs: seq<Sent>, i: nat, csid: U32)
    requires i < |xs| && AllProper(xs)
    ensures MessageAt(xs, i, csid).timestamp == StandardElapsed(xs, i) % 0x1_0000_0000
      <==> (BareCount(xs, i) * FullTime(xs, i) + EmptyDeltas(xs, i)) % 0x1_0000_0000 == 0
  {
    TimesDiffer(xs, i);
    SameModulo(Elapsed(xs, i), BareCount(xs, i) * FullTime(xs, i) + EmptyDeltas(xs, i));
  }

  /** Two bytes of audio at time 5, the second under a format 3 header: it comes out at 5, the standard says 10. */
  lemma ThirdFormatStandsStill()
    ensures var xs := [Sent(Full(Short(5), 1, AUDIO, 1), [0]), Sent(Continue(None), [0])];
      AllProper(xs) && MessageAt(xs, 1, 4).timestamp == 5 && StandardElapsed(xs, 1) == 10
  {
    var xs := [Sent(Full(Short(5), 1, AUDIO, 1), [0]), Sent(Continue(None), [0])];
    assert ExtAt(xs, 0) == 0 && Elapsed(xs, 0) == 5 && StandardElapsed(xs, 0) == 5;
    assert StandardDelta(xs, 0) == StandardDelta(xs, 1) == 5 && DeltaAt(xs, 0) == DeltaAt(xs, 1) == 0;
    assert StandardElapsed(xs, 1) == 10 && Elapsed(xs, 1) == 5;
    assert Proper(xs, 0) && Proper(xs, 1);
  }
}
