/**
 The incremental chunk parser (rtmp/RtmpChunkParser.h, rtmp/RtmpChunkParser.cc).

 `StepHeader`, `StepChunk` and `ParseLoop` follow the code branch by branch, including what it
 writes into the per-stream state before it knows that the chunk is complete. The class below is
 proved to compute them; `ChunkRefinement` relates them to the chunk grammar.
 */
module ChunkParser {
  import opened Bytes
  import opened RtmpTypes
  import opened ChunkGrammar

  datatype ChunkStreamState = ChunkStreamState(
    timestamp: U32,
    timestampDelta: U32,
    extendedTimestamp: U32,
    messageLength: U32,
    typeId: Byte,
    messageStreamId: U32,
    bytesRead: U32,
    payload: seq<Byte>,
    headerInitialized: bool)

  const EMPTY := ChunkStreamState(0, 0, 0, 0, 0, 0, 0, [], false)

  type ChunkStreams = map<nat, ChunkStreamState>

  /** `chunkStreams_[csid]` creates an empty entry when there is none. */
  function Lookup(streams: ChunkStreams, csid: nat): ChunkStreamState {
    if csid in streams then streams[csid] else EMPTY
  }

  function Zeros(n: nat): (r: seq<Byte>)
    ensures |r| == n
  {
    seq(n, _ => 0)
  }

  datatype HeaderStep = HeaderStep(ok: bool, state: ChunkStreamState, used: nat)

  /** The time part of a new message: `tail` is where a 32-bit extension would start. */
  function StepTime(data: seq<Byte>, tail: nat): (r: Option<(U32, U32, nat)>)
    requires 3 <= tail <= |data|
  {
    if ReadBE24(data) == 0xFFFFFF then
      if |data| < tail + 4 then None
      else Some((ReadBE32(data[tail..]), ReadBE32(data[tail..]), tail + 4))
    else Some((ReadBE24(data), 0, tail))
  }

  /** `parseMessageHeader`: the state it leaves behind, also when it has to wait. */
  function StepHeader(s: ChunkStreamState, fmt: nat, data: seq<Byte>): HeaderStep
    requires fmt < 4
  {
    if fmt == 0 then
      if |data| < 11 then HeaderStep(true, s, 0)
      else
        var s1 := s.(messageLength := ReadBE24(data[3..]), typeId := data[6],
                     messageStreamId := ReadLE32(data[7..]), timestampDelta := 0);
        match StepTime(data, 11)
        case None => HeaderStep(true, s1, 0)
        case Some((time, ext, used)) =>
          HeaderStep(true, s1.(extendedTimestamp := ext, timestamp := time, bytesRead := 0,
                               payload := Zeros(s1.messageLength), headerInitialized := true), used)
    else if !s.headerInitialized then HeaderStep(false, s, 0)
    else if fmt == 1 then
      if |data| < 7 then HeaderStep(true, s, 0)
      else
        var s1 := s.(messageLength := ReadBE24(data[3..]), typeId := data[6]);
        match StepTime(data, 7)
        case None => HeaderStep(true, s1, 0)
        case Some((delta, ext, used)) => HeaderStep(true, NewMessage(s1, delta, ext), used)
    else if fmt == 2 then
      if |data| < 3 then HeaderStep(true, s, 0)
      else
        match StepTime(data, 3)
        case None => HeaderStep(true, s, 0)
        case Some((delta, ext, used)) => HeaderStep(true, NewMessage(s, delta, ext), used)
    else
      var s1 := if s.bytesRead == 0 && s.messageLength > 0
                then s.(timestamp := Wrap32(s.timestamp + s.timestampDelta),
                        payload := Zeros(s.messageLength))
                else s;
      HeaderStep(true, s1, if s1.extendedTimestamp != 0 && |data| >= 4 then 4 else 0)
  }

  /** The common end of formats 1 and 2. */
  function NewMessage(s: ChunkStreamState, delta: U32, ext: U32): ChunkStreamState {
    s.(extendedTimestamp := ext, timestampDelta := delta, timestamp := Wrap32(s.timestamp + delta),
       bytesRead := 0, payload := Zeros(s.messageLength))
  }

  /** One round of the parser. `OutOfBounds` is the copy past the end of the payload. */
  datatype ChunkStep =
    | ChunkStep(ok: bool, streams: ChunkStreams, consumed: nat, out: seq<Message>)
    | OutOfBounds

  function StepChunk(streams: ChunkStreams, data: seq<Byte>, size: U32): (r: ChunkStep)
    ensures r.ChunkStep? ==> r.consumed <= |data| && (!r.ok ==> r.consumed == 0)
  {
    match ReadBasic(data)
    case None => ChunkStep(true, streams, 0, [])
    case Some(basic) =>
      var h := StepHeader(Lookup(streams, basic.csid), basic.fmt, data[basic.size..]);
      var waiting := ChunkStep(h.ok, streams[basic.csid := h.state], 0, []);
      if !h.ok then waiting
      else if h.used == 0 && !(basic.fmt == 3 && h.state.headerInitialized && h.state.extendedTimestamp == 0)
      then waiting
      else if !h.state.headerInitialized then waiting
      else
        var start := basic.size + h.used;
        var n := Min(Wrap32(h.state.messageLength - h.state.bytesRead), size);
        if |data| < start + n then waiting
        else if h.state.bytesRead + n > |h.state.payload| then OutOfBounds
        else
          var (s, out) := StepPayload(basic.csid, h.state, data[start..start + n]);
          ChunkStep(true, streams[basic.csid := s], start + n, out)
  }

  /** The payload bytes of a complete chunk are copied in, and a full message is handed out. */
  function StepPayload(csid: U32, s: ChunkStreamState, data: seq<Byte>): (ChunkStreamState, seq<Message>)
    requires s.bytesRead + |data| <= |s.payload|
  {
    var payload := s.payload[..s.bytesRead] + data + s.payload[s.bytesRead + |data|..];
    var bytesRead := Wrap32(s.bytesRead + |data|);
    if bytesRead == s.messageLength then
      (s.(bytesRead := 0, payload := []),
       [Message(s.timestamp, s.messageLength, s.typeId, s.messageStreamId, csid, payload)])
    else
      (s.(bytesRead := bytesRead, payload := payload), [])
  }

  datatype Outcome =
    | Outcome(ok: bool, streams: ChunkStreams, rest: seq<Byte>, out: seq<Message>)
    | Undefined

  /** `parse`: rounds until a fault, an incomplete chunk or an empty buffer. */
  function ParseLoop(streams: ChunkStreams, data: seq<Byte>, size: U32): (r: Outcome)
    decreases |data|
  {
    if data == [] then Outcome(true, streams, data, [])
    else
      match StepChunk(streams, data, size)
      case OutOfBounds => Undefined
      case ChunkStep(ok, next, consumed, out) =>
        if !ok || consumed == 0 then Outcome(ok, next, data, out)
        else
          match ParseLoop(next, data[consumed..], size)
          case Undefined => Undefined
          case Outcome(ok', streams', rest, out') => Outcome(ok', streams', rest, out + out')
  }
}

/** The parser agrees with the chunk grammar whatever it has already written for the head chunk. */
module ChunkRefinement {
  import opened Bytes
  import opened ChunkGrammar
  import opened ChunkParser

  /** Between chunks the code's record and the stream's meaning agree. */
  predicate Agree(t: ChunkStreamState, s: Stream) {
    && t.headerInitialized == s.Known?
    && (s.Known? ==>
          && t.timestamp == s.timestamp
          && t.timestampDelta == s.delta
          && t.extendedTimestamp == s.ext
          && t.messageLength == s.length
          && t.typeId == s.typeId
          && t.messageStreamId == s.streamId
          && t.bytesRead == |s.received| <= s.length
          && (t.bytesRead > 0 ==> |t.payload| == s.length && t.payload[..t.bytesRead] == s.received)
          && (s.length == 0 ==> t.payload == []))
  }

  /** While a chunk of format `fmt` waits at the head, the fields that it will write again are free. */
  predicate HeadAgree(fmt: nat, t: ChunkStreamState, s: Stream) {
    match fmt
    case 0 => true
    case 1 =>
      && t.headerInitialized == s.Known?
      && (s.Known? ==> t.messageStreamId == s.streamId && t.timestamp == s.timestamp)
    case 2 =>
      && t.headerInitialized == s.Known?
      && (s.Known? ==>
            && t.messageStreamId == s.streamId && t.timestamp == s.timestamp
            && t.typeId == s.typeId && t.messageLength == s.length)
    case _ => Agree(t, s)
  }

  predicate CoupledAt(streams: ChunkStreams, refs: Streams, head: Option<Basic>, csid: nat) {
    if head.Some? && head.value.csid == csid
    then HeadAgree(head.value.fmt, Lookup(streams, csid), Get(refs, csid))
    else Agree(Lookup(streams, csid), Get(refs, csid))
  }

  /** The invariant of the parser: its state is tied to the bytes it has not consumed. */
  ghost predicate Coupled(streams: ChunkStreams, refs: Streams, b: seq<Byte>) {
    forall csid :: CoupledAt(streams, refs, ReadBasic(b), csid)
  }

  /** With no chunk half read, every record agrees. */
  ghost predicate AllAgree(streams: ChunkStreams, refs: Streams) {
    forall csid :: AgreeAt(streams, refs, csid)
  }

  predicate AgreeAt(streams: ChunkStreams, refs: Streams, csid: nat) {
    Agree(Lookup(streams, csid), Get(refs, csid))
  }

  lemma AllAgreeCoupled(streams: ChunkStreams, refs: Streams, b: seq<Byte>)
    requires AllAgree(streams, refs)
    ensures Coupled(streams, refs, b)
  {
    hide ReadBasic;
    forall csid ensures CoupledAt(streams, refs, ReadBasic(b), csid) {
      assert AgreeAt(streams, refs, csid);
    }
  }

  lemma CoupledExtend(streams: ChunkStreams, refs: Streams, a: seq<Byte>, b: seq<Byte>)
    requires Coupled(streams, refs, a)
    ensures Coupled(streams, refs, a + b)
  {
    if ReadBasic(a).Some? {
      ReadBasicExtend(a, b);
    }
    hide ReadBasic;
    forall csid ensures CoupledAt(streams, refs, ReadBasic(a + b), csid) {
      assert CoupledAt(streams, refs, ReadBasic(a), csid);
    }
  }

  /** After its header has been read the record is ready for the chunk's payload. */
  predicate Prepared(t: ChunkStreamState, s: Stream) {
    && s.Known?
    && Agree(t, s)
    && |t.payload| == s.length
    && t.payload[..Min(t.bytesRead, s.length)] == s.received
  }

  lemma StepTimeIsReadTime(data: seq<Byte>, tail: nat)
    requires 3 <= tail <= |data|
    ensures match ReadTime(data, tail)
      case None => StepTime(data, tail) == None
      case Some(t) => StepTime(data, tail) == Some((t.v, t.Ext(), tail + |t.Tail()|))
  {
    hide ReadBE24, ReadBE32;
  }

  /**
   What the header step must do on a record left by any number of earlier attempts at the same
   chunk: wait exactly when the header is incomplete, otherwise prepare the stream the header
   describes, and either way leave a record that may be retried.
   */
  ghost predicate HeaderMatches(t: ChunkStreamState, s: Stream, fmt: nat, data: seq<Byte>)
    requires fmt < 4 && (fmt == 0 || s.Known?)
  {
    var r := StepHeader(t, fmt, data);
    && r.ok
    && HeadAgree(fmt, r.state, if fmt == 0 then s else ShiftTime(s, VisibleShift(s, fmt, data)))
    && match ReadHeader(fmt, data, s.Known? && s.ext != 0)
       case None => r.used == 0 && (fmt == 3 ==> r.state.extendedTimestamp != 0)
       case Some(h) =>
         && r.used == |h.Bytes()|
         && Legal(s, h) && Prepared(r.state, OnHeader(s, h))
         && (r.used == 0 ==> fmt == 3 && r.state.extendedTimestamp == 0)
  }

  lemma FullRefines(t: ChunkStreamState, s: Stream, data: seq<Byte>)
    ensures HeaderMatches(t, s, 0, data)
  {
    hide ReadBE24, ReadBE32, ReadLE32, BE24, BE32, LE32, ReadTime, StepTime;
    if 11 <= |data| { StepTimeIsReadTime(data, 11); }
  }

  lemma SameStreamRefines(t: ChunkStreamState, s: Stream, data: seq<Byte>)
    requires s.Known? && s.Valid() && HeadAgree(1, t, s)
    ensures HeaderMatches(t, s, 1, data)
  {
    hide ReadBE24, ReadBE32, ReadLE32, BE24, BE32, LE32, ReadTime, StepTime;
    if 7 <= |data| { StepTimeIsReadTime(data, 7); }
  }

  lemma TimeOnlyRefines(t: ChunkStreamState, s: Stream, data: seq<Byte>)
    requires s.Known? && s.Valid() && HeadAgree(2, t, s)
    ensures HeaderMatches(t, s, 2, data)
  {
    hide ReadBE24, ReadBE32, ReadLE32, BE24, BE32, LE32, ReadTime, StepTime;
    if 3 <= |data| { StepTimeIsReadTime(data, 3); }
  }

  lemma ContinueRefines(t: ChunkStreamState, s: Stream, data: seq<Byte>)
    requires s.Known? && s.Valid() && Agree(t, s)
    ensures HeaderMatches(t, s, 3, data)
  {
    hide ReadBE32, BE32;
  }

  lemma HeaderRefines(t: ChunkStreamState, s: Stream, fmt: nat, data: seq<Byte>)
    requires fmt < 4 && s.Valid() && HeadAgree(fmt, t, s) && (fmt == 0 || s.Known?)
    ensures HeaderMatches(t, s, fmt, data)
  {
    hide HeaderMatches;
    match fmt
    case 0 => FullRefines(t, s, data);
    case 3 => ContinueRefines(t, s, data);
    case 1 => SameStreamRefines(t, s, data);
    case 2 => TimeOnlyRefines(t, s, data);
  }

  lemma PayloadRefines(csid: U32, t: ChunkStreamState, s: Stream, data: seq<Byte>)
    requires s.Valid() && Prepared(t, s) && |s.received| + |data| <= s.length
    ensures t.bytesRead + |data| <= |t.payload|
    ensures var (t', out) := StepPayload(csid, t, data);
      var (s', out') := OnData(csid, s, data);
      Agree(t', s') && out == out'
  {
    var payload := t.payload[..t.bytesRead] + data + t.payload[t.bytesRead + |data|..];
    assert payload[..t.bytesRead + |data|] == s.received + data;
    if t.bytesRead + |data| == s.length {
      assert payload == s.received + data;
    }
  }

  /** What one round of the code must do, given what the grammar says about the same bytes. */
  ghost predicate StepMatches(streams: ChunkStreams, refs: Streams, b: seq<Byte>, size: U32)
    requires ValidStreams(refs)
  {
    var r := StepChunk(streams, b, size);
    && r.ChunkStep?
    && match Frame(refs, b, size)
       case More => r.ok && r.consumed == 0 && r.out == [] && Coupled(r.streams, Retry(refs, b), b)
       case Bad => !r.ok && r.consumed == 0 && r.out == [] && Coupled(r.streams, refs, b)
       case One(c) =>
         && r.ok
         && r.consumed == |Serialize(c)|
         && r.out == Deliver(refs, c).1
         && AllAgree(r.streams, Deliver(refs, c).0)
  }

  lemma WaitingStaysCoupled(streams: ChunkStreams, refs: Streams, b: seq<Byte>, t: ChunkStreamState, s: Stream)
    requires Coupled(streams, refs, b) && ReadBasic(b).Some?
    requires HeadAgree(ReadBasic(b).value.fmt, t, s)
    ensures var csid := ReadBasic(b).value.csid;
      Coupled(streams[csid := t], refs[csid := s], b) && (s == Get(refs, csid) ==> Coupled(streams[csid := t], refs, b))
  {
    hide ReadBasic, Agree, HeadAgree;
    var head := ReadBasic(b).value.csid;
    var streams', refs' := streams[head := t], refs[head := s];
    forall csid ensures CoupledAt(streams', refs', ReadBasic(b), csid) {
      assert CoupledAt(streams, refs, ReadBasic(b), csid);
    }
    if s == Get(refs, head) {
      forall csid ensures CoupledAt(streams', refs, ReadBasic(b), csid) {
        assert CoupledAt(streams, refs, ReadBasic(b), csid);
      }
    }
  }

  lemma CompleteAgrees(streams: ChunkStreams, refs: Streams, b: seq<Byte>, t: ChunkStreamState, s: Stream)
    requires Coupled(streams, refs, b) && ReadBasic(b).Some? && Agree(t, s)
    ensures var csid := ReadBasic(b).value.csid;
      AllAgree(streams[csid := t], refs[csid := s])
  {
    hide ReadBasic, Agree;
    var head := ReadBasic(b).value.csid;
    var streams', refs' := streams[head := t], refs[head := s];
    forall csid ensures AgreeAt(streams', refs', csid) {
      assert CoupledAt(streams, refs, ReadBasic(b), csid);
    }
  }

  /** A compressed header on a stream without a full one is refused and changes nothing. */
  lemma UnknownIsRejected(t: ChunkStreamState, s: Stream, fmt: nat, data: seq<Byte>)
    requires 0 < fmt < 4 && s.Fresh? && HeadAgree(fmt, t, s)
    ensures StepHeader(t, fmt, data) == HeaderStep(false, t, 0)
  {
  }

  /** The payload stage of a round, once the header is known to be complete. */
  lemma StepChunkPayload(streams: ChunkStreams, b: seq<Byte>, size: U32, basic: Basic, r: HeaderStep)
    requires ReadBasic(b) == Some(basic)
    requires r == StepHeader(Lookup(streams, basic.csid), basic.fmt, b[basic.size..])
    requires r.ok && r.state.headerInitialized
    requires r.used == 0 ==> basic.fmt == 3 && r.state.extendedTimestamp == 0
    ensures var start := basic.size + r.used;
      var n := Min(Wrap32(r.state.messageLength - r.state.bytesRead), size);
      StepChunk(streams, b, size) ==
        if |b| < start + n then ChunkStep(true, streams[basic.csid := r.state], 0, [])
        else if r.state.bytesRead + n > |r.state.payload| then OutOfBounds
        else
          var (s, out) := StepPayload(basic.csid, r.state, b[start..start + n]);
          ChunkStep(true, streams[basic.csid := s], start + n, out)
  {
    hide ReadBasic, StepHeader, StepPayload;
  }

  lemma FramePayload(refs: Streams, b: seq<Byte>, size: U32, basic: Basic, h: Header)
    requires ValidStreams(refs) && ReadBasic(b) == Some(basic)
    requires var s := Get(refs, basic.csid);
      && (basic.fmt == 0 || s.Known?)
      && ReadHeader(basic.fmt, b[basic.size..], s.Known? && s.ext != 0) == Some(h)
      && Legal(s, h)
    ensures var s := Get(refs, basic.csid);
      s.Valid() &&
      var start := basic.size + |h.Bytes()|;
      var want := Expected(OnHeader(s, h), size);
      Frame(refs, b, size) ==
        if |b| < start + want then More else One(Chunk(basic, h, b[start..start + want]))
  {
    hide ReadBasic, ReadHeader, OnHeader, Expected, Header.Bytes;
  }

  lemma CompleteStep(streams: ChunkStreams, refs: Streams, b: seq<Byte>, size: U32,
                     basic: Basic, r: HeaderStep, h: Header)
    requires ValidStreams(refs) && Coupled(streams, refs, b) && ReadBasic(b) == Some(basic)
    requires var s, data := Get(refs, basic.csid), b[basic.size..];
      && r == StepHeader(Lookup(streams, basic.csid), basic.fmt, data)
      && (basic.fmt == 0 || s.Known?)
      && ReadHeader(basic.fmt, data, s.Known? && s.ext != 0) == Some(h)
      && r.ok && r.used == |h.Bytes()| && Legal(s, h) && Prepared(r.state, OnHeader(s, h))
      && (r.used == 0 ==> basic.fmt == 3 && r.state.extendedTimestamp == 0)
      && Coupled(streams[basic.csid := r.state], Retry(refs, b), b)
    ensures StepMatches(streams, refs, b, size)
  {
    hide Frame, StepChunk, ReadBasic, ReadHeader, StepHeader, StepPayload, OnHeader, OnData, Header.Bytes,
         HeadAgree, BasicBytes, Coupled, Serialize, Retry;
    StepChunkPayload(streams, b, size, basic, r);
    FramePayload(refs, b, size, basic, h);
    var s := OnHeader(Get(refs, basic.csid), h);
    var want := Expected(s, size);
    var start := basic.size + r.used;
    assert Wrap32(r.state.messageLength - r.state.bytesRead) == s.length - |s.received|;
    if start + want <= |b| {
      var data := b[start..start + want];
      PayloadRefines(basic.csid, r.state, s, data);
      CompleteAgrees(streams, refs, b, StepPayload(basic.csid, r.state, data).0, OnData(basic.csid, s, data).0);
    }
  }

  /** One round of the code, after any earlier attempts, does what the grammar says. */
  lemma StepRefines(streams: ChunkStreams, refs: Streams, b: seq<Byte>, size: U32)
    requires ValidStreams(refs) && Coupled(streams, refs, b)
    ensures StepMatches(streams, refs, b, size)
  {
    hide ReadBasic, ReadHeader, StepHeader, StepPayload, OnHeader, OnData, Header.Bytes, Agree, HeadAgree,
         BasicBytes, VisibleShift, Serialize;
    match ReadBasic(b)
    case None =>
    case Some(basic) =>
      var t, s := Lookup(streams, basic.csid), Get(refs, basic.csid);
      assert CoupledAt(streams, refs, ReadBasic(b), basic.csid);
      assert s.Valid();
      if basic.fmt != 0 && s.Fresh? {
        UnknownIsRejected(t, s, basic.fmt, b[basic.size..]);
        WaitingStaysCoupled(streams, refs, b, t, s);
      } else {
        var data := b[basic.size..];
        HeaderRefines(t, s, basic.fmt, data);
        var r := StepHeader(t, basic.fmt, data);
        WaitingStaysCoupled(streams, refs, b, r.state,
                            if basic.fmt == 0 then s else ShiftTime(s, VisibleShift(s, basic.fmt, data)));
        match ReadHeader(basic.fmt, data, s.Known? && s.ext != 0)
        case None =>
        case Some(h) =>
          CompleteStep(streams, refs, b, size, basic, r, h);
      }
  }

  /** The streams as one call of `parse` leaves them: the last attempt may have been unsuccessful. */
  ghost function AfterParse(p: Parsed): Streams {
    if p.ok then Retry(p.streams, p.rest) else p.streams
  }

  /** One call of `parse`, after any earlier calls, against one parse by the grammar. */
  lemma {:induction false} LoopRefines(streams: ChunkStreams, refs: Streams, b: seq<Byte>, size: U32)
    requires ValidStreams(refs) && Coupled(streams, refs, b)
    ensures var r, p := ParseLoop(streams, b, size), ParseAll(refs, b, size);
      && r.Outcome?
      && r.ok == p.ok && r.rest == p.rest && r.out == p.out
      && Coupled(r.streams, AfterParse(p), p.rest)
    decreases |b|
  {
    hide Frame, StepChunk, Serialize, Deliver, Coupled, Retry;
    ParseAllUnfold(refs, b, size);
    if b == [] {
      EmptyIsMore(refs, size);
    } else {
      StepRefines(streams, refs, b, size);
      match Frame(refs, b, size)
      case More =>
      case Bad =>
      case One(c) =>
        var r := StepChunk(streams, b, size);
        var rest := b[|Serialize(c)|..];
        AllAgreeCoupled(r.streams, Deliver(refs, c).0, rest);
        LoopRefines(r.streams, Deliver(refs, c).0, rest, size);
    }
  }

  lemma EmptyIsMore(refs: Streams, size: U32)
    requires ValidStreams(refs)
    ensures Frame(refs, [], size) == More && Retry(refs, []) == refs
  {
  }
}
