/** RTMP messages (rtmp/RtmpMessage.h). */
module RtmpTypes {
  import opened Bytes

  const SET_CHUNK_SIZE: Byte := 1
  const AUDIO: Byte := 8
  const VIDEO: Byte := 9
  const DATA_AMF0: Byte := 18
  const COMMAND_AMF0: Byte := 20

  datatype Message = Message(
    timestamp: U32,
    messageLength: U32,
    typeId: Byte,
    messageStreamId: U32,
    chunkStreamId: U32,
    payload: seq<Byte>)

  /** A message without its time, for statements that hold of every other field. */
  function Untimed(ms: seq<Message>): (r: seq<Message>)
    ensures |r| == |ms|
    ensures forall i :: 0 <= i < |ms| ==> r[i] == ms[i].(timestamp := 0)
  {
    if ms == [] then [] else [ms[0].(timestamp := 0)] + Untimed(ms[1..])
  }

  lemma {:induction false} UntimedConcat(a: seq<Message>, b: seq<Message>)
    ensures Untimed(a + b) == Untimed(a) + Untimed(b)
  {
  }
}

/**
 The chunk format of the Adobe RTMP 1.0 specification, sections 5.3.1.1 to 5.3.1.3: what a chunk
 is, how it is written, and what delivering one complete chunk does to its chunk stream.
 Nothing here looks at an incomplete chunk, so this is the meaning an incremental parser must
 agree with however the bytes arrive.
 */
module ChunkGrammar {
  import opened Bytes
  import opened RtmpTypes

  /** Basic header: format, chunk stream id, and which of the three encodings of the id is used. */
  datatype Basic = Basic(fmt: nat, csid: nat, size: nat) {
    predicate Valid() {
      && fmt < 4
      && match size
         case 1 => 2 <= csid < 64
         case 2 => 64 <= csid < 320
         case 3 => 64 <= csid < 65600
         case _ => false
    }
  }

  function BasicBytes(b: Basic): (r: seq<Byte>)
    requires b.Valid()
    ensures |r| == b.size
  {
    match b.size
    case 1 => [b.fmt * 64 + b.csid]
    case 2 => [b.fmt * 64, b.csid - 64]
    case _ => [b.fmt * 64 + 1, (b.csid - 64) % 0x100, (b.csid - 64) / 0x100]
  }

  function ReadBasic(b: seq<Byte>): (r: Option<Basic>)
    ensures r.Some? ==> r.value.Valid() && r.value.size <= |b|
  {
    if |b| < 1 then None
    else
      var fmt, mark := b[0] / 64, b[0] % 64;
      if mark >= 2 then Some(Basic(fmt, mark, 1))
      else if mark == 0 then
        if |b| < 2 then None else Some(Basic(fmt, 64 + b[1] as int, 2))
      else
        if |b| < 3 then None else Some(Basic(fmt, 64 + b[1] as int + b[2] as int * 0x100, 3))
  }

  /** A 24-bit time field, or the escape value 0xFFFFFF followed by 32 bits. */
  datatype Time = Short(v: U32) | Extended(v: U32) {
    predicate Valid() { Short? ==> v < 0xFFFFFF }
    function Ext(): U32 { if Extended? then v else 0 }
    function Field(): U24 requires Valid() { if Short? then v else 0xFFFFFF }
    function Tail(): seq<Byte> { if Short? then [] else BE32(v) }
  }

  datatype Header =
    | Full(time: Time, length: U24, typeId: Byte, streamId: U32)
    | SameStream(time: Time, length: U24, typeId: Byte)
    | TimeOnly(time: Time)
    | Continue(repeated: Option<U32>)
  {
    function Fmt(): nat {
      match this
      case Full(_, _, _, _) => 0
      case SameStream(_, _, _) => 1
      case TimeOnly(_) => 2
      case Continue(_) => 3
    }

    predicate Valid() { !Continue? ==> time.Valid() }

    function Bytes(): seq<Byte>
      requires Valid()
    {
      match this
      case Full(t, len, ty, sid) => BE24(t.Field()) + BE24(len) + [ty] + LE32(sid) + t.Tail()
      case SameStream(t, len, ty) => BE24(t.Field()) + BE24(len) + [ty] + t.Tail()
      case TimeOnly(t) => BE24(t.Field()) + t.Tail()
      case Continue(e) => if e.Some? then BE32(e.value) else []
    }
  }

  function ReadTime(b: seq<Byte>, tail: nat): (r: Option<Time>)
    requires 3 <= tail <= |b|
    ensures r.Some? ==> r.value.Valid()
  {
    var field := ReadBE24(b);
    if field != 0xFFFFFF then Some(Short(field))
    else if |b| < tail + 4 then None
    else Some(Extended(ReadBE32(b[tail..])))
  }

  /** `ext` says that the chunk stream's last header carried a non-zero extended timestamp. */
  function ReadHeader(fmt: nat, b: seq<Byte>, ext: bool): (r: Option<Header>)
    requires fmt < 4
    ensures r.Some? ==> r.value.Valid() && r.value.Fmt() == fmt
    ensures r.Some? && fmt == 3 ==> r.value.repeated.Some? == ext
  {
    match fmt
    case 0 =>
      if |b| < 11 then None
      else (match ReadTime(b, 11)
            case None => None
            case Some(t) => Some(Full(t, ReadBE24(b[3..]), b[6], ReadLE32(b[7..]))))
    case 1 =>
      if |b| < 7 then None
      else (match ReadTime(b, 7)
            case None => None
            case Some(t) => Some(SameStream(t, ReadBE24(b[3..]), b[6])))
    case 2 =>
      if |b| < 3 then None
      else (match ReadTime(b, 3)
            case None => None
            case Some(t) => Some(TimeOnly(t)))
    case _ =>
      if !ext then Some(Continue(None))
      else if |b| < 4 then None
      else Some(Continue(Some(ReadBE32(b))))
  }

  /** What a chunk stream remembers between complete chunks. */
  datatype Stream =
    | Fresh
    | Known(timestamp: U32, delta: U32, ext: U32, length: U24, typeId: Byte, streamId: U32,
            received: seq<Byte>)
  {
    predicate Valid() { Known? ==> |received| < length || received == [] }
  }

  type Streams = map<nat, Stream>

  function Get(streams: Streams, csid: nat): Stream {
    if csid in streams then streams[csid] else Fresh
  }

  ghost predicate ValidStreams(streams: Streams) {
    forall c :: Get(streams, c).Valid()
  }

  /** A compressed header needs an earlier full one; a continuation repeats the extended timestamp. */
  predicate Legal(s: Stream, h: Header) {
    && h.Valid()
    && (h.Full? || s.Known?)
    && (h.Continue? ==> (h.repeated.Some? <==> s.ext != 0))
  }

  function OnHeader(s: Stream, h: Header): (r: Stream)
    requires Legal(s, h)
    ensures r.Known? && (s.Valid() ==> r.Valid())
  {
    match h
    case Full(t, len, ty, sid) => Known(t.v, 0, t.Ext(), len, ty, sid, [])
    case SameStream(t, len, ty) => Known(Wrap32(s.timestamp + t.v), t.v, t.Ext(), len, ty, s.streamId, [])
    case TimeOnly(t) => s.(timestamp := Wrap32(s.timestamp + t.v), delta := t.v, ext := t.Ext(), received := [])
    case Continue(_) =>
      if s.received == [] && s.length > 0 then s.(timestamp := Wrap32(s.timestamp + s.delta)) else s
  }

  /** Payload bytes the next chunk must carry, with chunks of at most `size` payload bytes. */
  function Expected(s: Stream, size: U32): (n: nat)
    requires s.Known? && s.Valid()
    ensures |s.received| + n <= s.length
  {
    Min(s.length - |s.received|, size)
  }

  function OnData(csid: U32, s: Stream, data: seq<Byte>): (r: (Stream, seq<Message>))
    requires s.Known?
    ensures r.0.Known?
  {
    var all := s.received + data;
    if |all| == s.length then
      (s.(received := []), [Message(s.timestamp, s.length, s.typeId, s.streamId, csid, all)])
    else
      (s.(received := all), [])
  }

  datatype Chunk = Chunk(basic: Basic, header: Header, data: seq<Byte>)

  /** `c` is a chunk a sender may emit next on its stream, when chunks carry `size` bytes. */
  predicate LegalChunk(streams: Streams, c: Chunk, size: U32) {
    && c.basic.Valid()
    && c.header.Fmt() == c.basic.fmt
    && var s := Get(streams, c.basic.csid);
       s.Valid() && Legal(s, c.header) && |c.data| == Expected(OnHeader(s, c.header), size)
  }

  function Serialize(c: Chunk): (r: seq<Byte>)
    requires c.basic.Valid() && c.header.Valid()
    ensures |r| == c.basic.size + |c.header.Bytes()| + |c.data|
  {
    BasicBytes(c.basic) + c.header.Bytes() + c.data
  }

  /** The effect of one complete chunk: its stream moves on, and a message may be finished. */
  function Deliver(streams: Streams, c: Chunk): (r: (Streams, seq<Message>))
    requires c.basic.Valid() && Legal(Get(streams, c.basic.csid), c.header)
  {
    var (s, out) := OnData(c.basic.csid, OnHeader(Get(streams, c.basic.csid), c.header), c.data);
    (streams[c.basic.csid := s], out)
  }

  lemma DeliverKeepsValid(streams: Streams, c: Chunk, size: U32)
    requires ValidStreams(streams) && LegalChunk(streams, c, size)
    ensures ValidStreams(Deliver(streams, c).0)
  {
    forall k ensures Get(Deliver(streams, c).0, k).Valid() {
      assert Get(streams, k).Valid();
    }
  }

  /** Reading the chunk at the head of a byte stream: all of it, a fault, or not enough bytes. */
  datatype Framing = More | Bad | One(chunk: Chunk)

  ghost function Frame(streams: Streams, b: seq<Byte>, size: U32): (r: Framing)
    requires ValidStreams(streams)
    ensures r.One? ==> LegalChunk(streams, r.chunk, size) && 0 < |Serialize(r.chunk)| <= |b|
  {
    match ReadBasic(b)
    case None => More
    case Some(basic) =>
      var s := Get(streams, basic.csid);
      if basic.fmt != 0 && s.Fresh? then Bad
      else
        match ReadHeader(basic.fmt, b[basic.size..], s.Known? && s.ext != 0)
        case None => More
        case Some(h) =>
          var start := basic.size + |h.Bytes()|;
          var want := Expected(OnHeader(s, h), size);
          if |b| < start + want then More
          else One(Chunk(basic, h, b[start..start + want]))
  }

  lemma FrameParts(streams: Streams, b: seq<Byte>, size: U32)
    requires ValidStreams(streams) && Frame(streams, b, size).One?
    ensures var c := Frame(streams, b, size).chunk;
      var s := Get(streams, c.basic.csid);
      var start := c.basic.size + |c.header.Bytes()|;
      && ReadBasic(b) == Some(c.basic)
      && ReadHeader(c.basic.fmt, b[c.basic.size..], s.Known? && s.ext != 0) == Some(c.header)
      && c.data == b[start..start + |c.data|]
  {
    hide ReadBasic, ReadHeader, Header.Bytes, OnHeader, Expected, BasicBytes, Serialize;
  }

  lemma BasicRoundTrip(b: Basic, rest: seq<Byte>)
    requires b.Valid()
    ensures ReadBasic(BasicBytes(b) + rest) == Some(b)
  {
    var all := BasicBytes(b) + rest;
    assert forall i :: 0 <= i < b.size ==> all[i] == BasicBytes(b)[i];
  }

  lemma BasicSound(b: seq<Byte>)
    requires ReadBasic(b).Some?
    ensures BasicBytes(ReadBasic(b).value) == b[..ReadBasic(b).value.size]
  {
  }

  lemma Horner(d3: Byte, d2: Byte, d1: Byte, d0: Byte)
    ensures var v := d3 as int * 0x100_0000 + d2 as int * 0x1_0000 + d1 as int * 0x100 + d0;
      v / 0x100_0000 % 0x100 == d3 && v / 0x1_0000 % 0x100 == d2 && v / 0x100 % 0x100 == d1 && v % 0x100 == d0
  {
    var a: int := d3 as int * 0x100 + d2;
    var b: int := a * 0x100 + d1;
    var v: int := b * 0x100 + d0;
    DivDiv(v);
    assert v / 0x100 == b && v % 0x100 == d0;
    assert b / 0x100 == a && b % 0x100 == d1;
    assert a / 0x100 == d3 as int && a % 0x100 == d2;
  }

  lemma BE24Exact(b: seq<Byte>)
    requires |b| >= 3
    ensures BE24(ReadBE24(b)) == b[..3]
  {
    Horner(0, b[0], b[1], b[2]);
  }

  lemma BE32Exact(b: seq<Byte>)
    requires |b| >= 4
    ensures BE32(ReadBE32(b)) == b[..4]
  {
    Horner(b[0], b[1], b[2], b[3]);
  }

  lemma LE32Exact(b: seq<Byte>)
    requires |b| >= 4
    ensures LE32(ReadLE32(b)) == b[..4]
  {
    Horner(b[3], b[2], b[1], b[0]);
  }

  lemma TimeRoundTrip(t: Time, middle: seq<Byte>, rest: seq<Byte>)
    requires t.Valid()
    ensures var b := BE24(t.Field()) + middle + t.Tail() + rest;
      ReadTime(b, 3 + |middle|) == Some(t)
  {
    var b := BE24(t.Field()) + middle + t.Tail() + rest;
    assert b == BE24(t.Field()) + (middle + t.Tail() + rest);
    BE24Inverse(t.Field(), middle + t.Tail() + rest);
    if t.Extended? {
      assert b[3 + |middle|..] == BE32(t.v) + rest;
      BE32Inverse(t.v, rest);
    }
  }

  lemma FullRoundTrip(h: Header, rest: seq<Byte>)
    requires h.Valid() && h.Full?
    ensures ReadHeader(0, h.Bytes() + rest, false) == Some(h) == ReadHeader(0, h.Bytes() + rest, true)
  {
    hide BE24, BE32, LE32, ReadBE24, ReadBE32, ReadLE32, ReadTime;
    var Full(t, len, ty, sid) := h;
    var b := h.Bytes() + rest;
    var middle := BE24(len) + [ty] + LE32(sid);
    TimeRoundTrip(t, middle, rest);
    BE24Inverse(len, [ty] + LE32(sid) + t.Tail() + rest);
    LE32Inverse(sid, t.Tail() + rest);
    assert b == BE24(t.Field()) + middle + t.Tail() + rest;
    assert b[3..] == BE24(len) + ([ty] + LE32(sid) + t.Tail() + rest);
    assert b[7..] == LE32(sid) + (t.Tail() + rest);
    assert b[6] == ty;
  }

  lemma SameStreamRoundTrip(h: Header, rest: seq<Byte>)
    requires h.Valid() && h.SameStream?
    ensures ReadHeader(1, h.Bytes() + rest, false) == Some(h) == ReadHeader(1, h.Bytes() + rest, true)
  {
    hide BE24, BE32, ReadBE24, ReadBE32, ReadTime;
    var SameStream(t, len, ty) := h;
    var b := h.Bytes() + rest;
    var middle := BE24(len) + [ty];
    TimeRoundTrip(t, middle, rest);
    BE24Inverse(len, [ty] + t.Tail() + rest);
    assert b == BE24(t.Field()) + middle + t.Tail() + rest;
    assert b[3..] == BE24(len) + ([ty] + t.Tail() + rest);
    assert b[6] == ty;
  }

  lemma HeaderRoundTrip(h: Header, rest: seq<Byte>, ext: bool)
    requires h.Valid() && (h.Continue? ==> h.repeated.Some? == ext)
    ensures ReadHeader(h.Fmt(), h.Bytes() + rest, ext) == Some(h)
  {
    var b := h.Bytes() + rest;
    match h
    case Full(_, _, _, _) =>
      FullRoundTrip(h, rest);
    case SameStream(_, _, _) =>
      SameStreamRoundTrip(h, rest);
    case TimeOnly(t) =>
      assert b == BE24(t.Field()) + [] + t.Tail() + rest;
      TimeRoundTrip(t, [], rest);
    case Continue(e) =>
      if e.Some? {
        BE32Inverse(e.value, rest);
      }
  }

  lemma TimeSound(b: seq<Byte>, tail: nat)
    requires 3 <= tail <= |b| && ReadTime(b, tail).Some?
    ensures var t := ReadTime(b, tail).value;
      BE24(t.Field()) == b[..3] && tail + |t.Tail()| <= |b| && t.Tail() == b[tail..tail + |t.Tail()|]
  {
    BE24Exact(b);
    if ReadTime(b, tail).value.Extended? {
      BE32Exact(b[tail..]);
      assert b[tail..][..4] == b[tail..tail + 4];
    }
  }

  lemma FullSound(b: seq<Byte>, ext: bool)
    requires ReadHeader(0, b, ext).Some?
    ensures var n := |ReadHeader(0, b, ext).value.Bytes()|;
      n <= |b| && ReadHeader(0, b, ext).value.Bytes() == b[..n]
  {
    TimeSound(b, 11);
    BE24Exact(b[3..]);
    LE32Exact(b[7..]);
    hide BE24, BE32, LE32, ReadBE24, ReadBE32, ReadLE32, ReadTime;
    var h := ReadHeader(0, b, ext).value;
    assert b[3..][..3] == b[3..6] && b[7..][..4] == b[7..11];
    assert h.Bytes() == b[..3] + b[3..6] + [b[6]] + b[7..11] + b[11..11 + |h.time.Tail()|];
  }

  lemma HeaderSound(fmt: nat, b: seq<Byte>, ext: bool)
    requires fmt < 4 && ReadHeader(fmt, b, ext).Some?
    ensures var n := |ReadHeader(fmt, b, ext).value.Bytes()|;
      n <= |b| && ReadHeader(fmt, b, ext).value.Bytes() == b[..n]
  {
    hide BE24, BE32, LE32, ReadBE24, ReadBE32, ReadLE32, ReadTime;
    var h := ReadHeader(fmt, b, ext).value;
    match h
    case Full(_, _, _, _) =>
      FullSound(b, ext);
    case SameStream(t, len, ty) =>
      TimeSound(b, 7);
      BE24Exact(b[3..]);
      assert b[3..][..3] == b[3..6];
      assert h.Bytes() == b[..3] + b[3..6] + [b[6]] + b[7..7 + |t.Tail()|];
    case TimeOnly(t) =>
      TimeSound(b, 3);
      assert h.Bytes() == b[..3] + b[3..3 + |t.Tail()|];
    case Continue(e) =>
      if e.Some? {
        BE32Exact(b);
      }
  }

  /** A legal chunk is recognised at the head of any byte stream that starts with it. */
  lemma FrameComplete(streams: Streams, c: Chunk, rest: seq<Byte>, size: U32)
    requires ValidStreams(streams) && LegalChunk(streams, c, size)
    ensures Frame(streams, Serialize(c) + rest, size) == One(c)
  {
    var s := Get(streams, c.basic.csid);
    var b := Serialize(c) + rest;
    assert b == BasicBytes(c.basic) + (c.header.Bytes() + c.data + rest);
    BasicRoundTrip(c.basic, c.header.Bytes() + c.data + rest);
    assert b[c.basic.size..] == c.header.Bytes() + (c.data + rest);
    HeaderRoundTrip(c.header, c.data + rest, s.Known? && s.ext != 0);
    var start := c.basic.size + |c.header.Bytes()|;
    assert b[start..start + |c.data|] == c.data;
  }

  /** Whatever is recognised was written that way: nothing else is consumed. */
  lemma FrameSound(streams: Streams, b: seq<Byte>, size: U32)
    requires ValidStreams(streams) && Frame(streams, b, size).One?
    ensures var c := Frame(streams, b, size).chunk;
      Serialize(c) == b[..|Serialize(c)|]
  {
    hide Frame, ReadBasic, ReadHeader, BasicBytes, Header.Bytes, OnHeader, Expected;
    FrameParts(streams, b, size);
    var c := Frame(streams, b, size).chunk;
    var s := Get(streams, c.basic.csid);
    BasicSound(b);
    HeaderSound(c.basic.fmt, b[c.basic.size..], s.Known? && s.ext != 0);
    var start := c.basic.size + |c.header.Bytes()|;
    assert b[c.basic.size..][..|c.header.Bytes()|] == b[c.basic.size..start];
    assert b[..start + |c.data|] == b[..c.basic.size] + b[c.basic.size..start] + b[start..start + |c.data|];
    assert Serialize(c) == b[..c.basic.size] + b[c.basic.size..start] + b[start..start + |c.data|];
  }

  lemma ReadBasicExtend(a: seq<Byte>, b: seq<Byte>)
    requires ReadBasic(a).Some?
    ensures ReadBasic(a + b) == ReadBasic(a)
  {
  }

  lemma BadExtend(streams: Streams, a: seq<Byte>, b: seq<Byte>, size: U32)
    requires ValidStreams(streams) && Frame(streams, a, size).Bad?
    ensures Frame(streams, a + b, size).Bad?
  {
    hide ReadHeader, OnHeader, Expected, Serialize;
    ReadBasicExtend(a, b);
  }

  /** More bytes never change a verdict that has been reached. */
  lemma FrameExtend(streams: Streams, a: seq<Byte>, b: seq<Byte>, size: U32)
    requires ValidStreams(streams) && !Frame(streams, a, size).More?
    ensures Frame(streams, a + b, size) == Frame(streams, a, size)
  {
    hide Frame, Serialize, OnHeader, Expected;
    match Frame(streams, a, size)
    case Bad =>
      BadExtend(streams, a, b, size);
    case One(c) =>
      FrameSound(streams, a, size);
      FrameComplete(streams, c, a[|Serialize(c)|..] + b, size);
      assert a + b == Serialize(c) + (a[|Serialize(c)|..] + b);
  }

  /** All the chunks of a byte stream, up to an incomplete or faulty one. */
  datatype Parsed = Parsed(streams: Streams, rest: seq<Byte>, out: seq<Message>, ok: bool)

  ghost function ParseAll(streams: Streams, b: seq<Byte>, size: U32): (r: Parsed)
    requires ValidStreams(streams)
    ensures ValidStreams(r.streams)
    decreases |b|
  {
    match Frame(streams, b, size)
    case More => Parsed(streams, b, [], true)
    case Bad => Parsed(streams, b, [], false)
    case One(c) =>
      var (next, out) := Deliver(streams, c);
      DeliverKeepsValid(streams, c, size);
      var r := ParseAll(next, b[|Serialize(c)|..], size);
      r.(out := out + r.out)
  }

  /** The bytes left by `ParseAll` start with no complete chunk. */
  lemma {:induction false} ParseAllStuck(streams: Streams, b: seq<Byte>, size: U32)
    requires ValidStreams(streams)
    ensures var r := ParseAll(streams, b, size);
      Frame(r.streams, r.rest, size) == if r.ok then More else Bad
    decreases |b|
  {
    match Frame(streams, b, size)
    case More =>
    case Bad =>
    case One(c) =>
      DeliverKeepsValid(streams, c, size);
      ParseAllStuck(Deliver(streams, c).0, b[|Serialize(c)|..], size);
  }

  /** The time the header at the head of `data` adds to its stream as soon as it can be seen. */
  function VisibleShift(s: Stream, fmt: nat, data: seq<Byte>): U32
    requires s.Known? && 0 < fmt < 4
  {
    if fmt == 3 then (if s.received == [] && s.length > 0 then s.delta else 0)
    else
      match ReadHeader(fmt, data, s.ext != 0)
      case None => 0
      case Some(h) => h.time.v
  }

  function ShiftTime(s: Stream, shift: U32): (r: Stream)
    ensures s.Valid() ==> r.Valid()
  {
    if s.Fresh? then s else s.(timestamp := Wrap32(s.timestamp + shift))
  }

  /**
   What one unsuccessful attempt at the chunk at the head of `b` leaves in its stream: a time
   difference that is already visible has been added, and the next attempt will add it again.
   */
  function Retry(streams: Streams, b: seq<Byte>): Streams {
    match ReadBasic(b)
    case None => streams
    case Some(basic) =>
      var s := Get(streams, basic.csid);
      if s.Fresh? || basic.fmt == 0 then streams
      else streams[basic.csid := ShiftTime(s, VisibleShift(s, basic.fmt, b[basic.size..]))]
  }

  lemma RetryKeepsValid(streams: Streams, b: seq<Byte>)
    requires ValidStreams(streams)
    ensures ValidStreams(Retry(streams, b))
  {
    hide ReadBasic, VisibleShift;
    forall k ensures Get(Retry(streams, b), k).Valid() {
      assert Get(streams, k).Valid();
    }
  }

  lemma ParseAllUnfold(streams: Streams, b: seq<Byte>, size: U32)
    requires ValidStreams(streams)
    ensures var f := Frame(streams, b, size);
      match f
      case More => ParseAll(streams, b, size) == Parsed(streams, b, [], true)
      case Bad => ParseAll(streams, b, size) == Parsed(streams, b, [], false)
      case One(c) =>
        var d := Deliver(streams, c);
        ValidStreams(d.0) &&
        var r := ParseAll(d.0, b[|Serialize(c)|..], size);
        ParseAll(streams, b, size) == r.(out := d.1 + r.out)
  {
    if Frame(streams, b, size).One? {
      DeliverKeepsValid(streams, Frame(streams, b, size).chunk, size);
    }
  }

  /** Parsing in two goes is parsing in one. */
  lemma {:induction false} ParseAllSplit(streams: Streams, a: seq<Byte>, b: seq<Byte>, size: U32)
    requires ValidStreams(streams)
    ensures var first := ParseAll(streams, a, size);
      var second := ParseAll(first.streams, first.rest + b, size);
      ParseAll(streams, a + b, size) == second.(out := first.out + second.out)
    decreases |a|
  {
    hide Frame, Serialize, Deliver, ParseAll, OnHeader, Expected, Basic.Valid, Header.Valid;
    ParseAllUnfold(streams, a, size);
    match Frame(streams, a, size)
    case More =>
    case Bad =>
      FrameExtend(streams, a, b, size);
    case One(c) =>
      FrameExtend(streams, a, b, size);
      ParseAllUnfold(streams, a + b, size);
      var n := |Serialize(c)|;
      var (next, out) := Deliver(streams, c);
      ParseAllSplit(next, a[n..], b, size);
      assert (a + b)[n..] == a[n..] + b;
      var first := ParseAll(next, a[n..], size);
      Associate(out, first.out, ParseAll(first.streams, first.rest + b, size).out);
  }
}
