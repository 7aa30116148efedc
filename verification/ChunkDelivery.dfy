/**
 Chunk parsing over a whole run of deliveries: what the code emits for every schedule, which part
 of it depends on how the bytes were cut, and exactly when none of it does.
 */
module ChunkDelivery {
  import opened Bytes
  import opened RtmpTypes
  import opened ChunkGrammar
  import opened ChunkParser
  import opened ChunkRefinement

  /** The code over a run: each delivery is appended to the buffer, then `parse` is called. */
  function DeliverAll(streams: ChunkStreams, buffer: seq<Byte>, ds: seq<seq<Byte>>, size: U32): Outcome
    decreases |ds|
  {
    if ds == [] then Outcome(true, streams, buffer, [])
    else
      match ParseLoop(streams, buffer + ds[0], size)
      case Undefined => Undefined
      case Outcome(ok, next, rest, out) =>
        match DeliverAll(next, rest, ds[1..], size)
        case Undefined => Undefined
        case Outcome(ok', last, rest', out') =>
          Outcome(if |ds| == 1 then ok else ok', last, rest', out + out')
  }

  /** The grammar over a run, charging each stream for every unsuccessful attempt at its chunk. */
  ghost function DriftAll(streams: Streams, buffer: seq<Byte>, ds: seq<seq<Byte>>, size: U32): Parsed
    requires ValidStreams(streams)
    decreases |ds|
  {
    if ds == [] then Parsed(streams, buffer, [], true)
    else
      var p := ParseAll(streams, buffer + ds[0], size);
      RetryKeepsValid(p.streams, p.rest);
      var r := DriftAll(AfterParse(p), p.rest, ds[1..], size);
      Parsed(r.streams, r.rest, p.out + r.out, if |ds| == 1 then p.ok else r.ok)
  }

  /**
   For every byte stream and every schedule the code stays inside its buffers and emits, in every
   field, the messages of the grammar with the drift of the unsuccessful attempts.
   */
  lemma {:induction false} RunIsDrift(streams: ChunkStreams, refs: Streams, buffer: seq<Byte>,
                                        ds: seq<seq<Byte>>, size: U32)
    requires ValidStreams(refs) && Coupled(streams, refs, buffer)
    ensures var r, d := DeliverAll(streams, buffer, ds, size), DriftAll(refs, buffer, ds, size);
      && r.Outcome?
      && r.ok == d.ok && r.rest == d.rest && r.out == d.out
      && Coupled(r.streams, d.streams, d.rest)
    decreases |ds|
  {
    hide ParseLoop, ParseAll, Coupled, Retry;
    if ds != [] {
      CoupledExtend(streams, refs, buffer, ds[0]);
      LoopRefines(streams, refs, buffer + ds[0], size);
      var r, p := ParseLoop(streams, buffer + ds[0], size), ParseAll(refs, buffer + ds[0], size);
      RetryKeepsValid(p.streams, p.rest);
      RunIsDrift(r.streams, AfterParse(p), p.rest, ds[1..], size);
    }
  }

  lemma StartIsCoupled()
    ensures ValidStreams(map[]) && Coupled(map[], map[], [])
  {
  }

  // ---------- Any chunk sizes ----------

  /** Bytes that arrive, and the chunk size in force when they are parsed. */
  datatype Delivery = Delivery(bytes: seq<Byte>, size: U32)

  /** The code on a connection whose peer changes the chunk size between deliveries. */
  function DeliverEach(streams: ChunkStreams, buffer: seq<Byte>, ds: seq<Delivery>): Outcome
    decreases |ds|
  {
    if ds == [] then Outcome(true, streams, buffer, [])
    else
      match ParseLoop(streams, buffer + ds[0].bytes, ds[0].size)
      case Undefined => Undefined
      case Outcome(ok, next, rest, out) =>
        match DeliverEach(next, rest, ds[1..])
        case Undefined => Undefined
        case Outcome(ok', last, rest', out') =>
          Outcome(if |ds| == 1 then ok else ok', last, rest', out + out')
  }

  ghost function DriftEach(streams: Streams, buffer: seq<Byte>, ds: seq<Delivery>): Parsed
    requires ValidStreams(streams)
    decreases |ds|
  {
    if ds == [] then Parsed(streams, buffer, [], true)
    else
      var p := ParseAll(streams, buffer + ds[0].bytes, ds[0].size);
      RetryKeepsValid(p.streams, p.rest);
      var r := DriftEach(AfterParse(p), p.rest, ds[1..]);
      Parsed(r.streams, r.rest, p.out + r.out, if |ds| == 1 then p.ok else r.ok)
  }

  /** `RunIsDrift` whatever the chunk sizes are. */
  lemma {:induction false} EachIsDrift(streams: ChunkStreams, refs: Streams, buffer: seq<Byte>, ds: seq<Delivery>)
    requires ValidStreams(refs) && Coupled(streams, refs, buffer)
    ensures var r, d := DeliverEach(streams, buffer, ds), DriftEach(refs, buffer, ds);
      && r.Outcome?
      && r.ok == d.ok && r.rest == d.rest && r.out == d.out
      && Coupled(r.streams, d.streams, d.rest)
    decreases |ds|
  {
    hide ParseLoop, ParseAll, Coupled, Retry;
    if ds != [] {
      var data := buffer + ds[0].bytes;
      CoupledExtend(streams, refs, buffer, ds[0].bytes);
      LoopRefines(streams, refs, data, ds[0].size);
      var r, p := ParseLoop(streams, data, ds[0].size), ParseAll(refs, data, ds[0].size);
      RetryKeepsValid(p.streams, p.rest);
      EachIsDrift(r.streams, AfterParse(p), p.rest, ds[1..]);
    }
  }

  predicate ExactMessage(m: Message) {
    |m.payload| == m.messageLength < 0x100_0000 && 2 <= m.chunkStreamId < 65600
  }

  lemma {:induction false} ParseAllExact(streams: Streams, data: seq<Byte>, size: U32)
    requires ValidStreams(streams)
    ensures forall m :: m in ParseAll(streams, data, size).out ==> ExactMessage(m)
    decreases |data|
  {
    hide Frame, ParseAll, OnHeader, Expected, Serialize;
    ParseAllUnfold(streams, data, size);
    match Frame(streams, data, size)
    case More =>
    case Bad =>
    case One(c) =>
      ParseAllExact(Deliver(streams, c).0, data[|Serialize(c)|..], size);
  }

  lemma {:induction false} DriftExact(streams: Streams, buffer: seq<Byte>, ds: seq<Delivery>)
    requires ValidStreams(streams)
    ensures forall m :: m in DriftEach(streams, buffer, ds).out ==> ExactMessage(m)
    decreases |ds|
  {
    hide ParseAll, AfterParse, Retry;
    if ds != [] {
      var p := ParseAll(streams, buffer + ds[0].bytes, ds[0].size);
      ParseAllExact(streams, buffer + ds[0].bytes, ds[0].size);
      RetryKeepsValid(p.streams, p.rest);
      AfterParseIs(p);
      DriftExact(AfterParse(p), p.rest, ds[1..]);
    }
  }

  lemma AfterParseIs(p: Parsed)
    ensures AfterParse(p) == if p.ok then Retry(p.streams, p.rest) else p.streams
  {
  }

  /**
   Reassembly is exact on any input and any schedule, with any chunk size at every delivery: no copy
   leaves its payload, and every message handed out is as long as its header says.
   */
  lemma ReassemblyIsExact(ds: seq<Delivery>)
    ensures var r := DeliverEach(map[], [], ds);
      r.Outcome? && forall m :: m in r.out ==> ExactMessage(m)
  {
    hide DeliverEach, DriftEach, ExactMessage;
    StartIsCoupled();
    EachIsDrift(map[], map[], [], ds);
    DriftExact(map[], [], ds);
  }

  function SameSize(ds: seq<seq<Byte>>, size: U32): seq<Delivery> {
    if ds == [] then [] else [Delivery(ds[0], size)] + SameSize(ds[1..], size)
  }

  /** With one size throughout, this is the run that the rest of this module speaks of. */
  lemma {:induction false} OneSize(streams: ChunkStreams, buffer: seq<Byte>, ds: seq<seq<Byte>>, size: U32)
    ensures DeliverEach(streams, buffer, SameSize(ds, size)) == DeliverAll(streams, buffer, ds, size)
    ensures |SameSize(ds, size)| == |ds|
    decreases |ds|
  {
    hide ParseLoop;
    if ds != [] {
      assert SameSize(ds, size)[0] == Delivery(ds[0], size) && SameSize(ds, size)[1..] == SameSize(ds[1..], size);
      match ParseLoop(streams, buffer + ds[0], size)
      case Undefined => OneSize(streams, buffer, ds[1..], size);
      case Outcome(ok, next, rest, out) => OneSize(next, rest, ds[1..], size);
    }
  }

  // ---------- Streams that differ in time only ----------

  predicate SameAt(s: Stream, t: Stream, exact: bool) {
    || s == t
    || (!exact && s.Known? && t.Known? && s == t.(timestamp := s.timestamp))
  }

  /** `a` and `b` agree except for the times of the streams in `off`. */
  ghost predicate SameOff(a: Streams, b: Streams, off: iset<nat>) {
    forall csid :: SameOffAt(a, b, off, csid)
  }

  ghost predicate SameOffAt(a: Streams, b: Streams, off: iset<nat>, csid: nat) {
    SameAt(Get(a, csid), Get(b, csid), csid !in off)
  }

  lemma SameOffWeaken(a: Streams, b: Streams, off: iset<nat>, more: iset<nat>)
    requires SameOff(a, b, off) && off <= more
    ensures SameOff(a, b, more)
  {
    forall csid ensures SameOffAt(a, b, more, csid) {
      assert SameOffAt(a, b, off, csid);
    }
  }

  lemma SameExpected(s: Stream, t: Stream, h: Header, size: U32)
    requires SameAt(s, t, false) && s.Valid() && t.Valid() && Legal(s, h)
    ensures Legal(t, h) && Expected(OnHeader(s, h), size) == Expected(OnHeader(t, h), size)
  {
  }

  lemma FrameSame(a: Streams, b: Streams, off: iset<nat>, data: seq<Byte>, size: U32)
    requires ValidStreams(a) && ValidStreams(b) && SameOff(a, b, off)
    ensures Frame(a, data, size) == Frame(b, data, size)
  {
    hide ReadBasic, ReadHeader, Header.Bytes, OnHeader, Expected;
    match ReadBasic(data)
    case None =>
    case Some(basic) =>
      assert SameOffAt(a, b, off, basic.csid);
      var s, t := Get(a, basic.csid), Get(b, basic.csid);
      assert s.Valid() && t.Valid();
      if basic.fmt == 0 || s.Known? {
        var h := ReadHeader(basic.fmt, data[basic.size..], s.Known? && s.ext != 0);
        if h.Some? {
          SameExpected(s, t, h.value, size);
        }
      }
  }

  /** A full header forgets the time before it. */
  ghost function Cleared(c: Chunk, off: iset<nat>): iset<nat> {
    if c.header.Full? then off - iset{c.basic.csid} else off
  }

  lemma DeliverSame(a: Streams, b: Streams, off: iset<nat>, c: Chunk, size: U32)
    requires SameOff(a, b, off) && LegalChunk(a, c, size) && LegalChunk(b, c, size)
    ensures var (a', outA) := Deliver(a, c);
      var (b', outB) := Deliver(b, c);
      && SameOff(a', b', Cleared(c, off))
      && Untimed(outA) == Untimed(outB)
      && (c.basic.csid !in Cleared(c, off) ==> outA == outB)
  {
    var (a', outA) := Deliver(a, c);
    var (b', outB) := Deliver(b, c);
    assert SameOffAt(a, b, off, c.basic.csid);
    forall csid ensures SameOffAt(a', b', Cleared(c, off), csid) {
      assert SameOffAt(a, b, off, csid);
    }
  }

  lemma {:induction false} ParseAllSame(a: Streams, b: Streams, off: iset<nat>, data: seq<Byte>, size: U32)
    requires ValidStreams(a) && ValidStreams(b) && SameOff(a, b, off)
    ensures var p, q := ParseAll(a, data, size), ParseAll(b, data, size);
      && p.ok == q.ok && p.rest == q.rest
      && Untimed(p.out) == Untimed(q.out)
      && SameOff(p.streams, q.streams, off)
    decreases |data|
  {
    hide Frame, Serialize, Deliver, ParseAll, OnHeader, Expected, SameOff;
    FrameSame(a, b, off, data, size);
    ParseAllUnfold(a, data, size);
    ParseAllUnfold(b, data, size);
    match Frame(a, data, size)
    case More =>
    case Bad =>
    case One(c) =>
      DeliverSame(a, b, off, c, size);
      var (a', outA) := Deliver(a, c);
      var (b', outB) := Deliver(b, c);
      SameOffWeaken(a', b', Cleared(c, off), off);
      var rest := data[|Serialize(c)|..];
      ParseAllSame(a', b', off, rest, size);
      UntimedConcat(outA, ParseAll(a', rest, size).out);
      UntimedConcat(outB, ParseAll(b', rest, size).out);
  }

  lemma RetrySame(a: Streams, b: Streams, off: iset<nat>, data: seq<Byte>)
    requires SameOff(a, b, off)
    ensures SameOff(Retry(a, data), b, off + HeadTaint(b, data))
  {
    hide ReadBasic, ReadHeader;
    forall csid ensures SameOffAt(Retry(a, data), b, off + HeadTaint(b, data), csid) {
      assert SameOffAt(a, b, off, csid);
    }
  }

  /** The stream whose time an attempt at the incomplete chunk at the head of `data` disturbs. */
  ghost function HeadTaint(streams: Streams, data: seq<Byte>): iset<nat> {
    match ReadBasic(data)
    case None => iset{}
    case Some(basic) =>
      var s := Get(streams, basic.csid);
      if s.Known? && basic.fmt != 0 && VisibleShift(s, basic.fmt, data[basic.size..]) != 0
      then iset{basic.csid} else iset{}
  }

  ghost const EVERY: iset<nat> := iset n: nat | true

  /** However the bytes arrive, only times can differ from one parse of the whole stream. */
  lemma {:induction false} DriftOnlyInTime(a: Streams, b: Streams, buffer: seq<Byte>, ds: seq<seq<Byte>>, size: U32)
    requires ValidStreams(a) && ValidStreams(b) && SameOff(a, b, EVERY)
    requires !Frame(b, buffer, size).One?
    ensures var d, p := DriftAll(a, buffer, ds, size), ParseAll(b, buffer + Flatten(ds), size);
      && d.rest == p.rest
      && Untimed(d.out) == Untimed(p.out)
      && (ds != [] || Frame(b, buffer, size).More? ==> d.ok == p.ok)
    decreases |ds|
  {
    hide Frame, ParseAll, Retry, SameOff, HeadTaint, Deliver, Serialize;
    if ds == [] {
      ParseAllUnfold(b, buffer, size);
      assert buffer + Flatten(ds) == buffer;
    } else {
      var data := buffer + ds[0];
      var p, q := ParseAll(a, data, size), ParseAll(b, data, size);
      ParseAllSame(a, b, EVERY, data, size);
      ParseAllStuck(b, data, size);
      RetryKeepsValid(p.streams, p.rest);
      RetrySame(p.streams, q.streams, EVERY, p.rest);
      assert EVERY + HeadTaint(q.streams, p.rest) == EVERY;
      DriftOnlyInTime(AfterParse(p), q.streams, q.rest, ds[1..], size);
      assert buffer + Flatten(ds) == data + Flatten(ds[1..]);
      ParseAllSplit(b, data, Flatten(ds[1..]), size);
      UntimedConcat(p.out, DriftAll(AfterParse(p), p.rest, ds[1..], size).out);
      UntimedConcat(q.out, ParseAll(q.streams, q.rest + Flatten(ds[1..]), size).out);
      if |ds| == 1 {
        assert Flatten(ds[1..]) == [] && q.rest + [] == q.rest;
        ParseAllUnfold(q.streams, q.rest, size);
      }
    }
  }

  /**
   Segmentation independence of the code: for every byte stream and every cut, the leftover bytes,
   the verdict and the messages in every field except time are those of one delivery.
   */
  lemma SegmentationIndependence(ds: seq<seq<Byte>>, size: U32)
    ensures var cut, whole := DeliverAll(map[], [], ds, size), ParseLoop(map[], Flatten(ds), size);
      && cut.Outcome? && whole.Outcome?
      && cut.ok == whole.ok
      && cut.rest == whole.rest
      && Untimed(cut.out) == Untimed(whole.out)
  {
    hide DeliverAll, ParseLoop, DriftAll, ParseAll, Retry;
    StartIsCoupled();
    RunIsDrift(map[], map[], [], ds, size);
    AllAgreeCoupled(map[], map[], Flatten(ds));
    LoopRefines(map[], map[], Flatten(ds), size);
    EmptyIsMore(map[], size);
    DriftOnlyInTime(map[], map[], [], ds, size);
    assert [] + Flatten(ds) == Flatten(ds);
  }

  // ---------- Exactly when the times survive every cut ----------

  /** What a complete chunk adds to the time of its stream. */
  function Shift(s: Stream, h: Header): U32
    requires s.Known? && !h.Full?
  {
    if h.Continue? then (if s.received == [] && s.length > 0 then s.delta else 0) else h.time.v
  }

  /** The code can see a time difference before it can see the whole chunk. */
  predicate Sensitive(s: Stream, c: Chunk)
    requires c.basic.Valid() && c.header.Valid()
  {
    && s.Known? && !c.header.Full?
    && Shift(s, c.header) != 0
    && |Serialize(c)| > c.basic.size + if c.header.Continue? then 0 else |c.header.Bytes()|
  }

  ghost function Taint(streams: Streams, c: Chunk, off: iset<nat>): iset<nat>
    requires c.basic.Valid() && c.header.Valid()
  {
    if Sensitive(Get(streams, c.basic.csid), c) then off + iset{c.basic.csid} else Cleared(c, off)
  }

  /**
   Some message is emitted on a stream whose time has gone through a sensitive chunk since its
   last full header. This looks at the byte stream only, not at how it is delivered.
   */
  ghost predicate Exposed(streams: Streams, data: seq<Byte>, size: U32, off: iset<nat>)
    requires ValidStreams(streams)
    decreases |data|
  {
    match Frame(streams, data, size)
    case More => false
    case Bad => false
    case One(c) =>
      DeliverKeepsValid(streams, c, size);
      var (next, out) := Deliver(streams, c);
      || (out != [] && c.basic.csid in Taint(streams, c, off))
      || Exposed(next, data[|Serialize(c)|..], size, Taint(streams, c, off))
  }

  ghost function TaintAll(streams: Streams, data: seq<Byte>, size: U32, off: iset<nat>): iset<nat>
    requires ValidStreams(streams)
    decreases |data|
  {
    match Frame(streams, data, size)
    case More => off
    case Bad => off
    case One(c) =>
      DeliverKeepsValid(streams, c, size);
      TaintAll(Deliver(streams, c).0, data[|Serialize(c)|..], size, Taint(streams, c, off))
  }

  lemma ExposedUnfold(streams: Streams, data: seq<Byte>, size: U32, off: iset<nat>)
    requires ValidStreams(streams)
    ensures match Frame(streams, data, size)
      case More => !Exposed(streams, data, size, off) && TaintAll(streams, data, size, off) == off
      case Bad => !Exposed(streams, data, size, off) && TaintAll(streams, data, size, off) == off
      case One(c) =>
        var (next, out) := Deliver(streams, c);
        var off' := Taint(streams, c, off);
        var rest := data[|Serialize(c)|..];
        && ValidStreams(next)
        && (Exposed(streams, data, size, off) <==>
              (out != [] && c.basic.csid in off') || Exposed(next, rest, size, off'))
        && TaintAll(streams, data, size, off) == TaintAll(next, rest, size, off')
  {
    hide Frame, Serialize, Taint, OnData, OnHeader;
    if Frame(streams, data, size).One? {
      DeliverKeepsValid(streams, Frame(streams, data, size).chunk, size);
    }
  }

  lemma {:induction false} ExposedSplit(streams: Streams, a: seq<Byte>, b: seq<Byte>, size: U32, off: iset<nat>)
    requires ValidStreams(streams)
    ensures var p := ParseAll(streams, a, size);
      var off' := TaintAll(streams, a, size, off);
      Exposed(streams, a + b, size, off) <==>
        Exposed(streams, a, size, off) || Exposed(p.streams, p.rest + b, size, off')
    decreases |a|
  {
    hide Frame, Serialize, Taint, Deliver, ParseAll, Exposed, TaintAll, OnHeader, Expected;
    ExposedUnfold(streams, a, size, off);
    ParseAllUnfold(streams, a, size);
    match Frame(streams, a, size)
    case More =>
    case Bad =>
      FrameExtend(streams, a, b, size);
      ExposedUnfold(streams, a + b, size, off);
    case One(c) =>
      FrameExtend(streams, a, b, size);
      ExposedUnfold(streams, a + b, size, off);
      var n := |Serialize(c)|;
      ExposedSplit(Deliver(streams, c).0, a[n..], b, size, Taint(streams, c, off));
      assert (a + b)[n..] == a[n..] + b;
  }

  /** The streams in `dirty` are accounted for by the taint, the chunk at the head included. */
  ghost predicate Within(dirty: iset<nat>, streams: Streams, data: seq<Byte>, size: U32, off: iset<nat>)
    requires ValidStreams(streams)
  {
    match Frame(streams, data, size)
    case One(c) => Cleared(c, dirty) <= Taint(streams, c, off)
    case _ => dirty <= off + HeadTaint(streams, data)
  }

  lemma SubsetIsWithin(dirty: iset<nat>, streams: Streams, data: seq<Byte>, size: U32, off: iset<nat>)
    requires ValidStreams(streams) && dirty <= off
    ensures Within(dirty, streams, data, size, off)
  {
    hide Frame, HeadTaint, Serialize;
  }

  /** One parse on disturbed streams: exact unless some message is exposed. */
  lemma {:induction false} ParseAllSafe(a: Streams, b: Streams, dirty: iset<nat>,
                                          data: seq<Byte>, size: U32, off: iset<nat>)
    requires ValidStreams(a) && ValidStreams(b) && SameOff(a, b, dirty)
    requires Within(dirty, b, data, size, off) && !Exposed(b, data, size, off)
    ensures var p, q := ParseAll(a, data, size), ParseAll(b, data, size);
      && p.ok == q.ok && p.rest == q.rest && p.out == q.out
      && SameOff(p.streams, q.streams, TaintAll(b, data, size, off) + HeadTaint(q.streams, q.rest))
    decreases |data|
  {
    hide Frame, Serialize, Taint, Deliver, ParseAll, Exposed, TaintAll, OnHeader, Expected, SameOff, HeadTaint;
    FrameSame(a, b, dirty, data, size);
    ParseAllUnfold(a, data, size);
    ParseAllUnfold(b, data, size);
    ExposedUnfold(b, data, size, off);
    match Frame(a, data, size)
    case More => SameOffWeaken(a, b, dirty, off + HeadTaint(b, data));
    case Bad => SameOffWeaken(a, b, dirty, off + HeadTaint(b, data));
    case One(c) =>
      DeliverSame(a, b, dirty, c, size);
      var off' := Taint(b, c, off);
      var rest := data[|Serialize(c)|..];
      SubsetIsWithin(Cleared(c, dirty), Deliver(b, c).0, rest, size, off');
      ParseAllSafe(Deliver(a, c).0, Deliver(b, c).0, Cleared(c, dirty), rest, size, off');
      if c.basic.csid in off' {
        NoOutputSame(a, b, c);
      }
  }

  lemma NoOutputSame(a: Streams, b: Streams, c: Chunk)
    requires c.basic.Valid() && Legal(Get(a, c.basic.csid), c.header) && Legal(Get(b, c.basic.csid), c.header)
    requires Untimed(Deliver(a, c).1) == Untimed(Deliver(b, c).1) && Deliver(b, c).1 == []
    ensures Deliver(a, c).1 == []
  {
    hide Deliver;
  }

  /** A chunk disturbed while it waited is sensitive once it is complete. */
  lemma HeadTaintIsWithin(streams: Streams, buffer: seq<Byte>, more: seq<Byte>, size: U32, off: iset<nat>)
    requires ValidStreams(streams) && !Frame(streams, buffer, size).One?
    ensures Within(off + HeadTaint(streams, buffer), streams, buffer + more, size, off)
  {
    if HeadTaint(streams, buffer) == iset{} {
      hide Frame;
      assert off + HeadTaint(streams, buffer) == off;
      SubsetIsWithin(off, streams, buffer + more, size, off);
    } else {
      HeadTaintGrows(streams, buffer, more);
      if Frame(streams, buffer + more, size).One? {
        HeadTaintSensitive(streams, buffer, more, size);
      }
      hide Frame, HeadTaint, Sensitive;
    }
  }

  lemma HeadTaintGrows(streams: Streams, buffer: seq<Byte>, more: seq<Byte>)
    requires HeadTaint(streams, buffer) != iset{}
    ensures HeadTaint(streams, buffer + more) == HeadTaint(streams, buffer)
  {
    hide ReadBasic, ReadHeader, Header.Bytes;
    ReadBasicExtend(buffer, more);
    var basic := ReadBasic(buffer).value;
    var s := Get(streams, basic.csid);
    var data := buffer[basic.size..];
    assert (buffer + more)[basic.size..] == data + more;
    if basic.fmt != 3 {
      HeaderSound(basic.fmt, data, s.ext != 0);
      var h := ReadHeader(basic.fmt, data, s.ext != 0).value;
      assert data + more == h.Bytes() + (data[|h.Bytes()|..] + more);
      HeaderRoundTrip(h, data[|h.Bytes()|..] + more, s.ext != 0);
    }
  }

  lemma HeadTaintSensitive(streams: Streams, buffer: seq<Byte>, more: seq<Byte>, size: U32)
    requires ValidStreams(streams) && HeadTaint(streams, buffer) != iset{}
    requires !Frame(streams, buffer, size).One? && Frame(streams, buffer + more, size).One?
    ensures var c := Frame(streams, buffer + more, size).chunk;
      HeadTaint(streams, buffer) == iset{c.basic.csid} && Sensitive(Get(streams, c.basic.csid), c)
  {
    hide Frame, ReadBasic, ReadHeader, Serialize, Header.Bytes, OnHeader, Expected, BasicBytes;
    var c := Frame(streams, buffer + more, size).chunk;
    ReadBasicExtend(buffer, more);
    FrameParts(streams, buffer + more, size);
    WaitingIsShorter(streams, buffer, more, size);
    HeadTaintGrows(streams, buffer, more);
    var s := Get(streams, c.basic.csid);
    var data := buffer[c.basic.size..];
    assert (buffer + more)[c.basic.size..] == data + more;
    if c.basic.fmt != 3 {
      HeaderSound(c.basic.fmt, data, s.ext != 0);
      var h := ReadHeader(c.basic.fmt, data, s.ext != 0).value;
      assert data + more == h.Bytes() + (data[|h.Bytes()|..] + more);
      HeaderRoundTrip(h, data[|h.Bytes()|..] + more, s.ext != 0);
      assert h == c.header;
    }
  }

  /** Bytes that hold no complete chunk are fewer than the chunk they turn out to begin. */
  lemma WaitingIsShorter(streams: Streams, buffer: seq<Byte>, more: seq<Byte>, size: U32)
    requires ValidStreams(streams)
    requires !Frame(streams, buffer, size).One? && Frame(streams, buffer + more, size).One?
    ensures |buffer| < |Serialize(Frame(streams, buffer + more, size).chunk)|
  {
    hide Frame, Serialize, OnHeader, Expected, BasicBytes;
    var c := Frame(streams, buffer + more, size).chunk;
    FrameSound(streams, buffer + more, size);
    var n := |Serialize(c)|;
    if n <= |buffer| {
      assert Serialize(c) == buffer[..n];
      assert buffer == Serialize(c) + buffer[n..];
      FrameComplete(streams, c, buffer[n..], size);
    }
  }

  lemma {:induction false} RunSafe(a: Streams, b: Streams, buffer: seq<Byte>,
                                     ds: seq<seq<Byte>>, size: U32, off: iset<nat>)
    requires ValidStreams(a) && ValidStreams(b) && !Frame(b, buffer, size).One?
    requires SameOff(a, b, off + HeadTaint(b, buffer))
    requires !Exposed(b, buffer + Flatten(ds), size, off)
    ensures DriftAll(a, buffer, ds, size).out == ParseAll(b, buffer + Flatten(ds), size).out
    decreases |ds|
  {
    hide Frame, ParseAll, Retry, SameOff, HeadTaint, Exposed, TaintAll, Within, Deliver, Serialize, Taint;
    if ds == [] {
      assert buffer + Flatten(ds) == buffer;
      ParseAllUnfold(b, buffer, size);
    } else {
      var data, tail := buffer + ds[0], Flatten(ds[1..]);
      assert buffer + Flatten(ds) == data + tail;
      ExposedSplit(b, data, tail, size, off);
      HeadTaintIsWithin(b, buffer, ds[0], size, off);
      ParseAllSafe(a, b, off + HeadTaint(b, buffer), data, size, off);
      var p, q := ParseAll(a, data, size), ParseAll(b, data, size);
      var off' := TaintAll(b, data, size, off);
      RetryKeepsValid(p.streams, p.rest);
      RetrySame(p.streams, q.streams, off' + HeadTaint(q.streams, q.rest), p.rest);
      assert off' + HeadTaint(q.streams, q.rest) + HeadTaint(q.streams, q.rest) == off' + HeadTaint(q.streams, q.rest);
      ParseAllStuck(b, data, size);
      RunSafe(AfterParse(p), q.streams, q.rest, ds[1..], size, off');
      ParseAllSplit(b, data, tail, size);
    }
  }

  // ---------- A cut that shows an exposed time ----------

  /** A message is emitted on `csid` before the next full header on it. */
  ghost predicate Reaches(streams: Streams, data: seq<Byte>, size: U32, csid: nat)
    requires ValidStreams(streams)
    decreases |data|
  {
    match Frame(streams, data, size)
    case More => false
    case Bad => false
    case One(c) =>
      DeliverKeepsValid(streams, c, size);
      var (next, out) := Deliver(streams, c);
      if c.basic.csid == csid && c.header.Full? then false
      else (c.basic.csid == csid && out != []) || Reaches(next, data[|Serialize(c)|..], size, csid)
  }

  lemma ReachesUnfold(streams: Streams, data: seq<Byte>, size: U32, csid: nat)
    requires ValidStreams(streams)
    ensures match Frame(streams, data, size)
      case More => !Reaches(streams, data, size, csid)
      case Bad => !Reaches(streams, data, size, csid)
      case One(c) =>
        var (next, out) := Deliver(streams, c);
        && ValidStreams(next)
        && (Reaches(streams, data, size, csid) <==>
              if c.basic.csid == csid && c.header.Full? then false
              else (c.basic.csid == csid && out != []) || Reaches(next, data[|Serialize(c)|..], size, csid))
  {
    hide Frame, Serialize, OnData, OnHeader;
    if Frame(streams, data, size).One? {
      DeliverKeepsValid(streams, Frame(streams, data, size).chunk, size);
    }
  }

  /** After `n` bytes of complete chunks comes a sensitive chunk whose time reaches a message. */
  ghost predicate LeaksAt(streams: Streams, data: seq<Byte>, size: U32, n: nat)
    requires ValidStreams(streams)
  {
    && n <= |data|
    && var p := ParseAll(streams, data[..n], size);
       var f := Frame(p.streams, data[n..], size);
       && p.rest == [] && p.ok
       && f.One?
       && Sensitive(Get(p.streams, f.chunk.basic.csid), f.chunk)
       && Reaches(p.streams, data[n..], size, f.chunk.basic.csid)
  }

  lemma LeaksLater(streams: Streams, data: seq<Byte>, size: U32, n: nat)
    requires ValidStreams(streams) && Frame(streams, data, size).One?
    requires var c := Frame(streams, data, size).chunk;
      var next := Deliver(streams, c).0;
      ValidStreams(next) && LeaksAt(next, data[|Serialize(c)|..], size, n)
    ensures LeaksAt(streams, data, size, |Serialize(Frame(streams, data, size).chunk)| + n)
  {
    hide Frame, Serialize, Deliver, ParseAll, Reaches, Sensitive, OnHeader, Expected, BasicBytes;
    var c := Frame(streams, data, size).chunk;
    var k := |Serialize(c)|;
    FrameSound(streams, data, size);
    assert data[..k + n] == Serialize(c) + data[k..][..n];
    FrameComplete(streams, c, data[k..][..n], size);
    ParseAllUnfold(streams, data[..k + n], size);
    assert data[..k + n][k..] == data[k..][..n];
    assert data[k..][n..] == data[k + n..];
  }

  lemma {:induction false} ExposedLeaks(streams: Streams, data: seq<Byte>, size: U32, off: iset<nat>) returns (n: nat)
    requires ValidStreams(streams) && Exposed(streams, data, size, off)
    ensures LeaksAt(streams, data, size, n) || exists csid :: csid in off && Reaches(streams, data, size, csid)
    decreases |data|
  {
    hide Frame, Serialize, Deliver, ParseAll, Reaches, Sensitive, Exposed, OnHeader, Expected, BasicBytes, LeaksAt;
    ExposedUnfold(streams, data, size, off);
    var c := Frame(streams, data, size).chunk;
    var head := c.basic.csid;
    var (next, out) := Deliver(streams, c);
    var rest, off' := data[|Serialize(c)|..], Taint(streams, c, off);
    ReachesUnfold(streams, data, size, head);
    if head in off' {
      TaintedIsCompressed(streams, c, off);
    }
    n := 0;
    if out != [] && head in off' {
      HeadLeaks(streams, data, size, off);
    } else {
      var m := ExposedLeaks(next, rest, size, off');
      if LeaksAt(next, rest, size, m) {
        LeaksLater(streams, data, size, m);
        n := |Serialize(c)| + m;
      } else {
        var csid :| csid in off' && Reaches(next, rest, size, csid);
        ReachesUnfold(streams, data, size, csid);
        if csid == head {
          HeadLeaks(streams, data, size, off);
        } else {
          assert csid in off;
        }
      }
    }
  }

  lemma TaintedIsCompressed(streams: Streams, c: Chunk, off: iset<nat>)
    requires c.basic.Valid() && c.header.Valid() && c.basic.csid in Taint(streams, c, off)
    ensures !c.header.Full?
  {
    hide Serialize, Header.Bytes;
  }

  /** The chunk at the head is tainted and its time reaches a message. */
  lemma HeadLeaks(streams: Streams, data: seq<Byte>, size: U32, off: iset<nat>)
    requires ValidStreams(streams) && Frame(streams, data, size).One?
    requires var c := Frame(streams, data, size).chunk;
      c.basic.csid in Taint(streams, c, off) && Reaches(streams, data, size, c.basic.csid)
    ensures LeaksAt(streams, data, size, 0) || exists csid :: csid in off && Reaches(streams, data, size, csid)
  {
    hide Frame, Serialize, Deliver, Reaches, Sensitive, OnHeader, Expected, BasicBytes, ParseAll;
    var c := Frame(streams, data, size).chunk;
    if c.basic.csid !in off {
      EmptyIsMore(streams, size);
      ParseAllUnfold(streams, [], size);
      assert data[..0] == [] && data[0..] == data;
    }
  }

  /** A time that differs when it reaches a message makes the messages differ. */
  lemma {:induction false} ReachesDiffers(a: Streams, b: Streams, data: seq<Byte>, size: U32, csid: nat)
    requires ValidStreams(a) && ValidStreams(b) && SameOff(a, b, iset{csid})
    requires Get(a, csid) != Get(b, csid) && Reaches(b, data, size, csid)
    ensures ParseAll(a, data, size).out != ParseAll(b, data, size).out
    decreases |data|
  {
    hide Frame, Serialize, Deliver, ParseAll, Reaches, OnHeader, Expected, BasicBytes, SameOff;
    FrameSame(a, b, iset{csid}, data, size);
    ParseAllUnfold(a, data, size);
    ParseAllUnfold(b, data, size);
    ReachesUnfold(b, data, size, csid);
    var c := Frame(b, data, size).chunk;
    DeliverSame(a, b, iset{csid}, c, size);
    var (a', outA) := Deliver(a, c);
    var (b', outB) := Deliver(b, c);
    var rest := data[|Serialize(c)|..];
    if c.basic.csid == csid {
      StaysDifferent(a, b, c, csid);
    } else {
      OtherStreamsKept(a, c, csid);
      OtherStreamsKept(b, c, csid);
      assert outA == outB;
    }
    if outA == outB {
      SameOffWeaken(a', b', Cleared(c, iset{csid}), iset{csid});
      ReachesDiffers(a', b', rest, size, csid);
      PrefixKeepsDifference(outA, ParseAll(a', rest, size).out, ParseAll(b', rest, size).out);
    } else {
      assert (outA + ParseAll(a', rest, size).out)[0] != (outB + ParseAll(b', rest, size).out)[0];
    }
  }

  lemma OtherStreamsKept(a: Streams, c: Chunk, csid: nat)
    requires c.basic.Valid() && Legal(Get(a, c.basic.csid), c.header) && c.basic.csid != csid
    ensures Get(Deliver(a, c).0, csid) == Get(a, csid)
  {
  }

  lemma StaysDifferent(a: Streams, b: Streams, c: Chunk, csid: nat)
    requires SameOff(a, b, iset{csid}) && Get(a, csid) != Get(b, csid)
    requires c.basic.Valid() && c.basic.csid == csid && !c.header.Full?
    requires Legal(Get(a, csid), c.header) && Legal(Get(b, csid), c.header)
    ensures var (a', outA) := Deliver(a, c);
      var (b', outB) := Deliver(b, c);
      && |outA| == |outB| <= 1
      && Get(a', csid) != Get(b', csid)
      && (outA != [] ==> outA[0] != outB[0])
  {
    assert SameOffAt(a, b, iset{csid}, csid);
    var s, t := Get(a, csid), Get(b, csid);
    WrapInjective(s.timestamp, t.timestamp, Shift(s, c.header));
  }

  lemma WrapInjective(x: U32, y: U32, d: U32)
    ensures Wrap32(x + d) == Wrap32(y + d) ==> x == y
  {
  }

  /** The chunk at the head, cut one byte short: it waits, and its stream has drifted. */
  lemma CutDrifts(streams: Streams, data: seq<Byte>, size: U32)
    requires ValidStreams(streams) && Frame(streams, data, size).One?
    requires var c := Frame(streams, data, size).chunk; Sensitive(Get(streams, c.basic.csid), c)
    ensures var c := Frame(streams, data, size).chunk;
      var short := data[..|Serialize(c)| - 1];
      var s := Get(streams, c.basic.csid);
      && Frame(streams, short, size).More?
      && Retry(streams, short) == streams[c.basic.csid := ShiftTime(s, Shift(s, c.header))]
  {
    hide Frame, ReadBasic, ReadHeader, Serialize, Header.Bytes, OnHeader, Expected, BasicBytes;
    var c := Frame(streams, data, size).chunk;
    var s := Get(streams, c.basic.csid);
    var k := |Serialize(c)| - 1;
    var short, last := data[..k], data[k..];
    assert data == short + last;
    FrameSound(streams, data, size);
    ShortIsMore(streams, short, last, size);
    SerializeParts(c);
    var head, mid := BasicBytes(c.basic), c.header.Bytes();
    assert Serialize(c)[..k] == short;
    TakenSlice(Serialize(c), k, 0, c.basic.size);
    assert short == head + short[c.basic.size..];
    BasicRoundTrip(c.basic, short[c.basic.size..]);
    if c.basic.fmt != 3 {
      TakenSlice(Serialize(c), k, c.basic.size, c.basic.size + |mid|);
      StartsWith(short, c.basic.size, mid);
      HeaderRoundTrip(c.header, short[c.basic.size..][|mid|..], s.ext != 0);
    }
  }

  lemma TakenSlice(b: seq<Byte>, k: nat, i: nat, j: nat)
    requires i <= j <= k <= |b|
    ensures b[..k][i..j] == b[i..j]
  {
  }

  lemma StartsWith(b: seq<Byte>, at: nat, piece: seq<Byte>)
    requires at + |piece| <= |b| && b[at..at + |piece|] == piece
    ensures b[at..] == piece + b[at..][|piece|..]
  {
    assert b[at..][..|piece|] == b[at..at + |piece|];
  }

  lemma SerializeParts(c: Chunk)
    requires c.basic.Valid() && c.header.Valid()
    ensures |BasicBytes(c.basic)| == c.basic.size
    ensures Serialize(c)[..c.basic.size] == BasicBytes(c.basic)
    ensures Serialize(c)[c.basic.size..c.basic.size + |c.header.Bytes()|] == c.header.Bytes()
  {
    hide BasicBytes, Header.Bytes;
  }

  lemma ShortIsMore(streams: Streams, short: seq<Byte>, last: seq<Byte>, size: U32)
    requires ValidStreams(streams) && Frame(streams, short + last, size).One?
    requires |short| < |Serialize(Frame(streams, short + last, size).chunk)|
    ensures Frame(streams, short, size).More?
  {
    hide Frame, Serialize, OnHeader, Expected;
    if !Frame(streams, short, size).More? {
      FrameExtend(streams, short, last, size);
    }
  }

  /** The first of the two deliveries ends one byte before the end of the leaking chunk. */
  lemma FirstDelivery(data: seq<Byte>, size: U32, n: nat) returns (k: nat)
    requires ValidStreams(map[]) && LeaksAt(map[], data, size, n)
    ensures n <= k <= |data|
    ensures var p := ParseAll(map[], data[..n], size);
      var c := Frame(p.streams, data[n..], size).chunk;
      var s := Get(p.streams, c.basic.csid);
      && ParseAll(map[], data[..k], size) == Parsed(p.streams, data[n..k], p.out, true)
      && Retry(p.streams, data[n..k]) == p.streams[c.basic.csid := ShiftTime(s, Shift(s, c.header))]
  {
    hide Frame, ParseAll, Retry, Serialize, Deliver, Reaches, OnHeader, Expected, BasicBytes, Sensitive;
    var p := ParseAll(map[], data[..n], size);
    var c := Frame(p.streams, data[n..], size).chunk;
    CutDrifts(p.streams, data[n..], size);
    k := n + |Serialize(c)| - 1;
    assert data[n..][..|Serialize(c)| - 1] == data[n..k];
    assert data[..k] == data[..n] + data[n..k];
    ParseAllSplit(map[], data[..n], data[n..k], size);
    assert p.rest + data[n..k] == data[n..k];
    ParseAllUnfold(p.streams, data[n..k], size);
    assert p.out + [] == p.out;
  }

  lemma PrefixKeepsDifference<T>(prefix: seq<T>, a: seq<T>, b: seq<T>)
    requires a != b
    ensures prefix + a != prefix + b
  {
    assert (prefix + a)[|prefix|..] == a && (prefix + b)[|prefix|..] == b;
  }

  lemma JoinSlices(data: seq<Byte>, n: nat, k: nat)
    requires n <= k <= |data|
    ensures data[n..k] + data[k..] == data[n..] && data[..n] + data[n..] == data
  {
  }

  lemma LeakShows(data: seq<Byte>, size: U32, n: nat) returns (k: nat)
    requires ValidStreams(map[]) && LeaksAt(map[], data, size, n)
    ensures k <= |data|
    ensures DriftAll(map[], [], [data[..k], data[k..]], size).out != ParseAll(map[], data, size).out
  {
    hide Frame, ParseAll, Retry, Serialize, Deliver, Reaches, OnHeader, Expected, BasicBytes, SameOff,
         Shift, DriftAll, Header.Bytes;
    var p := ParseAll(map[], data[..n], size);
    var c := Frame(p.streams, data[n..], size).chunk;
    var csid, s := c.basic.csid, Get(p.streams, c.basic.csid);
    k := FirstDelivery(data, size, n);
    TwoDeliveries(map[], data[..k], data[k..], size);
    assert [] + data[..k] == data[..k];
    JoinSlices(data, n, k);
    var drifted := p.streams[csid := ShiftTime(s, Shift(s, c.header))];
    Drifted(p.streams, csid, Shift(s, c.header), s, c);
    ReachesDiffers(drifted, p.streams, data[n..], size, csid);
    ParseAllSplit(map[], data[..n], data[n..], size);
    assert p.rest + data[n..] == data[n..];
    PrefixKeepsDifference(p.out, ParseAll(drifted, data[n..], size).out, ParseAll(p.streams, data[n..], size).out);
  }

  lemma Drifted(streams: Streams, csid: nat, shift: U32, s: Stream, c: Chunk)
    requires s == Get(streams, csid) && c.basic.Valid() && c.header.Valid() && Sensitive(s, c)
    requires shift == Shift(s, c.header)
    ensures var drifted := streams[csid := ShiftTime(s, shift)];
      SameOff(drifted, streams, iset{csid}) && Get(drifted, csid) != s
  {
    var drifted := streams[csid := ShiftTime(s, shift)];
    forall k ensures SameOffAt(drifted, streams, iset{csid}, k) {
    }
  }

  lemma TwoDeliveries(streams: Streams, x: seq<Byte>, y: seq<Byte>, size: U32)
    requires ValidStreams(streams)
    ensures var p := ParseAll(streams, [] + x, size);
      ValidStreams(AfterParse(p)) &&
      DriftAll(streams, [], [x, y], size).out == p.out + ParseAll(AfterParse(p), p.rest + y, size).out
  {
    hide ParseAll, Retry;
    var p := ParseAll(streams, [] + x, size);
    RetryKeepsValid(p.streams, p.rest);
    var ds := [x, y];
    assert ds[1..] == [y];
    var q := ParseAll(AfterParse(p), p.rest + y, size);
    RetryKeepsValid(q.streams, q.rest);
    assert [y][1..] == [];
    assert DriftAll(AfterParse(p), p.rest, [y], size).out == q.out + [];
  }

  /** Every cut of `data` gives the messages of one delivery, times included. */
  ghost predicate TimesSurviveCuts(data: seq<Byte>, size: U32) {
    forall ds: seq<seq<Byte>> :: Flatten(ds) == data ==>
      DeliverAll(map[], [], ds, size).Outcome? &&
      ParseLoop(map[], data, size).Outcome? &&
      DeliverAll(map[], [], ds, size).out == ParseLoop(map[], data, size).out
  }

  /** An exposed message shows: some cut into two deliveries changes what the code emits. */
  lemma ExposedShows(data: seq<Byte>, size: U32) returns (k: nat)
    requires ValidStreams(map[]) && Exposed(map[], data, size, iset{})
    ensures k <= |data|
    ensures var cut, whole := DeliverAll(map[], [], [data[..k], data[k..]], size), ParseLoop(map[], data, size);
      cut.Outcome? && whole.Outcome? && cut.out != whole.out
  {
    hide DeliverAll, ParseLoop, DriftAll, ParseAll, Retry, Exposed, LeaksAt, Frame;
    var n := ExposedLeaks(map[], data, size, iset{});
    k := LeakShows(data, size, n);
    StartIsCoupled();
    RunIsDrift(map[], map[], [], [data[..k], data[k..]], size);
    AllAgreeCoupled(map[], map[], data);
    LoopRefines(map[], map[], data, size);
  }

  /** Exactly when segmentation independence extends to times: no message is exposed. */
  lemma TimesSurviveIff(data: seq<Byte>, size: U32)
    ensures ValidStreams(map[])
    ensures TimesSurviveCuts(data, size) <==> !Exposed(map[], data, size, iset{})
  {
    hide DeliverAll, ParseLoop, DriftAll, ParseAll, Retry, Exposed, LeaksAt, Frame;
    StartIsCoupled();
    AllAgreeCoupled(map[], map[], data);
    LoopRefines(map[], map[], data, size);
    if Exposed(map[], data, size, iset{}) {
      var k := ExposedShows(data, size);
      TwoPieces(data[..k], data[k..]);
      assert Flatten([data[..k], data[k..]]) == data;
      assert !TimesSurviveCuts(data, size);
    } else {
      forall ds: seq<seq<Byte>> | Flatten(ds) == data
        ensures DeliverAll(map[], [], ds, size).Outcome?
        ensures DeliverAll(map[], [], ds, size).out == ParseLoop(map[], data, size).out
      {
        RunIsDrift(map[], map[], [], ds, size);
        EmptyIsMore(map[], size);
        assert [] + Flatten(ds) == data;
        RunSafe(map[], map[], [], ds, size, iset{});
      }
    }
  }

  lemma TwoPieces(x: seq<Byte>, y: seq<Byte>)
    ensures Flatten([x, y]) == x + y
  {
    assert [x, y][1..] == [y] && [y][1..] == [];
    assert Flatten([y]) == y + [] == y;
  }
}
