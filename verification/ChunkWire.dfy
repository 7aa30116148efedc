/**
 The bytes of chunks by position and value (RTMP 1.0, sections 5.3.1.1 to 5.3.1.3), stated without
 the functions that write or read them.
 */
module ChunkWire {
  import opened Bytes
  import opened RtmpTypes
  import opened ChunkGrammar
  import opened ChunkWriter

  // ---------- Fields ----------

  lemma BigOf(b: seq<Byte>)
    ensures |b| == 3 ==> Big(b) == b[0] as int * 65536 + b[1] as int * 256 + b[2]
    ensures |b| == 4 ==> Big(b) == b[0] as int * 16777216 + b[1] as int * 65536 + b[2] as int * 256 + b[3]
  {
    if |b| >= 1 {
      assert b[..1][..0] == [];
      assert Big(b[..1]) == b[0] as int;
    }
    if |b| >= 3 {
      assert b[..2][..1] == b[..1] && b[..3][..2] == b[..2];
      assert Big(b[..2]) == Big(b[..1]) * 256 + b[1];
      assert Big(b[..3]) == Big(b[..2]) * 256 + b[2];
      assert b[..|b|] == b;
    }
  }

  lemma LittleOf(b: seq<Byte>)
    requires |b| == 4
    ensures Little(b) == b[0] as int + b[1] as int * 256 + b[2] as int * 65536 + b[3] as int * 16777216
  {
    assert b[3..][1..] == [];
    assert Little(b[3..]) == b[3] as int;
    assert b[2..][1..] == b[3..] && b[1..][1..] == b[2..];
    assert Little(b[2..]) == b[2] as int + 256 * Little(b[3..]);
    assert Little(b[1..]) == b[1] as int + 256 * Little(b[2..]);
  }

  lemma ThreeBytes(v: U24)
    ensures Big(BE24(v)) == v
  {
    BigOf(BE24(v));
    BE24Inverse(v, []);
    assert BE24(v) + [] == BE24(v);
  }

  lemma FourBytes(v: U32)
    ensures Big(BE32(v)) == v && Little(LE32(v)) == v
  {
    BigOf(BE32(v));
    BE32Inverse(v, []);
    LittleOf(LE32(v));
    LE32Inverse(v, []);
    assert BE32(v) + [] == BE32(v) && LE32(v) + [] == LE32(v);
  }

  /** The basic header: format in the upper two bits, the id in one byte, or less 64 in one or two more. */
  predicate BasicLayout(b: seq<Byte>, fmt: nat, csid: nat) {
    && b != [] && fmt < 4
    && (|b| == 1 ==> 2 <= csid < 64 && b[0] as int == fmt * 64 + csid)
    && (|b| == 2 ==> csid < 320 && b[0] as int == fmt * 64 && b[1] as int == csid - 64)
    && (|b| == 3 ==> b[0] as int == fmt * 64 + 1 && Little(b[1..]) == csid - 64)
    && |b| <= 3
  }

  lemma BasicIsLaidOut(b: Basic)
    requires b.Valid()
    ensures BasicLayout(BasicBytes(b), b.fmt, b.csid) && |BasicBytes(b)| == b.size
  {
    if b.size == 3 {
      var bytes := BasicBytes(b);
      assert bytes[1..] == [bytes[1], bytes[2]] && bytes[1..][1..] == [bytes[2]] && [bytes[2]][1..] == [];
      assert Little([bytes[2]]) == bytes[2] as int;
    }
  }

  /** A three-byte time field that is 0xFFFFFF when the time follows in four bytes. */
  predicate TimeLayout(field: seq<Byte>, tail: seq<Byte>, t: U32) {
    && |field| == 3
    && (tail == [] ==> Big(field) == t < 16777215)
    && (tail != [] ==> Big(field) == 16777215 && |tail| == 4 && Big(tail) == t)
  }

  lemma TimeIsLaidOut(t: Time)
    requires t.Valid()
    ensures TimeLayout(BE24(t.Field()), t.Tail(), t.v)
  {
    ThreeBytes(t.Field());
    FourBytes(t.v);
  }

  /** The four message headers, field by field. */
  predicate HeaderLayout(b: seq<Byte>, h: Header) {
    match h
    case Full(t, len, ty, sid) =>
      && |b| >= 11 && TimeLayout(b[..3], b[11..], t.v)
      && Big(b[3..6]) == len && b[6] == ty && Little(b[7..11]) == sid
    case SameStream(t, len, ty) =>
      |b| >= 7 && TimeLayout(b[..3], b[7..], t.v) && Big(b[3..6]) == len && b[6] == ty
    case TimeOnly(t) =>
      |b| >= 3 && TimeLayout(b[..3], b[3..], t.v)
    case Continue(e) =>
      if e.Some? then |b| == 4 && Big(b) == e.value else b == []
  }

  lemma HeaderIsLaidOut(h: Header)
    requires h.Valid()
    ensures HeaderLayout(h.Bytes(), h)
  {
    hide BE24, BE32, LE32, Big, Little, TimeLayout;
    var b := h.Bytes();
    match h
    case Full(t, len, ty, sid) =>
      TimeIsLaidOut(t);
      ThreeBytes(len);
      FourBytes(sid);
      assert b[..3] == BE24(t.Field()) && b[3..6] == BE24(len) && b[7..11] == LE32(sid) && b[11..] == t.Tail();
    case SameStream(t, len, ty) =>
      TimeIsLaidOut(t);
      ThreeBytes(len);
      assert b[..3] == BE24(t.Field()) && b[3..6] == BE24(len) && b[7..] == t.Tail();
    case TimeOnly(t) =>
      TimeIsLaidOut(t);
      assert b[..3] == BE24(t.Field()) && b[3..] == t.Tail();
    case Continue(e) =>
      if e.Some? {
        FourBytes(e.value);
      }
  }

  /**
   A chunk that the parser recognises consists of a basic header, a message header and data, with
   every field where the standard puts it.
   */
  lemma ChunkIsLaidOut(c: Chunk) returns (i: nat, j: nat)
    requires c.basic.Valid() && c.header.Valid() && c.header.Fmt() == c.basic.fmt
    ensures var b := Serialize(c);
      && i <= j <= |b|
      && BasicLayout(b[..i], match c.header {
           case Full(_, _, _, _) => 0 case SameStream(_, _, _) => 1 case TimeOnly(_) => 2 case Continue(_) => 3
         }, c.basic.csid)
      && HeaderLayout(b[i..j], c.header)
      && b[j..] == c.data
  {
    BasicIsLaidOut(c.basic);
    HeaderIsLaidOut(c.header);
    hide BasicLayout, HeaderLayout, BasicBytes, Header.Bytes;
    var b := Serialize(c);
    i, j := c.basic.size, c.basic.size + |c.header.Bytes()|;
    assert b[..i] == BasicBytes(c.basic) && b[i..j] == c.header.Bytes() && b[j..] == c.data;
  }

  // ---------- The writer ----------

  /** Bytes in front of the payload. */
  function HeadSize(m: Message): nat {
    Width(m.chunkStreamId) + 11 + if m.timestamp >= 16777215 then 4 else 0
  }

  /** Bytes between the head and payload byte `i`: the payload before it, and a basic header for every `size` bytes. */
  function Offset(i: nat, size: nat, w: nat): nat
    requires 0 < size
  {
    i + i / size * w
  }

  /** Bytes between the head and the basic header in front of the `k`-th further chunk. */
  function Gap(k: nat, size: nat, w: nat): nat
    requires 0 < k
  {
    k * size + (k - 1) * w
  }

  lemma Grows(a: int, b: int, size: nat)
    requires a <= b
    ensures a * size <= b * size
  {
  }

  lemma Distribute(a: int, size: nat)
    ensures (a + 1) * size == a * size + size
  {
  }

  lemma QuotientIs(i: nat, size: nat, q: int, r: nat)
    requires r < size && i == q * size + r
    ensures i / size == q
  {
    var p := i / size;
    assert i == p * size + i % size;
    Distribute(p, size);
    Distribute(q, size);
    if p < q {
      Grows(p + 1, q, size);
    } else if q < p {
      Grows(q + 1, p, size);
    }
  }

  lemma LessSize(i: nat, size: nat)
    requires 0 < size
    ensures i < size ==> i / size == 0
    ensures i >= size ==> i / size == (i - size) / size + 1
  {
    if i < size {
      QuotientIs(i, size, 0, i);
    } else {
      var q, r := (i - size) / size, (i - size) % size;
      assert i - size == q * size + r;
      assert (q + 1) * size == q * size + size;
      QuotientIs(i, size, q + 1, r);
    }
  }

  lemma OffsetIs(i: nat, size: nat, w: nat)
    requires 0 < size
    ensures i < size ==> Offset(i, size, w) == i
    ensures i >= size ==> Offset(i, size, w) == size + w + Offset(i - size, size, w)
  {
    LessSize(i, size);
    if i >= size {
      Distribute((i - size) / size, w);
    }
  }

  lemma GapIs(k: nat, size: nat, w: nat)
    requires 0 < k
    ensures k == 1 ==> Gap(k, size, w) == size
    ensures k > 1 ==> Gap(k, size, w) == size + w + Gap(k - 1, size, w)
  {
    Distribute(k - 1, size);
    Distribute(k - 2, w);
  }

  lemma BodyParts(m: Message, at: nat, size: U32)
    requires 0 < size && at < |m.payload|
    ensures var n := Min(|m.payload| - at, size);
      BodyOut(m, at, size) == m.payload[at..at + n]
        + ((if at + n < |m.payload| then BasicOut(3, m.chunkStreamId) else []) + BodyOut(m, at + n, size))
  {
    hide BasicOut;
    BodyOutStep(m, at, size);
  }

  lemma BodyEnds(m: Message, at: nat, i: nat, size: U32)
    requires 0 < size && at + i < |m.payload| && i < size
    ensures i < |BodyOut(m, at, size)| && BodyOut(m, at, size)[i] == m.payload[at + i]
  {
    BodyParts(m, at, size);
    hide BodyOut, BasicOut;
  }

  /** A whole chunk and a basic header, and the bytes of the later payload. */
  lemma BodyGoesOn(m: Message, at: nat, size: U32)
    requires 0 < size && at + size < |m.payload|
    ensures BodyOut(m, at, size)
      == m.payload[at..at + size] + (BasicOut(3, m.chunkStreamId) + BodyOut(m, at + size, size))
    ensures |BasicOut(3, m.chunkStreamId)| == Width(m.chunkStreamId)
  {
    BodyParts(m, at, size);
    BasicOutWidth(3, m.chunkStreamId);
    hide BodyOut, BasicOut;
  }

  /** Payload byte `at + i`, in the bytes from payload byte `at` on. */
  lemma {:induction false} BodyAt(m: Message, at: nat, i: nat, size: U32)
    requires 0 < size && at + i < |m.payload|
    ensures var p := Offset(i, size, Width(m.chunkStreamId));
      p < |BodyOut(m, at, size)| && BodyOut(m, at, size)[p] == m.payload[at + i]
    decreases i
  {
    hide *;
    var w := Width(m.chunkStreamId);
    OffsetIs(i, size, w);
    if i < size {
      BodyEnds(m, at, i, size);
    } else {
      BodyGoesOn(m, at, size);
      BodyAt(m, at + size, i - size, size);
      Further(m.payload[at..at + size], BasicOut(3, m.chunkStreamId), BodyOut(m, at + size, size),
              Offset(i - size, size, w));
    }
  }

  lemma Further(a: seq<Byte>, b: seq<Byte>, c: seq<Byte>, i: nat)
    requires i < |c|
    ensures (a + (b + c))[|a| + |b| + i] == c[i]
  {
  }

  lemma BasicOutWidth(fmt: nat, csid: U32)
    requires fmt < 4
    ensures |BasicOut(fmt, csid)| == Width(csid)
  {
  }

  /** The basic header in front of payload byte `at + k * size`. */
  lemma {:induction false} SeparatorAt(m: Message, at: nat, k: nat, size: U32)
    requires 0 < size && 0 < k && at + k * size < |m.payload|
    ensures var w := Width(m.chunkStreamId);
      var p := Gap(k, size, w);
      p + w <= |BodyOut(m, at, size)| && BodyOut(m, at, size)[p..p + w] == BasicOut(3, m.chunkStreamId)
    decreases k
  {
    hide *;
    var w := Width(m.chunkStreamId);
    FirstOf(k, size);
    GapIs(k, size, w);
    BodyGoesOn(m, at, size);
    var a, b, c := m.payload[at..at + size], BasicOut(3, m.chunkStreamId), BodyOut(m, at + size, size);
    if k > 1 {
      SeparatorAt(m, at + size, k - 1, size);
      var p := Gap(k - 1, size, w);
      SliceBehind(a, b, c, p, p + w);
    } else {
      assert (a + (b + c))[size..size + w] == b;
    }
  }

  lemma SliceBehind(a: seq<Byte>, b: seq<Byte>, c: seq<Byte>, i: nat, j: nat)
    requires i <= j <= |c|
    ensures (a + (b + c))[|a| + |b| + i..|a| + |b| + j] == c[i..j]
  {
  }

  lemma FirstOf(k: nat, size: nat)
    requires 0 < k
    ensures k * size == size + (k - 1) * size >= size
  {
  }

  lemma {:induction false} BodyLength(m: Message, at: nat, size: U32)
    requires 0 < size && at < |m.payload|
    ensures |BodyOut(m, at, size)| == Offset(|m.payload| - at - 1, size, Width(m.chunkStreamId)) + 1
    decreases |m.payload| - at
  {
    hide *;
    var n := |m.payload| - at;
    OffsetIs(n - 1, size, Width(m.chunkStreamId));
    if n > size {
      BodyGoesOn(m, at, size);
      BodyLength(m, at + size, size);
    } else {
      LastBody(m, at, size);
    }
  }

  lemma LastBody(m: Message, at: nat, size: U32)
    requires 0 < size && at < |m.payload| <= at + size
    ensures |BodyOut(m, at, size)| == |m.payload| - at
  {
    BodyParts(m, at, size);
    BodyOutEnd(m, size);
    hide BodyOut, BasicOut;
  }

  lemma EncodedSplits(m: Message, size: U32)
    requires WellFormed(m) && 0 < size
    ensures var b, h := Encoded(m, size), HeadSize(m);
      var w := Width(m.chunkStreamId);
      && h <= |b| && b[h..] == BodyOut(m, 0, size)
      && BasicLayout(b[..w], 0, m.chunkStreamId)
      && HeaderLayout(b[w..h], Full(TimeOf(m.timestamp), |m.payload|, m.typeId, m.messageStreamId))
  {
    BasicOutIsBasic(0, m.chunkStreamId);
    BasicIsLaidOut(Basic(0, m.chunkStreamId, Width(m.chunkStreamId)));
    HeaderOutIsHeader(m);
    var head := Full(TimeOf(m.timestamp), m.messageLength, m.typeId, m.messageStreamId);
    HeaderIsLaidOut(head);
    HeadBytes(m);
    hide BasicLayout, HeaderLayout, BasicOut, HeaderOut, BodyOut, BasicBytes, Header.Bytes;
    var b, w, h := Encoded(m, size), Width(m.chunkStreamId), HeadSize(m);
    BasicOutWidth(0, m.chunkStreamId);
    assert b[..w] == BasicOut(0, m.chunkStreamId) && b[w..h] == HeaderOut(m) && b[h..] == BodyOut(m, 0, size);
  }

  lemma HeadBytes(m: Message)
    ensures |HeaderOut(m)| == HeadSize(m) - Width(m.chunkStreamId)
  {
    hide BE24, BE32, LE32;
  }

  /**
   Every byte that the writer prints for a message: the two headers, field by field; the payload
   with a format 3 basic header behind every `size` bytes of it; no more.
   */
  lemma EncodedIsLaidOut(m: Message, size: U32)
    requires WellFormed(m) && 0 < size
    ensures var b, w, h, n := Encoded(m, size), Width(m.chunkStreamId), HeadSize(m), |m.payload|;
      && h <= |b|
      && BasicLayout(b[..w], 0, m.chunkStreamId)
      && TimeLayout(b[w..w + 3], b[w + 11..h], m.timestamp)
      && Big(b[w + 3..w + 6]) == n && b[w + 6] == m.typeId && Little(b[w + 7..w + 11]) == m.messageStreamId
      && (forall i :: 0 <= i < n ==>
            h + Offset(i, size, w) < |b| && b[h + Offset(i, size, w)] == m.payload[i])
      && (forall k: nat :: 0 < k && k * size < n ==>
            h + Gap(k, size, w) + w <= |b|
            && BasicLayout(b[h + Gap(k, size, w)..h + Gap(k, size, w) + w], 3, m.chunkStreamId))
      && |b| == h + if n == 0 then 0 else Offset(n - 1, size, w) + 1
  {
    HeadIsLaidOut(m, size);
    LengthIs(m, size);
    hide *;
    forall i | 0 <= i < |m.payload|
      ensures HeadSize(m) + Offset(i, size, Width(m.chunkStreamId)) < |Encoded(m, size)|
      ensures Encoded(m, size)[HeadSize(m) + Offset(i, size, Width(m.chunkStreamId))] == m.payload[i]
    {
      PayloadAt(m, i, size);
    }
    forall k: nat | 0 < k && k * size < |m.payload|
      ensures var w := Width(m.chunkStreamId);
        var p := HeadSize(m) + Gap(k, size, w);
        p + w <= |Encoded(m, size)| && BasicLayout(Encoded(m, size)[p..p + w], 3, m.chunkStreamId)
    {
      HeaderAt(m, k, size);
    }
  }

  lemma HeadIsLaidOut(m: Message, size: U32)
    requires WellFormed(m) && 0 < size
    ensures var b, w, h := Encoded(m, size), Width(m.chunkStreamId), HeadSize(m);
      && h <= |b|
      && BasicLayout(b[..w], 0, m.chunkStreamId)
      && TimeLayout(b[w..w + 3], b[w + 11..h], m.timestamp)
      && Big(b[w + 3..w + 6]) == |m.payload| && b[w + 6] == m.typeId && Little(b[w + 7..w + 11]) == m.messageStreamId
  {
    EncodedSplits(m, size);
    HeadFields(m, Encoded(m, size), Width(m.chunkStreamId), HeadSize(m));
    hide BasicLayout, TimeLayout, HeaderLayout, Encoded, Big, Little, BodyOut;
  }

  lemma PayloadAt(m: Message, i: nat, size: U32)
    requires WellFormed(m) && 0 < size && i < |m.payload|
    ensures var b, p := Encoded(m, size), HeadSize(m) + Offset(i, size, Width(m.chunkStreamId));
      p < |b| && b[p] == m.payload[i]
  {
    EncodedSplits(m, size);
    hide *;
    BodyAt(m, 0, i, size);
    assert Encoded(m, size)[HeadSize(m)..][Offset(i, size, Width(m.chunkStreamId))] == m.payload[i];
  }

  lemma HeaderAt(m: Message, k: nat, size: U32)
    requires WellFormed(m) && 0 < size && 0 < k && k * size < |m.payload|
    ensures var w := Width(m.chunkStreamId);
      var b, p := Encoded(m, size), HeadSize(m) + Gap(k, size, w);
      p + w <= |b| && BasicLayout(b[p..p + w], 3, m.chunkStreamId)
  {
    EncodedSplits(m, size);
    hide *;
    SeparatorAt(m, 0, k, size);
    SeparatorIsLaidOut(m);
    var w := Width(m.chunkStreamId);
    TailSlice(Encoded(m, size), HeadSize(m), Gap(k, size, w), Gap(k, size, w) + w);
  }

  lemma LengthIs(m: Message, size: U32)
    requires WellFormed(m) && 0 < size
    ensures var n := |m.payload|;
      |Encoded(m, size)| == HeadSize(m) + if n == 0 then 0 else Offset(n - 1, size, Width(m.chunkStreamId)) + 1
  {
    EncodedSplits(m, size);
    hide *;
    if |m.payload| > 0 {
      BodyLength(m, 0, size);
    } else {
      NoBody(m, size);
    }
  }

  lemma NoBody(m: Message, size: U32)
    requires 0 < size && m.payload == []
    ensures BodyOut(m, 0, size) == []
  {
  }

  lemma TailSlice(b: seq<Byte>, h: nat, i: nat, j: nat)
    requires i <= j && h <= |b| && j <= |b[h..]|
    ensures h + j <= |b| && b[h..][i..j] == b[h + i..h + j]
  {
  }

  lemma SeparatorIsLaidOut(m: Message)
    requires WellFormed(m)
    ensures BasicLayout(BasicOut(3, m.chunkStreamId), 3, m.chunkStreamId)
  {
    BasicOutIsBasic(3, m.chunkStreamId);
    BasicIsLaidOut(Basic(3, m.chunkStreamId, Width(m.chunkStreamId)));
  }

  lemma HeadFields(m: Message, b: seq<Byte>, w: nat, h: nat)
    requires w == Width(m.chunkStreamId) && h == HeadSize(m) <= |b| && |m.payload| < 0x100_0000
    requires HeaderLayout(b[w..h], Full(TimeOf(m.timestamp), |m.payload|, m.typeId, m.messageStreamId))
    ensures TimeLayout(b[w..w + 3], b[w + 11..h], m.timestamp)
    ensures Big(b[w + 3..w + 6]) == |m.payload| && b[w + 6] == m.typeId
    ensures Little(b[w + 7..w + 11]) == m.messageStreamId
  {
    hide TimeLayout, Big, Little;
    Slice(b, w, h, 0, 3);
    Slice(b, w, h, 3, 6);
    Slice(b, w, h, 7, 11);
    Slice(b, w, h, 11, h - w);
    assert b[w..h][..3] == b[w..h][0..3] && b[w..h][11..] == b[w..h][11..h - w];
  }

  lemma Slice(b: seq<Byte>, w: nat, h: nat, i: nat, j: nat)
    requires i <= j && w + j <= h <= |b|
    ensures b[w..h][i..j] == b[w + i..w + j]
  {
    var c := b[w..h];
    assert |c[i..j]| == |b[w + i..w + j]|;
    assert forall k :: 0 <= k < j - i ==> c[i..j][k] == c[i + k] == b[w + i + k];
  }
}
