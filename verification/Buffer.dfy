/** The compacting byte queue under every parser (net/Buffer.h, net/Buffer.cc). */
module Buffers {
  import opened Bytes

  const CHEAP_PREPEND := 8
  const EXTRA_READ := 65536

  const CR: Byte := 13
  const LF: Byte := 10

  predicate CrlfAt(s: seq<Byte>, i: nat) {
    i + 2 <= |s| && s[i] == CR && s[i + 1] == LF
  }

  /** Where the first CR LF pair of `s` starts. */
  function FirstCrlf(s: seq<Byte>): (r: Option<nat>)
    ensures r.Some? ==> CrlfAt(s, r.value) && forall j :: 0 <= j < r.value ==> !CrlfAt(s, j)
    ensures r.None? ==> forall j :: 0 <= j ==> !CrlfAt(s, j)
  {
    if |s| < 2 then None
    else if CrlfAt(s, 0) then Some(0)
    else
      var r := FirstCrlf(s[1..]);
      assert forall j :: 1 <= j ==> (CrlfAt(s, j) <==> CrlfAt(s[1..], j - 1));
      if r.None? then None else Some(r.value + 1)
  }

  /** A pair that has been found stays the first one when bytes arrive behind it. */
  lemma FirstCrlfExtend(a: seq<Byte>, b: seq<Byte>)
    requires FirstCrlf(a).Some?
    ensures FirstCrlf(a + b) == FirstCrlf(a)
  {
    var i := FirstCrlf(a).value;
    assert CrlfAt(a + b, i);
    assert forall j :: 0 <= j < i ==> (CrlfAt(a + b, j) <==> CrlfAt(a, j));
  }

  lemma SameSlice(a: seq<Byte>, i: nat, b: seq<Byte>, j: nat, n: nat)
    requires i + n <= |a| && j + n <= |b|
    requires forall k :: i <= k < i + n ==> a[k] == b[k - i + j]
    ensures a[i..i + n] == b[j..j + n]
  {
    assert |a[i..i + n]| == |b[j..j + n]| == n;
  }

  class Buffer {
    var buffer: seq<Byte>
    var readerIndex: nat
    var writerIndex: nat

    ghost predicate Valid()
      reads this
    {
      CHEAP_PREPEND <= readerIndex <= writerIndex <= |buffer|
    }

    /** The bytes written and not yet retrieved: the queue this buffer represents. */
    ghost function Contents(): seq<Byte>
      reads this
      requires Valid()
    {
      buffer[readerIndex..writerIndex]
    }

    constructor (initialSize: nat)
      ensures Valid() && Contents() == []
    {
      buffer := seq(CHEAP_PREPEND + initialSize, _ => 0);
      readerIndex := CHEAP_PREPEND;
      writerIndex := CHEAP_PREPEND;
    }

    function ReadableBytes(): (n: nat)
      reads this
      requires Valid()
      ensures n == |Contents()|
    {
      writerIndex - readerIndex
    }

    function WritableBytes(): nat
      reads this
      requires Valid()
    {
      |buffer| - writerIndex
    }

    function Peek(): (data: seq<Byte>)
      reads this
      requires Valid()
      ensures data == Contents()
    {
      buffer[readerIndex..writerIndex]
    }

    method Retrieve(len: nat)
      requires Valid()
      modifies this
      ensures Valid()
      ensures Contents() == if len <= |old(Contents())| then old(Contents())[len..] else []
    {
      if len <= ReadableBytes() {
        readerIndex := readerIndex + len;
      } else {
        RetrieveAll();
      }
    }

    method RetrieveAll()
      requires Valid()
      modifies this
      ensures Valid() && Contents() == []
    {
      readerIndex, writerIndex := CHEAP_PREPEND, CHEAP_PREPEND;
    }

    method RetrieveAsString(len: nat) returns (res: seq<Byte>)
      requires Valid() && len <= |Contents()|
      modifies this
      ensures Valid()
      ensures res + Contents() == old(Contents()) && |res| == len
    {
      res := Peek()[..len];
      Retrieve(len);
    }

    /** Grows the storage, or moves the unread bytes to the front when that frees enough room. */
    method MakeSpace(len: nat)
      requires Valid() && WritableBytes() < len
      modifies this
      ensures Valid() && Contents() == old(Contents())
      ensures WritableBytes() >= len
    {
      if WritableBytes() + readerIndex < len + CHEAP_PREPEND {
        buffer := buffer + seq(len - WritableBytes(), _ => 0);
      } else {
        var readable, src := ReadableBytes(), readerIndex;
        ghost var was := buffer;
        var i := 0;
        while i < readable
          invariant 0 <= i <= readable && |buffer| == |was|
          invariant forall k :: CHEAP_PREPEND <= k < CHEAP_PREPEND + i ==> buffer[k] == was[k - CHEAP_PREPEND + src]
          invariant forall k :: src + i <= k < |was| ==> buffer[k] == was[k]
        {
          buffer := buffer[CHEAP_PREPEND + i := buffer[src + i]];
          i := i + 1;
        }
        SameSlice(buffer, CHEAP_PREPEND, was, src, readable);
        readerIndex := CHEAP_PREPEND;
        writerIndex := CHEAP_PREPEND + readable;
      }
    }

    method EnsureWritableBytes(len: nat)
      requires Valid()
      modifies this
      ensures Valid() && Contents() == old(Contents())
      ensures WritableBytes() >= len
    {
      if WritableBytes() < len {
        MakeSpace(len);
      }
    }

    method Append(data: seq<Byte>)
      requires Valid()
      modifies this
      ensures Valid() && Contents() == old(Contents()) + data
    {
      EnsureWritableBytes(|data|);
      buffer := buffer[..writerIndex] + data + buffer[writerIndex + |data|..];
      writerIndex := writerIndex + |data|;
    }

    method FindCrlf() returns (crlf: Option<nat>)
      requires Valid()
      ensures crlf == FirstCrlf(Contents())
    {
      var s := Peek();
      var i := 0;
      while i + 2 <= |s|
        invariant 0 <= i
        invariant forall j :: 0 <= j < i ==> !CrlfAt(s, j)
      {
        if s[i] == CR && s[i + 1] == LF {
          assert CrlfAt(s, i);
          return Some(i);
        }
        i := i + 1;
      }
      return None;
    }

    /** Most bytes one `readv` can deliver: the free space, plus the stack buffer when that is small. */
    function ReadCapacity(): nat
      reads this
      requires Valid()
    {
      WritableBytes() + if WritableBytes() < EXTRA_READ then EXTRA_READ else 0
    }

    /** `arrived` is what `readv` scattered over the free space and the stack buffer. */
    method ReadFd(arrived: seq<Byte>)
      requires Valid() && |arrived| <= ReadCapacity()
      modifies this
      ensures Valid() && Contents() == old(Contents()) + arrived
    {
      var writable := WritableBytes();
      if |arrived| <= writable {
        buffer := buffer[..writerIndex] + arrived + buffer[writerIndex + |arrived|..];
        writerIndex := writerIndex + |arrived|;
      } else {
        buffer := buffer[..writerIndex] + arrived[..writable];
        writerIndex := |buffer|;
        assert Contents() == old(Contents()) + arrived[..writable];
        Append(arrived[writable..]);
      }
    }
  }
}
