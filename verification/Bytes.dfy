/** Unsigned integers of fixed width and their byte representations on the wire. */
module Bytes {

  type Byte = x: int | 0 <= x < 0x100
  type U16 = x: int | 0 <= x < 0x1_0000
  type U24 = x: int | 0 <= x < 0x100_0000
  type U32 = x: int | 0 <= x < 0x1_0000_0000
  type U64 = x: int | 0 <= x < 0x1_0000_0000_0000_0000

  datatype Option<+T> = None | Some(value: T)

  function Min(a: int, b: int): int {
    if a <= b then a else b
  }

  function Max(a: int, b: int): int {
    if a <= b then b else a
  }

  /** Wrap-around of `uint32_t` arithmetic. */
  function Wrap32(x: int): U32 {
    x % 0x1_0000_0000
  }

  function BE16(v: U16): (r: seq<Byte>)
    ensures |r| == 2
  {
    [v / 0x100 % 0x100, v % 0x100]
  }

  function BE24(v: U24): (r: seq<Byte>)
    ensures |r| == 3
  {
    [v / 0x1_0000 % 0x100, v / 0x100 % 0x100, v % 0x100]
  }

  function BE32(v: U32): (r: seq<Byte>)
    ensures |r| == 4
  {
    [v / 0x100_0000 % 0x100, v / 0x1_0000 % 0x100, v / 0x100 % 0x100, v % 0x100]
  }

  function LE32(v: U32): (r: seq<Byte>)
    ensures |r| == 4
  {
    [v % 0x100, v / 0x100 % 0x100, v / 0x1_0000 % 0x100, v / 0x100_0000 % 0x100]
  }

  /** The eight bytes of a 64-bit pattern: high half, then low half. */
  function BE64(v: U64): (r: seq<Byte>)
    ensures |r| == 8
  {
    BE32(v / 0x1_0000_0000) + BE32(v % 0x1_0000_0000)
  }

  function ReadBE16(b: seq<Byte>): U16
    requires |b| >= 2
  {
    b[0] as int * 0x100 + b[1]
  }

  function ReadBE24(b: seq<Byte>): U24
    requires |b| >= 3
  {
    b[0] as int * 0x1_0000 + b[1] as int * 0x100 + b[2]
  }

  function ReadBE32(b: seq<Byte>): U32
    requires |b| >= 4
  {
    b[0] as int * 0x100_0000 + b[1] as int * 0x1_0000 + b[2] as int * 0x100 + b[3]
  }

  function ReadLE32(b: seq<Byte>): U32
    requires |b| >= 4
  {
    b[3] as int * 0x100_0000 + b[2] as int * 0x1_0000 + b[1] as int * 0x100 + b[0]
  }

  function ReadBE64(b: seq<Byte>): U64
    requires |b| >= 8
  {
    ReadBE32(b) as int * 0x1_0000_0000 + ReadBE32(b[4..])
  }

  /** Splitting off one base-256 digit at a time gives the digits the writers emit. */
  lemma DivDiv(v: nat)
    ensures v / 0x1_0000 == v / 0x100 / 0x100
    ensures v / 0x100_0000 == v / 0x100 / 0x100 / 0x100
  {
  }

  lemma Base256(v: nat)
    requires v < 0x1_0000_0000
    ensures v == v / 0x100_0000 % 0x100 * 0x100_0000 + v / 0x1_0000 % 0x100 * 0x1_0000
           + v / 0x100 % 0x100 * 0x100 + v % 0x100
  {
    DivDiv(v);
    var a := v / 0x100;
    var b := a / 0x100;
    var c := b / 0x100;
    assert v == a * 0x100 + v % 0x100;
    assert a == b * 0x100 + a % 0x100;
    assert b == c * 0x100 + b % 0x100;
    assert c % 0x100 == c;
  }

  lemma BE16Inverse(v: U16, rest: seq<Byte>)
    ensures ReadBE16(BE16(v) + rest) == v
  {
    var b := BE16(v) + rest;
    assert b[0] == BE16(v)[0] && b[1] == BE16(v)[1];
  }

  lemma BE24Inverse(v: U24, rest: seq<Byte>)
    ensures ReadBE24(BE24(v) + rest) == v
  {
  }

  lemma BE32Inverse(v: U32, rest: seq<Byte>)
    ensures ReadBE32(BE32(v) + rest) == v
  {
    Base256(v);
    var b := BE32(v) + rest;
    assert b[0] == BE32(v)[0] && b[1] == BE32(v)[1] && b[2] == BE32(v)[2] && b[3] == BE32(v)[3];
  }

  lemma LE32Inverse(v: U32, rest: seq<Byte>)
    ensures ReadLE32(LE32(v) + rest) == v
  {
    Base256(v);
    var b := LE32(v) + rest;
    assert b[0] == LE32(v)[0] && b[1] == LE32(v)[1] && b[2] == LE32(v)[2] && b[3] == LE32(v)[3];
  }

  lemma BE64Inverse(v: U64, rest: seq<Byte>)
    ensures ReadBE64(BE64(v) + rest) == v
  {
    var hi, lo := v / 0x1_0000_0000, v % 0x1_0000_0000;
    assert BE64(v) + rest == BE32(hi) + (BE32(lo) + rest);
    BE32Inverse(hi, BE32(lo) + rest);
    BE32Inverse(lo, rest);
    assert (BE64(v) + rest)[4..] == BE32(lo) + rest;
  }

  /** The bytes of a text in ASCII. */
  function Ascii(text: string): (r: seq<Byte>)
    requires forall i :: 0 <= i < |text| ==> text[i] < '\U{80}'
    ensures |r| == |text| && forall i :: 0 <= i < |r| ==> r[i] == text[i] as int
  {
    seq(|text|, i requires 0 <= i < |text| => text[i] as int)
  }

  /** The number that a string of bytes denotes, most significant byte first. */
  function Big(b: seq<Byte>): nat {
    if b == [] then 0 else Big(b[..|b| - 1]) * 0x100 + b[|b| - 1]
  }

  /** The same with the least significant byte first. */
  function Little(b: seq<Byte>): nat {
    if b == [] then 0 else b[0] + 0x100 * Little(b[1..])
  }

  function Flatten(pieces: seq<seq<Byte>>): seq<Byte> {
    if pieces == [] then [] else pieces[0] + Flatten(pieces[1..])
  }

  lemma Associate<T>(a: seq<T>, b: seq<T>, c: seq<T>)
    ensures a + b + c == a + (b + c)
  {
  }

  lemma Regroup(a: seq<Byte>, b: seq<Byte>, c: seq<Byte>, d: seq<Byte>)
    ensures a + b + c + d == a + (b + c + d) == a + b + (c + d)
  {
  }

  /** `std::isspace` in the C locale. */
  predicate IsSpace(c: Byte) {
    c == 32 || 9 <= c <= 13
  }

  /** `std::find`: where `c` first occurs, or the length. */
  function IndexOf(s: seq<Byte>, c: Byte): (n: nat)
    ensures n <= |s| && (n < |s| ==> s[n] == c) && c !in s[..n]
  {
    if s == [] || s[0] == c then 0
    else
      var n := IndexOf(s[1..], c);
      assert s[..n + 1] == [s[0]] + s[1..][..n];
      n + 1
  }

  lemma {:induction false} IndexOfSplit(a: seq<Byte>, c: Byte, b: seq<Byte>)
    requires c !in a
    ensures IndexOf(a + [c] + b, c) == |a|
  {
    var s := a + [c] + b;
    if a == [] {
      assert s[0] == c;
    } else {
      assert s[1..] == a[1..] + [c] + b;
      IndexOfSplit(a[1..], c, b);
    }
  }

  lemma {:induction false} IndexOfAbsent(a: seq<Byte>, c: Byte)
    requires c !in a
    ensures IndexOf(a, c) == |a|
  {
    if a != [] {
      IndexOfAbsent(a[1..], c);
    }
  }
}
