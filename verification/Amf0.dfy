/** AMF0 value trees (rtmp/Amf0Value.h) and their bytes (AMF0 specification, sections 2.2 to 2.11). */
module Amf0 {
  import opened Bytes
  import opened OrderedMaps

  const NUMBER: Byte := 0x00
  const BOOLEAN: Byte := 0x01
  const STRING: Byte := 0x02
  const OBJECT: Byte := 0x03
  const NULL: Byte := 0x05
  const ECMA_ARRAY: Byte := 0x08
  const OBJECT_END: Byte := 0x09

  const END: seq<Byte> := [0, 0, OBJECT_END]

  /** Numbers are kept as the 64-bit patterns of their doubles. */
  datatype Value =
    | Number(bits: U64)
    | Boolean(flag: bool)
    | String(text: seq<Byte>)
    | Object(props: Entries<Value>)
    | EcmaArray(props: Entries<Value>)
    | Null

  /** The property lists are `std::map`s: sorted, one entry a key. */
  ghost predicate Canonical(v: Value) {
    (v.Object? || v.EcmaArray?) ==> Sorted(v.props) && CanonicalAll(v.props)
  }

  ghost predicate CanonicalAll(props: Entries<Value>) {
    props == [] || (Canonical(props[0].value) && CanonicalAll(props[1..]))
  }

  /** Every string and key fits the 16-bit length field. */
  ghost predicate Short(v: Value) {
    match v
    case String(s) => |s| < 0x1_0000
    case Object(props) => ShortAll(props)
    case EcmaArray(props) => ShortAll(props)
    case _ => true
  }

  ghost predicate ShortAll(props: Entries<Value>) {
    props == [] || (|props[0].key| < 0x1_0000 && Short(props[0].value) && ShortAll(props[1..]))
  }

  // ---------- Encoding ----------

  /** A length field and the bytes: the length is cast to 16 bits, the bytes are all written. */
  function EncodeText(s: seq<Byte>): seq<Byte> {
    BE16(|s| % 0x1_0000) + s
  }

  function Encode(v: Value): (r: seq<Byte>)
    ensures |r| > 0 && r[0] != OBJECT_END
  {
    match v
    case Number(bits) => [NUMBER] + BE64(bits)
    case Boolean(flag) => [BOOLEAN, if flag then 1 else 0]
    case String(s) => [STRING] + EncodeText(s)
    case Object(props) => [OBJECT] + EncodeProps(props) + END
    case EcmaArray(props) => [ECMA_ARRAY] + BE32(|props| % 0x1_0000_0000) + EncodeProps(props) + END
    case Null => [NULL]
  }

  function EncodeProps(props: Entries<Value>): seq<Byte> {
    if props == [] then []
    else EncodeText(props[0].key) + Encode(props[0].value) + EncodeProps(props[1..])
  }

  function EncodeAll(vs: seq<Value>): seq<Byte> {
    if vs == [] then [] else Encode(vs[0]) + EncodeAll(vs[1..])
  }

  // ---------- Decoding ----------

  datatype Decoded<+T> = Ok(value: T, used: nat) | Error(message: string)

  function DecodeText(data: seq<Byte>): (r: Decoded<seq<Byte>>)
    ensures r.Ok? ==> 2 <= r.used <= |data| && |r.value| < 0x1_0000
  {
    if |data| < 2 then Error("amf0 string length is truncated")
    else
      var length := ReadBE16(data);
      if |data| < 2 + length then Error("amf0 string payload is truncated")
      else Ok(data[2..2 + length], 2 + length)
  }

  /** Success on something consumes something: the measure of the mutual recursion. */
  function DecodeValue(data: seq<Byte>): (r: Decoded<Value>)
    ensures r.Ok? ==> r.used <= |data| && (data != [] ==> 0 < r.used)
    decreases |data|
  {
    if data == [] then Ok(Null, 0)
    else
      match data[0]
      case 0x00 =>
        if |data| < 9 then Error("amf0 number payload is truncated") else Ok(Number(ReadBE64(data[1..])), 9)
      case 0x01 =>
        if |data| < 2 then Error("amf0 boolean payload is truncated") else Ok(Boolean(data[1] != 0), 2)
      case 0x02 =>
        (match DecodeText(data[1..])
         case Error(e) => Error(e)
         case Ok(s, n) => Ok(String(s), 1 + n))
      case 0x03 =>
        (match DecodeProps(data[1..], [])
         case Error(e) => Error(e)
         case Ok(props, n) => Ok(Object(props), 1 + n))
      case 0x08 =>
        if |data| < 5 then Error("amf0 ecma array payload is truncated")
        else
          (match DecodeProps(data[5..], [])
           case Error(e) => Error(e)
           case Ok(props, n) => Ok(EcmaArray(props), 5 + n))
      case 0x05 => Ok(Null, 1)
      case _ => Error("unsupported amf0 type marker")
  }

  predicate AtEnd(data: seq<Byte>) {
    |data| >= 3 && data[0] == 0 && data[1] == 0 && data[2] == OBJECT_END
  }

  /** The properties up to the end marker, added to those in `found`; the first of a key wins. */
  function DecodeProps(data: seq<Byte>, found: Entries<Value>): (r: Decoded<Entries<Value>>)
    ensures r.Ok? ==> 0 < r.used <= |data|
    decreases |data|
  {
    if data == [] then Error("amf0 object end marker is missing")
    else if AtEnd(data) then Ok(found, 3)
    else
      match DecodeText(data)
      case Error(e) => Error(e)
      case Ok(key, k) =>
        match DecodeValue(data[k..])
        case Error(e) => Error(e)
        case Ok(v, n) =>
          if n == 0 then Error("amf0 object property is empty")
          else
            match DecodeProps(data[k + n..], Insert(found, key, v, false))
            case Error(e) => Error(e)
            case Ok(props, m) => Ok(props, k + n + m)
  }

  function DecodeAll(data: seq<Byte>): Decoded<seq<Value>>
    decreases |data|
  {
    if data == [] then Ok([], 0)
    else
      match DecodeValue(data)
      case Error(e) => Error(e)
      case Ok(v, n) =>
        match DecodeAll(data[n..])
        case Error(e) => Error(e)
        case Ok(vs, m) => Ok([v] + vs, n + m)
  }

  // ---------- Round trip ----------

  lemma TextRoundTrip(s: seq<Byte>, rest: seq<Byte>)
    requires |s| < 0x1_0000
    ensures DecodeText(EncodeText(s) + rest) == Ok(s, 2 + |s|)
  {
    hide BE16, ReadBE16;
    var data := EncodeText(s) + rest;
    BE16Inverse(|s|, s + rest);
    assert data == BE16(|s|) + (s + rest);
    assert data[2..2 + |s|] == s;
  }

  /** The bytes of any property list, in any order and with repeated keys. */
  lemma {:induction false} PropsRoundTrip(props: Entries<Value>, found: Entries<Value>, rest: seq<Byte>)
    requires CanonicalAll(props) && ShortAll(props)
    ensures DecodeProps(EncodeProps(props) + END + rest, found)
      == Ok(InsertAll(found, props, false), |EncodeProps(props)| + 3)
    decreases props
  {
    if props == [] {
      var data := EncodeProps(props) + END + rest;
      assert data[0] == 0 && data[1] == 0 && data[2] == OBJECT_END;
    } else {
      var p, more := props[0], props[1..];
      hide EncodeText, Encode, DecodeProps, EncodeProps, InsertAll, Insert, Canonical, Short;
      PropertySplit(props, rest);
      PropertyDecodes(p, EncodeProps(more) + END + rest, found);
      PropsRoundTrip(more, Insert(found, p.key, p.value, false), rest);
      PropsLength(props);
      InsertAllStep(found, props);
    }
  }

  lemma InsertAllStep(found: Entries<Value>, props: Entries<Value>)
    requires props != []
    ensures InsertAll(found, props, false)
      == InsertAll(Insert(found, props[0].key, props[0].value, false), props[1..], false)
  {
  }

  /** The bytes of one property, with anything behind them: the rest is read with it added. */
  lemma {:induction false} PropertyDecodes(p: Entry<Value>, tail: seq<Byte>, found: Entries<Value>)
    requires |p.key| < 0x1_0000 && Canonical(p.value) && Short(p.value)
    ensures var key, value := EncodeText(p.key), Encode(p.value);
      DecodeProps(key + (value + tail), found) ==
        match DecodeProps(tail, Insert(found, p.key, p.value, false))
        case Error(e) => Error(e)
        case Ok(props, m) => Ok(props, |key| + |value| + m)
    decreases p.value, 1
  {
    hide EncodeText, Encode, DecodeText, DecodeValue, DecodeProps, Insert, Canonical, Short;
    var key, value := EncodeText(p.key), Encode(p.value);
    var data := key + (value + tail);
    TextLength(p.key);
    TextRoundTrip(p.key, value + tail);
    assert data[|key|..] == value + tail;
    ValueRoundTrip(p.value, tail);
    assert data[|key| + |value|..] == tail;
    NotAtEnd(p.key, value, tail);
    PropsStep(data, found, Ok(p.key, |key|), Ok(p.value, |value|));
  }

  /** One property read; the rest is read with it added. */
  lemma PropsStep(data: seq<Byte>, found: Entries<Value>, key: Decoded<seq<Byte>>, value: Decoded<Value>)
    requires data != [] && !AtEnd(data) && DecodeText(data) == key && key.Ok?
    requires DecodeValue(data[key.used..]) == value && value.Ok? && value.used > 0
    ensures DecodeProps(data, found) ==
      match DecodeProps(data[key.used + value.used..], Insert(found, key.value, value.value, false))
      case Error(e) => Error(e)
      case Ok(props, m) => Ok(props, key.used + value.used + m)
  {
    hide DecodeText, DecodeValue, Insert, AtEnd;
  }

  lemma PropsLength(props: Entries<Value>)
    requires props != []
    ensures |EncodeProps(props)|
      == |EncodeText(props[0].key)| + |Encode(props[0].value)| + |EncodeProps(props[1..])|
  {
    hide EncodeText, Encode;
  }

  lemma TextLength(s: seq<Byte>)
    ensures |EncodeText(s)| == 2 + |s|
  {
  }

  lemma PropertySplit(props: Entries<Value>, rest: seq<Byte>)
    requires props != []
    ensures EncodeProps(props) + END + rest
      == EncodeText(props[0].key) + (Encode(props[0].value) + (EncodeProps(props[1..]) + END + rest))
  {
    hide EncodeText, Encode;
  }

  /** A property never looks like the end marker: an empty key is followed by a type marker. */
  lemma NotAtEnd(key: seq<Byte>, value: seq<Byte>, tail: seq<Byte>)
    requires |key| < 0x1_0000 && |value| > 0 && value[0] != OBJECT_END
    ensures !AtEnd(EncodeText(key) + (value + tail))
  {
    if key == [] {
      assert (EncodeText(key) + (value + tail))[2] == value[0];
    } else {
      var data := EncodeText(key) + (value + tail);
      assert data[0] == |key| / 0x100 && data[1] == |key| % 0x100;
    }
  }

  lemma ScalarRoundTrip(v: Value, rest: seq<Byte>)
    requires Short(v) && !v.Object? && !v.EcmaArray?
    ensures DecodeValue(Encode(v) + rest) == Ok(v, |Encode(v)|)
  {
    hide BE64, ReadBE64, EncodeText, DecodeText;
    var data := Encode(v) + rest;
    match v
    case Number(bits) =>
      BE64Inverse(bits, rest);
      assert data[1..] == BE64(bits) + rest;
    case Boolean(flag) =>
    case String(s) =>
      TextRoundTrip(s, rest);
      TextLength(s);
      assert data[1..] == EncodeText(s) + rest;
    case Null =>
  }

  lemma ObjectFrame(props: Entries<Value>, rest: seq<Byte>)
    requires DecodeProps(EncodeProps(props) + END + rest, []) == Ok(props, |EncodeProps(props)| + 3)
    ensures DecodeValue(Encode(Object(props)) + rest) == Ok(Object(props), |Encode(Object(props))|)
  {
    hide EncodeProps, DecodeProps;
    assert (Encode(Object(props)) + rest)[1..] == EncodeProps(props) + END + rest;
  }

  lemma ArrayFrame(props: Entries<Value>, rest: seq<Byte>)
    requires DecodeProps(EncodeProps(props) + END + rest, []) == Ok(props, |EncodeProps(props)| + 3)
    ensures DecodeValue(Encode(EcmaArray(props)) + rest) == Ok(EcmaArray(props), |Encode(EcmaArray(props))|)
  {
    hide EncodeProps, DecodeProps, BE32;
    assert (Encode(EcmaArray(props)) + rest)[5..] == EncodeProps(props) + END + rest;
  }

  /** Decoding the bytes of a value, with anything behind them, gives the value and its length. */
  lemma {:induction false} ValueRoundTrip(v: Value, rest: seq<Byte>)
    requires Canonical(v) && Short(v)
    ensures DecodeValue(Encode(v) + rest) == Ok(v, |Encode(v)|)
    decreases v, 0
  {
    hide Encode, EncodeProps, DecodeProps, DecodeValue, InsertAll;
    if v.Object? || v.EcmaArray? {
      PropsRoundTrip(v.props, [], rest);
      InsertAllAppends([], v.props, false);
      assert [] + v.props == v.props;
    }
    match v
    case Object(props) => ObjectFrame(props, rest);
    case EcmaArray(props) => ArrayFrame(props, rest);
    case _ => ScalarRoundTrip(v, rest);
  }

  ghost predicate AllCanonical(vs: seq<Value>) {
    forall v :: v in vs ==> Canonical(v)
  }

  ghost predicate AllShort(vs: seq<Value>) {
    forall v :: v in vs ==> Short(v)
  }

  lemma {:induction false} AllRoundTrip(vs: seq<Value>)
    requires AllCanonical(vs) && AllShort(vs)
    ensures DecodeAll(EncodeAll(vs)) == Ok(vs, |EncodeAll(vs)|)
  {
    if vs != [] {
      hide Encode, DecodeValue;
      ValueRoundTrip(vs[0], EncodeAll(vs[1..]));
      AllRoundTrip(vs[1..]);
      assert [vs[0]] + vs[1..] == vs;
      assert EncodeAll(vs)[|Encode(vs[0])|..] == EncodeAll(vs[1..]);
    }
  }

  // ---------- Prefixes ----------

  lemma TextPrefix(s: seq<Byte>, k: nat)
    requires |s| < 0x1_0000 && k < 2 + |s|
    ensures DecodeText(EncodeText(s)[..k]).Error?
  {
    if k >= 2 {
      hide BE16, ReadBE16;
      BE16Inverse(|s|, s[..k - 2]);
      assert EncodeText(s)[..k] == BE16(|s|) + s[..k - 2];
    }
  }

  lemma CutSecond(a: seq<Byte>, b: seq<Byte>, c: seq<Byte>, k: nat)
    requires |a| <= k <= |a| + |b|
    ensures (a + (b + c))[..k] == a + b[..k - |a|]
  {
  }

  lemma CutThird(a: seq<Byte>, b: seq<Byte>, c: seq<Byte>, k: nat)
    requires |a| + |b| <= k <= |a| + |b| + |c|
    ensures (a + (b + c))[..k] == a + (b + c[..k - |a| - |b|])
  {
  }

  /** A property list cut anywhere before the last byte of its end marker is rejected. */
  lemma {:induction false} PropsPrefix(props: Entries<Value>, found: Entries<Value>, k: nat)
    requires CanonicalAll(props) && ShortAll(props) && k < |EncodeProps(props)| + 3
    ensures DecodeProps((EncodeProps(props) + END)[..k], found).Error?
    decreases props
  {
    if props == [] {
      assert EncodeProps(props) + END == END;
      EndPrefix(k, found);
    } else if k > 0 {
      var p, more := props[0], props[1..];
      hide EncodeText, Encode, DecodeProps, EncodeProps, Insert, Canonical, Short;
      var key, value := EncodeText(p.key), Encode(p.value);
      var tail := EncodeProps(more) + END;
      PropertyEnd(props);
      NotAtEndPrefix(p.key, value, tail, k);
      if k < |key| + |value| {
        PropertyPrefix(p, tail, found, k);
      } else {
        PropsLength(props);
        PropsPrefix(more, Insert(found, p.key, p.value, false), k - |key| - |value|);
        LaterPrefix(p, tail, found, k);
      }
    }
  }

  lemma PropertyEnd(props: Entries<Value>)
    requires props != []
    ensures EncodeProps(props) + END
      == EncodeText(props[0].key) + (Encode(props[0].value) + (EncodeProps(props[1..]) + END))
  {
    hide EncodeText, Encode;
  }

  /** The cut is behind the first property. */
  lemma LaterPrefix(p: Entry<Value>, tail: seq<Byte>, found: Entries<Value>, k: nat)
    requires |p.key| < 0x1_0000 && Canonical(p.value) && Short(p.value)
    requires |EncodeText(p.key)| + |Encode(p.value)| <= k <= |EncodeText(p.key)| + |Encode(p.value)| + |tail|
    requires !AtEnd((EncodeText(p.key) + (Encode(p.value) + tail))[..k])
    requires DecodeProps(tail[..k - |EncodeText(p.key)| - |Encode(p.value)|],
                         Insert(found, p.key, p.value, false)).Error?
    ensures DecodeProps((EncodeText(p.key) + (Encode(p.value) + tail))[..k], found).Error?
    decreases p.value, 1
  {
    hide EncodeText, Encode, DecodeProps, Insert, Canonical, Short, AtEnd;
    CutThird(EncodeText(p.key), Encode(p.value), tail, k);
    PropertyDecodes(p, tail[..k - |EncodeText(p.key)| - |Encode(p.value)|], found);
  }

  /** The cut is inside the first property. */
  lemma {:induction false} PropertyPrefix(p: Entry<Value>, tail: seq<Byte>, found: Entries<Value>, k: nat)
    requires |p.key| < 0x1_0000 && Canonical(p.value) && Short(p.value)
    requires 0 < k < |EncodeText(p.key)| + |Encode(p.value)|
    requires !AtEnd((EncodeText(p.key) + (Encode(p.value) + tail))[..k])
    ensures DecodeProps((EncodeText(p.key) + (Encode(p.value) + tail))[..k], found).Error?
    decreases p.value, 1
  {
    hide EncodeText, Encode, DecodeText, DecodeValue, Insert, Canonical, Short, AtEnd;
    var key, value := EncodeText(p.key), Encode(p.value);
    var data := (key + (value + tail))[..k];
    TextLength(p.key);
    if k < |key| {
      TextPrefix(p.key, k);
      assert data == key[..k];
    } else {
      var cut := value[..k - |key|];
      CutSecond(key, value, tail, k);
      TextRoundTrip(p.key, cut);
      assert data[|key|..] == cut;
      if k == |key| {
        EmptyValue();
      } else {
        ValuePrefix(p.value, k - |key|);
      }
    }
  }

  lemma EmptyValue()
    ensures DecodeValue([]) == Ok(Null, 0)
  {
  }

  lemma EndPrefix(k: nat, found: Entries<Value>)
    requires k < 3
    ensures DecodeProps(END[..k], found).Error?
  {
    if k == 2 {
      assert END[..2] == [0, 0];
      assert DecodeText([0, 0]) == Ok([], 2);
      assert [0, 0][2..] == [];
    }
  }

  lemma NotAtEndPrefix(key: seq<Byte>, value: seq<Byte>, tail: seq<Byte>, k: nat)
    requires |key| < 0x1_0000 && |value| > 0 && value[0] != OBJECT_END
    requires k <= |EncodeText(key) + (value + tail)|
    ensures !AtEnd((EncodeText(key) + (value + tail))[..k])
  {
    NotAtEnd(key, value, tail);
    hide EncodeText;
  }

  /** Every non-empty strict prefix of the bytes of one value is rejected. */
  lemma {:induction false} ValuePrefix(v: Value, k: nat)
    requires Canonical(v) && Short(v) && 0 < k < |Encode(v)|
    ensures DecodeValue(Encode(v)[..k]).Error?
    decreases v, 0
  {
    hide EncodeProps, DecodeProps, BE32, BE64, ReadBE64, EncodeText, DecodeText;
    var data := Encode(v)[..k];
    match v
    case Number(bits) =>
    case Boolean(flag) =>
    case String(s) =>
      TextLength(s);
      TextPrefix(s, k - 1);
      assert data[1..] == EncodeText(s)[..k - 1];
    case Object(props) =>
      PropsPrefix(props, [], k - 1);
      assert data[1..] == (EncodeProps(props) + END)[..k - 1];
    case EcmaArray(props) =>
      if k >= 5 {
        PropsPrefix(props, [], k - 5);
        assert data[5..] == (EncodeProps(props) + END)[..k - 5];
      }
    case Null =>
  }

  // ---------- Every accepted input ----------

  /** Whatever is accepted is a well-formed tree with short strings. */
  lemma {:induction false} DecodedIsGood(data: seq<Byte>)
    requires DecodeValue(data).Ok?
    ensures Canonical(DecodeValue(data).value) && Short(DecodeValue(data).value)
    decreases |data|, 1
  {
    if data != [] {
      match data[0]
      case 0x03 => DecodedPropsAreGood(data[1..], []);
      case 0x08 => DecodedPropsAreGood(data[5..], []);
      case _ =>
    }
  }

  ghost predicate GoodProps(props: Entries<Value>) {
    Sorted(props) && CanonicalAll(props) && ShortAll(props)
  }

  lemma {:induction false} InsertGood(props: Entries<Value>, key: Key, v: Value)
    requires GoodProps(props) && |key| < 0x1_0000 && Canonical(v) && Short(v)
    ensures GoodProps(Insert(props, key, v, false))
  {
    InsertSorted(props, key, v, false);
    InsertGoodValues(props, key, v);
  }

  lemma {:induction false} InsertGoodValues(props: Entries<Value>, key: Key, v: Value)
    requires CanonicalAll(props) && ShortAll(props) && |key| < 0x1_0000 && Canonical(v) && Short(v)
    ensures CanonicalAll(Insert(props, key, v, false)) && ShortAll(Insert(props, key, v, false))
  {
    hide Canonical, Short;
    if props != [] && key != props[0].key {
      if Less(key, props[0].key) {
        assert ([Entry(key, v)] + props)[1..] == props;
      } else {
        InsertGoodValues(props[1..], key, v);
        assert ([props[0]] + Insert(props[1..], key, v, false))[1..] == Insert(props[1..], key, v, false);
      }
    }
  }

  lemma {:induction false} DecodedPropsAreGood(data: seq<Byte>, found: Entries<Value>)
    requires DecodeProps(data, found).Ok? && GoodProps(found)
    ensures GoodProps(DecodeProps(data, found).value)
    decreases |data|, 0
  {
    hide GoodProps, DecodeText, DecodeValue;
    if data != [] && !AtEnd(data) {
      var key := DecodeText(data);
      var v := DecodeValue(data[key.used..]);
      DecodedIsGood(data[key.used..]);
      InsertGood(found, key.value, v.value);
      DecodedPropsAreGood(data[key.used + v.used..], Insert(found, key.value, v.value, false));
    }
  }

  lemma {:induction false} DecodedAllAreGood(data: seq<Byte>)
    requires DecodeAll(data).Ok?
    ensures AllCanonical(DecodeAll(data).value) && AllShort(DecodeAll(data).value)
    ensures DecodeAll(data).used == |data|
    decreases |data|
  {
    hide DecodeValue, Canonical, Short;
    if data != [] {
      DecodedIsGood(data);
      DecodedAllAreGood(data[DecodeValue(data).used..]);
    }
  }

  /** Decoding normalises: what an accepted input means survives being written and read again. */
  lemma Normalises(data: seq<Byte>)
    requires DecodeAll(data).Ok?
    ensures var vs := DecodeAll(data).value;
      DecodeAll(EncodeAll(vs)) == Ok(vs, |EncodeAll(vs)|)
  {
    DecodedAllAreGood(data);
    AllRoundTrip(DecodeAll(data).value);
  }

  /** A list of value trees survives exactly when its strings and keys fit their length fields. */
  lemma RoundTripIff(vs: seq<Value>)
    requires AllCanonical(vs)
    ensures DecodeAll(EncodeAll(vs)) == Ok(vs, |EncodeAll(vs)|) <==> AllShort(vs)
  {
    hide DecodeAll, EncodeAll;
    if AllShort(vs) {
      AllRoundTrip(vs);
    } else if DecodeAll(EncodeAll(vs)) == Ok(vs, |EncodeAll(vs)|) {
      DecodedAllAreGood(EncodeAll(vs));
    }
  }

  /** A string too long for its length field is not read back. */
  lemma LongTextIsLost(s: seq<Byte>)
    requires |s| >= 0x1_0000
    ensures DecodeAll(EncodeAll([String(s)])) != Ok([String(s)], |EncodeAll([String(s)])|)
  {
    hide DecodeAll, EncodeAll;
    RoundTripIff([String(s)]);
    assert String(s) in [String(s)] && !Short(String(s));
  }

  /** Repeated keys, any order, and a false element count: the first value of each key is kept. */
  lemma FirstKeyWins(raw: Entries<Value>, count: seq<Byte>, rest: seq<Byte>, key: Key)
    requires CanonicalAll(raw) && ShortAll(raw) && |count| == 4
    ensures var decoded := DecodeValue([ECMA_ARRAY] + count + EncodeProps(raw) + END + rest);
      && decoded.Ok? && decoded.value.EcmaArray?
      && decoded.used == 8 + |EncodeProps(raw)|
      && Sorted(decoded.value.props)
      && Find(decoded.value.props, key) == Find(raw, key)
  {
    hide EncodeProps, DecodeProps, InsertAll, Find, ReadBE32;
    var data := [ECMA_ARRAY] + count + EncodeProps(raw) + END + rest;
    PropsRoundTrip(raw, [], rest);
    InsertAllSorted([], raw, false);
    InsertAllFind([], raw, false, key);
    assert data[5..] == EncodeProps(raw) + END + rest;
    assert Find<Value>([], key) == None by { EmptyFind(key); }
  }

  lemma EmptyFind(key: Key)
    ensures Find<Value>([], key) == None
  {
  }
}
