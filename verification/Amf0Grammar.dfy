/** The byte strings that the AMF0 decoder accepts, and what it makes of them (AMF0, sections 2.1 to 2.11). */
module Amf0Grammar {
  import opened Bytes
  import opened OrderedMaps
  import opened Amf0

  /** A value as it is written: fields keep their bytes, properties their order and repetitions. */
  datatype Raw =
    | RawNumber(bits: seq<Byte>)
    | RawBoolean(flag: Byte)
    | RawString(text: seq<Byte>)
    | RawObject(raws: Entries<Raw>)
    | RawArray(count: seq<Byte>, raws: Entries<Raw>)
    | RawNull

  ghost predicate Valid(r: Raw) {
    match r
    case RawNumber(bits) => |bits| == 8
    case RawString(text) => |text| < 65536
    case RawObject(raws) => ValidAll(raws)
    case RawArray(count, raws) => |count| == 4 && ValidAll(raws)
    case _ => true
  }

  ghost predicate ValidAll(rs: Entries<Raw>) {
    rs == [] || (|rs[0].key| < 65536 && Valid(rs[0].value) && ValidAll(rs[1..]))
  }

  /** A length of two bytes, then the text. */
  predicate IsText(b: seq<Byte>, text: seq<Byte>) {
    |b| == 2 + |text| && b[0] as int * 256 + b[1] == |text| && b[2..] == text
  }

  function Counted(text: seq<Byte>): (b: seq<Byte>)
    requires |text| < 65536
    ensures IsText(b, text)
  {
    [|text| / 256, |text| % 256] + text
  }

  function Spelled(r: Raw): (b: seq<Byte>)
    requires Valid(r)
    ensures b != [] && b[0] < 9
  {
    match r
    case RawNumber(bits) => [0] + bits
    case RawBoolean(flag) => [1, flag]
    case RawString(text) => [2] + Counted(text)
    case RawObject(raws) => [3] + (SpelledAll(raws) + [0, 0, 9])
    case RawArray(count, raws) => [8] + (count + (SpelledAll(raws) + [0, 0, 9]))
    case RawNull => [5]
  }

  function SpelledAll(rs: Entries<Raw>): seq<Byte>
    requires ValidAll(rs)
  {
    if rs == [] then [] else Counted(rs[0].key) + (Spelled(rs[0].value) + SpelledAll(rs[1..]))
  }

  /** What is meant: of several properties with one key the first, in the order of the keys. */
  function Meaning(r: Raw): Value
    requires Valid(r)
  {
    match r
    case RawNumber(bits) => BigIs(bits); Number(Big(bits))
    case RawBoolean(flag) => Boolean(flag != 0)
    case RawString(text) => String(text)
    case RawObject(raws) => Object(InsertAll([], Meanings(raws), false))
    case RawArray(_, raws) => EcmaArray(InsertAll([], Meanings(raws), false))
    case RawNull => Null
  }

  function Meanings(rs: Entries<Raw>): (vs: Entries<Value>)
    requires ValidAll(rs)
    ensures |vs| == |rs|
  {
    if rs == [] then [] else [Entry(rs[0].key, Meaning(rs[0].value))] + Meanings(rs[1..])
  }

  lemma BigFour(b: seq<Byte>)
    requires |b| == 4
    ensures Big(b) == ReadBE32(b)
  {
    assert b[..3][..2] == b[..2] && b[..2][..1] == b[..1] && b[..1][..0] == [];
    assert Big(b[..1]) == b[0] as int;
    assert Big(b[..2]) == Big(b[..1]) * 0x100 + b[1];
    assert Big(b[..3]) == Big(b[..2]) * 0x100 + b[2];
  }

  lemma BigIs(b: seq<Byte>)
    requires |b| == 8
    ensures Big(b) == ReadBE64(b) < 0x1_0000_0000_0000_0000
  {
    var hi := b[..4];
    BigFour(hi);
    BigFour(b[4..]);
    BigAppend(hi, b[4..]);
    assert b == hi + b[4..];
  }

  lemma BigAppend(a: seq<Byte>, d: seq<Byte>)
    requires |d| == 4
    ensures Big(a + d) == Big(a) * 0x1_0000_0000 + Big(d)
  {
    assert (a + d)[..|a| + 3] == a + d[..3];
    assert (a + d[..3])[..|a| + 2] == a + d[..2];
    assert (a + d[..2])[..|a| + 1] == a + d[..1];
    assert (a + d[..1])[..|a|] == a;
    assert Big(a + d[..1]) == Big(a) * 0x100 + d[0];
    assert Big(a + d[..2]) == Big(a + d[..1]) * 0x100 + d[1];
    assert Big(a + d[..3]) == Big(a + d[..2]) * 0x100 + d[2];
    BigFour(d);
  }

  // ---------- Whatever is written so is accepted ----------

  lemma TextTaken(text: seq<Byte>, rest: seq<Byte>)
    requires |text| < 65536
    ensures DecodeText(Counted(text) + rest) == Ok(text, 2 + |text|)
    ensures (Counted(text) + rest)[2 + |text|..] == rest
  {
    var data, b := Counted(text) + rest, Counted(text);
    assert data[0] == b[0] && data[1] == b[1];
    assert data[2..2 + |text|] == b[2..];
  }

  lemma NoEnd(key: seq<Byte>, value: seq<Byte>, tail: seq<Byte>)
    requires |key| < 65536 && value != [] && value[0] < 9
    ensures !AtEnd(Counted(key) + (value + tail))
  {
    var data := Counted(key) + (value + tail);
    if key == [] {
      assert data[2] == value[0];
    } else {
      assert data[0] == Counted(key)[0] && data[1] == Counted(key)[1];
    }
  }

  lemma ScalarTaken(r: Raw, rest: seq<Byte>)
    requires Valid(r) && !r.RawObject? && !r.RawArray?
    ensures DecodeValue(Spelled(r) + rest) == Ok(Meaning(r), |Spelled(r)|)
  {
    hide ReadBE64, Counted, DecodeText, Big;
    var data := Spelled(r) + rest;
    match r
    case RawNumber(bits) =>
      BigIs(bits);
      assert data[1..] == bits + rest && |data| >= 9;
      NumberPrefix(bits, rest);
    case RawBoolean(flag) =>
    case RawString(text) =>
      TextTaken(text, rest);
      assert data[1..] == Counted(text) + rest;
    case RawNull =>
  }

  lemma NumberPrefix(bits: seq<Byte>, rest: seq<Byte>)
    requires |bits| == 8
    ensures ReadBE64(bits + rest) == ReadBE64(bits)
  {
    assert (bits + rest)[4..] == bits[4..] + rest;
  }

  lemma ContainerTaken(r: Raw, rest: seq<Byte>, raws: Entries<Raw>)
    requires Valid(r) && (r.RawObject? || r.RawArray?) && raws == r.raws && ValidAll(raws)
    requires DecodeProps(SpelledAll(raws) + ([0, 0, 9] + rest), [])
          == Ok(InsertAll([], Meanings(raws), false), |SpelledAll(raws)| + 3)
    ensures DecodeValue(Spelled(r) + rest) == Ok(Meaning(r), |Spelled(r)|)
  {
    hide SpelledAll, DecodeProps, InsertAll, Meanings, ReadBE32, ValidAll;
    var n, data := if r.RawObject? then 1 else 5, Spelled(r) + rest;
    assert data[n..] == SpelledAll(raws) + ([0, 0, 9] + rest);
  }

  /** Every written value is read as it is meant, whatever stands behind it. */
  lemma {:induction false} RawTaken(r: Raw, rest: seq<Byte>)
    requires Valid(r)
    ensures DecodeValue(Spelled(r) + rest) == Ok(Meaning(r), |Spelled(r)|)
    decreases r, 0
  {
    hide Spelled, SpelledAll, DecodeProps, DecodeValue, InsertAll, Meanings, Meaning;
    match r
    case RawObject(raws) =>
      RawsTaken(raws, [], rest);
      ContainerTaken(r, rest, raws);
    case RawArray(_, raws) =>
      RawsTaken(raws, [], rest);
      ContainerTaken(r, rest, raws);
    case _ => ScalarTaken(r, rest);
  }

  lemma PropertyTaken(key: seq<Byte>, value: Raw, tail: seq<Byte>, found: Entries<Value>)
    requires |key| < 65536 && Valid(value)
    requires DecodeValue(Spelled(value) + tail) == Ok(Meaning(value), |Spelled(value)|)
    ensures DecodeProps(Counted(key) + (Spelled(value) + tail), found) ==
      match DecodeProps(tail, Insert(found, key, Meaning(value), false))
      case Error(e) => Error(e)
      case Ok(props, m) => Ok(props, 2 + |key| + |Spelled(value)| + m)
  {
    hide Counted, Spelled, Meaning, DecodeText, DecodeValue, DecodeProps, Insert, AtEnd, Valid;
    var data := Counted(key) + (Spelled(value) + tail);
    TextTaken(key, Spelled(value) + tail);
    assert data[2 + |key| + |Spelled(value)|..] == tail;
    NoEnd(key, Spelled(value), tail);
    PropsStep(data, found, Ok(key, 2 + |key|), Ok(Meaning(value), |Spelled(value)|));
  }

  lemma RawsParts(rs: Entries<Raw>, found: Entries<Value>, end: seq<Byte>)
    requires rs != [] && ValidAll(rs)
    ensures var key, value, more := rs[0].key, rs[0].value, rs[1..];
      && SpelledAll(rs) + end == Counted(key) + (Spelled(value) + (SpelledAll(more) + end))
      && |SpelledAll(rs)| == 2 + |key| + |Spelled(value)| + |SpelledAll(more)|
      && InsertAll(found, Meanings(rs), false)
         == InsertAll(Insert(found, key, Meaning(value), false), Meanings(more), false)
  {
    hide Insert, Valid, Spelled, Meaning, Counted;
    var key, value, more := rs[0].key, rs[0].value, rs[1..];
    assert Meanings(rs)[1..] == Meanings(more);
    Associate(Spelled(value), SpelledAll(more), end);
    Associate(Counted(key), Spelled(value) + SpelledAll(more), end);
  }

  lemma {:induction false} RawsTaken(rs: Entries<Raw>, found: Entries<Value>, rest: seq<Byte>)
    requires ValidAll(rs)
    ensures DecodeProps(SpelledAll(rs) + ([0, 0, 9] + rest), found)
      == Ok(InsertAll(found, Meanings(rs), false), |SpelledAll(rs)| + 3)
    decreases rs
  {
    if rs == [] {
      var data := SpelledAll(rs) + ([0, 0, 9] + rest);
      assert data[0] == 0 && data[1] == 0 && data[2] == 9;
    } else {
      var key, value, more := rs[0].key, rs[0].value, rs[1..];
      RawsParts(rs, found, [0, 0, 9] + rest);
      hide *;
      var tail := SpelledAll(more) + ([0, 0, 9] + rest);
      RawTaken(value, tail);
      PropertyTaken(key, value, tail, found);
      RawsTaken(more, Insert(found, key, Meaning(value), false), rest);
    }
  }

  // ---------- Whatever is accepted was written so ----------

  lemma TextWritten(data: seq<Byte>) returns (rest: seq<Byte>)
    requires DecodeText(data).Ok?
    ensures var text := DecodeText(data).value;
      |text| < 65536 && DecodeText(data).used == 2 + |text| && data == Counted(text) + rest
  {
    var text := DecodeText(data).value;
    rest := data[2 + |text|..];
    assert data == [data[0], data[1]] + text + rest;
  }

  lemma ScalarWritten(data: seq<Byte>) returns (r: Raw, rest: seq<Byte>)
    requires data != [] && DecodeValue(data).Ok? && data[0] != 3 && data[0] != 8
    ensures Valid(r) && DecodeValue(data) == Ok(Meaning(r), |Spelled(r)|) && data == Spelled(r) + rest
  {
    hide ReadBE64, Counted, DecodeText, Big;
    match data[0]
    case 0x00 =>
      r, rest := RawNumber(data[1..9]), data[9..];
      BigIs(data[1..9]);
      NumberPrefix(data[1..9], rest);
      assert data[1..9] + rest == data[1..];
    case 0x01 =>
      r, rest := RawBoolean(data[1]), data[2..];
    case 0x02 =>
      rest := TextWritten(data[1..]);
      r := RawString(DecodeText(data[1..]).value);
    case _ =>
      r, rest := RawNull, data[1..];
  }

  lemma ContainerWritten(data: seq<Byte>, raws: Entries<Raw>, rest: seq<Byte>) returns (r: Raw)
    requires data != [] && DecodeValue(data).Ok? && (data[0] == 3 || data[0] == 8)
    requires ValidAll(raws)
    requires var props := data[if data[0] == 3 then 1 else 5..];
      && props == SpelledAll(raws) + ([0, 0, 9] + rest)
      && DecodeProps(props, []) == Ok(InsertAll([], Meanings(raws), false), |SpelledAll(raws)| + 3)
    ensures Valid(r) && DecodeValue(data) == Ok(Meaning(r), |Spelled(r)|) && data == Spelled(r) + rest
  {
    hide SpelledAll, DecodeProps, InsertAll, Meanings, ReadBE32, ValidAll;
    if data[0] == 3 {
      r := RawObject(raws);
      assert data == [3] + data[1..];
    } else {
      r := RawArray(data[1..5], raws);
      assert data == [8] + (data[1..5] + data[5..]);
    }
  }

  lemma {:induction false} RawWritten(data: seq<Byte>) returns (r: Raw, rest: seq<Byte>)
    requires data != [] && DecodeValue(data).Ok?
    ensures Valid(r) && DecodeValue(data) == Ok(Meaning(r), |Spelled(r)|) && data == Spelled(r) + rest
    decreases |data|, 1
  {
    if data[0] == 3 || data[0] == 8 {
      var raws;
      raws, rest := RawsWritten(data[if data[0] == 3 then 1 else 5..], []);
      r := ContainerWritten(data, raws, rest);
    } else {
      r, rest := ScalarWritten(data);
    }
  }

  lemma PropertyWritten(data: seq<Byte>, found: Entries<Value>)
    requires DecodeProps(data, found).Ok? && !AtEnd(data)
    ensures DecodeText(data).Ok?
    ensures var key := DecodeText(data);
      var v := DecodeValue(data[key.used..]);
      && v.Ok? && data[key.used..] != [] && 0 < v.used
      && var more := DecodeProps(data[key.used + v.used..], Insert(found, key.value, v.value, false));
         && more.Ok?
         && DecodeProps(data, found) == Ok(more.value, key.used + v.used + more.used)
  {
    hide DecodeText, Insert, AtEnd;
  }

  /** The key of the first property, and what follows it. */
  lemma KeyWritten(data: seq<Byte>, found: Entries<Value>) returns (tail: seq<Byte>)
    requires DecodeProps(data, found).Ok? && !AtEnd(data)
    ensures DecodeText(data).Ok? && |DecodeText(data).value| < 65536
    ensures data == Counted(DecodeText(data).value) + tail && tail != [] && DecodeValue(tail).Ok?
  {
    PropertyWritten(data, found);
    hide *;
    tail := TextWritten(data);
    var n := DecodeText(data).used;
    assert data[n..] == tail;
  }

  /** The rest is read with the first property added. */
  lemma RestWritten(data: seq<Byte>, found: Entries<Value>, value: seq<Byte>, rest: seq<Byte>)
    requires DecodeProps(data, found).Ok? && !AtEnd(data) && DecodeText(data).Ok?
    requires var key := DecodeText(data).value;
      && |key| < 65536 && data == Counted(key) + (value + rest)
      && value != [] && DecodeValue(value + rest).Ok? && DecodeValue(value + rest).used == |value|
    ensures var key := DecodeText(data).value;
      var more := DecodeProps(rest, Insert(found, key, DecodeValue(value + rest).value, false));
      && more.Ok? && |rest| < |data|
      && DecodeProps(data, found) == Ok(more.value, 2 + |key| + |value| + more.used)
  {
    TextSlices(data, value, rest);
    NextProperty(data, found, value + rest, rest);
    hide *;
  }

  lemma NextProperty(data: seq<Byte>, found: Entries<Value>, tail: seq<Byte>, behind: seq<Byte>)
    requires DecodeProps(data, found).Ok? && !AtEnd(data) && DecodeText(data).Ok?
    requires var n := DecodeText(data).used;
      && tail == data[n..] && tail != [] && DecodeValue(tail).Ok?
      && n + DecodeValue(tail).used <= |data| && behind == data[n + DecodeValue(tail).used..]
    ensures var key, v := DecodeText(data), DecodeValue(tail);
      var more := DecodeProps(behind, Insert(found, key.value, v.value, false));
      && more.Ok? && |behind| < |data|
      && DecodeProps(data, found) == Ok(more.value, key.used + v.used + more.used)
  {
    hide *;
    PropsStep(data, found, DecodeText(data), DecodeValue(tail));
  }

  lemma TextSlices(data: seq<Byte>, value: seq<Byte>, rest: seq<Byte>)
    requires DecodeText(data).Ok? && |DecodeText(data).value| < 65536
    requires data == Counted(DecodeText(data).value) + (value + rest)
    ensures var n := DecodeText(data).used;
      n == 2 + |DecodeText(data).value| && data[n..] == value + rest && data[n + |value|..] == rest
  {
    Slices(Counted(DecodeText(data).value), value, rest);
    hide Counted;
  }

  lemma Slices(a: seq<Byte>, b: seq<Byte>, c: seq<Byte>)
    ensures (a + (b + c))[|a|..] == b + c && (a + (b + c))[|a| + |b|..] == c
  {
  }

  lemma RawsCons(key: seq<Byte>, raw: Raw, more: Entries<Raw>, found: Entries<Value>, rest: seq<Byte>)
    returns (rs: Entries<Raw>)
    requires |key| < 65536 && Valid(raw) && ValidAll(more)
    ensures ValidAll(rs) && |SpelledAll(rs)| == 2 + |key| + |Spelled(raw)| + |SpelledAll(more)|
    ensures SpelledAll(rs) + rest == Counted(key) + (Spelled(raw) + (SpelledAll(more) + rest))
    ensures InsertAll(found, Meanings(rs), false)
         == InsertAll(Insert(found, key, Meaning(raw), false), Meanings(more), false)
  {
    rs := [Entry(key, raw)] + more;
    assert rs[1..] == more;
    RawsParts(rs, found, rest);
  }

  lemma EndWritten(data: seq<Byte>, found: Entries<Value>) returns (rs: Entries<Raw>, rest: seq<Byte>)
    requires AtEnd(data)
    ensures ValidAll(rs) && data == SpelledAll(rs) + ([0, 0, 9] + rest)
    ensures DecodeProps(data, found) == Ok(InsertAll(found, Meanings(rs), false), |SpelledAll(rs)| + 3)
  {
    rs, rest := [], data[3..];
    assert data == [] + ([0, 0, 9] + rest);
  }

  lemma {:induction false} RawsWritten(data: seq<Byte>, found: Entries<Value>)
    returns (rs: Entries<Raw>, rest: seq<Byte>)
    requires DecodeProps(data, found).Ok?
    ensures ValidAll(rs) && data == SpelledAll(rs) + ([0, 0, 9] + rest)
    ensures DecodeProps(data, found) == Ok(InsertAll(found, Meanings(rs), false), |SpelledAll(rs)| + 3)
    decreases |data|, 0
  {
    if AtEnd(data) {
      rs, rest := EndWritten(data, found);
    } else {
      var tail := KeyWritten(data, found);
      hide *;
      var key := DecodeText(data).value;
      var raw, behind := RawWritten(tail);
      RestWritten(data, found, Spelled(raw), behind);
      var more;
      more, rest := RawsWritten(behind, Insert(found, key, Meaning(raw), false));
      rs := RawsCons(key, raw, more, found, [0, 0, 9] + rest);
    }
  }

  /** What follows a value. */
  lemma Behind(a: seq<Byte>, b: seq<Byte>)
    ensures (a + b)[|a|..] == b
  {
  }

  ghost predicate Denotes(data: seq<Byte>, v: Value, n: nat, r: Raw) {
    Valid(r) && n == |Spelled(r)| <= |data| && data[..n] == Spelled(r) && v == Meaning(r)
  }

  /**
   On any bytes the decoder gives value `v` and consumes `n` exactly when the first `n` bytes are a
   written value that means `v`; of no bytes at all it makes null.
   */
  lemma DecodedIff(data: seq<Byte>, v: Value, n: nat)
    ensures data == [] ==> (DecodeValue(data) == Ok(v, n) <==> v == Null && n == 0)
    ensures data != [] ==> (DecodeValue(data) == Ok(v, n) <==> exists r :: Denotes(data, v, n, r))
  {
    if data != [] {
      hide DecodeValue, Spelled, Meaning, Valid;
      if DecodeValue(data) == Ok(v, n) {
        var r, rest := RawWritten(data);
        assert Denotes(data, v, n, r);
      }
      forall r | Denotes(data, v, n, r) ensures DecodeValue(data) == Ok(v, n) {
        RawTaken(r, data[n..]);
        assert Spelled(r) + data[n..] == data;
      }
    }
  }

  /** Only six markers are known; a value that starts with any other byte is an error. */
  lemma KnownMarkers(data: seq<Byte>)
    requires data != [] && DecodeValue(data).Ok?
    ensures data[0] in {0, 1, 2, 3, 5, 8}
  {
    var r, rest := RawWritten(data);
    assert data[0] == Spelled(r)[0];
  }

  // ---------- Lists of values ----------

  ghost predicate ValidList(rs: seq<Raw>) {
    forall i :: 0 <= i < |rs| ==> Valid(rs[i])
  }

  function SpelledList(rs: seq<Raw>): seq<Byte>
    requires ValidList(rs)
  {
    if rs == [] then [] else Spelled(rs[0]) + SpelledList(rs[1..])
  }

  function MeaningList(rs: seq<Raw>): (vs: seq<Value>)
    requires ValidList(rs)
    ensures |vs| == |rs| && forall i :: 0 <= i < |rs| ==> vs[i] == Meaning(rs[i])
  {
    seq(|rs|, i requires 0 <= i < |rs| => Meaning(rs[i]))
  }

  lemma {:induction false} ListTaken(rs: seq<Raw>)
    requires ValidList(rs)
    ensures DecodeAll(SpelledList(rs)) == Ok(MeaningList(rs), |SpelledList(rs)|)
  {
    hide DecodeValue, Spelled, Meaning, Valid;
    if rs != [] {
      var rest := SpelledList(rs[1..]);
      RawTaken(rs[0], rest);
      assert (Spelled(rs[0]) + rest)[|Spelled(rs[0])|..] == rest;
      ListTaken(rs[1..]);
      assert MeaningList(rs) == [Meaning(rs[0])] + MeaningList(rs[1..]);
    }
  }

  lemma ListCons(first: Raw, more: seq<Raw>) returns (rs: seq<Raw>)
    requires Valid(first) && ValidList(more)
    ensures ValidList(rs) && SpelledList(rs) == Spelled(first) + SpelledList(more)
    ensures MeaningList(rs) == [Meaning(first)] + MeaningList(more)
  {
    rs := [first] + more;
    assert rs[1..] == more;
    assert ValidList(rs);
    hide Valid, Spelled, Meaning, ValidList;
    MeaningTail(rs);
  }

  lemma MeaningTail(rs: seq<Raw>)
    requires rs != [] && ValidList(rs)
    ensures ValidList(rs[1..]) && MeaningList(rs) == [Meaning(rs[0])] + MeaningList(rs[1..])
  {
    hide Valid, Spelled, Meaning;
  }

  lemma FirstWritten(data: seq<Byte>)
    requires data != [] && DecodeAll(data).Ok?
    ensures DecodeValue(data).Ok?
    ensures var v := DecodeValue(data);
      var more := DecodeAll(data[v.used..]);
      more.Ok? && DecodeAll(data) == Ok([v.value] + more.value, v.used + more.used)
  {
    hide DecodeValue;
  }

  lemma {:induction false} ListWritten(data: seq<Byte>) returns (rs: seq<Raw>)
    requires DecodeAll(data).Ok?
    ensures ValidList(rs) && data == SpelledList(rs) && DecodeAll(data) == Ok(MeaningList(rs), |data|)
    decreases |data|
  {
    if data == [] {
      rs := [];
    } else {
      FirstWritten(data);
      hide *;
      var first, rest := RawWritten(data);
      Behind(Spelled(first), rest);
      var more := ListWritten(rest);
      rs := ListCons(first, more);
    }
  }

  ghost predicate ListDenotes(data: seq<Byte>, vs: seq<Value>, rs: seq<Raw>) {
    ValidList(rs) && data == SpelledList(rs) && vs == MeaningList(rs)
  }

  /** A whole payload is accepted exactly when it is a list of written values. */
  lemma AllDecodedIff(data: seq<Byte>, vs: seq<Value>)
    ensures DecodeAll(data) == Ok(vs, |data|) <==> exists rs :: ListDenotes(data, vs, rs)
  {
    hide DecodeAll, ValidList, SpelledList, MeaningList;
    if DecodeAll(data) == Ok(vs, |data|) {
      var rs := ListWritten(data);
      assert ListDenotes(data, vs, rs);
    }
    forall rs | ListDenotes(data, vs, rs) ensures DecodeAll(data) == Ok(vs, |data|) {
      ListTaken(rs);
    }
  }

  // ---------- The encoder ----------

  /** The written form that the encoder prints: booleans 0 or 1, the true element count. */
  function RawOf(v: Value): (r: Raw)
    requires Short(v)
  {
    match v
    case Number(bits) => RawNumber(BE64(bits))
    case Boolean(flag) => RawBoolean(if flag then 1 else 0)
    case String(s) => RawString(s)
    case Object(props) => RawObject(RawsOf(props))
    case EcmaArray(props) => RawArray(BE32(|props| % 0x1_0000_0000), RawsOf(props))
    case Null => RawNull
  }

  function RawsOf(props: Entries<Value>): (rs: Entries<Raw>)
    requires ShortAll(props)
  {
    if props == [] then [] else [Entry(props[0].key, RawOf(props[0].value))] + RawsOf(props[1..])
  }

  lemma {:induction false} EncodedIsSpelled(v: Value)
    requires Short(v)
    ensures Valid(RawOf(v)) && Encode(v) == Spelled(RawOf(v))
    ensures v.Number? ==> Big(RawOf(v).bits) == v.bits
    ensures v.EcmaArray? ==> Big(RawOf(v).count) == |v.props| % 0x1_0000_0000
    decreases v, 0
  {
    match v
    case Number(bits) =>
      BE64Inverse(bits, []);
      assert BE64(bits) + [] == BE64(bits);
      BigIs(BE64(bits));
    case EcmaArray(props) =>
      var count := BE32(|props| % 0x1_0000_0000);
      BE32Inverse(|props| % 0x1_0000_0000, []);
      assert count + [] == count;
      BigFour(count);
      EncodedIsSpelledAll(props);
    case Object(props) =>
      EncodedIsSpelledAll(props);
    case String(s) => EncodedText(s);
    case _ =>
  }

  lemma EncodedText(s: seq<Byte>)
    requires |s| < 65536
    ensures EncodeText(s) == Counted(s)
  {
  }

  lemma {:induction false} EncodedIsSpelledAll(props: Entries<Value>)
    requires ShortAll(props)
    ensures ValidAll(RawsOf(props)) && EncodeProps(props) == SpelledAll(RawsOf(props))
    decreases props
  {
    if props != [] {
      hide Encode, Spelled, Valid, RawOf, Short, EncodeText, Counted;
      EncodedText(props[0].key);
      EncodedIsSpelled(props[0].value);
      EncodedIsSpelledAll(props[1..]);
      assert RawsOf(props)[1..] == RawsOf(props[1..]);
    }
  }
}
