/** The encoder object (rtmp/Amf0Encoder.cc): every call appends to its data. */
module Amf0Encoder {
  import opened Bytes
  import opened OrderedMaps
  import opened Amf0

  class Encoder {
    var data: seq<Byte>

    constructor ()
      ensures data == []
    {
      data := [];
    }

    method AppendValue(v: Value)
      modifies this
      ensures data == old(data) + Encode(v)
      decreases v, 0
    {
      match v
      case Number(bits) => AppendNumber(bits);
      case Boolean(flag) => AppendBoolean(flag);
      case String(s) => AppendString(s);
      case Object(props) =>
        AppendObject(props, false);
      case EcmaArray(props) =>
        AppendObject(props, true);
      case Null => AppendNull();
    }

    method AppendString(s: seq<Byte>)
      modifies this
      ensures data == old(data) + Encode(String(s))
    {
      data := data + [STRING];
      AppendUint16BE(|s| % 0x1_0000);
      data := data + s;
    }

    method AppendNumber(bits: U64)
      modifies this
      ensures data == old(data) + Encode(Number(bits))
    {
      data := data + [NUMBER];
      data := data + BE64(bits);
    }

    method AppendBoolean(flag: bool)
      modifies this
      ensures data == old(data) + Encode(Boolean(flag))
    {
      data := data + [BOOLEAN];
      data := data + [if flag then 1 else 0];
    }

    method AppendNull()
      modifies this
      ensures data == old(data) + Encode(Null)
    {
      data := data + [NULL];
    }

    method AppendObject(props: Entries<Value>, ecmaArray: bool)
      modifies this
      ensures data == old(data) + Encode(if ecmaArray then EcmaArray(props) else Object(props))
      decreases props
    {
      hide BE16, BE32, EncodeText;
      data := data + [if ecmaArray then ECMA_ARRAY else OBJECT];
      if ecmaArray {
        AppendUint32BE(|props| % 0x1_0000_0000);
      }
      ghost var start := data;
      for i := 0 to |props|
        invariant data + EncodeProps(props[i..]) == start + EncodeProps(props)
      {
        ghost var before := data;
        AppendObjectProperty(props[i].key, props[i].value);
        assert props[i..][1..] == props[i + 1..];
        Regroup(before, EncodeText(props[i].key), Encode(props[i].value), EncodeProps(props[i + 1..]));
      }
      assert data == start + EncodeProps(props);
      AppendUint16BE(0);
      data := data + [OBJECT_END];
      EndBytes();
    }

    method AppendObjectProperty(key: seq<Byte>, v: Value)
      modifies this
      ensures data == old(data) + EncodeText(key) + Encode(v)
      decreases v, 1
    {
      AppendUint16BE(|key| % 0x1_0000);
      data := data + key;
      AppendValue(v);
    }

    method AppendUint16BE(x: U16)
      modifies this
      ensures data == old(data) + BE16(x)
    {
      data := data + [x / 0x100 % 0x100];
      data := data + [x % 0x100];
    }

    method AppendUint32BE(x: U32)
      modifies this
      ensures data == old(data) + BE32(x)
    {
      data := data + [x / 0x100_0000 % 0x100];
      data := data + [x / 0x1_0000 % 0x100];
      data := data + [x / 0x100 % 0x100];
      data := data + [x % 0x100];
    }
  }

  lemma EndBytes()
    ensures BE16(0) + [OBJECT_END] == END
  {
  }
}

/** The decoder (rtmp/Amf0Decoder.cc): loops over an offset into the data. */
module Amf0Decoder {
  import opened Bytes
  import opened OrderedMaps
  import opened Amf0

  method DecodeAll(data: seq<Byte>) returns (r: Decoded<seq<Value>>)
    ensures r == Amf0.DecodeAll(data)
  {
    hide Amf0.DecodeValue;
    var offset, values := 0, [];
    assert data[0..] == data;
    ghost var whole := Amf0.DecodeAll(data);
    assert whole.Ok? ==> values + whole.value == whole.value;
    while offset < |data|
      invariant 0 <= offset <= |data|
      invariant Amf0.DecodeAll(data) ==
        match Amf0.DecodeAll(data[offset..])
        case Error(e) => Error(e)
        case Ok(vs, n) => Ok(values + vs, offset + n)
    {
      var one := DecodeValue(data[offset..]);
      if one.Error? {
        return Error(one.message);
      }
      if one.used == 0 {
        break;
      }
      assert data[offset..][one.used..] == data[offset + one.used..];
      ghost var rest := Amf0.DecodeAll(data[offset + one.used..]);
      if rest.Ok? {
        assert values + ([one.value] + rest.value) == values + [one.value] + rest.value;
      }
      values := values + [one.value];
      offset := offset + one.used;
    }
    assert values + [] == values;
    return Ok(values, offset);
  }

  method DecodeValue(data: seq<Byte>) returns (r: Decoded<Value>)
    ensures r == Amf0.DecodeValue(data)
    decreases |data|
  {
    if data == [] {
      return Ok(Null, 0);
    }
    var marker := data[0];
    if marker == NUMBER {
      if |data| < 1 + 8 {
        return Error("amf0 number payload is truncated");
      }
      return Ok(Number(ReadBE64(data[1..])), 9);
    }
    if marker == BOOLEAN {
      if |data| < 2 {
        return Error("amf0 boolean payload is truncated");
      }
      return Ok(Boolean(data[1] != 0), 2);
    }
    if marker == STRING {
      var s := DecodeString(data[1..]);
      if s.Error? {
        return Error(s.message);
      }
      return Ok(String(s.value), 1 + s.used);
    }
    if marker == OBJECT {
      var props := DecodeObject(data[1..]);
      if props.Error? {
        return Error(props.message);
      }
      return Ok(Object(props.value), 1 + props.used);
    }
    if marker == ECMA_ARRAY {
      if |data| < 5 {
        return Error("amf0 ecma array payload is truncated");
      }
      var props := DecodeObject(data[5..]);
      if props.Error? {
        return Error(props.message);
      }
      return Ok(EcmaArray(props.value), 5 + props.used);
    }
    if marker == NULL {
      return Ok(Null, 1);
    }
    return Error("unsupported amf0 type marker");
  }

  method DecodeString(data: seq<Byte>) returns (r: Decoded<seq<Byte>>)
    ensures r == DecodeText(data)
  {
    if |data| < 2 {
      return Error("amf0 string length is truncated");
    }
    var length: nat := ReadBE16(data);
    if |data| < 2 + length {
      return Error("amf0 string payload is truncated");
    }
    return Ok(data[2..2 + length], 2 + length);
  }

  method DecodeObject(data: seq<Byte>) returns (r: Decoded<Entries<Value>>)
    ensures r == DecodeProps(data, [])
    decreases |data|
  {
    hide Amf0.DecodeValue, DecodeText, DecodeProps, Insert;
    var offset, props := 0, [];
    assert data[0..] == data;
    while offset < |data|
      invariant 0 <= offset <= |data|
      invariant DecodeProps(data, []) ==
        match DecodeProps(data[offset..], props)
        case Error(e) => Error(e)
        case Ok(all, n) => Ok(all, offset + n)
    {
      PropsUnfold(data[offset..], props);
      if |data| - offset >= 3 && data[offset] == 0 && data[offset + 1] == 0 && data[offset + 2] == OBJECT_END {
        return Ok(props, offset + 3);
      }
      var key := DecodeString(data[offset..]);
      if key.Error? {
        return Error(key.message);
      }
      var at := offset + key.used;
      assert data[offset..][key.used..] == data[at..];
      var value := DecodeValue(data[at..]);
      if value.Error? {
        return Error(value.message);
      }
      if value.used == 0 {
        return Error("amf0 object property is empty");
      }
      assert data[offset..][key.used + value.used..] == data[at + value.used..];
      PropsStep(data[offset..], props, key, value);
      props := Insert(props, key.value, value.value, false);
      offset := at + value.used;
    }
    PropsUnfold(data[offset..], props);
    return Error("amf0 object end marker is missing");
  }

  /** The ways in which reading properties stops. */
  lemma PropsUnfold(data: seq<Byte>, found: Entries<Value>)
    ensures data == [] ==> DecodeProps(data, found) == Error("amf0 object end marker is missing")
    ensures data != [] && AtEnd(data) ==> DecodeProps(data, found) == Ok(found, 3)
    ensures data != [] && !AtEnd(data) ==>
      var key := DecodeText(data);
      && (key.Error? ==> DecodeProps(data, found) == Error(key.message))
      && (key.Ok? ==>
            var v := Amf0.DecodeValue(data[key.used..]);
            && (v.Error? ==> DecodeProps(data, found) == Error(v.message))
            && (v.Ok? && v.used == 0 ==> DecodeProps(data, found) == Error("amf0 object property is empty")))
  {
    hide Amf0.DecodeValue, DecodeText, Insert, AtEnd;
  }
}
