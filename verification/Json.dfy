/** JSON fields of strings: the printer (api/JsonResponse.h) and the parser (api/JsonRequest.cc). */
module Json {
  import opened Bytes

  const QUOTE: Byte := 34
  const BACKSLASH: Byte := 92
  const COLON: Byte := 58
  const COMMA: Byte := 44
  const OPEN: Byte := 123
  const CLOSE: Byte := 125

  // ---------- Printing ----------

  function EscapeByte(c: Byte): seq<Byte> {
    match c
    case 34 => [BACKSLASH, QUOTE]
    case 92 => [BACKSLASH, BACKSLASH]
    case 8 => [BACKSLASH, 98]
    case 12 => [BACKSLASH, 102]
    case 10 => [BACKSLASH, 110]
    case 13 => [BACKSLASH, 114]
    case 9 => [BACKSLASH, 116]
    case _ => [c]
  }

  function Escape(s: seq<Byte>): seq<Byte> {
    if s == [] then [] else EscapeByte(s[0]) + Escape(s[1..])
  }

  method EscapeJson(value: seq<Byte>) returns (result: seq<Byte>)
    ensures result == Escape(value)
  {
    hide Escape;
    result := [];
    assert value[0..] == value;
    for i := 0 to |value|
      invariant result + Escape(value[i..]) == Escape(value)
    {
      EscapeStep(value, i);
      var ch := value[i];
      ghost var before := result;
      if ch == QUOTE {
        result := result + [BACKSLASH, QUOTE];
      } else if ch == BACKSLASH {
        result := result + [BACKSLASH, BACKSLASH];
      } else if ch == 8 {
        result := result + [BACKSLASH, 98];
      } else if ch == 12 {
        result := result + [BACKSLASH, 102];
      } else if ch == 10 {
        result := result + [BACKSLASH, 110];
      } else if ch == 13 {
        result := result + [BACKSLASH, 114];
      } else if ch == 9 {
        result := result + [BACKSLASH, 116];
      } else {
        result := result + [ch];
      }
      assert result == before + EscapeByte(ch);
      Associate(before, EscapeByte(ch), Escape(value[i + 1..]));
    }
    assert value[|value|..] == [];
    EscapeEnd();
  }

  lemma EscapeStep(s: seq<Byte>, i: nat)
    requires i < |s|
    ensures Escape(s[i..]) == EscapeByte(s[i]) + Escape(s[i + 1..])
  {
    assert s[i..][1..] == s[i + 1..];
  }

  lemma EscapeEnd()
    ensures Escape([]) == []
  {
  }

  function Quote(s: seq<Byte>): seq<Byte> {
    [QUOTE] + Escape(s) + [QUOTE]
  }

  function MakeField(key: seq<Byte>, value: seq<Byte>): seq<Byte> {
    Quote(key) + [COLON] + Quote(value)
  }

  type Pair = (seq<Byte>, seq<Byte>)

  function Join(pairs: seq<Pair>): seq<Byte> {
    if pairs == [] then []
    else if |pairs| == 1 then MakeField(pairs[0].0, pairs[0].1)
    else MakeField(pairs[0].0, pairs[0].1) + [COMMA] + Join(pairs[1..])
  }

  function Braced(pairs: seq<Pair>): seq<Byte> {
    [OPEN] + Join(pairs) + [CLOSE]
  }

  // ---------- Parsing ----------

  type Object = map<seq<Byte>, seq<Byte>>

  /** How many spaces `s` starts with. */
  function Spaces(s: seq<Byte>): (n: nat)
    ensures n <= |s|
    ensures n < |s| ==> !IsSpace(s[n])
  {
    if s != [] && IsSpace(s[0]) then 1 + Spaces(s[1..]) else 0
  }

  function Skip(s: seq<Byte>): (r: seq<Byte>)
    ensures |r| <= |s|
  {
    s[Spaces(s)..]
  }

  function Unescape(c: Byte): Option<Byte> {
    match c
    case 34 => Some(QUOTE)
    case 92 => Some(BACKSLASH)
    case 47 => Some(47)
    case 98 => Some(8)
    case 102 => Some(12)
    case 110 => Some(10)
    case 114 => Some(13)
    case 116 => Some(9)
    case _ => None
  }

  /** The string up to the closing quote, behind what has been read, and how many bytes it took. */
  function ReadChars(s: seq<Byte>, done: seq<Byte>): (r: Option<(seq<Byte>, nat)>)
    ensures r.Some? ==> 0 < r.value.1 <= |s|
    decreases |s|
  {
    if s == [] then None
    else if s[0] == QUOTE then Some((done, 1))
    else if s[0] != BACKSLASH then
      match ReadChars(s[1..], done + [s[0]])
      case None => None
      case Some((v, n)) => Some((v, 1 + n))
    else if |s| < 2 then None
    else
      match Unescape(s[1])
      case None => None
      case Some(c) =>
        match ReadChars(s[2..], done + [c])
        case None => None
        case Some((v, n)) => Some((v, 2 + n))
  }

  function ReadString(s: seq<Byte>): (r: Option<(seq<Byte>, nat)>)
    ensures r.Some? ==> 2 <= r.value.1 <= |s|
  {
    if s == [] || s[0] != QUOTE then None
    else
      match ReadChars(s[1..], [])
      case None => None
      case Some((v, n)) => Some((v, 1 + n))
  }

  /** One `key : value`, spaces allowed around every token, and the bytes behind it. */
  function ReadField(s: seq<Byte>): (r: Option<(Pair, seq<Byte>)>)
    ensures r.Some? ==> |r.value.1| < |s|
  {
    var s1 := Skip(s);
    match ReadString(s1)
    case None => None
    case Some((key, n)) =>
      var s2 := Skip(s1[n..]);
      if s2 == [] || s2[0] != COLON then None
      else
        var s3 := Skip(s2[1..]);
        match ReadString(s3)
        case None => None
        case Some((value, m)) => Some(((key, value), Skip(s3[m..])))
  }

  function ReadFields(s: seq<Byte>, found: Object): Option<Object>
    decreases |s|
  {
    if s == [] then None
    else
      match ReadField(s)
      case None => None
      case Some((field, rest)) =>
        var more := found[field.0 := field.1];
        if rest == [] then None
        else if rest[0] == CLOSE then (if Skip(rest[1..]) == [] then Some(more) else None)
        else if rest[0] != COMMA then None
        else ReadFields(rest[1..], more)
  }

  function ReadObject(input: seq<Byte>): Option<Object> {
    var s := Skip(input);
    if s == [] || s[0] != OPEN then None
    else
      var body := Skip(s[1..]);
      if body != [] && body[0] == CLOSE then (if Skip(body[1..]) == [] then Some(map[]) else None)
      else ReadFields(body, map[])
  }

  method SkipSpaces(input: seq<Byte>, start: nat) returns (pos: nat)
    requires start <= |input|
    ensures pos <= |input| && input[pos..] == Skip(input[start..])
  {
    pos := start;
    while pos < |input| && IsSpace(input[pos])
      invariant start <= pos <= |input|
      invariant Skip(input[pos..]) == Skip(input[start..])
    {
      assert input[pos..][1..] == input[pos + 1..];
      pos := pos + 1;
    }
  }

  /** `ReadChars` in a longer input, with the position behind the closing quote. */
  function ReadFrom(input: seq<Byte>, pos: nat, done: seq<Byte>): Option<(seq<Byte>, nat)>
    requires pos <= |input|
  {
    match ReadChars(input[pos..], done)
    case None => None
    case Some((v, n)) => Some((v, pos + n))
  }

  lemma ReadFromStep(input: seq<Byte>, pos: nat, done: seq<Byte>)
    requires pos < |input|
    ensures ReadFrom(input, |input|, done) == None
    ensures ReadFrom(input, pos, done) ==
      if input[pos] == QUOTE then Some((done, pos + 1))
      else if input[pos] != BACKSLASH then ReadFrom(input, pos + 1, done + [input[pos]])
      else if pos + 1 == |input| || Unescape(input[pos + 1]) == None then None
      else ReadFrom(input, pos + 2, done + [Unescape(input[pos + 1]).value])
  {
    hide Unescape;
    var s := input[pos..];
    assert s[1..] == input[pos + 1..];
    if |s| >= 2 {
      assert s[2..] == input[pos + 2..];
    }
  }

  lemma UnescapeIs(c: Byte)
    ensures Unescape(c) ==
      if c == QUOTE || c == BACKSLASH || c == 47 then Some(c)
      else if c == 98 then Some(8)
      else if c == 102 then Some(12)
      else if c == 110 then Some(10)
      else if c == 114 then Some(13)
      else if c == 116 then Some(9)
      else None
  {
  }

  method ParseString(input: seq<Byte>, start: nat) returns (r: Option<(seq<Byte>, nat)>)
    requires start <= |input|
    ensures match ReadString(input[start..])
      case None => r == None
      case Some((v, n)) => r == Some((v, start + n)) && start + n <= |input|
  {
    if start >= |input| || input[start] != QUOTE {
      return None;
    }
    var pos, output := start + 1, [];
    assert input[start..][1..] == input[pos..];
    hide ReadChars, Unescape;
    while pos < |input|
      invariant start < pos <= |input|
      invariant ReadFrom(input, pos, output) == ReadFrom(input, start + 1, [])
    {
      var ch := input[pos];
      ReadFromStep(input, pos, output);
      pos := pos + 1;
      if ch == QUOTE {
        return Some((output, pos));
      }
      if ch != BACKSLASH {
        output := output + [ch];
        continue;
      }
      if pos >= |input| {
        return None;
      }
      var escaped := input[pos];
      UnescapeIs(escaped);
      pos := pos + 1;
      if escaped == QUOTE || escaped == BACKSLASH || escaped == 47 {
        output := output + [escaped];
      } else if escaped == 98 {
        output := output + [8];
      } else if escaped == 102 {
        output := output + [12];
      } else if escaped == 110 {
        output := output + [10];
      } else if escaped == 114 {
        output := output + [13];
      } else if escaped == 116 {
        output := output + [9];
      } else {
        return None;
      }
    }
    return None;
  }

  method ParseJsonObject(input: seq<Byte>) returns (r: Option<Object>)
    ensures r == ReadObject(input)
  {
    hide ReadField, Skip, ReadFields;
    assert input[0..] == input;
    var pos := SkipSpaces(input, 0);
    if pos >= |input| || input[pos] != OPEN {
      return None;
    }
    assert input[pos..][1..] == input[pos + 1..];
    pos := SkipSpaces(input, pos + 1);
    if pos < |input| && input[pos] == CLOSE {
      assert input[pos..][1..] == input[pos + 1..];
      pos := SkipSpaces(input, pos + 1);
      return if pos == |input| then Some(map[]) else None;
    }
    var found: Object := map[];
    while pos < |input|
      invariant pos <= |input|
      invariant ReadFields(input[pos..], found) == ReadObject(input)
      decreases |input| - pos
    {
      FieldUnfold(input[pos..], found);
      var field := ParseField(input, pos);
      if field.None? {
        return None;
      }
      found := found[field.value.0.0 := field.value.0.1];
      pos := field.value.1;
      if pos >= |input| {
        return None;
      }
      assert input[pos..][1..] == input[pos + 1..];
      if input[pos] == CLOSE {
        pos := SkipSpaces(input, pos + 1);
        return if pos == |input| then Some(found) else None;
      }
      if input[pos] != COMMA {
        return None;
      }
      pos := pos + 1;
    }
    assert input[pos..] == [];
    NoFields(found);
    return None;
  }

  lemma NoFields(found: Object)
    ensures ReadFields([], found) == None
  {
  }

  /** The body of the parser's loop up to the byte behind a field. */
  method ParseField(input: seq<Byte>, start: nat) returns (r: Option<(Pair, nat)>)
    requires start < |input|
    ensures match ReadField(input[start..])
      case None => r == None
      case Some((pair, rest)) =>
        r.Some? && r.value.0 == pair && start < r.value.1 <= |input| && rest == input[r.value.1..]
  {
    hide ReadString, Skip;
    var pos := SkipSpaces(input, start);
    ghost var s1 := input[pos..];
    var key := ParseString(input, pos);
    if key.None? {
      return None;
    }
    assert s1[ReadString(s1).value.1..] == input[key.value.1..];
    pos := SkipSpaces(input, key.value.1);
    if pos >= |input| || input[pos] != COLON {
      return None;
    }
    assert input[pos..][1..] == input[pos + 1..];
    pos := SkipSpaces(input, pos + 1);
    ghost var s3 := input[pos..];
    var value := ParseString(input, pos);
    if value.None? {
      return None;
    }
    assert s3[ReadString(s3).value.1..] == input[value.value.1..];
    pos := SkipSpaces(input, value.value.1);
    return Some(((key.value.0, value.value.0), pos));
  }

  lemma FieldUnfold(s: seq<Byte>, found: Object)
    requires s != []
    ensures ReadField(s).None? ==> ReadFields(s, found) == None
    ensures ReadField(s).Some? ==>
      var ((key, value), rest) := ReadField(s).value;
      var more := found[key := value];
      && (rest == [] ==> ReadFields(s, found) == None)
      && (rest != [] && rest[0] == CLOSE ==>
            ReadFields(s, found) == if Skip(rest[1..]) == [] then Some(more) else None)
      && (rest != [] && rest[0] != CLOSE && rest[0] != COMMA ==> ReadFields(s, found) == None)
      && (rest != [] && rest[0] == COMMA ==> ReadFields(s, found) == ReadFields(rest[1..], more))
  {
    hide ReadField, Skip;
  }

  // ---------- Round trip ----------

  /** One printed byte is read back as itself. */
  lemma CharRoundTrip(c: Byte, tail: seq<Byte>, done: seq<Byte>)
    ensures ReadChars(EscapeByte(c) + tail, done) ==
      match ReadChars(tail, done + [c])
      case None => None
      case Some((v, n)) => Some((v, |EscapeByte(c)| + n))
  {
    var data := EscapeByte(c) + tail;
    assert data[|EscapeByte(c)|..] == tail;
  }

  /** Reading back an escaped string, whatever its bytes and whatever follows the closing quote. */
  lemma {:induction false} CharsRoundTrip(s: seq<Byte>, done: seq<Byte>, rest: seq<Byte>)
    ensures ReadChars(Escape(s) + [QUOTE] + rest, done) == Some((done + s, |Escape(s)| + 1))
  {
    if s == [] {
      var data := Escape(s) + [QUOTE] + rest;
      assert data[0] == QUOTE && done + s == done;
    } else {
      hide ReadChars, EscapeByte;
      var e, tail := EscapeByte(s[0]), Escape(s[1..]) + [QUOTE] + rest;
      CharRoundTrip(s[0], tail, done);
      CharsRoundTrip(s[1..], done + [s[0]], rest);
      Regroup(e, Escape(s[1..]), [QUOTE], rest);
      Associate(done, [s[0]], s[1..]);
      assert [s[0]] + s[1..] == s;
    }
  }

  lemma StringRoundTrip(s: seq<Byte>, rest: seq<Byte>)
    ensures ReadString(Quote(s) + rest) == Some((s, |Quote(s)|))
  {
    CharsRoundTrip(s, [], rest);
    hide Escape, ReadChars;
    assert (Quote(s) + rest)[1..] == Escape(s) + [QUOTE] + rest;
    assert [] + s == s;
  }

  lemma NoSpace(s: seq<Byte>)
    requires s == [] || !IsSpace(s[0])
    ensures Skip(s) == s
  {
  }

  lemma FieldRoundTrip(pair: Pair, rest: seq<Byte>)
    requires rest == [] || !IsSpace(rest[0])
    ensures ReadField(MakeField(pair.0, pair.1) + rest) == Some((pair, rest))
  {
    var key, value := Quote(pair.0), Quote(pair.1);
    var s1 := MakeField(pair.0, pair.1) + rest;
    var s2 := [COLON] + value + rest;
    hide Escape, ReadString, Skip;
    assert s1 == key + s2;
    StringRoundTrip(pair.0, s2);
    StringRoundTrip(pair.1, rest);
    NoSpace(s1);
    NoSpace(s2);
    NoSpace(value + rest);
    NoSpace(rest);
    assert s1[|key|..] == s2 && s2[1..] == value + rest && (value + rest)[|value|..] == rest;
  }

  /** The map of a list of pairs: the last value of a key wins. */
  function MapOf(pairs: seq<Pair>, m: Object): Object {
    if pairs == [] then m else MapOf(pairs[1..], m[pairs[0].0 := pairs[0].1])
  }

  /** What "the last wins" means, without `MapOf`'s recursion. */
  lemma {:induction false} MapOfLast(pairs: seq<Pair>, m: Object, key: seq<Byte>)
    ensures key in MapOf(pairs, m) <==> key in m || exists i :: 0 <= i < |pairs| && pairs[i].0 == key
    ensures key in MapOf(pairs, m) ==>
      || (key in m && MapOf(pairs, m)[key] == m[key] && forall i :: 0 <= i < |pairs| ==> pairs[i].0 != key)
      || (exists i :: 0 <= i < |pairs| && pairs[i] == (key, MapOf(pairs, m)[key])
                      && forall j :: i < j < |pairs| ==> pairs[j].0 != key)
  {
    if pairs != [] {
      var m', tail := m[pairs[0].0 := pairs[0].1], pairs[1..];
      assert forall i :: 1 <= i < |pairs| ==> pairs[i] == tail[i - 1];
      MapOfLast(tail, m', key);
      if i :| 0 <= i < |tail| && tail[i].0 == key {
        assert pairs[i + 1].0 == key;
        var k :| 0 <= k < |tail| && tail[k] == (key, MapOf(tail, m')[key])
          && forall j :: k < j < |tail| ==> tail[j].0 != key;
        assert pairs[k + 1] == (key, MapOf(pairs, m)[key]);
        assert forall j :: k + 1 < j < |pairs| ==> pairs[j].0 != key;
      } else if pairs[0].0 == key {
        assert pairs[0] == (key, MapOf(pairs, m)[key]);
      }
    }
  }

  lemma {:induction false} FieldsRoundTrip(pairs: seq<Pair>, found: Object)
    requires pairs != []
    ensures ReadFields(Join(pairs) + [CLOSE], found) == Some(MapOf(pairs, found))
    decreases |pairs|
  {
    hide MakeField, ReadField, ReadFields, Skip, Join;
    var data := Join(pairs) + [CLOSE];
    var field, tail := MakeField(pairs[0].0, pairs[0].1), Join(pairs[1..]) + [CLOSE];
    var more := found[pairs[0].0 := pairs[0].1];
    FieldStarts(pairs[0]);
    JoinStep(pairs);
    if |pairs| == 1 {
      FieldRoundTrip(pairs[0], [CLOSE]);
      FieldUnfold(data, found);
      NoSpace([]);
      assert [CLOSE][1..] == [];
      assert MapOf(pairs, found) == more;
    } else {
      FieldRoundTrip(pairs[0], [COMMA] + tail);
      FieldUnfold(data, found);
      assert ([COMMA] + tail)[1..] == tail;
      FieldsRoundTrip(pairs[1..], more);
    }
  }

  lemma JoinStep(pairs: seq<Pair>)
    requires pairs != []
    ensures Join(pairs) + [CLOSE] == MakeField(pairs[0].0, pairs[0].1)
      + if |pairs| == 1 then [CLOSE] else [COMMA] + (Join(pairs[1..]) + [CLOSE])
  {
    hide MakeField;
  }

  lemma FieldStarts(pair: Pair)
    ensures MakeField(pair.0, pair.1) != [] && MakeField(pair.0, pair.1)[0] == QUOTE
  {
  }

  /** Any bytes in keys and values, any number of fields, any repetitions. */
  lemma ObjectRoundTrip(pairs: seq<Pair>)
    ensures ReadObject(Braced(pairs)) == Some(MapOf(pairs, map[]))
  {
    hide Join, ReadFields, Skip;
    var data := Braced(pairs);
    NoSpace(data);
    var body := Join(pairs) + [CLOSE];
    assert data[1..] == body;
    NoSpace([]);
    if pairs == [] {
      JoinStarts(pairs);
      assert body == [CLOSE] && [CLOSE][1..] == [];
      NoSpace(body);
    } else {
      JoinStarts(pairs);
      NoSpace(body);
      FieldsRoundTrip(pairs, map[]);
    }
  }

  lemma JoinStarts(pairs: seq<Pair>)
    ensures pairs == [] ==> Join(pairs) == []
    ensures pairs != [] ==> Join(pairs) != [] && Join(pairs)[0] == QUOTE
  {
    if pairs != [] {
      hide MakeField;
      FieldStarts(pairs[0]);
    }
  }
}
