/** Parsing inverts rendering (RFC 9112, sections 3, 5 and 6). */
module HttpRender {
  import opened Bytes
  import opened Buffers
  import opened OrderedMaps
  import opened Http

  /** A decimal number without leading zeros. */
  function Decimal(n: nat): (r: seq<Byte>)
    ensures |r| > 0 && forall c :: c in r ==> Digit(c)
  {
    if n < 10 then [48 + n] else Decimal(n / 10) + [48 + n % 10]
  }

  function VersionText(v: Version): seq<Byte>
    requires v != Unknown
  {
    HTTP1 + [if v == Http11 then 49 else 48]
  }

  function RenderLine(r: Request): seq<Byte>
    requires r.version != Unknown
  {
    MethodName(r.method_) + [SPACE] + (r.path + r.query + [SPACE] + VersionText(r.version))
  }

  function RenderHeader(e: Entry<seq<Byte>>): seq<Byte> {
    e.key + [COLON] + ([SPACE] + e.value)
  }

  function RenderHeaders(h: Headers): seq<Byte> {
    if h == [] then [] else RenderHeader(h[0]) + CRLF + RenderHeaders(h[1..])
  }

  function Render(r: Request): seq<Byte>
    requires r.version != Unknown
  {
    RenderLine(r) + CRLF + (RenderHeaders(r.headers) + (CRLF + r.body))
  }

  predicate OneLine(s: seq<Byte>) {
    forall i :: 0 <= i < |s| ==> !CrlfAt(s, i)
  }

  /** A name has no colon; a value has no spaces around it; neither breaks the line. */
  predicate GoodHeader(e: Entry<seq<Byte>>) {
    && OneLine(e.key) && COLON !in e.key
    && OneLine(e.value)
    && (e.value != [] ==> !IsSpace(e.value[0]) && !IsSpace(e.value[|e.value| - 1]))
  }

  /** The first header called Content-Length, if any, says how long the body is. */
  predicate GoodLength(h: Headers, body: seq<Byte>) {
    if h == [] then body == []
    else if SameName(h[0].key, CONTENT_LENGTH) then h[0].value == Decimal(|body|)
    else GoodLength(h[1..], body)
  }

  ghost predicate WellFormed(r: Request) {
    && r.method_ != Invalid && r.version != Unknown
    && OneLine(r.path) && SPACE !in r.path && QUESTION !in r.path
    && OneLine(r.query) && SPACE !in r.query && (r.query != [] ==> r.query[0] == QUESTION)
    && Sorted(r.headers) && (forall e :: e in r.headers ==> GoodHeader(e))
    && |r.body| < 0x1_0000_0000_0000_0000
    && GoodLength(r.headers, r.body)
  }

  // ---------- Lines ----------

  lemma OneLineConcat(a: seq<Byte>, b: seq<Byte>)
    requires OneLine(a) && OneLine(b)
    requires a == [] || b == [] || a[|a| - 1] != CR || b[0] != LF
    ensures OneLine(a + b)
  {
    forall i | 0 <= i < |a + b| ensures !CrlfAt(a + b, i) {
      if i + 1 < |a| {
        assert !CrlfAt(a, i);
      } else if i >= |a| {
        assert !CrlfAt(b, i - |a|);
      }
    }
  }

  /** The line ends at the first CR LF behind it. */
  lemma LineEnd(line: seq<Byte>, rest: seq<Byte>)
    requires OneLine(line)
    ensures FirstCrlf(line + CRLF + rest) == Some(|line|)
    ensures (line + CRLF + rest)[..|line|] == line
    ensures (line + CRLF + rest)[|line| + 2..] == rest
  {
    var data := line + CRLF + rest;
    assert CrlfAt(data, |line|);
    forall i | 0 <= i < |line| ensures !CrlfAt(data, i) {
      if i + 1 < |line| {
        assert !CrlfAt(line, i);
      }
    }
  }

  lemma MethodRoundTrip(m: Method)
    requires m != Invalid
    ensures MethodOf(MethodName(m)) == m && SPACE !in MethodName(m) && OneLine(MethodName(m))
  {
    MethodOfName(m);
  }

  lemma VersionRoundTrip(v: Version)
    requires v != Unknown
    ensures VersionOf(VersionText(v)) == v && OneLine(VersionText(v)) && VersionText(v)[0] == 72
  {
    assert VersionText(v)[..7] == HTTP1;
  }

  lemma RequestLineRoundTrip(r: Request, before: Request)
    requires WellFormed(r) && before.query == []
    ensures RequestLine(before, RenderLine(r))
      == (true, before.(method_ := r.method_, path := r.path, query := r.query, version := r.version))
  {
    hide MethodOf, MethodName, VersionOf, VersionText, IndexOf, OneLine, GoodLength, Sorted;
    var name, target, version := MethodName(r.method_), r.path + r.query, VersionText(r.version);
    var line, rest := RenderLine(r), target + [SPACE] + version;
    MethodRoundTrip(r.method_);
    VersionRoundTrip(r.version);
    IndexOfSplit(name, SPACE, rest);
    assert line == name + [SPACE] + rest;
    assert line[..|name|] == name && line[|name| + 1..] == rest;
    IndexOfSplit(target, SPACE, version);
    assert rest[..|target|] == target && rest[|target| + 1..] == version;
    if r.query == [] {
      assert target == r.path;
      IndexOfAbsent(target, QUESTION);
    } else {
      assert target == r.path + [QUESTION] + r.query[1..];
      IndexOfSplit(r.path, QUESTION, r.query[1..]);
      assert rest[..|r.path|] == r.path && rest[|r.path|..|target|] == r.query;
    }
  }

  lemma RequestLineIsOneLine(r: Request)
    requires WellFormed(r)
    ensures OneLine(RenderLine(r))
  {
    var name, version := MethodName(r.method_), VersionText(r.version);
    MethodRoundTrip(r.method_);
    VersionRoundTrip(r.version);
    hide MethodName, VersionText, OneLine;
    assert OneLine([SPACE]) by { SpaceIsOneLine(); }
    OneLineConcat(name, [SPACE]);
    OneLineConcat(r.path, r.query);
    OneLineConcat(r.path + r.query, [SPACE]);
    OneLineConcat(r.path + r.query + [SPACE], version);
    OneLineConcat(name + [SPACE], r.path + r.query + [SPACE] + version);
  }

  lemma SpaceIsOneLine()
    ensures OneLine([SPACE]) && OneLine([COLON])
  {
  }

  // ---------- Headers ----------

  lemma TrimKeeps(v: seq<Byte>)
    requires v != [] ==> !IsSpace(v[0]) && !IsSpace(v[|v| - 1])
    ensures Trim([SPACE] + v) == v && Trim(v) == v
  {
    assert ([SPACE] + v)[1..] == v;
    assert TrimLeft([SPACE] + v) == TrimLeft(v) == v;
  }

  lemma HeaderRoundTrip(e: Entry<seq<Byte>>, h: Headers)
    requires GoodHeader(e)
    ensures var line := RenderHeader(e);
      && OneLine(line)
      && IndexOf(line, COLON) == |e.key|
      && HeaderLine(h, line, |e.key|) == Insert(h, e.key, e.value, true)
  {
    var line := RenderHeader(e);
    IndexOfSplit(e.key, COLON, [SPACE] + e.value);
    assert line[..|e.key|] == e.key && line[|e.key| + 1..] == [SPACE] + e.value;
    TrimKeeps(e.value);
    SpaceIsOneLine();
    hide IndexOf, Trim, Insert;
    OneLineConcat(e.key, [COLON]);
    OneLineConcat([SPACE], e.value);
    OneLineConcat(e.key + [COLON], [SPACE] + e.value);
  }

  /** Header lines are entered one by one, the last of a name winning, up to the empty line. */
  lemma {:induction false} HeadersParse(c: Context, more: Headers, rest: seq<Byte>, time: int)
    requires c.state == ExpectHeaders && forall e :: e in more ==> GoodHeader(e)
    ensures Parse(c, RenderHeaders(more) + (CRLF + rest), time)
      == Parse(c.(request := c.request.(headers := InsertAll(c.request.headers, more, true))), CRLF + rest, time)
    decreases |more|
  {
    if more == [] {
      assert RenderHeaders(more) + (CRLF + rest) == CRLF + rest;
    } else {
      hide RenderHeaders, RenderHeader, IndexOf, HeaderLine, Insert, FirstCrlf, GoodHeader, Parse, OneLine;
      var e := more[0];
      var tail := RenderHeaders(more[1..]) + (CRLF + rest);
      HeaderRoundTrip(e, c.request.headers);
      LineEnd(RenderHeader(e), tail);
      RenderHeadersStep(more, CRLF + rest);
      HeaderShorter(e);
      StepHeader(c, RenderHeader(e) + CRLF + tail, |RenderHeader(e)|, time);
      HeadersParse(c.(request := c.request.(headers := Insert(c.request.headers, e.key, e.value, true))),
                   more[1..], rest, time);
    }
  }

  lemma RenderHeadersStep(more: Headers, rest: seq<Byte>)
    requires more != []
    ensures RenderHeaders(more) + rest == RenderHeader(more[0]) + CRLF + (RenderHeaders(more[1..]) + rest)
  {
    hide RenderHeader;
  }

  lemma HeaderShorter(e: Entry<seq<Byte>>)
    ensures |e.key| < |RenderHeader(e)|
  {
  }

  // ---------- Body ----------

  lemma {:induction false} DigitsAppend(a: seq<Byte>, b: seq<Byte>, acc: nat)
    requires Digits(a, acc).Some?
    ensures Digits(a + b, acc) == Digits(b, Digits(a, acc).value)
    decreases |a|
  {
    if a == [] {
      assert a + b == b;
    } else {
      assert (a + b)[0] == a[0] && (a + b)[1..] == a[1..] + b;
      DigitsAppend(a[1..], b, acc * 10 + (a[0] as int - 48));
    }
  }

  lemma {:induction false} DecimalParses(n: nat)
    ensures Digits(Decimal(n), 0) == Some(n)
  {
    if n >= 10 {
      DecimalParses(n / 10);
      var last: seq<Byte> := [48 + n % 10];
      DigitsAppend(Decimal(n / 10), last, 0);
      assert last[1..] == [];
    } else {
      var only: seq<Byte> := [48 + n];
      assert only[1..] == [];
    }
  }

  lemma {:induction false} LengthIsRight(h: Headers, body: seq<Byte>)
    requires GoodLength(h, body) && |body| < 0x1_0000_0000_0000_0000
    ensures LengthOf(h) == Some(|body|)
  {
    if h != [] {
      if SameName(h[0].key, CONTENT_LENGTH) {
        DecimalParses(|body|);
        var v := h[0].value;
        assert v[0] in v && v[|v| - 1] in v;
        TrimKeeps(v);
      } else {
        LengthIsRight(h[1..], body);
      }
    }
  }

  lemma EmptyLine(rest: seq<Byte>)
    ensures FirstCrlf(CRLF + rest) == Some(0)
    ensures (CRLF + rest)[..0] == [] && (CRLF + rest)[2..] == rest
    ensures IndexOf([], COLON) == 0
  {
    assert CrlfAt(CRLF + rest, 0);
  }

  lemma BodyParses(r: Request, c: Context, extra: seq<Byte>, time: int)
    requires c.state == ExpectHeaders && c.request.body == [] && |r.body| < 0x1_0000_0000_0000_0000
    requires LengthOf(c.request.headers) == Some(|r.body|)
    ensures Parse(c, CRLF + (r.body + extra), time)
      == Outcome(true, Context(GotAll, c.request.(body := r.body), |r.body|), extra)
  {
    hide FirstCrlf, IndexOf, LengthOf, Parse;
    EmptyLine(r.body + extra);
    StepEmptyLine(c, CRLF + (r.body + extra), 0, time);
    StepBody(c.(state := ExpectBody, contentLength := |r.body|), r.body + extra, time);
    assert (r.body + extra)[..|r.body|] == r.body && (r.body + extra)[|r.body|..] == extra;
    if |r.body| == 0 {
      assert r.body + extra == extra;
    }
  }

  lemma RenderParts(r: Request, extra: seq<Byte>)
    requires r.version != Unknown
    ensures Render(r) + extra == RenderLine(r) + CRLF + (RenderHeaders(r.headers) + (CRLF + (r.body + extra)))
  {
    hide RenderLine, RenderHeaders;
  }

  /** The request after its first line. */
  function Started(r: Request, time: int): Request {
    EMPTY.(method_ := r.method_, path := r.path, query := r.query, version := r.version, receiveTime := time)
  }

  lemma LineParses(r: Request, tail: seq<Byte>, time: int)
    requires WellFormed(r)
    ensures Parse(INITIAL, RenderLine(r) + CRLF + tail, time)
      == Parse(Context(ExpectHeaders, Started(r, time), 0), tail, time)
  {
    RequestLineIsOneLine(r);
    RequestLineRoundTrip(r, EMPTY);
    LineEnd(RenderLine(r), tail);
    hide RenderLine, RequestLine, FirstCrlf, OneLine, WellFormed, Parse;
    StepRequestLine(INITIAL, RenderLine(r) + CRLF + tail, |RenderLine(r)|, time);
  }

  lemma AllHeadersParse(r: Request, rest: seq<Byte>, time: int)
    requires WellFormed(r)
    ensures Parse(Context(ExpectHeaders, Started(r, time), 0), RenderHeaders(r.headers) + (CRLF + rest), time)
      == Parse(Context(ExpectHeaders, Started(r, time).(headers := r.headers), 0), CRLF + rest, time)
  {
    InsertAllAppends([], r.headers, true);
    hide InsertAll, RenderHeaders, GoodHeader, Sorted, GoodLength, Parse, OneLine;
    HeadersParse(Context(ExpectHeaders, Started(r, time), 0), r.headers, rest, time);
    assert [] + r.headers == r.headers;
  }

  /** A rendered request followed by any bytes is recovered and leaves exactly those bytes. */
  lemma ParseInvertsRender(r: Request, extra: seq<Byte>, time: int)
    requires WellFormed(r)
    ensures Parse(INITIAL, Render(r) + extra, time)
      == Outcome(true, Context(GotAll, r.(receiveTime := time), |r.body|), extra)
  {
    LengthIsRight(r.headers, r.body);
    RenderParts(r, extra);
    LineParses(r, RenderHeaders(r.headers) + (CRLF + (r.body + extra)), time);
    AllHeadersParse(r, r.body + extra, time);
    hide Render, RenderLine, RenderHeaders, LengthOf, GoodHeader, OneLine, Sorted, GoodLength, Parse;
    BodyParses(r, Context(ExpectHeaders, Started(r, time).(headers := r.headers), 0), extra, time);
  }
}
