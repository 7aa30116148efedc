/**
 The incremental HTTP request parser (http/HttpContext.cc, http/HttpRequest.h), branch by branch as
 functions of the context and the unread bytes.
 */
module Http {
  import opened Bytes
  import opened Buffers
  import opened OrderedMaps

  datatype Method = Invalid | Get | Post | Head | Put | Delete
  datatype Version = Unknown | Http10 | Http11
  datatype State = ExpectRequestLine | ExpectHeaders | ExpectBody | GotAll

  type Headers = Entries<seq<Byte>>

  datatype Request = Request(
    method_: Method,
    version: Version,
    path: seq<Byte>,
    query: seq<Byte>,
    body: seq<Byte>,
    receiveTime: int,
    headers: Headers)

  const EMPTY := Request(Invalid, Unknown, [], [], [], 0, [])

  datatype Context = Context(state: State, request: Request, contentLength: U64)

  const INITIAL := Context(ExpectRequestLine, EMPTY, 0)

  const SPACE: Byte := 32
  const COLON: Byte := 58
  const QUESTION: Byte := 63
  const CRLF: seq<Byte> := [CR, LF]
  /** "HTTP/1." */
  const HTTP1: seq<Byte> := [72, 84, 84, 80, 47, 49, 46]

  function MethodName(m: Method): seq<Byte> {
    match m
    case Get => [71, 69, 84]
    case Post => [80, 79, 83, 84]
    case Head => [72, 69, 65, 68]
    case Put => [80, 85, 84]
    case Delete => [68, 69, 76, 69, 84, 69]
    case Invalid => []
  }

  /** `setMethod`: `Invalid` when the name is not one of the five. */
  function MethodOf(name: seq<Byte>): Method {
    if name == MethodName(Get) then Get
    else if name == MethodName(Post) then Post
    else if name == MethodName(Head) then Head
    else if name == MethodName(Put) then Put
    else if name == MethodName(Delete) then Delete
    else Invalid
  }

  lemma MethodOfName(m: Method)
    requires m != Invalid
    ensures MethodOf(MethodName(m)) == m
  {
    match m
    case Get => assert |MethodName(m)| == 3;
    case Put => assert MethodName(m)[0] != MethodName(Get)[0];
    case Post => assert MethodName(m)[0] != MethodName(Head)[0];
    case Head =>
    case Delete =>
  }

  /** The method that a caller of `setMethod` finds: the one of that name, if there is one. */
  lemma MethodIs(name: seq<Byte>, m: Method)
    requires m != Invalid ==> name == MethodName(m)
    requires m == Invalid ==> forall n :: n != Invalid ==> name != MethodName(n)
    ensures MethodOf(name) == m
  {
    if m != Invalid {
      MethodOfName(m);
    }
  }

  function VersionOf(text: seq<Byte>): Version {
    if |text| == 8 && text[..7] == HTTP1 && text[7] == 49 then Http11
    else if |text| == 8 && text[..7] == HTTP1 && text[7] == 48 then Http10
    else Unknown
  }

  /** `processRequestLine`: fields are set as far as the line is understood, also on failure. */
  function RequestLine(r: Request, line: seq<Byte>): (bool, Request) {
    var space := IndexOf(line, SPACE);
    if space == |line| then (false, r)
    else
      var r1 := r.(method_ := MethodOf(line[..space]));
      var rest := line[space + 1..];
      var end := IndexOf(rest, SPACE);
      if r1.method_ == Invalid || end == |rest| then (false, r1)
      else
        var q := IndexOf(rest[..end], QUESTION);
        var r2 := if q < end then r1.(path := rest[..q], query := rest[q..end]) else r1.(path := rest[..end]);
        var version := VersionOf(rest[end + 1..]);
        if version == Unknown then (false, r2) else (true, r2.(version := version))
  }

  function TrimLeft(s: seq<Byte>): (r: seq<Byte>)
    ensures r == [] || !IsSpace(r[0])
  {
    if s != [] && IsSpace(s[0]) then TrimLeft(s[1..]) else s
  }

  function TrimRight(s: seq<Byte>): (r: seq<Byte>)
    ensures r == [] || !IsSpace(r[|r| - 1])
  {
    if s != [] && IsSpace(s[|s| - 1]) then TrimRight(s[..|s| - 1]) else s
  }

  function Trim(s: seq<Byte>): seq<Byte> {
    TrimRight(TrimLeft(s))
  }

  /** `addHeader`, for a line with a colon at `colon`. */
  function HeaderLine(h: Headers, line: seq<Byte>, colon: nat): Headers
    requires colon < |line|
  {
    Insert(h, line[..colon], Trim(line[colon + 1..]), true)
  }

  function Lower(c: Byte): Byte {
    if 65 <= c <= 90 then c + 32 else c
  }

  /** "content-length" */
  const CONTENT_LENGTH: seq<Byte> := [99, 111, 110, 116, 101, 110, 116, 45, 108, 101, 110, 103, 116, 104]

  predicate SameName(a: seq<Byte>, lower: seq<Byte>) {
    |a| == |lower| && forall i :: 0 <= i < |a| ==> Lower(a[i]) == lower[i]
  }

  predicate Digit(c: Byte) {
    48 <= c <= 57
  }

  /** The value of a string of digits read from the left, starting with `acc`. */
  function Digits(s: seq<Byte>, acc: nat): Option<nat> {
    if s == [] then Some(acc)
    else if !Digit(s[0]) then None
    else Digits(s[1..], acc * 10 + (s[0] as int - 48))
  }

  /** `std::from_chars` for `size_t`, all of the text used and no overflow. */
  function ParseLength(text: seq<Byte>): Option<U64> {
    match Digits(text, 0)
    case None => None
    case Some(n) => if text == [] || n >= 0x1_0000_0000_0000_0000 then None else Some(n)
  }

  /** `parseContentLength`: the first header with that name in key order, zero without one. */
  function LengthOf(h: Headers): Option<U64> {
    if h == [] then Some(0)
    else if SameName(h[0].key, CONTENT_LENGTH) then ParseLength(Trim(h[0].value))
    else LengthOf(h[1..])
  }

  datatype Outcome = Outcome(ok: bool, context: Context, rest: seq<Byte>)

  function Rank(s: State): nat {
    if s == GotAll then 0 else 1
  }

  /** `parseRequest`. */
  function Parse(c: Context, data: seq<Byte>, time: int): Outcome
    decreases |data|, Rank(c.state)
  {
    match c.state
    case ExpectRequestLine =>
      (match FirstCrlf(data)
       case None => Outcome(true, c, data)
       case Some(n) =>
         var (ok, r) := RequestLine(c.request, data[..n]);
         if ok then Parse(Context(ExpectHeaders, r.(receiveTime := time), c.contentLength), data[n + 2..], time)
         else Outcome(false, c.(request := r), data))
    case ExpectHeaders =>
      (match FirstCrlf(data)
       case None => Outcome(true, c, data)
       case Some(n) =>
         var line, rest := data[..n], data[n + 2..];
         var colon := IndexOf(line, COLON);
         if colon < n then
           Parse(c.(request := c.request.(headers := HeaderLine(c.request.headers, line, colon))), rest, time)
         else
           match LengthOf(c.request.headers)
           case None => Outcome(false, c.(contentLength := 0), data)
           case Some(length) =>
             if length > 0 then Parse(c.(state := ExpectBody, contentLength := length), rest, time)
             else Outcome(true, c.(state := GotAll, contentLength := 0), rest))
    case ExpectBody =>
      if |data| >= c.contentLength then
        var r := c.request.(body := data[..c.contentLength]);
        Outcome(true, c.(state := GotAll, request := r), data[c.contentLength..])
      else Outcome(true, c, data)
    case GotAll => Outcome(true, c, data)
  }

  lemma StepRequestLine(c: Context, data: seq<Byte>, n: nat, time: int)
    requires c.state == ExpectRequestLine && FirstCrlf(data) == Some(n)
    ensures var (ok, r) := RequestLine(c.request, data[..n]);
      Parse(c, data, time) ==
        if ok then Parse(Context(ExpectHeaders, r.(receiveTime := time), c.contentLength), data[n + 2..], time)
        else Outcome(false, c.(request := r), data)
  {
    hide RequestLine, FirstCrlf;
  }

  /** The context after a header line with a colon. */
  function WithHeader(c: Context, line: seq<Byte>): Context
    requires IndexOf(line, COLON) < |line|
  {
    c.(request := c.request.(headers := HeaderLine(c.request.headers, line, IndexOf(line, COLON))))
  }

  lemma StepHeader(c: Context, data: seq<Byte>, n: nat, time: int)
    requires c.state == ExpectHeaders && FirstCrlf(data) == Some(n) && IndexOf(data[..n], COLON) < n
    ensures Parse(c, data, time) == Parse(WithHeader(c, data[..n]), data[n + 2..], time)
  {
    hide FirstCrlf, IndexOf, HeaderLine;
  }

  lemma StepEmptyLine(c: Context, data: seq<Byte>, n: nat, time: int)
    requires c.state == ExpectHeaders && FirstCrlf(data) == Some(n) && IndexOf(data[..n], COLON) == n
    ensures Parse(c, data, time) ==
      match LengthOf(c.request.headers)
      case None => Outcome(false, c.(contentLength := 0), data)
      case Some(length) =>
        if length > 0 then Parse(c.(state := ExpectBody, contentLength := length), data[n + 2..], time)
        else Outcome(true, c.(state := GotAll, contentLength := 0), data[n + 2..])
  {
    hide FirstCrlf, IndexOf, LengthOf;
  }

  lemma StepWait(c: Context, data: seq<Byte>, time: int)
    requires c.state == ExpectRequestLine || c.state == ExpectHeaders
    requires FirstCrlf(data) == None
    ensures Parse(c, data, time) == Outcome(true, c, data)
  {
    hide FirstCrlf;
  }

  lemma StepBody(c: Context, data: seq<Byte>, time: int)
    requires c.state == ExpectBody || c.state == GotAll
    ensures Parse(c, data, time) ==
      if c.state == ExpectBody && |data| >= c.contentLength
      then Outcome(true, c.(state := GotAll, request := c.request.(body := data[..c.contentLength])),
                   data[c.contentLength..])
      else Outcome(true, c, data)
  {
  }

  // ---------- Segmentation ----------

  /** A failed request line that is tried again fails in the same way. */
  lemma RequestLineAgain(r: Request, line: seq<Byte>)
    requires !RequestLine(r, line).0
    ensures RequestLine(RequestLine(r, line).1, line) == (false, RequestLine(r, line).1)
  {
    hide MethodOf, VersionOf, IndexOf;
  }

  /** Parsing what has arrived and then the rest, also after a rejection, is parsing all at once. */
  lemma {:induction false} ParseSplit(c: Context, a: seq<Byte>, b: seq<Byte>, time: int)
    ensures var p := Parse(c, a, time);
      Parse(c, a + b, time) == Parse(p.context, p.rest + b, time)
    decreases |a|, Rank(c.state)
  {
    hide RequestLine, HeaderLine, LengthOf, IndexOf, Parse, FirstCrlf, WithHeader;
    if c.state == ExpectBody || c.state == GotAll {
      StepBody(c, a, time);
      StepBody(c, a + b, time);
      if c.state == ExpectBody && |a| >= c.contentLength {
        var done := c.(state := GotAll, request := c.request.(body := a[..c.contentLength]));
        StepBody(done, a[c.contentLength..] + b, time);
        assert (a + b)[..c.contentLength] == a[..c.contentLength];
        assert (a + b)[c.contentLength..] == a[c.contentLength..] + b;
      }
    } else if FirstCrlf(a).None? {
      StepWait(c, a, time);
    } else {
      FirstCrlfExtend(a, b);
      var n := FirstCrlf(a).value;
      assert n + 2 <= |a|;
      var line, rest := a[..n], a[n + 2..];
      assert (a + b)[..n] == line && (a + b)[n + 2..] == rest + b;
      if c.state == ExpectRequestLine {
        StepRequestLine(c, a, n, time);
        StepRequestLine(c, a + b, n, time);
        var (ok, r) := RequestLine(c.request, line);
        if ok {
          ParseSplit(Context(ExpectHeaders, r.(receiveTime := time), c.contentLength), rest, b, time);
        } else {
          RequestLineAgain(c.request, line);
          StepRequestLine(c.(request := r), a + b, n, time);
        }
      } else if IndexOf(line, COLON) < n {
        StepHeader(c, a, n, time);
        StepHeader(c, a + b, n, time);
        WithHeaderState(c, line);
        ParseSplit(WithHeader(c, line), rest, b, time);
      } else {
        EmptyLineSplit(c, a, b, n, time);
      }
    }
  }

  lemma WithHeaderState(c: Context, line: seq<Byte>)
    requires IndexOf(line, COLON) < |line|
    ensures WithHeader(c, line).state == c.state
  {
  }

  /** The line that ends the headers has arrived. */
  lemma EmptyLineSplit(c: Context, a: seq<Byte>, b: seq<Byte>, n: nat, time: int)
    requires c.state == ExpectHeaders && FirstCrlf(a) == Some(n) && FirstCrlf(a + b) == Some(n)
    requires n + 2 <= |a| && IndexOf(a[..n], COLON) == n
    ensures var p := Parse(c, a, time);
      Parse(c, a + b, time) == Parse(p.context, p.rest + b, time)
    decreases |a|, 0
  {
    hide LengthOf, IndexOf, Parse, FirstCrlf;
    var rest := a[n + 2..];
    assert (a + b)[..n] == a[..n] && (a + b)[n + 2..] == rest + b;
    StepEmptyLine(c, a, n, time);
    StepEmptyLine(c, a + b, n, time);
    match LengthOf(c.request.headers)
    case None =>
      StepEmptyLine(c.(contentLength := 0), a + b, n, time);
    case Some(length) =>
      if length > 0 {
        ParseSplit(c.(state := ExpectBody, contentLength := length), rest, b, time);
      } else {
        StepBody(c.(state := GotAll, contentLength := 0), rest + b, time);
      }
  }

  function Timeless(c: Context): Context {
    c.(request := c.request.(receiveTime := 0))
  }

  /** The clock reaches nothing but the receive time. */
  lemma {:induction false} ParseTimeless(c: Context, data: seq<Byte>, time: int)
    ensures var p, q := Parse(c, data, time), Parse(Timeless(c), data, 0);
      p.ok == q.ok && p.rest == q.rest && Timeless(p.context) == q.context
    decreases |data|, Rank(c.state)
  {
    hide RequestLine, HeaderLine, LengthOf, IndexOf, Parse, FirstCrlf;
    var d := Timeless(c);
    if c.state == ExpectBody || c.state == GotAll {
      StepBody(c, data, time);
      StepBody(d, data, 0);
    } else if FirstCrlf(data).None? {
      StepWait(c, data, time);
      StepWait(d, data, 0);
    } else {
      var n := FirstCrlf(data).value;
      assert n + 2 <= |data|;
      var line, rest := data[..n], data[n + 2..];
      if c.state == ExpectRequestLine {
        StepRequestLine(c, data, n, time);
        StepRequestLine(d, data, n, 0);
        RequestLineTimeless(c.request, line);
        var (ok, r) := RequestLine(c.request, line);
        if ok {
          ParseTimeless(Context(ExpectHeaders, r.(receiveTime := time), c.contentLength), rest, time);
        }
      } else if IndexOf(line, COLON) < n {
        StepHeader(c, data, n, time);
        StepHeader(d, data, n, 0);
        ParseTimeless(WithHeader(c, line), rest, time);
      } else {
        StepEmptyLine(c, data, n, time);
        StepEmptyLine(d, data, n, 0);
        match LengthOf(c.request.headers)
        case None =>
        case Some(length) =>
          if length > 0 {
            ParseTimeless(c.(state := ExpectBody, contentLength := length), rest, time);
          }
      }
    }
  }

  lemma RequestLineTimeless(r: Request, line: seq<Byte>)
    ensures var p, q := RequestLine(r, line), RequestLine(r.(receiveTime := 0), line);
      p.0 == q.0 && p.1.(receiveTime := 0) == q.1
  {
    hide MethodOf, VersionOf, IndexOf;
  }

  /** The parser over a run: each delivery is appended, then `parseRequest` is called. */
  function ParseRun(c: Context, buffer: seq<Byte>, ds: seq<(seq<Byte>, int)>): Outcome
    decreases |ds|
  {
    if ds == [] then Outcome(true, c, buffer)
    else
      var p := Parse(c, buffer + ds[0].0, ds[0].1);
      if |ds| == 1 then p else ParseRun(p.context, p.rest, ds[1..])
  }

  function Joined(ds: seq<(seq<Byte>, int)>): seq<Byte> {
    if ds == [] then [] else ds[0].0 + Joined(ds[1..])
  }

  lemma {:induction false} RunIsOneParse(c: Context, buffer: seq<Byte>, ds: seq<(seq<Byte>, int)>)
    requires ds != []
    ensures var p, q := ParseRun(c, buffer, ds), Parse(Timeless(c), buffer + Joined(ds), 0);
      p.ok == q.ok && p.rest == q.rest && Timeless(p.context) == q.context
    decreases |ds|
  {
    hide Parse;
    var data := buffer + ds[0].0;
    ParseTimeless(c, data, ds[0].1);
    var p := Parse(c, data, ds[0].1);
    if |ds| == 1 {
      assert ds[1..] == [];
      JoinedOne(ds, buffer);
    } else {
      RunIsOneParse(p.context, p.rest, ds[1..]);
      ParseSplit(Timeless(c), data, Joined(ds[1..]), 0);
      Associate(buffer, ds[0].0, Joined(ds[1..]));
    }
  }

  lemma JoinedOne(ds: seq<(seq<Byte>, int)>, buffer: seq<Byte>)
    requires |ds| == 1
    ensures buffer + Joined(ds) == buffer + ds[0].0
  {
    assert Joined(ds[1..]) == [];
  }

  /**
   For every byte stream, cut and arrival times: state, request, verdict and leftover bytes are
   those of a single call on the whole stream, in everything but the receive time.
   */
  lemma SegmentationIndependence(ds: seq<(seq<Byte>, int)>, time: int)
    requires ds != []
    ensures var cut, whole := ParseRun(INITIAL, [], ds), Parse(INITIAL, Joined(ds), time);
      && cut.ok == whole.ok
      && cut.rest == whole.rest
      && Timeless(cut.context) == Timeless(whole.context)
  {
    hide Parse, ParseRun;
    RunIsOneParse(INITIAL, [], ds);
    ParseTimeless(INITIAL, Joined(ds), time);
    assert [] + Joined(ds) == Joined(ds);
  }
}
