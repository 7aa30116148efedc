/** Which byte streams the HTTP parser accepts, rejects or goes on waiting for (http/HttpContext.cc). */
module HttpAccept {
  import opened Bytes
  import opened Buffers
  import opened OrderedMaps
  import opened Http
  import opened HttpRender

  // ---------- The request line ----------

  function NameOf(m: Method): seq<Byte>
    requires m != Invalid
  {
    match m
    case Get => Ascii("GET")
    case Post => Ascii("POST")
    case Head => Ascii("HEAD")
    case Put => Ascii("PUT")
    case Delete => Ascii("DELETE")
  }

  function VersionName(v: Version): seq<Byte>
    requires v != Unknown
  {
    if v == Http10 then Ascii("HTTP/1.0") else Ascii("HTTP/1.1")
  }

  /** The words of a request line: a method, the target up to its first question mark, the rest, a version. */
  datatype Words = Words(m: Method, path: seq<Byte>, query: seq<Byte>, v: Version) {
    predicate Valid() {
      && m != Invalid && v != Unknown
      && 32 !in path && 63 !in path && 32 !in query && (query != [] ==> query[0] == 63)
    }

    function Text(): seq<Byte>
      requires Valid()
    {
      NameOf(m) + ([32] + (path + query + ([32] + VersionName(v))))
    }

    /** The request after this line; without a question mark the query stays what it was. */
    function Set(r: Request): Request {
      r.(method_ := m, path := path, query := if query == [] then r.query else query, version := v)
    }
  }

  lemma MethodIsNamed(name: seq<Byte>, m: Method)
    ensures m != Invalid ==> (MethodOf(name) == m <==> name == NameOf(m))
    ensures MethodOf(name) == Invalid <==> forall n :: n != Invalid ==> name != NameOf(n)
  {
    assert forall n :: n != Invalid ==> NameOf(n) == MethodName(n);
    if n :| n != Invalid && name == NameOf(n) {
      MethodOfName(n);
    }
    if m != Invalid {
      MethodOfName(m);
    }
  }

  lemma VersionIsNamed(text: seq<Byte>)
    ensures VersionOf(text) == Http10 <==> text == Ascii("HTTP/1.0")
    ensures VersionOf(text) == Http11 <==> text == Ascii("HTTP/1.1")
  {
    var a, b := Ascii("HTTP/1.0"), Ascii("HTTP/1.1");
    assert a[..7] == b[..7] == HTTP1;
    if |text| == 8 {
      assert text == text[..7] + [text[7]];
      assert a == a[..7] + [a[7]] && b == b[..7] + [b[7]];
    }
  }

  lemma NamesHaveNoSpace(m: Method)
    requires m != Invalid
    ensures 32 !in NameOf(m)
  {
  }

  /** What a line of three words is made into. */
  function Processed(r: Request, name: seq<Byte>, target: seq<Byte>, text: seq<Byte>): (bool, Request) {
    var r1 := r.(method_ := MethodOf(name));
    if r1.method_ == Invalid then (false, r1)
    else
      var q := IndexOf(target, QUESTION);
      var r2 := r1.(path := target[..q], query := if q < |target| then target[q..] else r.query);
      if VersionOf(text) == Unknown then (false, r2) else (true, r2.(version := VersionOf(text)))
  }

  lemma ThreeWords(r: Request, name: seq<Byte>, target: seq<Byte>, text: seq<Byte>)
    requires 32 !in name && 32 !in target
    ensures RequestLine(r, name + ([32] + (target + ([32] + text)))) == Processed(r, name, target, text)
  {
    hide MethodOf, VersionOf, IndexOf;
    var line, rest := name + [SPACE] + (target + [SPACE] + text), target + [SPACE] + text;
    assert line == name + ([32] + (target + ([32] + text)));
    IndexOfSplit(name, SPACE, rest);
    assert line[..|name|] == name && line[|name| + 1..] == rest;
    IndexOfSplit(target, SPACE, text);
    assert rest[..|target|] == target && rest[|target| + 1..] == text;
    var q := IndexOf(target, QUESTION);
    assert target[..|target|] == target && rest[..q] == target[..q] && rest[q..|target|] == target[q..];
  }

  lemma FirstQuestion(path: seq<Byte>, query: seq<Byte>)
    requires 63 !in path && (query != [] ==> query[0] == 63)
    ensures IndexOf(path + query, QUESTION) == |path|
  {
    if query == [] {
      assert path + query == path;
      IndexOfAbsent(path, QUESTION);
    } else {
      assert path + query == path + [QUESTION] + query[1..];
      IndexOfSplit(path, QUESTION, query[1..]);
    }
  }

  lemma WordsAreTaken(w: Words, r: Request)
    requires w.Valid()
    ensures RequestLine(r, w.Text()) == (true, w.Set(r))
  {
    hide MethodOf, NameOf, VersionOf, VersionName, IndexOf, RequestLine;
    MethodIsNamed(NameOf(w.m), w.m);
    VersionIsNamed(VersionName(w.v));
    VersionNames(w.v);
    NamesHaveNoSpace(w.m);
    FirstQuestion(w.path, w.query);
    ThreeWords(r, NameOf(w.m), w.path + w.query, VersionName(w.v));
  }

  lemma VersionNames(v: Version)
    requires v != Unknown
    ensures VersionName(v) == if v == Http10 then Ascii("HTTP/1.0") else Ascii("HTTP/1.1")
  {
  }

  /** Lines that are taken have three words. */
  lemma TakenHasWords(line: seq<Byte>, r: Request) returns (name: seq<Byte>, target: seq<Byte>, text: seq<Byte>)
    requires RequestLine(r, line).0
    ensures 32 !in name && 32 !in target && line == name + ([32] + (target + ([32] + text)))
  {
    hide MethodOf, VersionOf, IndexOf;
    var space := IndexOf(line, SPACE);
    var rest := line[space + 1..];
    var end := IndexOf(rest, SPACE);
    name, target, text := line[..space], rest[..end], rest[end + 1..];
    assert rest == target + ([32] + text);
  }

  lemma TakenIsWords(line: seq<Byte>, r: Request) returns (w: Words)
    requires RequestLine(r, line).0
    ensures w.Valid() && line == w.Text()
  {
    hide MethodOf, NameOf, VersionOf, VersionName, IndexOf, RequestLine;
    var name, target, text := TakenHasWords(line, r);
    ThreeWords(r, name, target, text);
    var q := IndexOf(target, QUESTION);
    w := Words(MethodOf(name), target[..q], target[q..], VersionOf(text));
    assert target == w.path + w.query;
    MethodIsNamed(name, w.m);
    VersionIsNamed(text);
    VersionNames(w.v);
    assert w.v == Http10 || w.v == Http11;
  }

  ghost predicate TakenAs(line: seq<Byte>, r: Request, r': Request, w: Words) {
    w.Valid() && line == w.Text() && r' == w.Set(r)
  }

  /**
   A request line is accepted exactly when it is one of the five methods, a space, a target without
   spaces, a space and one of two versions; any other method, such as OPTIONS, is rejected.
   */
  lemma RequestLineIff(line: seq<Byte>, r: Request, r': Request)
    ensures RequestLine(r, line) == (true, r') <==> exists w :: TakenAs(line, r, r', w)
  {
    hide RequestLine, Words.Valid, Words.Text, Words.Set;
    if RequestLine(r, line).0 {
      var w := TakenIsWords(line, r);
      WordsAreTaken(w, r);
      assert TakenAs(line, r, w.Set(r), w);
    }
    forall w | TakenAs(line, r, r', w) ensures RequestLine(r, line) == (true, r') {
      WordsAreTaken(w, r);
    }
  }

  // ---------- Numbers ----------

  /** The value of a decimal number, by its last digit. */
  function Value(s: seq<Byte>): int {
    if s == [] then 0 else Value(s[..|s| - 1]) * 10 + (s[|s| - 1] as int - 48)
  }

  predicate AllDigits(s: seq<Byte>) {
    forall i :: 0 <= i < |s| ==> 48 <= s[i] <= 57
  }

  lemma {:induction false} DigitsValue(s: seq<Byte>)
    ensures Digits(s, 0) == if AllDigits(s) then Some(Value(s)) else None
    ensures AllDigits(s) ==> Value(s) >= 0
  {
    if s != [] {
      var a, b := s[..|s| - 1], s[|s| - 1..];
      DigitsValue(a);
      assert s == a + b && b[1..] == [];
      if AllDigits(a) {
        DigitsAppend(a, b, 0);
      } else {
        DigitsFail(a, b, 0);
      }
    }
  }

  lemma {:induction false} DigitsFail(a: seq<Byte>, b: seq<Byte>, acc: nat)
    requires Digits(a, acc).None?
    ensures Digits(a + b, acc).None?
    decreases |a|
  {
    assert (a + b)[0] == a[0] && (a + b)[1..] == a[1..] + b;
    if Digit(a[0]) {
      DigitsFail(a[1..], b, acc * 10 + (a[0] as int - 48));
    }
  }

  /** A length is one or more decimal digits, leading zeros allowed, whose value fits 64 bits; nothing else is. */
  lemma LengthTextIff(text: seq<Byte>, n: U64)
    ensures ParseLength(text) == Some(n) <==> text != [] && AllDigits(text) && Value(text) == n
  {
    DigitsValue(text);
    hide Digits;
  }

  // ---------- Header lines ----------

  predicate Blank(s: seq<Byte>) {
    forall i :: 0 <= i < |s| ==> s[i] == 32 || 9 <= s[i] <= 13
  }

  predicate Tight(s: seq<Byte>) {
    s != [] ==> !Blank(s[..1]) && !Blank(s[|s| - 1..])
  }

  /** A line with a colon: the name before the first one, and the value without the blanks around it. */
  predicate IsField(line: seq<Byte>, e: Entry<seq<Byte>>, left: seq<Byte>, right: seq<Byte>) {
    && 58 !in e.key && Blank(left) && Tight(e.value) && Blank(right)
    && line == e.key + ([58] + (left + (e.value + right)))
  }

  ghost predicate Field(line: seq<Byte>, e: Entry<seq<Byte>>) {
    exists left, right :: IsField(line, e, left, right)
  }

  lemma {:induction false} TrimLeftBlank(b: seq<Byte>, s: seq<Byte>)
    requires Blank(b)
    ensures TrimLeft(b + s) == TrimLeft(s)
  {
    if b == [] {
      assert b + s == s;
    } else {
      assert (b + s)[1..] == b[1..] + s;
      TrimLeftBlank(b[1..], s);
    }
  }

  lemma {:induction false} TrimRightBlank(s: seq<Byte>, b: seq<Byte>)
    requires Blank(b)
    ensures TrimRight(s + b) == TrimRight(s)
  {
    if b == [] {
      assert s + b == s;
    } else {
      assert (s + b)[..|s + b| - 1] == s + b[..|b| - 1];
      TrimRightBlank(s, b[..|b| - 1]);
    }
  }

  lemma {:induction false} AllBlank(b: seq<Byte>)
    requires Blank(b)
    ensures TrimLeft(b) == []
  {
    TrimLeftBlank(b, []);
    assert b + [] == b;
  }

  lemma TrimField(left: seq<Byte>, value: seq<Byte>, right: seq<Byte>)
    requires Blank(left) && Tight(value) && Blank(right)
    ensures Trim(left + (value + right)) == value
  {
    TrimLeftBlank(left, value + right);
    if value == [] {
      assert value + right == right;
      AllBlank(right);
    } else {
      assert value[..1][0] == value[0] && value[|value| - 1..][0] == value[|value| - 1];
      assert TrimLeft(value + right) == value + right;
      TrimRightBlank(value, right);
    }
  }

  lemma {:induction false} TrimLeftWritten(s: seq<Byte>) returns (left: seq<Byte>)
    ensures Blank(left) && s == left + TrimLeft(s)
    ensures TrimLeft(s) != [] ==> !Blank(TrimLeft(s)[..1])
  {
    if s != [] && IsSpace(s[0]) {
      var more := TrimLeftWritten(s[1..]);
      left := [s[0]] + more;
    } else {
      left := [];
    }
  }

  lemma {:induction false} TrimRightWritten(s: seq<Byte>) returns (right: seq<Byte>)
    ensures Blank(right) && s == TrimRight(s) + right
    ensures TrimRight(s) != [] ==> !Blank(TrimRight(s)[|TrimRight(s)| - 1..])
  {
    if s != [] && IsSpace(s[|s| - 1]) {
      var more := TrimRightWritten(s[..|s| - 1]);
      right := more + [s[|s| - 1]];
    } else {
      right := [];
    }
  }

  lemma FieldTaken(line: seq<Byte>, e: Entry<seq<Byte>>, h: Headers)
    requires Field(line, e)
    ensures IndexOf(line, COLON) == |e.key| < |line|
    ensures HeaderLine(h, line, |e.key|) == Insert(h, e.key, e.value, true)
  {
    var left, right :| IsField(line, e, left, right);
    var tail := left + (e.value + right);
    IndexOfSplit(e.key, COLON, tail);
    TrimField(left, e.value, right);
    assert line == e.key + [COLON] + tail;
    assert line[..|e.key|] == e.key && line[|e.key| + 1..] == tail;
  }

  lemma TakenField(line: seq<Byte>) returns (e: Entry<seq<Byte>>)
    requires IndexOf(line, COLON) < |line|
    ensures Field(line, e)
  {
    var n := IndexOf(line, COLON);
    var tail := line[n + 1..];
    var left := TrimLeftWritten(tail);
    var middle := TrimLeft(tail);
    var right := TrimRightWritten(middle);
    var value := TrimRight(middle);
    e := Entry(line[..n], value);
    if value != [] {
      assert value[..1] == middle[..1];
    }
    assert line == e.key + ([58] + tail);
    assert IsField(line, e, left, right);
  }

  /** "Content-Length" in any mixture of cases. */
  predicate NamesLength(key: seq<Byte>) {
    var name := Ascii("content-length");
    && |key| == |name|
    && forall i :: 0 <= i < |name| ==>
      key[i] == name[i] || (97 <= name[i] <= 122 && key[i] as int + 32 == name[i] as int)
  }

  /** The length that headers announce: that of the first such name in key order, none is zero. */
  ghost predicate Announces(h: Headers, n: int) {
    if exists i :: 0 <= i < |h| && NamesLength(h[i].key) then
      exists i :: 0 <= i < |h| && NamesLength(h[i].key) && (forall j :: 0 <= j < i ==> !NamesLength(h[j].key))
        && h[i].value != [] && AllDigits(h[i].value) && Value(h[i].value) == n && n < 0x1_0000_0000_0000_0000
    else n == 0
  }

  lemma NameIs(key: seq<Byte>)
    ensures SameName(key, CONTENT_LENGTH) <==> NamesLength(key)
  {
    var name := Ascii("content-length");
    assert name == CONTENT_LENGTH;
    if |key| == |name| {
      assert forall i :: 0 <= i < |name| ==> (Lower(key[i]) == name[i] <==>
        key[i] == name[i] || (97 <= name[i] <= 122 && key[i] as int + 32 == name[i] as int));
    }
  }

  lemma {:induction false} FirstLength(h: Headers) returns (i: nat)
    ensures i <= |h| && (forall j :: 0 <= j < i ==> !NamesLength(h[j].key))
    ensures i < |h| ==> NamesLength(h[i].key)
    ensures LengthOf(h) == if i == |h| then Some(0) else ParseLength(Trim(h[i].value))
  {
    hide NamesLength, SameName, ParseLength, Trim;
    if h == [] {
      i := 0;
    } else {
      NameIs(h[0].key);
      if NamesLength(h[0].key) {
        i := 0;
      } else {
        var k := FirstLength(h[1..]);
        i := k + 1;
        assert forall j :: 1 <= j < |h| ==> h[j] == h[1..][j - 1];
      }
    }
  }

  lemma TightIsTrimmed(v: seq<Byte>)
    requires Tight(v)
    ensures Trim(v) == v
  {
    TrimField([], v, []);
    assert [] + (v + []) == v;
  }

  lemma LengthIff(h: Headers, n: U64)
    requires forall e :: e in h ==> Tight(e.value)
    ensures LengthOf(h) == Some(n) <==> Announces(h, n)
  {
    var i := FirstLength(h);
    hide NamesLength, ParseLength, Trim, Tight, AllDigits, Value, LengthOf;
    if i < |h| {
      assert h[i] in h;
      TightIsTrimmed(h[i].value);
      LengthTextIff(h[i].value, n);
      forall k | 0 <= k < |h| && NamesLength(h[k].key) && (forall j :: 0 <= j < k ==> !NamesLength(h[j].key))
        ensures k == i
      {
      }
    }
  }

  // ---------- Whole requests ----------

  function Lines(ls: seq<seq<Byte>>): seq<Byte> {
    if ls == [] then [] else ls[0] + (Ascii("\r\n") + Lines(ls[1..]))
  }

  /** Header lines and the names and values in them. */
  ghost predicate Fields(ls: seq<seq<Byte>>, es: Headers) {
    |ls| == |es| && forall i :: 0 <= i < |ls| ==> OneLine(ls[i]) && Field(ls[i], es[i])
  }

  /** Up to the line that ends the headers: it has no colon, and need not be empty. */
  datatype Preamble = Preamble(words: Words, lines: seq<seq<Byte>>, entries: Headers, last: seq<Byte>) {
    ghost predicate Valid() {
      words.Valid() && OneLine(words.Text()) && Fields(lines, entries) && OneLine(last) && 58 !in last
    }

    function Text(): seq<Byte>
      requires words.Valid()
    {
      words.Text() + (Ascii("\r\n") + (Lines(lines) + (last + Ascii("\r\n"))))
    }

    /** The last header of a name wins. */
    function Headers(): Headers {
      InsertAll([], entries, true)
    }

    function Request(time: int, body: seq<Byte>): Request {
      words.Set(EMPTY).(receiveTime := time, headers := Headers(), body := body)
    }
  }

  lemma Crlf()
    ensures Ascii("\r\n") == CRLF
  {
  }

  lemma WithField(c: Context, line: seq<Byte>, e: Entry<seq<Byte>>)
    requires Field(line, e)
    ensures IndexOf(line, COLON) < |line|
    ensures WithHeader(c, line) == c.(request := c.request.(headers := Insert(c.request.headers, e.key, e.value, true)))
  {
    FieldTaken(line, e, c.request.headers);
    hide IndexOf, HeaderLine, Field, Insert;
  }

  lemma FieldsParts(ls: seq<seq<Byte>>, es: Headers, rest: seq<Byte>)
    requires Fields(ls, es) && ls != []
    ensures es != [] && OneLine(ls[0]) && Field(ls[0], es[0]) && Fields(ls[1..], es[1..])
    ensures Lines(ls) + rest == ls[0] + CRLF + (Lines(ls[1..]) + rest)
  {
    hide OneLine, Field;
    Crlf();
  }

  lemma {:induction false} FieldsTaken(c: Context, ls: seq<seq<Byte>>, es: Headers, rest: seq<Byte>, time: int)
    requires c.state == ExpectHeaders && Fields(ls, es)
    ensures Parse(c, Lines(ls) + rest, time)
      == Parse(c.(request := c.request.(headers := InsertAll(c.request.headers, es, true))), rest, time)
    decreases |ls|
  {
    if ls == [] {
      assert Lines(ls) + rest == rest;
    } else {
      FieldsParts(ls, es, rest);
      hide IndexOf, Field, Insert, FirstCrlf, Parse, OneLine, WithHeader, Lines, Fields;
      var tail := Lines(ls[1..]) + rest;
      WithField(c, ls[0], es[0]);
      LineEnd(ls[0], tail);
      StepHeader(c, ls[0] + CRLF + tail, |ls[0]|, time);
      FieldsTaken(WithHeader(c, ls[0]), ls[1..], es[1..], rest, time);
    }
  }

  /** What the parser makes of the bytes behind the head. */
  function Finish(h: Preamble, body: seq<Byte>, time: int): Outcome {
    var r := h.Request(time, []);
    match LengthOf(h.Headers())
    case None => Outcome(false, Context(ExpectHeaders, r, 0), h.last + (Ascii("\r\n") + body))
    case Some(n) =>
      if |body| < n then Outcome(true, Context(ExpectBody, r, n), body)
      else Outcome(true, Context(GotAll, r.(body := body[..n]), n), body[n..])
  }

  lemma LastTaken(c: Context, last: seq<Byte>, body: seq<Byte>, time: int)
    requires c.state == ExpectHeaders && OneLine(last) && 58 !in last && c.request.body == []
    ensures Parse(c, last + (Ascii("\r\n") + body), time) ==
      match LengthOf(c.request.headers)
      case None => Outcome(false, c.(contentLength := 0), last + (Ascii("\r\n") + body))
      case Some(n) =>
        if |body| < n then Outcome(true, c.(state := ExpectBody, contentLength := n), body)
        else Outcome(true, Context(GotAll, c.request.(body := body[..n]), n), body[n..])
  {
    hide IndexOf, FirstCrlf, Parse, OneLine, LengthOf;
    Crlf();
    IndexOfAbsent(last, COLON);
    LineEnd(last, body);
    var data := last + CRLF + body;
    assert data == last + (CRLF + body);
    StepEmptyLine(c, data, |last|, time);
    if LengthOf(c.request.headers).Some? {
      var n := LengthOf(c.request.headers).value;
      StepBody(c.(state := ExpectBody, contentLength := n), body, time);
    }
  }

  /** A head, with anything behind it, is taken as it is meant. */
  lemma HeadTaken(h: Preamble, body: seq<Byte>, time: int)
    requires h.Valid()
    ensures Parse(INITIAL, h.Text() + body, time) == Finish(h, body, time)
  {
    hide Parse, RequestLine, FirstCrlf, OneLine, Words.Text, Words.Valid, Fields, LengthOf, InsertAll, Lines;
    Crlf();
    var line, after := h.words.Text(), Lines(h.lines) + (h.last + (CRLF + body));
    WordsAreTaken(h.words, EMPTY);
    LineEnd(line, after);
    assert h.Text() + body == line + CRLF + after;
    StepRequestLine(INITIAL, line + CRLF + after, |line|, time);
    var c := Context(ExpectHeaders, h.words.Set(EMPTY).(receiveTime := time), 0);
    FieldsTaken(c, h.lines, h.entries, h.last + (CRLF + body), time);
    LastTaken(c.(request := c.request.(headers := h.Headers())), h.last, body, time);
  }

  /** Every byte stream starts in one of four ways. */
  datatype Shape =
    | NoLine
    | BadLine(line: seq<Byte>, tail: seq<Byte>)
    | NoEnd(words: Words, lines: seq<seq<Byte>>, entries: Headers, rest: seq<Byte>)
    | Headed(head: Preamble, tail: seq<Byte>)

  ghost predicate IsWords(line: seq<Byte>) {
    exists w: Words :: w.Valid() && line == w.Text()
  }

  ghost predicate Fits(s: Shape, data: seq<Byte>) {
    match s
    case NoLine => FirstCrlf(data).None?
    case BadLine(line, tail) => OneLine(line) && data == line + (Ascii("\r\n") + tail) && !IsWords(line)
    case NoEnd(w, ls, es, rest) =>
      && w.Valid() && OneLine(w.Text()) && Fields(ls, es) && FirstCrlf(rest).None?
      && data == w.Text() + (Ascii("\r\n") + (Lines(ls) + rest))
    case Headed(h, tail) => h.Valid() && data == h.Text() + tail
  }

  lemma FirstLine(data: seq<Byte>) returns (line: seq<Byte>, tail: seq<Byte>)
    requires FirstCrlf(data).Some?
    ensures OneLine(line) && data == line + (Ascii("\r\n") + tail)
  {
    Crlf();
    var n := FirstCrlf(data).value;
    line, tail := data[..n], data[n + 2..];
    assert data[n..n + 2] == CRLF;
    forall i | 0 <= i < |line| ensures !CrlfAt(line, i) {
      assert !CrlfAt(data, i);
    }
    assert data == line + (data[n..n + 2] + tail);
  }

  lemma FieldsCons(line: seq<Byte>, e: Entry<seq<Byte>>, ls: seq<seq<Byte>>, es: Headers)
    requires OneLine(line) && Field(line, e) && Fields(ls, es)
    ensures Fields([line] + ls, [e] + es)
    ensures Lines([line] + ls) == line + (Ascii("\r\n") + Lines(ls))
  {
    hide OneLine, Field;
    assert ([line] + ls)[1..] == ls;
  }

  lemma {:induction false} FieldsWritten(data: seq<Byte>)
    returns (ls: seq<seq<Byte>>, es: Headers, rest: seq<Byte>, last: seq<Byte>, tail: seq<Byte>)
    ensures Fields(ls, es) && data == Lines(ls) + rest
    ensures FirstCrlf(rest).Some? ==> OneLine(last) && 58 !in last && rest == last + (Ascii("\r\n") + tail)
    decreases |data|
  {
    hide FirstCrlf, OneLine, Field;
    Crlf();
    ls, es, rest, last, tail := [], [], data, [], [];
    if FirstCrlf(data).Some? {
      last, tail := FirstLine(data);
      if IndexOf(last, COLON) < |last| {
        var line := last;
        var e := TakenField(line);
        var ls', es';
        ls', es', rest, last, tail := FieldsWritten(tail);
        FieldsCons(line, e, ls', es');
        hide Lines, Fields;
        ls, es := [line] + ls', [e] + es';
        Regroup(line, CRLF, Lines(ls'), rest);
      } else {
        assert last[..|last|] == last;
      }
    }
  }

  lemma Shapes(data: seq<Byte>) returns (s: Shape)
    ensures Fits(s, data)
  {
    hide OneLine, FirstCrlf, Fields, RequestLine, Words.Text, Words.Valid, Lines;
    if FirstCrlf(data).None? {
      s := NoLine;
    } else {
      var line, after := FirstLine(data);
      if !IsWords(line) {
        s := BadLine(line, after);
      } else {
        var w: Words :| w.Valid() && line == w.Text();
        var ls, es, rest, last, tail := FieldsWritten(after);
        if FirstCrlf(rest).None? {
          s := NoEnd(w, ls, es, rest);
        } else {
          var h := Preamble(w, ls, es, last);
          s := Headed(h, tail);
          HeadText(h, tail);
        }
      }
    }
  }

  lemma HeadText(h: Preamble, tail: seq<Byte>)
    requires h.words.Valid()
    ensures h.Text() + tail
      == h.words.Text() + (Ascii("\r\n") + (Lines(h.lines) + (h.last + (Ascii("\r\n") + tail))))
  {
    hide Words.Text, Lines;
  }

  /** Without a line, or without the end of the headers, the parser waits. */
  lemma WaitsForHead(s: Shape, data: seq<Byte>, time: int)
    requires Fits(s, data) && (s.NoLine? || s.NoEnd?)
    ensures var p := Parse(INITIAL, data, time);
      p.ok && (p.context.state == ExpectRequestLine || p.context.state == ExpectHeaders)
  {
    hide Parse, RequestLine, FirstCrlf, OneLine, Words.Text, Words.Valid, Fields, LengthOf, InsertAll, Lines;
    Crlf();
    if s.NoLine? {
      StepWait(INITIAL, data, time);
    } else {
      var line, after := s.words.Text(), Lines(s.lines) + s.rest;
      WordsAreTaken(s.words, EMPTY);
      LineEnd(line, after);
      assert data == line + CRLF + after;
      StepRequestLine(INITIAL, data, |line|, time);
      var c := Context(ExpectHeaders, s.words.Set(EMPTY).(receiveTime := time), 0);
      FieldsTaken(c, s.lines, s.entries, s.rest, time);
      StepWait(c.(request := c.request.(headers := InsertAll([], s.entries, true))), s.rest, time);
    }
  }

  lemma BadLineIsRejected(line: seq<Byte>, tail: seq<Byte>, time: int)
    requires OneLine(line) && !IsWords(line)
    ensures var data := line + (Ascii("\r\n") + tail);
      var p := Parse(INITIAL, data, time);
      !p.ok && p.context.state == ExpectRequestLine && p.rest == data
  {
    hide Parse, RequestLine, FirstCrlf, OneLine, Words.Text, Words.Valid;
    Crlf();
    var data := line + CRLF + tail;
    assert data == line + (CRLF + tail);
    LineEnd(line, tail);
    StepRequestLine(INITIAL, data, |line|, time);
    if RequestLine(EMPTY, line).0 {
      var w := TakenIsWords(line, EMPTY);
    }
  }

  lemma HeadersAreTight(h: Preamble)
    requires h.Valid()
    ensures forall e :: e in h.Headers() ==> Tight(e.value)
  {
    forall e | e in h.entries ensures Tight(e.value) {
      var i :| 0 <= i < |h.entries| && h.entries[i] == e;
      assert Field(h.lines[i], e);
    }
    hide Tight;
    InsertedAreTight([], h.entries);
  }

  lemma {:induction false} InsertedAreTight(h: Headers, es: Headers)
    requires forall e :: e in h + es ==> Tight(e.value)
    ensures forall e :: e in InsertAll(h, es, true) ==> Tight(e.value)
    decreases |es|
  {
    hide Tight, Insert;
    if es == [] {
      assert h + es == h;
    } else {
      InsertMembers(h, es[0].key, es[0].value, true);
      assert es[0] in h + es;
      InsertedAreTight(Insert(h, es[0].key, es[0].value, true), es[1..]);
    }
  }

  /** One request, complete: its head, a body of the announced length, and what is behind it. */
  ghost predicate Complete(data: seq<Byte>, h: Preamble, body: seq<Byte>, rest: seq<Byte>) {
    h.Valid() && data == h.Text() + (body + rest) && Announces(h.Headers(), |body|)
  }

  lemma FinishIs(h: Preamble, tail: seq<Byte>, n: U64, time: int)
    requires h.Valid()
    ensures Announces(h.Headers(), n) ==>
      Finish(h, tail, time)
        == if |tail| < n then Outcome(true, Context(ExpectBody, h.Request(time, []), n), tail)
           else Outcome(true, Context(GotAll, h.Request(time, tail[..n]), n), tail[n..])
    ensures (forall k: U64 :: !Announces(h.Headers(), k)) <==> !Finish(h, tail, time).ok
    ensures Finish(h, tail, time).context.state == ExpectBody || Finish(h, tail, time).context.state == GotAll ==>
      Announces(h.Headers(), Finish(h, tail, time).context.contentLength)
  {
    HeadersAreTight(h);
    hide Announces, LengthOf, InsertAll, Words.Set, Tight, Preamble.Valid, Preamble.Headers;
    LengthIff(h.Headers(), n);
    if LengthOf(h.Headers()).Some? {
      LengthIff(h.Headers(), LengthOf(h.Headers()).value);
    }
    forall k: U64 | Announces(h.Headers(), k) ensures LengthOf(h.Headers()) == Some(k) {
      LengthIff(h.Headers(), k);
    }
  }

  lemma CompleteIsTaken(data: seq<Byte>, h: Preamble, body: seq<Byte>, rest: seq<Byte>, time: int)
    requires Complete(data, h, body, rest)
    ensures Parse(INITIAL, data, time) == Outcome(true, Context(GotAll, h.Request(time, body), |body|), rest)
  {
    hide Announces, Preamble.Valid, Preamble.Text, Preamble.Headers, Parse, Finish;
    assert |body| < 0x1_0000_0000_0000_0000 by { AnnouncedFits(h.Headers(), |body|); }
    HeadTaken(h, body + rest, time);
    FinishIs(h, body + rest, |body|, time);
    assert (body + rest)[..|body|] == body && (body + rest)[|body|..] == rest;
  }

  lemma AnnouncedFits(h: Headers, n: int)
    requires Announces(h, n)
    ensures n < 0x1_0000_0000_0000_0000
  {
  }

  ghost predicate TakenFrom(data: seq<Byte>, r: Request, rest: seq<Byte>, time: int, h: Preamble, body: seq<Byte>) {
    Complete(data, h, body, rest) && r == h.Request(time, body)
  }

  /**
   For every byte stream: the parser hands out request `r` and leaves `rest` exactly when the stream
   is a request line of the grammar, header lines, a line without a colon and a body of the length
   that the headers announce.
   */
  lemma AcceptedIff(data: seq<Byte>, r: Request, rest: seq<Byte>, time: int)
    ensures (exists n :: Parse(INITIAL, data, time) == Outcome(true, Context(GotAll, r, n), rest))
      <==> exists h, body :: TakenFrom(data, r, rest, time, h, body)
  {
    hide Announces, Preamble.Valid, Preamble.Text, Preamble.Headers, Preamble.Request, Parse, Finish, Fits, OneLine;
    if n :| Parse(INITIAL, data, time) == Outcome(true, Context(GotAll, r, n), rest) {
      var s := Shapes(data);
      match s
      case NoLine => WaitsForHead(s, data, time); assert false;
      case NoEnd(_, _, _, _) => WaitsForHead(s, data, time); assert false;
      case BadLine(line, tail) => BadShape(s, data, time); assert false;
      case Headed(h, tail) =>
        HeadedIs(s, data, time);
        FinishIs(h, tail, n, time);
        var body := tail[..n];
        assert tail == body + rest;
        assert TakenFrom(data, r, rest, time, h, body);
    }
    forall h, body | TakenFrom(data, r, rest, time, h, body)
      ensures |body| < 0x1_0000_0000_0000_0000
      ensures Parse(INITIAL, data, time) == Outcome(true, Context(GotAll, r, |body|), rest)
    {
      AnnouncedFits(h.Headers(), |body|);
      CompleteIsTaken(data, h, body, rest, time);
    }
  }

  lemma BadShape(s: Shape, data: seq<Byte>, time: int)
    requires Fits(s, data) && s.BadLine?
    ensures !Parse(INITIAL, data, time).ok
  {
    BadLineIsRejected(s.line, s.tail, time);
    hide Parse, OneLine, IsWords;
  }

  lemma HeadedIs(s: Shape, data: seq<Byte>, time: int)
    requires Fits(s, data) && s.Headed?
    ensures s.head.Valid() && data == s.head.Text() + s.tail
    ensures Parse(INITIAL, data, time) == Finish(s.head, s.tail, time)
  {
    hide Parse, Finish, Preamble.Valid, Preamble.Text;
    HeadTaken(s.head, s.tail, time);
  }

  ghost predicate BadStart(data: seq<Byte>, line: seq<Byte>, tail: seq<Byte>) {
    OneLine(line) && data == line + (Ascii("\r\n") + tail) && !IsWords(line)
  }

  /** A good head, but its first Content-Length is no number of 64 bits. */
  ghost predicate BadLength(data: seq<Byte>, h: Preamble, tail: seq<Byte>) {
    h.Valid() && data == h.Text() + tail && forall n: U64 :: !Announces(h.Headers(), n)
  }

  /**
   A byte stream is rejected exactly when its first line is no request line of the grammar, or its
   headers announce a length that is no decimal number below 2^64.
   */
  lemma RejectedIff(data: seq<Byte>, time: int)
    ensures !Parse(INITIAL, data, time).ok <==>
      || (exists line, tail :: BadStart(data, line, tail))
      || (exists h, tail :: BadLength(data, h, tail))
  {
    hide Announces, Preamble.Valid, Preamble.Text, Preamble.Headers, Parse, Finish, Fits, OneLine, IsWords;
    if !Parse(INITIAL, data, time).ok {
      var s := Shapes(data);
      match s
      case NoLine => WaitsForHead(s, data, time); assert false;
      case NoEnd(_, _, _, _) => WaitsForHead(s, data, time); assert false;
      case BadLine(line, tail) =>
        assert BadStart(data, line, tail) by { BadFits(s, data); }
      case Headed(h, tail) =>
        HeadedIs(s, data, time);
        FinishIs(h, tail, 0, time);
        assert BadLength(data, h, tail);
    }
    forall line, tail | BadStart(data, line, tail) ensures !Parse(INITIAL, data, time).ok {
      BadLineIsRejected(line, tail, time);
    }
    forall h, tail | BadLength(data, h, tail) ensures !Parse(INITIAL, data, time).ok {
      HeadTaken(h, tail, time);
      FinishIs(h, tail, 0, time);
    }
  }

  lemma BadFits(s: Shape, data: seq<Byte>)
    requires Fits(s, data) && s.BadLine?
    ensures BadStart(data, s.line, s.tail)
  {
    hide OneLine, IsWords;
  }
}
