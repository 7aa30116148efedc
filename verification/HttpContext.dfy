/** The request record and the parser object (http/HttpRequest.h, http/HttpContext.h, http/HttpContext.cc). */
module HttpContext {
  import opened Bytes
  import opened Buffers
  import opened OrderedMaps
  import opened Http

  lemma SkipLeft(line: seq<Byte>, first: nat)
    requires first < |line| && IsSpace(line[first])
    ensures TrimLeft(line[first..]) == TrimLeft(line[first + 1..])
  {
    assert line[first..][1..] == line[first + 1..];
  }

  lemma SkipRight(line: seq<Byte>, first: nat, last: nat)
    requires first < last <= |line| && IsSpace(line[last - 1])
    ensures TrimRight(line[first..last]) == TrimRight(line[first..last - 1])
  {
    assert line[first..last][..last - first - 1] == line[first..last - 1];
  }

  lemma NoSpaceLeft(s: seq<Byte>)
    requires s == [] || !IsSpace(s[0])
    ensures TrimLeft(s) == s
  {
  }

  lemma NoSpaceRight(s: seq<Byte>)
    requires s == [] || !IsSpace(s[|s| - 1])
    ensures TrimRight(s) == s
  {
  }

  class HttpRequest {
    var method_: Method
    var version: Version
    var path: seq<Byte>
    var query: seq<Byte>
    var body: seq<Byte>
    var receiveTime: int
    var headers: Headers

    function View(): Request
      reads this
    {
      Request(method_, version, path, query, body, receiveTime, headers)
    }

    constructor ()
      ensures View() == EMPTY
    {
      method_, version := Invalid, Unknown;
      path, query, body := [], [], [];
      receiveTime := 0;
      headers := [];
    }

    /** Looks the name up; a name that is none of the five leaves an invalid method behind. */
    method SetMethod(name: seq<Byte>) returns (known: bool)
      modifies this`method_
      ensures known <==> exists m :: m != Invalid && name == MethodName(m)
      ensures known <==> method_ != Invalid
      ensures known ==> MethodName(method_) == name
    {
      var methods := map[
        MethodName(Get) := Get,
        MethodName(Post) := Post,
        MethodName(Head) := Head,
        MethodName(Put) := Put,
        MethodName(Delete) := Delete];
      if name in methods {
        method_ := methods[name];
        return true;
      }
      method_ := Invalid;
      return false;
    }

    /** Spaces around the value are trimmed from both ends of the line's tail. */
    method AddHeader(line: seq<Byte>, colon: nat)
      requires colon < |line|
      modifies this`headers
      ensures headers == HeaderLine(old(headers), line, colon)
    {
      hide TrimLeft, TrimRight, Insert;
      var field := line[..colon];
      var first, last := colon + 1, |line|;
      ghost var tail := line[colon + 1..];
      while first < last && IsSpace(line[first])
        invariant colon + 1 <= first <= last == |line| && headers == old(headers)
        invariant TrimLeft(line[first..]) == TrimLeft(tail)
      {
        SkipLeft(line, first);
        first := first + 1;
      }
      NoSpaceLeft(line[first..]);
      assert line[first..last] == line[first..];
      while first < last && IsSpace(line[last - 1])
        invariant first <= last <= |line| && headers == old(headers)
        invariant TrimRight(line[first..last]) == Trim(tail)
      {
        SkipRight(line, first, last);
        last := last - 1;
      }
      NoSpaceRight(line[first..last]);
      headers := Insert(headers, field, line[first..last], true);
    }

    method Reset()
      modifies this
      ensures View() == EMPTY
    {
      method_, version := Invalid, Unknown;
      path, query, body := [], [], [];
      receiveTime := 0;
      headers := [];
    }
  }

  class Parser {
    var state: State
    const request: HttpRequest
    var contentLength: U64

    function View(): Context
      reads this, request
    {
      Context(state, request.View(), contentLength)
    }

    constructor ()
      ensures View() == INITIAL && fresh(request)
    {
      state := ExpectRequestLine;
      request := new HttpRequest();
      contentLength := 0;
    }

    method Reset()
      modifies this, request
      ensures View() == INITIAL
    {
      state := ExpectRequestLine;
      contentLength := 0;
      request.Reset();
    }

    method ProcessRequestLine(line: seq<Byte>) returns (succeed: bool)
      modifies request
      ensures (succeed, request.View()) == RequestLine(old(request.View()), line)
    {
      hide MethodOf, VersionOf, IndexOf;
      succeed := false;
      var space := IndexOf(line, SPACE);
      if space != |line| {
        var known := request.SetMethod(line[..space]);
        MethodIs(line[..space], request.method_);
        if known {
          var rest := line[space + 1..];
          var end := IndexOf(rest, SPACE);
          if end != |rest| {
            var question := IndexOf(rest[..end], QUESTION);
            if question != end {
              request.path := rest[..question];
              request.query := rest[question..end];
            } else {
              request.path := rest[..end];
            }
            var version := VersionOf(rest[end + 1..]);
            if version != Unknown {
              request.version := version;
              succeed := true;
            }
          }
        }
      }
    }

    method ParseContentLength() returns (ok: bool)
      modifies this`contentLength
      ensures match LengthOf(request.headers)
        case None => !ok && contentLength == 0
        case Some(n) => ok && contentLength == n
    {
      hide SameName, ParseLength, Trim;
      contentLength := 0;
      for i := 0 to |request.headers|
        invariant LengthOf(request.headers[i..]) == LengthOf(request.headers)
        invariant contentLength == 0
      {
        assert request.headers[i..][1..] == request.headers[i + 1..];
        var h := request.headers[i];
        if !SameName(h.key, CONTENT_LENGTH) {
          continue;
        }
        var length := ParseLength(Trim(h.value));
        if length.None? {
          return false;
        }
        contentLength := length.value;
        return true;
      }
      return true;
    }

    /** One round that ends (`!more`) or goes on with the rest of the same parse. */
    ghost predicate Advanced(before: Outcome, ok: bool, more: bool, buf: Buffer, time: int)
      requires buf.Valid()
      reads this, request, buf
    {
      if more then ok && Parse(View(), buf.Contents(), time) == before
      else Outcome(ok, View(), buf.Contents()) == before
    }

    method OnRequestLine(buf: Buffer, time: int) returns (ok: bool, more: bool)
      requires buf.Valid() && state == ExpectRequestLine
      modifies this, request, buf
      ensures buf.Valid() && Advanced(Parse(old(View()), old(buf.Contents()), time), ok, more, buf, time)
      ensures more ==> |buf.Contents()| < |old(buf.Contents())|
    {
      hide RequestLine, FirstCrlf, IndexOf, Parse;
      ghost var c, data := View(), buf.Contents();
      ok, more := true, false;
      var crlf := buf.FindCrlf();
      if crlf.None? {
        StepWait(c, data, time);
        return;
      }
      StepRequestLine(c, data, crlf.value, time);
      ok := ProcessRequestLine(buf.Peek()[..crlf.value]);
      if ok {
        request.receiveTime := time;
        buf.Retrieve(crlf.value + 2);
        state := ExpectHeaders;
        more := true;
      }
    }

    method OnHeaderLine(buf: Buffer, time: int) returns (ok: bool, more: bool)
      requires buf.Valid() && state == ExpectHeaders
      modifies this, request, buf
      ensures buf.Valid() && Advanced(Parse(old(View()), old(buf.Contents()), time), ok, more, buf, time)
      ensures more ==> |buf.Contents()| < |old(buf.Contents())|
    {
      hide LengthOf, FirstCrlf, IndexOf, HeaderLine, Parse;
      ghost var c, data := View(), buf.Contents();
      ok, more := true, false;
      var crlf := buf.FindCrlf();
      if crlf.None? {
        StepWait(c, data, time);
        return;
      }
      var line := buf.Peek()[..crlf.value];
      var colon := IndexOf(line, COLON);
      if colon != |line| {
        StepHeader(c, data, crlf.value, time);
        request.AddHeader(line, colon);
        more := true;
      } else {
        StepEmptyLine(c, data, crlf.value, time);
        ok := ParseContentLength();
        if !ok {
          return;
        }
        more := contentLength > 0;
        state := if more then ExpectBody else GotAll;
      }
      buf.Retrieve(crlf.value + 2);
    }

    method OnBody(buf: Buffer, time: int) returns (ok: bool, more: bool)
      requires buf.Valid() && state == ExpectBody
      modifies this, request, buf
      ensures buf.Valid() && Advanced(Parse(old(View()), old(buf.Contents()), time), ok, more, buf, time)
      ensures more ==> |buf.Contents()| <= |old(buf.Contents())| && state == GotAll
    {
      hide Parse;
      StepBody(View(), buf.Contents(), time);
      ok, more := true, false;
      if buf.ReadableBytes() >= contentLength {
        request.body := buf.Peek()[..contentLength];
        buf.Retrieve(contentLength);
        state := GotAll;
        more := true;
        StepBody(View(), buf.Contents(), time);
      }
    }

    /** One call: the context and the unread bytes become those of `Http.Parse`. */
    method ParseRequest(buf: Buffer, time: int) returns (ok: bool)
      requires buf.Valid()
      modifies this, request, buf
      ensures buf.Valid()
      ensures Outcome(ok, View(), buf.Contents()) == Parse(old(View()), old(buf.Contents()), time)
    {
      hide Parse;
      ok := true;
      var hasMore := true;
      ghost var goal := Parse(View(), buf.Contents(), time);
      while hasMore
        invariant buf.Valid() && Advanced(goal, ok, hasMore, buf, time)
        decreases hasMore, |buf.Contents()|, Rank(state)
      {
        if state == ExpectRequestLine {
          ok, hasMore := OnRequestLine(buf, time);
        } else if state == ExpectHeaders {
          ok, hasMore := OnHeaderLine(buf, time);
        } else if state == ExpectBody {
          ok, hasMore := OnBody(buf, time);
        } else {
          StepBody(View(), buf.Contents(), time);
          hasMore := false;
        }
      }
    }
  }
}
