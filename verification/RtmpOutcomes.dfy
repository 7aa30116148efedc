/**
 What a client gets for its messages (rtmp/RtmpConnection.cc): which commands are heard, refused or
 answered by a shutdown, and who can be in a session at all.
 */
module RtmpOutcomes {
  import opened Bytes
  import opened RtmpTypes
  import opened RtmpCommands
  import opened RtmpRegistry

  // ---------- Reading a command ----------

  /** The payload is a name, a number and, if there is more, an object and arguments. */
  ghost predicate Spells(m: Message, cmd: Command, number: U64) {
    var start := [Amf0.String(cmd.name), Amf0.Number(number)];
    || (Amf0.DecodeAll(m.payload) == Amf0.Ok(start, |m.payload|)
        && cmd.commandObject == Amf0.Null && cmd.arguments == [])
    || Amf0.DecodeAll(m.payload) == Amf0.Ok(start + ([cmd.commandObject] + cmd.arguments), |m.payload|)
  }

  /** A message is taken as a command exactly when its type is 20 and its values are those of one. */
  lemma CommandIff(m: Message, cmd: Command)
    ensures DecodeCommand(m) == Some(cmd) <==>
      m.typeId == 20 && cmd.messageStreamId == m.messageStreamId && exists number :: Spells(m, cmd, number)
  {
    var all := Amf0.DecodeAll(m.payload);
    if all.Ok? {
      Amf0.DecodedAllAreGood(m.payload);
    }
    hide Amf0.DecodeAll;
    if DecodeCommand(m) == Some(cmd) {
      var vs := all.value;
      if |vs| == 2 {
        assert vs == [Amf0.String(cmd.name), Amf0.Number(vs[1].bits)];
      } else {
        assert vs == [Amf0.String(cmd.name), Amf0.Number(vs[1].bits)] + ([vs[2]] + vs[3..]);
      }
      assert Spells(m, cmd, vs[1].bits);
    }
    forall number | Spells(m, cmd, number) && m.typeId == 20 && cmd.messageStreamId == m.messageStreamId
      ensures DecodeCommand(m) == Some(cmd)
    {
      var start := [Amf0.String(cmd.name), Amf0.Number(number)];
      if all.value != start {
        assert all.value[3..] == cmd.arguments;
      }
    }
  }

  lemma CommandNames()
    ensures CONNECT == Ascii("connect") && CREATE_STREAM == Ascii("createStream") && PUBLISH == Ascii("publish")
    ensures PLAY == Ascii("play") && DELETE_STREAM == Ascii("deleteStream") && CLOSE_STREAM == Ascii("closeStream")
    ensures APP == Ascii("app") && TICKET == Ascii("ticket=")
  {
  }

  // ---------- Reading a stream name ----------

  /** `i` is the last part that is a ticket, if there is one. */
  predicate LastTicketAt(parts: seq<Text>, i: Option<nat>) {
    match i
    case None => forall j :: 0 <= j < |parts| ==> !(Ascii("ticket=") <= parts[j])
    case Some(n) =>
      n < |parts| && Ascii("ticket=") <= parts[n] && forall j :: n < j < |parts| ==> !(Ascii("ticket=") <= parts[j])
  }

  lemma {:induction false} LastTicketIs(parts: seq<Text>) returns (i: Option<nat>)
    ensures LastTicketAt(parts, i)
    ensures LastTicket(parts, []) == if i.Some? then parts[i.value][7..] else []
  {
    CommandNames();
    if parts == [] {
      i := None;
    } else {
      var n := |parts| - 1;
      i := LastTicketIs(parts[..n]);
      if TICKET <= parts[n] {
        i := Some(n);
      }
    }
  }

  predicate NoAmpersand(parts: seq<Text>) {
    forall i :: 0 <= i < |parts| ==> 38 !in parts[i]
  }

  /** Every query consists of parts. */
  lemma {:induction false} QueryParts(query: Text) returns (parts: seq<Text>)
    ensures NoAmpersand(parts) && Query(parts) == query
    ensures parts != []
    decreases |query|
  {
    var n := IndexOf(query, AMPERSAND);
    if n == |query| {
      assert query[..n] == query;
      parts := [query];
    } else {
      var more := QueryParts(query[n + 1..]);
      parts := [query[..n]] + more;
      assert parts[1..] == more;
      assert query == query[..n] + [AMPERSAND] + query[n + 1..];
    }
  }

  /** The name, a question mark, and a query of which the last ticket counts. */
  ghost predicate NamedBy(raw: Text, t: StreamTarget, parts: seq<Text>, i: Option<nat>) {
    && t.streamName != [] && 63 !in t.streamName && NoAmpersand(parts) && LastTicketAt(parts, i)
    && raw == t.streamName + Ascii("?") + Query(parts)
    && t.ticket == if i.Some? then parts[i.value][7..] else []
  }

  /** A raw name is refused exactly when it is empty or starts with its query. */
  lemma NoTargetIff(raw: Text)
    ensures ParseTarget(raw) == None <==> raw == [] || raw[0] == 63
  {
  }

  /** Otherwise it is taken apart into the name and the last ticket. */
  lemma TargetIff(raw: Text, t: StreamTarget)
    ensures ParseTarget(raw) == Some(t) <==>
      || (raw != [] && 63 !in raw && t == StreamTarget(raw, []))
      || exists parts, i :: NamedBy(raw, t, parts, i)
  {
    if ParseTarget(raw) == Some(t) && 63 in raw {
      TargetWritten(raw, t);
    } else if ParseTarget(raw) == Some(t) {
      IndexOfAbsent(raw, QUESTION);
    }
    if raw != [] && 63 !in raw {
      IndexOfAbsent(raw, QUESTION);
    }
    hide ParseTarget, NamedBy;
    forall parts, i | NamedBy(raw, t, parts, i) ensures ParseTarget(raw) == Some(t) {
      TargetRead(raw, t, parts, i);
    }
  }

  lemma TargetWritten(raw: Text, t: StreamTarget)
    requires ParseTarget(raw) == Some(t) && 63 in raw
    ensures exists parts, i :: NamedBy(raw, t, parts, i)
  {
    var parts := RawParts(raw);
    var i := LastTicketIs(parts);
    TakenApart(raw, t, parts);
    assert Ascii("?") == [63];
    hide ParseTarget, LastTicket, Query, LastTicketAt, NoAmpersand, Ascii, IndexOf;
    assert NamedBy(raw, t, parts, i);
  }

  lemma RawParts(raw: Text) returns (parts: seq<Text>)
    requires 63 in raw
    ensures NoAmpersand(parts)
    ensures var q := IndexOf(raw, QUESTION); q < |raw| && raw == raw[..q] + [63] + Query(parts)
  {
    var q := IndexOf(raw, QUESTION);
    assert q < |raw| by {
      assert raw[..|raw|] == raw;
    }
    parts := QueryParts(raw[q + 1..]);
    hide Query, NoAmpersand;
    assert raw == raw[..q] + [63] + raw[q + 1..];
  }

  lemma TargetRead(raw: Text, t: StreamTarget, parts: seq<Text>, i: Option<nat>)
    requires NamedBy(raw, t, parts, i)
    ensures ParseTarget(raw) == Some(t)
  {
    var j := LastTicketIs(parts);
    assert i == j;
    assert Ascii("?") == [63];
    assert forall p :: p in parts ==> AMPERSAND !in p;
    hide ParseTarget, LastTicket, Query;
    TargetRoundTrip(t.streamName, parts);
  }

  lemma TakenApart(raw: Text, t: StreamTarget, parts: seq<Text>)
    requires ParseTarget(raw) == Some(t) && NoAmpersand(parts)
    requires var q := IndexOf(raw, QUESTION); q < |raw| && raw == raw[..q] + [63] + Query(parts)
    ensures t == StreamTarget(raw[..IndexOf(raw, QUESTION)], LastTicket(parts, []))
    ensures t.streamName != [] && 63 !in t.streamName
  {
    TargetRoundTrip(raw[..IndexOf(raw, QUESTION)], parts);
  }

  // ---------- Publish and play ----------

  function KeyOf(app: Text, name: Text): Text {
    Ascii("/") + app + Ascii("/") + name
  }

  /** The command names an open stream of this connection and a target. */
  predicate Asks(x: Context, cmd: Command, t: StreamTarget) {
    && x.streamId != 0 && cmd.messageStreamId == x.streamId
    && cmd.arguments != [] && cmd.arguments[0].String? && ParseTarget(cmd.arguments[0].text) == Some(t)
  }

  ghost predicate AsksNothing(x: Context, cmd: Command) {
    forall t :: !Asks(x, cmd, t)
  }

  predicate Permitted(x: Context, t: StreamTarget, publish: bool, auth: Authorize) {
    x.app != [] && auth(KeyOf(x.app, t.streamName), t.ticket, publish)
  }

  /** The context of `c` becomes `x`, everything else stays, and the connection is shut down or not. */
  predicate OnlyContext(s: State, r: State, c: Conn, x: Context, alive: bool) {
    && r.sessions == s.sessions
    && r.connected == (if alive then s.connected else s.connected - {c})
    && r.contexts == s.contexts[c := x]
  }

  /** The context with the name, and for publish the type, that the command gives; they are stored first. */
  function Named(x: Context, cmd: Command, t: StreamTarget): Context {
    var type_ := if |cmd.arguments| >= 2 && cmd.arguments[1].String? then cmd.arguments[1].text else x.publishType;
    x.(streamName := t.streamName, publishType := type_)
  }

  lemma TargetAsked(x: Context, cmd: Command, t: StreamTarget)
    ensures Target(x, cmd) == Some(t) <==> Asks(x, cmd, t)
  {
    hide ParseTarget;
  }

  /** Each command goes to its handler. */
  function Dispatch(s: State, c: Conn, cmd: Command, auth: Authorize): (bool, State)
    requires c in s.contexts
  {
    if cmd.name == Ascii("connect") then HandleConnect(s, c, cmd)
    else if cmd.name == Ascii("createStream") then HandleCreateStream(s, c)
    else if cmd.name == Ascii("publish") then HandlePublish(s, c, cmd, auth)
    else if cmd.name == Ascii("play") then HandlePlay(s, c, cmd, auth)
    else if cmd.name == Ascii("deleteStream") || cmd.name == Ascii("closeStream") then HandleDeleteStream(s, c, cmd)
    else (true, s)
  }

  /** The handler's verdict decides about a shutdown. */
  lemma CommandStep(s: State, c: Conn, m: Message, cmd: Command, auth: Authorize)
    requires c in s.contexts && DecodeCommand(m) == Some(cmd)
    ensures var (ok, r) := Dispatch(s, c, cmd, auth);
      Step(s, Receive(c, m), auth) == if ok then r else Shutdown(r, c)
  {
    CommandNames();
    CommandIff(m, cmd);
    hide DecodeCommand, HandleConnect, HandleCreateStream, HandlePublish, HandlePlay, HandleDeleteStream, Shutdown;
  }

  lemma NamesDiffer()
    ensures Ascii("createStream") != Ascii("connect")
    ensures Ascii("publish") != Ascii("connect") && Ascii("publish") != Ascii("createStream")
    ensures Ascii("play") !in {Ascii("connect"), Ascii("createStream"), Ascii("publish")}
    ensures Ascii("deleteStream") !in {Ascii("connect"), Ascii("createStream"), Ascii("publish"), Ascii("play")}
    ensures Ascii("closeStream") !in {Ascii("connect"), Ascii("createStream"), Ascii("publish"), Ascii("play")}
  {
    assert Ascii("publish")[0] != Ascii("connect")[0];
    assert Ascii("deleteStream")[0] != Ascii("createStream")[0];
  }

  lemma KeyIs(x: Context, cmd: Command, t: StreamTarget)
    requires Asks(x, cmd, t)
    ensures t.streamName != []
    ensures MakeKey(x.app, t.streamName) == if x.app == [] then [] else KeyOf(x.app, t.streamName)
  {
    assert Ascii("/") == [SLASH];
  }

  /**
   Every publish has one of four ends. Without an open stream, its id and a name: the connection is
   shut down and nothing else changes. Not permitted: it is shut down, and no session changes.
   Another publisher: refused, and no session changes. Otherwise it is the publisher of the session
   of its key, whose players stay.
   */
  lemma PublishOutcome(s: State, c: Conn, m: Message, cmd: Command, t: StreamTarget, auth: Authorize)
    requires c in s.contexts && DecodeCommand(m) == Some(cmd) && cmd.name == Ascii("publish")
    ensures var x, r := s.contexts[c], Step(s, Receive(c, m), auth);
      && (AsksNothing(x, cmd) ==> r == s.(connected := s.connected - {c}))
      && (Asks(x, cmd, t) && !Permitted(x, t, true, auth) ==>
            OnlyContext(s, r, c, Named(x, cmd, t), false))
      && (Asks(x, cmd, t) && Permitted(x, t, true, auth) ==>
            var k := KeyOf(x.app, t.streamName);
            var before := if k in s.sessions then s.sessions[k] else Session(None, {});
            if before.publisher.Some? && before.publisher != Some(c)
            then OnlyContext(s, r, c, Named(x, cmd, t), true)
            else
              && r.connected == s.connected && r.sessions == s.sessions[k := Session(Some(c), before.players)]
              && r.contexts == s.contexts[c := Named(x, cmd, t).(role := Publisher, session := Some(k))])
  {
    NamesDiffer();
    CommandStep(s, c, m, cmd, auth);
    TargetAsked(s.contexts[c], cmd, t);
    AsksSome(s.contexts[c], cmd);
    if Asks(s.contexts[c], cmd, t) {
      KeyIs(s.contexts[c], cmd, t);
    }
    hide DecodeCommand, Target, Asks, AsksNothing, MakeKey, KeyOf, Step;
  }

  lemma AsksSome(x: Context, cmd: Command)
    ensures AsksNothing(x, cmd) <==> Target(x, cmd) == None
  {
    hide ParseTarget;
    if Target(x, cmd).Some? {
      TargetAsked(x, cmd, Target(x, cmd).value);
    }
  }

  /** Every play has one of three ends: as for publish, but sessions take any number of players. */
  lemma PlayOutcome(s: State, c: Conn, m: Message, cmd: Command, t: StreamTarget, auth: Authorize)
    requires c in s.contexts && DecodeCommand(m) == Some(cmd) && cmd.name == Ascii("play")
    ensures var x, r := s.contexts[c], Step(s, Receive(c, m), auth);
      && (AsksNothing(x, cmd) ==> r == s.(connected := s.connected - {c}))
      && (Asks(x, cmd, t) && !Permitted(x, t, false, auth) ==>
            OnlyContext(s, r, c, x.(streamName := t.streamName), false))
      && (Asks(x, cmd, t) && Permitted(x, t, false, auth) ==>
            var k := KeyOf(x.app, t.streamName);
            var before := if k in s.sessions then s.sessions[k] else Session(None, {});
            && r.connected == s.connected && r.sessions == s.sessions[k := before.(players := before.players + {c})]
            && r.contexts
               == s.contexts[c := x.(streamName := t.streamName, role := Player, session := Some(k))])
  {
    NamesDiffer();
    CommandStep(s, c, m, cmd, auth);
    TargetAsked(s.contexts[c], cmd, t);
    AsksSome(s.contexts[c], cmd);
    if Asks(s.contexts[c], cmd, t) {
      KeyIs(s.contexts[c], cmd, t);
    }
    hide DecodeCommand, Target, Asks, AsksNothing, MakeKey, KeyOf, Step;
  }

  // ---------- The other messages ----------

  /** The "app" of an object or array is a string. */
  predicate NamesApp(o: Amf0.Value, app: Text) {
    (o.Object? || o.EcmaArray?) && OrderedMaps.Find(o.props, Ascii("app")) == Some(Amf0.String(app))
  }

  /** A connect sets the application, or ends in a shutdown when its object names none. */
  lemma ConnectOutcome(s: State, c: Conn, m: Message, cmd: Command, app: Text, auth: Authorize)
    requires c in s.contexts && DecodeCommand(m) == Some(cmd) && cmd.name == Ascii("connect")
    ensures var r := Step(s, Receive(c, m), auth);
      && (NamesApp(cmd.commandObject, app) ==> r == s.(contexts := s.contexts[c := s.contexts[c].(app := app)]))
      && ((forall a :: !NamesApp(cmd.commandObject, a)) ==> r == s.(connected := s.connected - {c}))
  {
    CommandNames();
    CommandStep(s, c, m, cmd, auth);
    hide DecodeCommand, OrderedMaps.Find, Step;
    if AppOf(cmd.commandObject).Some? {
      assert NamesApp(cmd.commandObject, AppOf(cmd.commandObject).value);
    }
  }

  /** A delete without a session is ignored; with another stream's id it ends in a shutdown. */
  lemma DeleteOutcome(s: State, c: Conn, m: Message, cmd: Command, auth: Authorize)
    requires c in s.contexts && DecodeCommand(m) == Some(cmd)
    requires cmd.name == Ascii("deleteStream") || cmd.name == Ascii("closeStream")
    ensures var x, r := s.contexts[c], Step(s, Receive(c, m), auth);
      if x.role == Unknown || x.session == None then r == s
      else if cmd.messageStreamId != 0 && x.streamId != 0 && cmd.messageStreamId != x.streamId
        then r == s.(connected := s.connected - {c})
      else
        && r.connected == s.connected && c in r.contexts
        && r.contexts[c] == x.(session := None, role := Unknown, streamId := 0, streamName := [], publishType := [])
  {
    NamesDiffer();
    CommandStep(s, c, m, cmd, auth);
    CleanupSpares(s, c);
    hide DecodeCommand, Step, Cleanup;
  }

  /** Cleaning up touches other contexts only where a reference expires, and nobody's connection. */
  lemma CleanupSpares(s: State, c: Conn)
    requires c in s.contexts
    ensures Cleanup(s, c).connected == s.connected && Cleanup(s, c).contexts.Keys == s.contexts.Keys
    ensures forall d :: d in s.contexts ==> Cleanup(s, c).contexts[d].nextStreamId == s.contexts[d].nextStreamId
  {
    hide MakeKey;
  }

  predicate Known(name: Text) {
    || name == Ascii("connect") || name == Ascii("createStream") || name == Ascii("publish")
    || name == Ascii("play") || name == Ascii("deleteStream") || name == Ascii("closeStream")
  }

  /** A command message that is none is answered by a shutdown; an unknown command changes nothing. */
  lemma UnknownCommandOutcome(s: State, c: Conn, m: Message, auth: Authorize)
    requires c in s.contexts && m.typeId == 20
    ensures var r := Step(s, Receive(c, m), auth);
      && (DecodeCommand(m) == None ==> r == s.(connected := s.connected - {c}))
      && (DecodeCommand(m).Some? && !Known(DecodeCommand(m).value.name) ==> r == s)
  {
    if DecodeCommand(m).Some? {
      CommandStep(s, c, m, DecodeCommand(m).value, auth);
      hide Step;
    }
    hide DecodeCommand, HandleCommand;
  }

  /** Messages of types other than 8, 9, 18 and 20 change nothing. */
  lemma OtherTypeOutcome(s: State, c: Conn, m: Message, auth: Authorize)
    requires c in s.contexts && m.typeId !in {8, 9, 18, 20}
    ensures Step(s, Receive(c, m), auth) == s
  {
    hide DecodeCommand, HandleCommand;
  }

  /** Media counts only from a publisher; if its session is gone it is shut down. */
  lemma MediaOutcome(s: State, c: Conn, m: Message, auth: Authorize)
    requires c in s.contexts && m.typeId in {8, 9, 18}
    ensures var x, r := s.contexts[c], Step(s, Receive(c, m), auth);
      if x.role != Publisher then r == s
      else if x.session.None? || x.session.value !in s.sessions then r == s.(connected := s.connected - {c})
      else
        var e := s.sessions[x.session.value];
        r == s.(sessions := s.sessions[x.session.value := Session(e.publisher, e.players * s.connected)])
  {
  }

  // ---------- Whole runs ----------

  /** Somebody presented a ticket with which this key may be published, or played. */
  ghost predicate Authorised(k: Text, publish: bool, auth: Authorize) {
    exists ticket :: auth(k, ticket, publish)
  }

  ghost predicate AllAuthorised(s: State, auth: Authorize) {
    forall k | k in s.sessions ::
      && (s.sessions[k].publisher.Some? ==> Authorised(k, true, auth))
      && (s.sessions[k].players != {} ==> Authorised(k, false, auth))
  }

  lemma CleanupAuthorised(s: State, c: Conn, auth: Authorize)
    requires c in s.contexts && AllAuthorised(s, auth)
    ensures AllAuthorised(Cleanup(s, c), auth)
  {
    hide Authorised;
  }

  lemma PublishAuthorised(s: State, c: Conn, cmd: Command, auth: Authorize)
    requires c in s.contexts && AllAuthorised(s, auth)
    ensures AllAuthorised(HandlePublish(s, c, cmd, auth).1, auth)
  {
    hide Target, MakeKey;
    if Target(s.contexts[c], cmd).Some? {
      var t := Target(s.contexts[c], cmd).value;
      var k := MakeKey(s.contexts[c].app, t.streamName);
      assert auth(k, t.ticket, true) ==> Authorised(k, true, auth);
      hide Authorised;
    }
  }

  lemma PlayAuthorised(s: State, c: Conn, cmd: Command, auth: Authorize)
    requires c in s.contexts && AllAuthorised(s, auth)
    ensures AllAuthorised(HandlePlay(s, c, cmd, auth).1, auth)
  {
    hide Target, MakeKey;
    if Target(s.contexts[c], cmd).Some? {
      var t := Target(s.contexts[c], cmd).value;
      var k := MakeKey(s.contexts[c].app, t.streamName);
      assert auth(k, t.ticket, false) ==> Authorised(k, false, auth);
      hide Authorised;
    }
  }

  lemma StepAuthorised(s: State, e: Event, auth: Authorize)
    requires AllAuthorised(s, auth)
    ensures AllAuthorised(Step(s, e, auth), auth)
  {
    hide DecodeCommand, HandleCommand, Cleanup, Authorised;
    match e
    case Open(c) =>
    case Close(c) =>
      if c in s.contexts {
        CleanupAuthorised(s.(connected := s.connected - {c}), c, auth);
      }
    case Receive(c, m) =>
      if c in s.contexts && DecodeCommand(m).Some? {
        CommandAuthorised(s, c, DecodeCommand(m).value, auth);
      }
  }

  lemma CommandAuthorised(s: State, c: Conn, cmd: Command, auth: Authorize)
    requires c in s.contexts && AllAuthorised(s, auth)
    ensures AllAuthorised(HandleCommand(s, c, cmd, auth).1, auth)
  {
    PublishAuthorised(s, c, cmd, auth);
    PlayAuthorised(s, c, cmd, auth);
    CleanupAuthorised(s, c, auth);
    hide HandlePublish, HandlePlay, Cleanup, Authorised;
  }

  lemma {:induction false} RunAuthorised(s: State, es: seq<Event>, auth: Authorize)
    requires AllAuthorised(s, auth)
    ensures AllAuthorised(Run(s, es, auth), auth)
    decreases |es|
  {
    if es != [] {
      StepAuthorised(s, es[0], auth);
      hide Step, AllAuthorised;
      RunAuthorised(Step(s, es[0], auth), es[1..], auth);
    }
  }

  /**
   In every run from the start a session has a publisher, or a player, only under a key for which
   the authorisation accepts some ticket for publishing, or playing.
   */
  lemma OnlyAuthorised(es: seq<Event>, auth: Authorize, k: Text)
    requires k in Run(START, es, auth).sessions
    ensures Run(START, es, auth).sessions[k].publisher.Some? ==> Authorised(k, true, auth)
    ensures Run(START, es, auth).sessions[k].players != {} ==> Authorised(k, false, auth)
  {
    RunAuthorised(START, es, auth);
    hide Run, Authorised;
  }

  // ---------- Stream ids ----------

  /** How many of the messages of `c` are createStream commands. */
  function Creates(es: seq<Event>, c: Conn): nat {
    if es == [] then 0
    else
      (if es[0].Receive? && es[0].conn == c && DecodeCommand(es[0].message).Some?
          && DecodeCommand(es[0].message).value.name == Ascii("createStream") then 1 else 0)
      + Creates(es[1..], c)
  }

  /** The counter of `c` has gone `n` steps. */
  predicate Counted(s: State, r: State, c: Conn, n: nat) {
    && c in s.contexts && c in r.contexts
    && r.contexts[c].nextStreamId == (s.contexts[c].nextStreamId + n) % 0x1_0000_0000
  }

  lemma StepCounts(s: State, e: Event, auth: Authorize, c: Conn)
    requires c in s.contexts && e != Close(c)
    ensures Counted(s, Step(s, e, auth), c, Creates([e], c))
    ensures Creates([e], c) == 1 ==> Step(s, e, auth).contexts[c].streamId == s.contexts[c].nextStreamId
  {
    CountsOne(e, c);
    hide Creates;
    if e.Receive? {
      if e.conn in s.contexts {
        if DecodeCommand(e.message).Some? {
          CommandCounts(s, e.conn, e.message, DecodeCommand(e.message).value, auth, c);
        } else {
          OthersCount(s, e.conn, e.message, auth);
        }
      }
      hide HandleMessage, DecodeCommand;
    } else {
      OpenCloseCounts(s, e, auth);
      hide Step, DecodeCommand;
    }
  }

  lemma OpenCloseCounts(s: State, e: Event, auth: Authorize)
    requires !e.Receive?
    ensures forall c :: c in s.contexts && e != Close(c) ==>
      c in Step(s, e, auth).contexts && Step(s, e, auth).contexts[c].nextStreamId == s.contexts[c].nextStreamId
  {
    if e.Close? && e.conn in s.contexts {
      CleanupSpares(s.(connected := s.connected - {e.conn}), e.conn);
    }
    hide Cleanup;
  }

  lemma OthersCount(s: State, d: Conn, m: Message, auth: Authorize)
    requires d in s.contexts && DecodeCommand(m).None?
    ensures SameCounters(s, Step(s, Receive(d, m), auth))
  {
    hide DecodeCommand, HandleCommand;
  }

  lemma CommandCounts(s: State, d: Conn, m: Message, cmd: Command, auth: Authorize, c: Conn)
    requires c in s.contexts && d in s.contexts && DecodeCommand(m) == Some(cmd)
    ensures var r := Step(s, Receive(d, m), auth);
      && c in r.contexts
      && if d == c && cmd.name == Ascii("createStream")
         then r.contexts[c].streamId == s.contexts[c].nextStreamId
              && r.contexts[c].nextStreamId == (s.contexts[c].nextStreamId + 1) % 0x1_0000_0000
         else r.contexts[c].nextStreamId == s.contexts[c].nextStreamId
  {
    CommandStep(s, d, m, cmd, auth);
    DispatchCounts(s, d, cmd, auth);
    hide Dispatch, DecodeCommand, Step, SameCounters;
    if !(cmd.name == Ascii("createStream")) {
      SameCount(s, Dispatch(s, d, cmd, auth).1, c);
    }
  }

  lemma DispatchCounts(s: State, d: Conn, cmd: Command, auth: Authorize)
    requires d in s.contexts
    ensures var r := Dispatch(s, d, cmd, auth).1;
      if cmd.name == Ascii("createStream")
      then r == HandleCreateStream(s, d).1
      else SameCounters(s, r)
  {
    assert Ascii("createStream") != Ascii("connect");
    CommandsCount(s, d, cmd, auth);
    assert SameCounters(s, s);
    hide Ascii, HandlePublish, HandlePlay, HandleConnect, HandleDeleteStream, HandleCreateStream, SameCounters;
  }

  lemma SameCount(s: State, r: State, c: Conn)
    requires SameCounters(s, r) && c in s.contexts
    ensures c in r.contexts && r.contexts[c].nextStreamId == s.contexts[c].nextStreamId
  {
  }

  lemma CountsOne(e: Event, c: Conn)
    ensures Creates([e], c) ==
      if e.Receive? && e.conn == c && DecodeCommand(e.message).Some?
         && DecodeCommand(e.message).value.name == Ascii("createStream") then 1 else 0
  {
    hide DecodeCommand;
    assert [e][1..] == [];
  }

  /** No other command touches the counter. */
  lemma CommandsCount(s: State, d: Conn, cmd: Command, auth: Authorize)
    requires d in s.contexts
    ensures SameCounters(s, HandleConnect(s, d, cmd).1) && SameCounters(s, HandleDeleteStream(s, d, cmd).1)
    ensures SameCounters(s, HandlePublish(s, d, cmd, auth).1) && SameCounters(s, HandlePlay(s, d, cmd, auth).1)
  {
    PublishCounts(s, d, cmd, auth);
    PlayCounts(s, d, cmd, auth);
    DeleteCounts(s, d, cmd);
    hide AppOf, HandleDeleteStream, HandlePublish, HandlePlay;
  }

  lemma DeleteCounts(s: State, d: Conn, cmd: Command)
    requires d in s.contexts
    ensures SameCounters(s, HandleDeleteStream(s, d, cmd).1)
  {
    CleanupSpares(s, d);
    hide Cleanup;
  }

  lemma PublishCounts(s: State, d: Conn, cmd: Command, auth: Authorize)
    requires d in s.contexts
    ensures SameCounters(s, HandlePublish(s, d, cmd, auth).1)
  {
    hide Target, MakeKey, PublishType;
  }

  lemma PlayCounts(s: State, d: Conn, cmd: Command, auth: Authorize)
    requires d in s.contexts
    ensures SameCounters(s, HandlePlay(s, d, cmd, auth).1)
  {
    hide Target, MakeKey;
  }

  predicate SameCounters(s: State, r: State) {
    && r.contexts.Keys == s.contexts.Keys
    && forall c :: c in s.contexts ==> r.contexts[c].nextStreamId == s.contexts[c].nextStreamId
  }

  /** A connection that stays: its streams are numbered one by one from the first free id, modulo 2^32. */
  lemma {:induction false} StreamIds(s: State, es: seq<Event>, auth: Authorize, c: Conn)
    requires c in s.contexts && Close(c) !in es
    ensures Counted(s, Run(s, es, auth), c, Creates(es, c))
    decreases |es|
  {
    if es != [] {
      var e, rest := es[0], es[1..];
      assert Close(c) != e && Close(c) !in rest;
      StepCounts(s, e, auth, c);
      CountsStep(es, c);
      RunStep(s, es, auth);
      hide *;
      var s1 := Step(s, e, auth);
      assert c in s1.contexts by { CountedIs(s, s1, c, Creates([e], c)); }
      StreamIds(s1, rest, auth, c);
      CountedOn(s, s1, Run(s1, rest, auth), c, Creates([e], c), Creates(rest, c));
    }
  }

  lemma CountedIs(s: State, r: State, c: Conn, n: nat)
    requires Counted(s, r, c, n)
    ensures c in r.contexts
  {
  }

  lemma RunStep(s: State, es: seq<Event>, auth: Authorize)
    requires es != []
    ensures Run(s, es, auth) == Run(Step(s, es[0], auth), es[1..], auth)
  {
  }

  lemma CountsStep(es: seq<Event>, c: Conn)
    requires es != []
    ensures Creates(es, c) == Creates([es[0]], c) + Creates(es[1..], c)
  {
    CountsOne(es[0], c);
    hide DecodeCommand;
  }

  lemma CountedOn(s: State, r: State, u: State, c: Conn, i: nat, j: nat)
    requires Counted(s, r, c, i) && Counted(r, u, c, j)
    ensures Counted(s, u, c, i + j)
  {
  }

  /** The `n`-th createStream of a new connection opens stream `n`. */
  lemma NthStream(s: State, c: Conn, es: seq<Event>, last: Event, auth: Authorize)
    requires c !in s.contexts && Close(c) !in es && last != Close(c) && Creates([last], c) == 1
    ensures var r := Run(Step(s, Open(c), auth), es, auth);
      && c in r.contexts && c in Step(r, last, auth).contexts
      && Step(r, last, auth).contexts[c].streamId == (Creates(es, c) + 1) % 0x1_0000_0000
  {
    var s1 := Step(s, Open(c), auth);
    assert s1.contexts[c] == NEW_CONTEXT;
    StreamIds(s1, es, auth, c);
    StepCounts(Run(s1, es, auth), last, auth, c);
    hide Step, Run, Creates;
  }
}
