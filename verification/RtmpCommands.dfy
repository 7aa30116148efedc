/** AMF0 command messages (rtmp/RtmpCommandMessage.cc) and the stream names they carry. */
module RtmpCommands {
  import opened Bytes
  import opened RtmpTypes
  import Amf0
  import OrderedMaps

  type Text = seq<Byte>

  /** "connect", "createStream", "publish", "play", "deleteStream", "closeStream". */
  const CONNECT: Text := [99, 111, 110, 110, 101, 99, 116]
  const CREATE_STREAM: Text := [99, 114, 101, 97, 116, 101, 83, 116, 114, 101, 97, 109]
  const PUBLISH: Text := [112, 117, 98, 108, 105, 115, 104]
  const PLAY: Text := [112, 108, 97, 121]
  const DELETE_STREAM: Text := [100, 101, 108, 101, 116, 101, 83, 116, 114, 101, 97, 109]
  const CLOSE_STREAM: Text := [99, 108, 111, 115, 101, 83, 116, 114, 101, 97, 109]
  /** "app" and "ticket=". */
  const APP: Text := [97, 112, 112]
  const TICKET: Text := [116, 105, 99, 107, 101, 116, 61]

  const QUESTION: Byte := 63
  const AMPERSAND: Byte := 38
  const SLASH: Byte := 47

  datatype Command = Command(
    name: Text,
    messageStreamId: U32,
    commandObject: Amf0.Value,
    arguments: seq<Amf0.Value>)

  /** `DecodeCommandMessageAmf0`: a name, a transaction number, an optional object, arguments. */
  function DecodeCommand(m: Message): Option<Command> {
    if m.typeId != COMMAND_AMF0 then None
    else
      match Amf0.DecodeAll(m.payload)
      case Error(_) => None
      case Ok(vs, _) =>
        if |vs| < 2 || !vs[0].String? || !vs[1].Number? then None
        else
          Some(Command(vs[0].text, m.messageStreamId,
                       if |vs| >= 3 then vs[2] else Amf0.Null,
                       if |vs| >= 3 then vs[3..] else []))
  }

  /** A command message as a client writes it (AMF0 values, one after another). */
  function CommandMessage(cmd: Command, transaction: U64): Message {
    var payload := Amf0.EncodeAll(CommandValues(cmd, transaction));
    Message(0, Wrap32(|payload|), COMMAND_AMF0, cmd.messageStreamId, 3, payload)
  }

  function CommandValues(cmd: Command, transaction: U64): seq<Amf0.Value> {
    [Amf0.String(cmd.name), Amf0.Number(transaction), cmd.commandObject] + cmd.arguments
  }

  /** A written command is the command that is handled. */
  lemma CommandRoundTrip(cmd: Command, transaction: U64)
    requires Amf0.AllCanonical(CommandValues(cmd, transaction)) && Amf0.AllShort(CommandValues(cmd, transaction))
    ensures DecodeCommand(CommandMessage(cmd, transaction)) == Some(cmd)
  {
    Amf0.AllRoundTrip(CommandValues(cmd, transaction));
    hide Amf0.DecodeAll, Amf0.EncodeAll;
  }

  /** The "app" of a connect command. */
  function AppOf(o: Amf0.Value): Option<Text> {
    if !o.Object? && !o.EcmaArray? then None
    else
      var app := OrderedMaps.Find(o.props, APP);
      if app.Some? && app.value.String? then Some(app.value.text) else None
  }

  // ---------- Stream names with a query ----------

  datatype StreamTarget = StreamTarget(streamName: Text, ticket: Text)

  function Ticketed(part: Text, ticket: Text): Text {
    if TICKET <= part then part[|TICKET|..] else ticket
  }

  /** The ticket after the rest of the query; each part may replace it. */
  function TicketOf(query: Text, ticket: Text): Text {
    if query == [] then ticket
    else
      var n := IndexOf(query, AMPERSAND);
      var t := Ticketed(query[..n], ticket);
      if n == |query| then t else TicketOf(query[n + 1..], t)
  }

  /** `ParseStreamTarget`: a name without a query is taken as it is. */
  function ParseTarget(raw: Text): Option<StreamTarget> {
    var q := IndexOf(raw, QUESTION);
    if raw == [] || q == 0 then None
    else if q == |raw| then Some(StreamTarget(raw, []))
    else Some(StreamTarget(raw[..q], TicketOf(raw[q + 1..], [])))
  }

  method ParseStreamTarget(raw: Text) returns (target: Option<StreamTarget>)
    ensures target == ParseTarget(raw)
  {
    if raw == [] {
      return None;
    }
    var question := IndexOf(raw, QUESTION);
    if question == |raw| {
      return Some(StreamTarget(raw, []));
    }
    var streamName, ticket := raw[..question], [];
    var query := raw[question + 1..];
    while query != []
      invariant TicketOf(query, ticket) == TicketOf(raw[question + 1..], [])
      decreases |query|
    {
      var ampersand := IndexOf(query, AMPERSAND);
      var part := query[..ampersand];
      if TICKET <= part {
        ticket := part[|TICKET|..];
      }
      if ampersand == |query| {
        query := [];
        break;
      }
      query := query[ampersand + 1..];
    }
    if streamName == [] {
      return None;
    }
    return Some(StreamTarget(streamName, ticket));
  }

  /** The parts of a query, joined by ampersands. */
  function Query(parts: seq<Text>): Text {
    if parts == [] then []
    else if |parts| == 1 then parts[0]
    else parts[0] + [AMPERSAND] + Query(parts[1..])
  }

  /** The last part that is a ticket counts. */
  function LastTicket(parts: seq<Text>, otherwise: Text): Text {
    if parts == [] then otherwise
    else Ticketed(parts[|parts| - 1], LastTicket(parts[..|parts| - 1], otherwise))
  }

  lemma {:induction false} LastTicketFromFront(parts: seq<Text>, t: Text)
    requires parts != []
    ensures LastTicket(parts, t) == LastTicket(parts[1..], Ticketed(parts[0], t))
  {
    var n := |parts| - 1;
    if n == 0 {
      assert parts[..0] == [] && parts[1..] == [];
    } else {
      LastTicketFromFront(parts[..n], t);
      assert parts[..n][1..] == parts[1..][..n - 1];
    }
  }

  lemma {:induction false} TicketOfQuery(parts: seq<Text>, t: Text)
    requires forall p :: p in parts ==> AMPERSAND !in p
    ensures TicketOf(Query(parts), t) == LastTicket(parts, t)
  {
    if |parts| == 1 {
      IndexOfAbsent(parts[0], AMPERSAND);
      assert parts[..0] == [];
      assert parts[0][..|parts[0]|] == parts[0];
    } else if |parts| > 1 {
      var p, rest := parts[0], Query(parts[1..]);
      var query := p + [AMPERSAND] + rest;
      IndexOfSplit(p, AMPERSAND, rest);
      assert query[..|p|] == p && query[|p| + 1..] == rest;
      TicketOfQuery(parts[1..], Ticketed(p, t));
      LastTicketFromFront(parts, t);
    }
  }

  /** A name and the parts of its query come apart again, whatever parts there are. */
  lemma TargetRoundTrip(name: Text, parts: seq<Text>)
    requires name != [] && QUESTION !in name
    requires forall p :: p in parts ==> AMPERSAND !in p
    ensures ParseTarget(name) == Some(StreamTarget(name, []))
    ensures ParseTarget(name + [QUESTION] + Query(parts)) == Some(StreamTarget(name, LastTicket(parts, [])))
  {
    IndexOfAbsent(name, QUESTION);
    var raw := name + [QUESTION] + Query(parts);
    IndexOfSplit(name, QUESTION, Query(parts));
    assert raw[..|name|] == name && raw[|name| + 1..] == Query(parts);
    TicketOfQuery(parts, []);
  }
}
