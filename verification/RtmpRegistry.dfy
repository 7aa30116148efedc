/**
 Sessions and connections of the RTMP server (rtmp/RtmpServer.cc, rtmp/RtmpSessionManager.cc and the
 command handlers of rtmp/RtmpConnection.cc) as one state machine: connections open, send messages
 and close; each message is handled to the end before the next one.
 */
module RtmpRegistry {
  import opened Bytes
  import opened RtmpTypes
  import opened RtmpCommands

  type Conn = nat

  datatype Role = Unknown | Publisher | Player

  /**
   The registry part of a connection's context. `session` is the weak reference: `None` when it was
   never set, was cleared, or when the session it pointed to is gone.
   */
  datatype Context = Context(
    role: Role,
    app: Text,
    streamName: Text,
    publishType: Text,
    streamId: U32,
    nextStreamId: U32,
    session: Option<Text>)

  const NEW_CONTEXT := Context(Unknown, [], [], [], 0, 1, None)

  /** `MakeStreamKey`, once both parts are known. */
  function MakeKey(app: Text, streamName: Text): (k: Text)
    ensures k == [] <==> app == [] || streamName == []
  {
    if app == [] || streamName == [] then [] else [SLASH] + app + [SLASH] + streamName
  }

  function StreamKey(x: Context): Text {
    MakeKey(x.app, x.streamName)
  }

  datatype Session = Session(publisher: Option<Conn>, players: set<Conn>) {
    predicate Empty() {
      publisher == None && players == {}
    }

    predicate Refers(c: Conn) {
      publisher == Some(c) || c in players
    }
  }

  const NEW_SESSION := Session(None, {})

  datatype State = State(contexts: map<Conn, Context>, sessions: map<Text, Session>, connected: set<Conn>)

  const START := State(map[], map[], {})

  /** The authorisation callback: stream key, ticket, and whether it is a publisher who asks. */
  type Authorize = (Text, Text, bool) -> bool

  function WithContext(s: State, c: Conn, x: Context): (r: State)
    ensures c in r.contexts
  {
    s.(contexts := s.contexts[c := x])
  }

  function WithSession(s: State, k: Text, e: Session): State {
    s.(sessions := s.sessions[k := e])
  }

  // ---------- The session manager and the server ----------

  function GetOrCreate(s: State, k: Text): (r: State)
    ensures k in r.sessions
  {
    if k in s.sessions then s else WithSession(s, k, NEW_SESSION)
  }

  /** Whoever held a weak reference to the session `k` now holds an expired one. */
  function Expire(x: Context, k: Text): Context {
    if x.session == Some(k) then x.(session := None) else x
  }

  function RemoveIfEmpty(s: State, k: Text): State {
    if k in s.sessions && s.sessions[k].Empty() then
      State(map c | c in s.contexts :: Expire(s.contexts[c], k), s.sessions - {k}, s.connected)
    else s
  }

  function Without(e: Session, c: Conn, role: Role): Session {
    match role
    case Publisher => if e.publisher == Some(c) then e.(publisher := None) else e
    case Player => e.(players := e.players - {c})
    case Unknown => e
  }

  /** `cleanupConnection`. */
  function Cleanup(s: State, c: Conn): State
    requires c in s.contexts
  {
    var k := StreamKey(s.contexts[c]);
    if k == [] || k !in s.sessions then s
    else RemoveIfEmpty(WithSession(s, k, Without(s.sessions[k], c, s.contexts[c].role)), k)
  }

  /** `detachConnectionFromSession`. */
  function Detach(s: State, c: Conn): State
    requires c in s.contexts
  {
    var s1 := Cleanup(s, c);
    WithContext(s1, c,
                s.contexts[c].(session := None, role := Unknown, streamId := 0, streamName := [], publishType := []))
  }

  // ---------- The command handlers ----------

  function HandleConnect(s: State, c: Conn, cmd: Command): (bool, State)
    requires c in s.contexts
  {
    match AppOf(cmd.commandObject)
    case None => (false, s)
    case Some(app) => (true, WithContext(s, c, s.contexts[c].(app := app)))
  }

  function HandleCreateStream(s: State, c: Conn): (bool, State)
    requires c in s.contexts
  {
    var x := s.contexts[c];
    (true, WithContext(s, c, x.(streamId := x.nextStreamId, nextStreamId := Wrap32(x.nextStreamId + 1))))
  }

  /** The checks that publish and play share: an open stream, its id, and a stream name. */
  function Target(x: Context, cmd: Command): Option<StreamTarget> {
    if x.streamId == 0 || cmd.messageStreamId != x.streamId then None
    else if cmd.arguments == [] || !cmd.arguments[0].String? then None
    else ParseTarget(cmd.arguments[0].text)
  }

  function PublishType(x: Context, cmd: Command): Text {
    if |cmd.arguments| >= 2 && cmd.arguments[1].String? then cmd.arguments[1].text else x.publishType
  }

  function Bind(s: State, c: Conn, role: Role, k: Text): State
    requires c in s.contexts
  {
    WithContext(s, c, s.contexts[c].(role := role, session := Some(k)))
  }

  /** A session that already has another publisher stays as it is, and so does the connection. */
  function AttachPublisher(s: State, c: Conn, k: Text): State
    requires c in s.contexts
  {
    var s1 := GetOrCreate(s, k);
    var e := s1.sessions[k];
    if e.publisher.Some? && e.publisher != Some(c) then s1
    else Bind(WithSession(s1, k, e.(publisher := Some(c))), c, Publisher, k)
  }

  function AttachPlayer(s: State, c: Conn, k: Text): State
    requires c in s.contexts
  {
    var s1 := GetOrCreate(s, k);
    var e := s1.sessions[k];
    Bind(WithSession(s1, k, e.(players := e.players + {c})), c, Player, k)
  }

  /** The stream name is stored before anything about it is checked. */
  function PublishTo(s: State, c: Conn, t: StreamTarget, publishType: Text, auth: Authorize): (bool, State)
    requires c in s.contexts
  {
    var x := s.contexts[c].(streamName := t.streamName, publishType := publishType);
    var s1 := WithContext(s, c, x);
    var k := StreamKey(x);
    if k == [] || !auth(k, t.ticket, true) then (false, s1) else (true, AttachPublisher(s1, c, k))
  }

  function HandlePublish(s: State, c: Conn, cmd: Command, auth: Authorize): (bool, State)
    requires c in s.contexts
  {
    match Target(s.contexts[c], cmd)
    case None => (false, s)
    case Some(t) => PublishTo(s, c, t, PublishType(s.contexts[c], cmd), auth)
  }

  function PlayFrom(s: State, c: Conn, t: StreamTarget, auth: Authorize): (bool, State)
    requires c in s.contexts
  {
    var x := s.contexts[c].(streamName := t.streamName);
    var s1 := WithContext(s, c, x);
    var k := StreamKey(x);
    if k == [] || !auth(k, t.ticket, false) then (false, s1) else (true, AttachPlayer(s1, c, k))
  }

  function HandlePlay(s: State, c: Conn, cmd: Command, auth: Authorize): (bool, State)
    requires c in s.contexts
  {
    match Target(s.contexts[c], cmd)
    case None => (false, s)
    case Some(t) => PlayFrom(s, c, t, auth)
  }

  function HandleDeleteStream(s: State, c: Conn, cmd: Command): (bool, State)
    requires c in s.contexts
  {
    var x := s.contexts[c];
    if x.role == Unknown || x.session == None then (true, s)
    else if cmd.messageStreamId != 0 && x.streamId != 0 && cmd.messageStreamId != x.streamId then (false, s)
    else (true, Detach(s, c))
  }

  /** Media of a publisher is broadcast; the broadcast drops the players that are not connected. */
  function HandleMedia(s: State, c: Conn): (bool, State)
    requires c in s.contexts
  {
    var x := s.contexts[c];
    if x.role != Publisher then (true, s)
    else if x.session.None? || x.session.value !in s.sessions then (false, s)
    else
      var k := x.session.value;
      (true, WithSession(s, k, s.sessions[k].(players := s.sessions[k].players * s.connected)))
  }

  function HandleCommand(s: State, c: Conn, cmd: Command, auth: Authorize): (bool, State)
    requires c in s.contexts
  {
    if cmd.name == CONNECT then HandleConnect(s, c, cmd)
    else if cmd.name == CREATE_STREAM then HandleCreateStream(s, c)
    else if cmd.name == PUBLISH then HandlePublish(s, c, cmd, auth)
    else if cmd.name == PLAY then HandlePlay(s, c, cmd, auth)
    else if cmd.name == DELETE_STREAM || cmd.name == CLOSE_STREAM then HandleDeleteStream(s, c, cmd)
    else (true, s)
  }

  function HandleMessage(s: State, c: Conn, m: Message, auth: Authorize): (bool, State)
    requires c in s.contexts
  {
    if m.typeId == SET_CHUNK_SIZE then (true, s)
    else if m.typeId == COMMAND_AMF0 then
      match DecodeCommand(m)
      case None => (false, s)
      case Some(cmd) => HandleCommand(s, c, cmd, auth)
    else if m.typeId == DATA_AMF0 || m.typeId == AUDIO || m.typeId == VIDEO then HandleMedia(s, c)
    else (true, s)
  }

  // ---------- Runs ----------

  datatype Event =
    | Open(conn: Conn)
    | Receive(conn: Conn, message: Message)
    | Close(conn: Conn)

  /** A connection that failed a message is shut down: no longer connected, but it may still send. */
  function Shutdown(s: State, c: Conn): State {
    s.(connected := s.connected - {c})
  }

  function Step(s: State, e: Event, auth: Authorize): State {
    match e
    case Open(c) =>
      if c in s.contexts then s
      else State(s.contexts[c := NEW_CONTEXT], s.sessions, s.connected + {c})
    case Receive(c, m) =>
      if c !in s.contexts then s
      else
        var (ok, s1) := HandleMessage(s, c, m, auth);
        if ok then s1 else Shutdown(s1, c)
    case Close(c) =>
      if c !in s.contexts then s
      else
        var s1 := Cleanup(s.(connected := s.connected - {c}), c);
        s1.(contexts := s1.contexts - {c})
  }

  function Run(s: State, es: seq<Event>, auth: Authorize): State
    decreases |es|
  {
    if es == [] then s else Run(Step(s, es[0], auth), es[1..], auth)
  }

  // ---------- Consistency ----------

  /** The session `k` refers to `c` only in the role, under the key and through the reference that `c` has. */
  ghost predicate Matches(x: Context, e: Session, c: Conn, k: Text) {
    && x.session == Some(k)
    && StreamKey(x) == k
    && x.role == (if e.publisher == Some(c) then Publisher else Player)
    && !(e.publisher == Some(c) && c in e.players)
  }

  ghost predicate SessionsMatch(s: State) {
    forall k, c | k in s.sessions && s.sessions[k].Refers(c) ::
      c in s.contexts && Matches(s.contexts[c], s.sessions[k], c, k)
  }

  ghost predicate NoneEmpty(s: State) {
    forall k | k in s.sessions :: k != [] && !s.sessions[k].Empty()
  }

  /** A publisher is its session's publisher; a player that is still connected is in its session. */
  ghost predicate HasPlace(s: State, c: Conn)
    requires c in s.contexts
  {
    var x := s.contexts[c];
    && (x.session.Some? ==> x.session.value in s.sessions)
    && (x.role == Publisher || (x.role == Player && c in s.connected) ==>
          && x.session.Some?
          && x.session.value in s.sessions
          && (if x.role == Publisher then s.sessions[x.session.value].publisher == Some(c)
              else c in s.sessions[x.session.value].players))
  }

  ghost predicate Consistent(s: State) {
    && NoneEmpty(s)
    && SessionsMatch(s)
    && (forall c | c in s.contexts :: HasPlace(s, c))
    && s.connected <= s.contexts.Keys
  }

  ghost predicate Referenced(s: State, c: Conn) {
    exists k :: k in s.sessions && s.sessions[k].Refers(c)
  }
}
