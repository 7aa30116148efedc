/**
 The registry and the sessions together: every step of the server makes certain events happen to one
 session, and the session's whole life on the server is a run of those events.
 */
module RtmpLive {
  import opened Bytes
  import opened RtmpTypes
  import opened RtmpCommands
  import R = RtmpRegistry
  import S = RtmpSessions

  type Conn = R.Conn

  type Sessions = map<Text, S.Session>

  /** What a handler makes happen, and under which key. */
  datatype Effect = Effect(key: Text, events: seq<S.Event>)

  const NOTHING := Effect([], [])

  function Happens(f: Effect, k: Text): seq<S.Event> {
    if k == f.key then f.events else []
  }

  // ---------- What each handler makes happen ----------

  function Leaving(x: R.Context, c: Conn): Effect {
    if x.role == R.Unknown || R.StreamKey(x) == [] then NOTHING
    else Effect(R.StreamKey(x), [if x.role == R.Publisher then S.UnpublishEvent(c) else S.LeaveEvent(c)])
  }

  function PublishEffect(x: R.Context, c: Conn, t: StreamTarget, auth: R.Authorize): Effect {
    var k := R.MakeKey(x.app, t.streamName);
    if k == [] || !auth(k, t.ticket, true) then NOTHING else Effect(k, [S.PublishEvent(c)])
  }

  function PlayEffect(x: R.Context, c: Conn, t: StreamTarget, auth: R.Authorize): Effect {
    var k := R.MakeKey(x.app, t.streamName);
    if k == [] || !auth(k, t.ticket, false) then NOTHING else Effect(k, [S.JoinEvent(c)])
  }

  function DeleteEffect(x: R.Context, c: Conn, cmd: Command): Effect {
    if x.role == R.Unknown || x.session == None then NOTHING
    else if cmd.messageStreamId != 0 && x.streamId != 0 && cmd.messageStreamId != x.streamId then NOTHING
    else Leaving(x, c)
  }

  function CommandEffect(x: R.Context, c: Conn, cmd: Command, auth: R.Authorize): Effect {
    if cmd.name == CONNECT || cmd.name == CREATE_STREAM then NOTHING
    else if cmd.name == PUBLISH && R.Target(x, cmd).Some? then PublishEffect(x, c, R.Target(x, cmd).value, auth)
    else if cmd.name == PLAY && R.Target(x, cmd).Some? then PlayEffect(x, c, R.Target(x, cmd).value, auth)
    else if cmd.name == DELETE_STREAM || cmd.name == CLOSE_STREAM then DeleteEffect(x, c, cmd)
    else NOTHING
  }

  function MediaEffect(s: R.State, c: Conn, m: Message): Effect
    requires c in s.contexts
  {
    var x := s.contexts[c];
    if x.role == R.Publisher && x.session.Some? && x.session.value in s.sessions
    then Effect(x.session.value, [S.MediaEvent(m)]) else NOTHING
  }

  function MessageEffect(s: R.State, c: Conn, m: Message, auth: R.Authorize): Effect
    requires c in s.contexts
  {
    if m.typeId == SET_CHUNK_SIZE then NOTHING
    else if m.typeId == COMMAND_AMF0 then
      match DecodeCommand(m)
      case None => NOTHING
      case Some(cmd) => CommandEffect(s.contexts[c], c, cmd, auth)
    else if m.typeId == DATA_AMF0 || m.typeId == AUDIO || m.typeId == VIDEO then MediaEffect(s, c, m)
    else NOTHING
  }

  // ---------- The server with its sessions ----------

  /** The session of a key; one that is not registered would be created new. */
  function At(ss: Sessions, connected: set<Conn>, k: Text): S.Session {
    if k in ss then ss[k] else S.Fresh(connected)
  }

  /** The sessions that are registered after something happened. */
  function Evolve(ss: Sessions, connected: set<Conn>, keys: set<Text>, f: Effect): Sessions {
    map k | k in keys :: S.Run(At(ss, connected, k), Happens(f, k))
  }

  function ToAll(ss: Sessions, e: S.Event): Sessions {
    map k | k in ss :: S.Step(ss[k], e)
  }

  /** The part of a session that the registry is about. */
  function Registry(t: S.Session): R.Session {
    R.Session(t.publisher, t.players)
  }

  function Registries(ss: Sessions): (r: map<Text, R.Session>)
    ensures r.Keys == ss.Keys
  {
    map k | k in ss :: Registry(ss[k])
  }

  lemma RegistriesUpdate(ss: Sessions, k: Text, t: S.Session)
    ensures Registries(ss[k := t]) == Registries(ss)[k := Registry(t)]
  {
  }

  lemma RegistriesRemove(ss: Sessions, k: Text)
    ensures Registries(ss - {k}) == Registries(ss) - {k}
  {
  }

  lemma RegistriesToAll(ss: Sessions, e: S.Event)
    requires e.ConnectEvent? || e.DisconnectEvent?
    ensures Registries(ToAll(ss, e)) == Registries(ss)
  {
  }

  lemma EvolveOne(ss: Sessions, connected: set<Conn>, k: Text, v: S.Event)
    ensures Evolve(ss, connected, ss.Keys + {k}, Effect(k, [v])) == ss[k := S.Step(At(ss, connected, k), v)]
  {
    S.RunOne(At(ss, connected, k), v);
    hide S.Step;
    forall j | j in ss && j != k ensures S.Run(At(ss, connected, j), []) == ss[j] {
    }
  }

  /** The same for a session that is looked up, or created, first. */
  lemma EvolveNew(ss: Sessions, connected: set<Conn>, k: Text, v: S.Event)
    ensures var ss1 := ss[k := At(ss, connected, k)];
      ss1[k := S.Step(ss1[k], v)] == Evolve(ss, connected, ss1.Keys, Effect(k, [v]))
  {
    EvolveOne(ss, connected, k, v);
    hide S.Step, Evolve;
    assert ss[k := At(ss, connected, k)].Keys == ss.Keys + {k};
  }

  lemma EvolveElsewhere(ss: Sessions, connected: set<Conn>, f: Effect)
    requires f.events == [] || f.key !in ss
    ensures Evolve(ss, connected, ss.Keys, f) == ss
  {
    forall j | j in ss ensures S.Run(At(ss, connected, j), []) == ss[j] {
    }
  }

  function Restrict(ss: Sessions, keys: set<Text>): Sessions {
    map k | k in ss && k in keys :: ss[k]
  }

  lemma EvolveRestrict(ss: Sessions, connected: set<Conn>, more: set<Text>, keys: set<Text>, f: Effect)
    requires keys <= more
    ensures Restrict(Evolve(ss, connected, more, f), keys) == Evolve(ss, connected, keys, f)
  {
  }

  datatype Live = Live(reg: R.State, sessions: Sessions)

  const START := Live(R.START, map[])

  function Step(s: Live, e: R.Event, auth: R.Authorize): Live {
    var reg := R.Step(s.reg, e, auth);
    match e
    case Open(c) => Live(reg, if c in s.reg.contexts then s.sessions else ToAll(s.sessions, S.ConnectEvent(c)))
    case Receive(c, m) =>
      if c !in s.reg.contexts then s
      else
        var ss := Evolve(s.sessions, s.reg.connected, reg.sessions.Keys, MessageEffect(s.reg, c, m, auth));
        Live(reg, if R.HandleMessage(s.reg, c, m, auth).0 then ss else ToAll(ss, S.DisconnectEvent(c)))
    case Close(c) =>
      if c !in s.reg.contexts then s
      else
        Live(reg, Evolve(ToAll(s.sessions, S.DisconnectEvent(c)), reg.connected, reg.sessions.Keys,
                         Leaving(s.reg.contexts[c], c)))
  }

  function Run(s: Live, es: seq<R.Event>, auth: R.Authorize): Live
    decreases |es|
  {
    if es == [] then s else Run(Step(s, es[0], auth), es[1..], auth)
  }

  lemma StepIsRegistry(s: Live, e: R.Event, auth: R.Authorize)
    ensures Step(s, e, auth).reg == R.Step(s.reg, e, auth)
  {
  }

  // ---------- Registry and sessions agree ----------

  predicate SessionAgrees(e: R.Session, t: S.Session, connected: set<Conn>) {
    t.publisher == e.publisher && t.players == e.players && t.connected == connected
  }

  ghost predicate Agree(s: Live) {
    && s.sessions.Keys == s.reg.sessions.Keys
    && forall k :: k in s.sessions ==> SessionAgrees(s.reg.sessions[k], s.sessions[k], s.reg.connected)
  }

  /** Handling something keeps the agreement, when it changes the sessions as its effect says. */
  ghost predicate Follows(s: R.State, s1: R.State, f: Effect) {
    && s1.connected == s.connected
    && (forall k :: k in s1.sessions ==> FollowsAt(s, s1, f, k))
    && (forall k :: k in s.sessions && k !in s1.sessions ==> GoneIsEmpty(s, f, k))
  }

  /** The registry's part of the session `k` changes as the session's own events say. */
  predicate FollowsAt(s: R.State, s1: R.State, f: Effect, k: Text)
    requires k in s1.sessions
  {
    var was := if k in s.sessions then s.sessions[k] else R.NEW_SESSION;
    s1.sessions[k] == AllHappen(was, s.connected, Happens(f, k))
  }

  predicate GoneIsEmpty(s: R.State, f: Effect, k: Text)
    requires k in s.sessions
  {
    AllHappen(s.sessions[k], s.connected, Happens(f, k)).Empty()
  }

  /** The events of a session as far as the registry sees them. */
  function OneHappens(e: R.Session, connected: set<Conn>, v: S.Event): R.Session {
    match v
    case PublishEvent(p) => if e.publisher.Some? then e else e.(publisher := Some(p))
    case UnpublishEvent(p) => if e.publisher == Some(p) then e.(publisher := None) else e
    case JoinEvent(p) => e.(players := e.players + {p})
    case LeaveEvent(p) => e.(players := e.players - {p})
    case MediaEvent(_) => e.(players := e.players * connected)
    case ConnectEvent(_) => e
    case DisconnectEvent(_) => e
  }

  function AllHappen(e: R.Session, connected: set<Conn>, vs: seq<S.Event>): R.Session
    decreases |vs|
  {
    if vs == [] then e else AllHappen(OneHappens(e, connected, vs[0]), connected, vs[1..])
  }

  lemma OneEvent(e: R.Session, connected: set<Conn>, v: S.Event)
    ensures AllHappen(e, connected, [v]) == OneHappens(e, connected, v)
  {
    assert [v][1..] == [];
  }

  lemma OneAgrees(e: R.Session, t: S.Session, connected: set<Conn>, v: S.Event)
    requires SessionAgrees(e, t, connected) && !v.ConnectEvent? && !v.DisconnectEvent?
    ensures SessionAgrees(OneHappens(e, connected, v), S.Step(t, v), connected)
  {
    hide S.Cached, S.Replay;
  }

  predicate Local(vs: seq<S.Event>) {
    forall v :: v in vs ==> !v.ConnectEvent? && !v.DisconnectEvent?
  }

  lemma {:induction false} AllAgree(e: R.Session, t: S.Session, connected: set<Conn>, vs: seq<S.Event>)
    requires SessionAgrees(e, t, connected) && Local(vs)
    ensures SessionAgrees(AllHappen(e, connected, vs), S.Run(t, vs), connected)
    decreases |vs|
  {
    if vs != [] {
      assert vs[0] in vs && forall v :: v in vs[1..] ==> v in vs;
      hide S.Step, OneHappens;
      OneAgrees(e, t, connected, vs[0]);
      AllAgree(OneHappens(e, connected, vs[0]), S.Step(t, vs[0]), connected, vs[1..]);
    }
  }

  lemma EvolveAgrees(s: Live, s1: R.State, f: Effect)
    requires Agree(s) && Follows(s.reg, s1, f) && Local(f.events)
    ensures Agree(Live(s1, Evolve(s.sessions, s.reg.connected, s1.sessions.Keys, f)))
  {
    hide S.Run, AllHappen, S.Fresh;
    forall k | k in s1.sessions
      ensures SessionAgrees(s1.sessions[k], S.Run(At(s.sessions, s.reg.connected, k), Happens(f, k)), s1.connected)
    {
      assert FollowsAt(s.reg, s1, f, k);
      FreshAgrees(s.reg.connected);
      var was := if k in s.reg.sessions then s.reg.sessions[k] else R.NEW_SESSION;
      AllAgree(was, At(s.sessions, s.reg.connected, k), s.reg.connected, Happens(f, k));
    }
  }

  lemma FreshAgrees(connected: set<Conn>)
    ensures SessionAgrees(R.NEW_SESSION, S.Fresh(connected), connected)
  {
  }

  lemma ToAllAgrees(s: Live, s1: R.State, e: S.Event)
    requires Agree(s) && s1.sessions == s.reg.sessions
    requires (e.ConnectEvent? && s1.connected == s.reg.connected + {e.peer})
          || (e.DisconnectEvent? && s1.connected == s.reg.connected - {e.peer})
    ensures Agree(Live(s1, ToAll(s.sessions, e)))
  {
  }

  // ---------- The handlers have their effects ----------

  lemma NothingFollows(s: R.State, s1: R.State)
    requires s1.connected == s.connected && s1.sessions == s.sessions
    ensures Follows(s, s1, NOTHING)
  {
  }

  lemma CleanupFollows(s: R.State, c: Conn)
    requires c in s.contexts
    ensures Follows(s, R.Cleanup(s, c), Leaving(s.contexts[c], c))
  {
    hide R.StreamKey, AllHappen;
    var f, s1 := Leaving(s.contexts[c], c), R.Cleanup(s, c);
    if f.events != [] && f.key in s.sessions {
      OneEvent(s.sessions[f.key], s.connected, f.events[0]);
    }
    forall k | k in s1.sessions ensures FollowsAt(s, s1, f, k) {
      NoEvent(s.sessions[k], s.connected);
    }
    forall k | k in s.sessions && k !in s1.sessions ensures GoneIsEmpty(s, f, k) {
      NoEvent(s.sessions[k], s.connected);
    }
  }

  lemma NoEvent(e: R.Session, connected: set<Conn>)
    ensures AllHappen(e, connected, []) == e
  {
  }

  lemma PublishFollows(s: R.State, c: Conn, t: StreamTarget, publishType: Text, auth: R.Authorize)
    requires c in s.contexts
    ensures Follows(s, R.PublishTo(s, c, t, publishType, auth).1, PublishEffect(s.contexts[c], c, t, auth))
  {
    hide R.MakeKey, AllHappen;
    var f, s1 := PublishEffect(s.contexts[c], c, t, auth), R.PublishTo(s, c, t, publishType, auth).1;
    forall k | k in s1.sessions ensures FollowsAt(s, s1, f, k) {
      var was := if k in s.sessions then s.sessions[k] else R.NEW_SESSION;
      NoEvent(was, s.connected);
      OneEvent(was, s.connected, S.PublishEvent(c));
    }
  }

  lemma PlayFollows(s: R.State, c: Conn, t: StreamTarget, auth: R.Authorize)
    requires c in s.contexts
    ensures Follows(s, R.PlayFrom(s, c, t, auth).1, PlayEffect(s.contexts[c], c, t, auth))
  {
    hide R.MakeKey, AllHappen;
    var f, s1 := PlayEffect(s.contexts[c], c, t, auth), R.PlayFrom(s, c, t, auth).1;
    forall k | k in s1.sessions ensures FollowsAt(s, s1, f, k) {
      var was := if k in s.sessions then s.sessions[k] else R.NEW_SESSION;
      NoEvent(was, s.connected);
      OneEvent(was, s.connected, S.JoinEvent(c));
    }
  }

  lemma DeleteFollows(s: R.State, c: Conn, cmd: Command)
    requires c in s.contexts
    ensures Follows(s, R.HandleDeleteStream(s, c, cmd).1, DeleteEffect(s.contexts[c], c, cmd))
  {
    CleanupFollows(s, c);
    hide R.Cleanup, Leaving, FollowsAt, GoneIsEmpty;
    DetachIsCleanup(s, c);
    FollowsSame(s, R.Cleanup(s, c), R.Detach(s, c), Leaving(s.contexts[c], c));
    NothingFollows(s, s);
  }

  lemma DetachIsCleanup(s: R.State, c: Conn)
    requires c in s.contexts
    ensures R.Detach(s, c).sessions == R.Cleanup(s, c).sessions
    ensures R.Detach(s, c).connected == R.Cleanup(s, c).connected
  {
    hide R.Cleanup;
  }

  lemma FollowsSame(s: R.State, s1: R.State, s2: R.State, f: Effect)
    requires Follows(s, s1, f) && s2.sessions == s1.sessions && s2.connected == s1.connected
    ensures Follows(s, s2, f)
  {
    forall k | k in s2.sessions ensures FollowsAt(s, s2, f, k) {
      assert FollowsAt(s, s1, f, k);
    }
  }

  lemma MediaFollows(s: R.State, c: Conn, m: Message)
    requires c in s.contexts
    ensures Follows(s, R.HandleMedia(s, c).1, MediaEffect(s, c, m))
  {
    hide AllHappen;
    var f, s1 := MediaEffect(s, c, m), R.HandleMedia(s, c).1;
    forall k | k in s1.sessions ensures FollowsAt(s, s1, f, k) {
      NoEvent(s.sessions[k], s.connected);
      OneEvent(s.sessions[k], s.connected, S.MediaEvent(m));
    }
  }

  lemma CommandFollows(s: R.State, c: Conn, cmd: Command, auth: R.Authorize)
    requires c in s.contexts
    ensures Follows(s, R.HandleCommand(s, c, cmd, auth).1, CommandEffect(s.contexts[c], c, cmd, auth))
    ensures Local(CommandEffect(s.contexts[c], c, cmd, auth).events)
  {
    var x := s.contexts[c];
    hide R.MakeKey, R.Target, AppOf, R.PublishTo, R.PlayFrom, R.Detach, R.StreamKey, Follows, R.HandleDeleteStream;
    if cmd.name == CONNECT {
      NothingFollows(s, R.HandleConnect(s, c, cmd).1);
    } else if cmd.name == CREATE_STREAM {
      NothingFollows(s, R.HandleCreateStream(s, c).1);
    } else if cmd.name == PUBLISH && R.Target(x, cmd).Some? {
      PublishFollows(s, c, R.Target(x, cmd).value, R.PublishType(x, cmd), auth);
    } else if cmd.name == PLAY && R.Target(x, cmd).Some? {
      PlayFollows(s, c, R.Target(x, cmd).value, auth);
    } else if cmd.name == DELETE_STREAM || cmd.name == CLOSE_STREAM {
      DeleteFollows(s, c, cmd);
    } else {
      NothingFollows(s, s);
    }
  }

  lemma MessageFollows(s: R.State, c: Conn, m: Message, auth: R.Authorize)
    requires c in s.contexts
    ensures Follows(s, R.HandleMessage(s, c, m, auth).1, MessageEffect(s, c, m, auth))
    ensures Local(MessageEffect(s, c, m, auth).events)
  {
    hide R.HandleCommand, CommandEffect, DecodeCommand, Follows, R.HandleMedia;
    NothingFollows(s, s);
    MediaFollows(s, c, m);
    if DecodeCommand(m).Some? {
      CommandFollows(s, c, DecodeCommand(m).value, auth);
    }
  }

  lemma StepKeepsAgree(s: Live, e: R.Event, auth: R.Authorize)
    requires Agree(s)
    ensures Agree(Step(s, e, auth))
  {
    hide R.HandleMessage, MessageEffect, R.Cleanup, Leaving, Evolve, ToAll, Follows, Agree, Local;
    match e
    case Open(c) =>
      if c !in s.reg.contexts {
        ToAllAgrees(s, R.Step(s.reg, e, auth), S.ConnectEvent(c));
      } else {
        assert Step(s, e, auth) == s;
      }
    case Receive(c, m) =>
      if c in s.reg.contexts {
        var (ok, s1) := R.HandleMessage(s.reg, c, m, auth);
        var f := MessageEffect(s.reg, c, m, auth);
        MessageFollows(s.reg, c, m, auth);
        EvolveAgrees(s, s1, f);
        var next := Live(s1, Evolve(s.sessions, s.reg.connected, s1.sessions.Keys, f));
        if !ok {
          ToAllAgrees(next, R.Shutdown(s1, c), S.DisconnectEvent(c));
        }
      }
    case Close(c) =>
      if c in s.reg.contexts {
        var s0 := R.Shutdown(s.reg, c);
        ToAllAgrees(s, s0, S.DisconnectEvent(c));
        CleanupFollows(s0, c);
        var s1 := R.Cleanup(s0, c);
        FollowsSame(s0, s1, R.Step(s.reg, e, auth), Leaving(s.reg.contexts[c], c));
        LeavingIsLocal(s.reg.contexts[c], c);
        EvolveAgrees(Live(s0, ToAll(s.sessions, S.DisconnectEvent(c))), R.Step(s.reg, e, auth),
                     Leaving(s.reg.contexts[c], c));
        SameConnected(s0, R.Step(s.reg, e, auth), Leaving(s.reg.contexts[c], c));
      }
  }

  lemma LeavingIsLocal(x: R.Context, c: Conn)
    ensures Local(Leaving(x, c).events)
  {
  }

  lemma SameConnected(s: R.State, s1: R.State, f: Effect)
    requires Follows(s, s1, f)
    ensures s1.connected == s.connected
  {
  }

  /** After any run the registry and the sessions' own models say the same. */
  lemma {:induction false} RunKeepsAgree(s: Live, es: seq<R.Event>, auth: R.Authorize)
    requires Agree(s)
    ensures Agree(Run(s, es, auth)) && Run(s, es, auth).reg == R.Run(s.reg, es, auth)
    decreases |es|
  {
    if es != [] {
      StepKeepsAgree(s, es[0], auth);
      StepIsRegistry(s, es[0], auth);
      hide Agree, Step, R.Step;
      RunKeepsAgree(Step(s, es[0], auth), es[1..], auth);
    }
  }

  // ---------- The life of a session ----------

  /** Everything that one step of the server makes happen to the session `k`. */
  function Happened(s: Live, e: R.Event, auth: R.Authorize, k: Text): seq<S.Event> {
    if e.Open? then (if e.conn in s.reg.contexts then [] else [S.ConnectEvent(e.conn)])
    else if e.conn !in s.reg.contexts then []
    else if e.Close? then [S.DisconnectEvent(e.conn)] + Happens(Leaving(s.reg.contexts[e.conn], e.conn), k)
    else
      Happens(MessageEffect(s.reg, e.conn, e.message, auth), k)
      + if R.HandleMessage(s.reg, e.conn, e.message, auth).0 then [] else [S.DisconnectEvent(e.conn)]
  }

  lemma StepAt(s: Live, e: R.Event, auth: R.Authorize, k: Text)
    requires Agree(s) && k in Step(s, e, auth).sessions
    ensures Step(s, e, auth).sessions[k] == S.Run(At(s.sessions, s.reg.connected, k), Happened(s, e, auth, k))
  {
    hide MessageEffect, R.HandleMessage, Leaving, S.Step, S.Run, R.Cleanup;
    match e
    case Open(c) =>
      if c in s.reg.contexts {
        NothingRuns(s.sessions[k]);
      } else {
        S.RunOne(s.sessions[k], S.ConnectEvent(c));
      }
    case Receive(c, m) =>
      if c in s.reg.contexts {
        var happens := Happens(MessageEffect(s.reg, c, m, auth), k);
        var was := At(s.sessions, s.reg.connected, k);
        S.RunConcat(was, happens, [S.DisconnectEvent(c)]);
        S.RunOne(S.Run(was, happens), S.DisconnectEvent(c));
        assert happens + [] == happens;
      } else {
        NothingRuns(s.sessions[k]);
      }
    case Close(c) =>
      if c in s.reg.contexts {
        CleanupCreatesNone(R.Shutdown(s.reg, c), c, k);
        S.RunConcat(s.sessions[k], [S.DisconnectEvent(c)], Happens(Leaving(s.reg.contexts[c], c), k));
        S.RunOne(s.sessions[k], S.DisconnectEvent(c));
      } else {
        NothingRuns(s.sessions[k]);
      }
  }

  lemma NothingRuns(t: S.Session)
    ensures S.Run(t, []) == t
  {
  }

  lemma CleanupCreatesNone(s: R.State, c: Conn, k: Text)
    requires c in s.contexts && k in R.Cleanup(s, c).sessions
    ensures k in s.sessions
  {
    hide R.StreamKey;
  }

  /** Who was connected when the session was created, and what has happened to it since. */
  datatype Life = Life(connected: set<Conn>, events: seq<S.Event>)

  function LifeOf(s: Live, es: seq<R.Event>, auth: R.Authorize, k: Text, life: Life): Life
    decreases |es|
  {
    if es == [] then life
    else
      var s1 := Step(s, es[0], auth);
      LifeOf(s1, es[1..], auth, k,
             if k in s1.sessions then Life(life.connected, life.events + Happened(s, es[0], auth, k))
             else Life(s1.reg.connected, []))
  }

  function Lived(life: Life): S.Session {
    S.Run(S.Fresh(life.connected), life.events)
  }

  /** After any run each session is the run of what happened to it since it was created. */
  lemma {:induction false} SessionIsItsLife(s: Live, es: seq<R.Event>, auth: R.Authorize, k: Text, life: Life)
    requires Agree(s) && At(s.sessions, s.reg.connected, k) == Lived(life)
    ensures var r := Run(s, es, auth);
      At(r.sessions, r.reg.connected, k) == Lived(LifeOf(s, es, auth, k, life))
    decreases |es|
  {
    if es != [] {
      var s1 := Step(s, es[0], auth);
      StepKeepsAgree(s, es[0], auth);
      if k in s1.sessions {
        StepAt(s, es[0], auth, k);
        S.RunConcat(S.Fresh(life.connected), life.events, Happened(s, es[0], auth, k));
        hide Agree, Step, S.Run, Happened, S.Fresh;
        SessionIsItsLife(s1, es[1..], auth, k, Life(life.connected, life.events + Happened(s, es[0], auth, k)));
      } else {
        NothingRuns(S.Fresh(s1.reg.connected));
        hide Agree, Step, S.Run, Happened, S.Fresh;
        SessionIsItsLife(s1, es[1..], auth, k, Life(s1.reg.connected, []));
      }
    }
  }

  // ---------- A late player on the running server ----------

  /** All that a run makes happen to the session `k`. */
  function AllHappened(s: Live, es: seq<R.Event>, auth: R.Authorize, k: Text): seq<S.Event>
    decreases |es|
  {
    if es == [] then []
    else Happened(s, es[0], auth, k) + AllHappened(Step(s, es[0], auth), es[1..], auth, k)
  }

  lemma {:induction false} PlayerIsKept(e: R.Session, connected: set<Conn>, vs: seq<S.Event>, c: Conn)
    requires c in e.players && c in connected && S.LeaveEvent(c) !in vs
    ensures c in AllHappen(e, connected, vs).players
    decreases |vs|
  {
    if vs != [] {
      PlayerIsKept(OneHappens(e, connected, vs[0]), connected, vs[1..], c);
    }
  }

  /** A session with a connected player that stays is not removed. */
  lemma StaysRegistered(s: Live, e: R.Event, auth: R.Authorize, k: Text, c: Conn)
    requires Agree(s) && k in s.sessions && c in s.sessions[k].players && c in s.sessions[k].connected
    requires S.Stays(Happened(s, e, auth, k), c)
    ensures k in Step(s, e, auth).sessions
  {
    hide MessageEffect, R.HandleMessage, Leaving, R.Cleanup, S.Step, AllHappen;
    assert SessionAgrees(s.reg.sessions[k], s.sessions[k], s.reg.connected);
    match e
    case Open(d) =>
    case Receive(d, m) =>
      if d in s.reg.contexts {
        MessageFollows(s.reg, d, m, auth);
        var f := MessageEffect(s.reg, d, m, auth);
        assert forall v :: v in Happens(f, k) ==> v in Happened(s, e, auth, k);
        PlayerIsKept(s.reg.sessions[k], s.reg.connected, Happens(f, k), c);
        NotGone(s.reg, R.HandleMessage(s.reg, d, m, auth).1, f, k, c);
      }
    case Close(d) =>
      if d in s.reg.contexts {
        assert Happened(s, e, auth, k)[0] == S.DisconnectEvent(d) && S.DisconnectEvent(d) in Happened(s, e, auth, k);
        assert forall v :: v in Happens(Leaving(s.reg.contexts[d], d), k) ==> v in Happened(s, e, auth, k);
        var s0, f := R.Shutdown(s.reg, d), Leaving(s.reg.contexts[d], d);
        CleanupFollows(s0, d);
        PlayerIsKept(s0.sessions[k], s0.connected, Happens(f, k), c);
        NotGone(s0, R.Cleanup(s0, d), f, k, c);
      }
  }

  lemma NotGone(s: R.State, s1: R.State, f: Effect, k: Text, c: Conn)
    requires Follows(s, s1, f) && k in s.sessions
    requires c in AllHappen(s.sessions[k], s.connected, Happens(f, k)).players
    ensures k in s1.sessions
  {
    hide AllHappen;
    assert k !in s1.sessions ==> GoneIsEmpty(s, f, k);
  }

  lemma {:induction false} KeptRun(s: Live, es: seq<R.Event>, auth: R.Authorize, k: Text, c: Conn)
    requires Agree(s) && k in s.sessions && c in s.sessions[k].players && c in s.sessions[k].connected
    requires S.Stays(AllHappened(s, es, auth, k), c)
    ensures k in Run(s, es, auth).sessions
    ensures Run(s, es, auth).sessions[k] == S.Run(s.sessions[k], AllHappened(s, es, auth, k))
    decreases |es|
  {
    if es == [] {
      NothingRuns(s.sessions[k]);
    } else {
      var s1, now := Step(s, es[0], auth), Happened(s, es[0], auth, k);
      var later := AllHappened(s1, es[1..], auth, k);
      assert forall v :: v in now || v in later ==> v in now + later;
      StaysRegistered(s, es[0], auth, k, c);
      StepAt(s, es[0], auth, k);
      StepKeepsAgree(s, es[0], auth);
      S.PlayerFeed(s.sessions[k], now, c);
      S.RunConcat(s.sessions[k], now, later);
      hide Agree, Step, S.Run, Happened, S.Fresh;
      KeptRun(s1, es[1..], auth, k, c);
    }
  }

  /** `m` is a play that the server accepts from `c` under the key `k`. */
  predicate PlaysUnder(s: R.State, c: Conn, m: Message, auth: R.Authorize, k: Text) {
    && c in s.contexts && m.typeId == COMMAND_AMF0 && DecodeCommand(m).Some?
    && var cmd := DecodeCommand(m).value;
       && cmd.name == PLAY && R.Target(s.contexts[c], cmd).Some?
       && k == R.MakeKey(s.contexts[c].app, R.Target(s.contexts[c], cmd).value.streamName)
       && k != [] && auth(k, R.Target(s.contexts[c], cmd).value.ticket, false)
  }

  lemma PlayJoins(s: R.State, c: Conn, m: Message, auth: R.Authorize, k: Text)
    requires PlaysUnder(s, c, m, auth, k)
    ensures MessageEffect(s, c, m, auth) == Effect(k, [S.JoinEvent(c)])
    ensures R.HandleMessage(s, c, m, auth).0 && k in R.HandleMessage(s, c, m, auth).1.sessions
  {
    hide DecodeCommand, R.Target, R.MakeKey, R.PublishTo, R.HandleDeleteStream;
    assert PLAY[0] != CONNECT[0] && PLAY[0] != CREATE_STREAM[0] && PLAY[1] != PUBLISH[1];
  }

  /**
   On the running server: a connected client whose play is accepted under the key `k`, after any run
   from the start, and that stays while anything else happens, has been sent the replay of the
   session and then every message published there; its audio and video start at the last key frame
   since the session's publisher took over and go on without gap or duplicate.
   */
  lemma LateServerPlayer(es: seq<R.Event>, c: Conn, m: Message, later: seq<R.Event>, auth: R.Authorize, k: Text)
    returns (n: nat)
    requires var r := Run(START, es, auth);
      && c in r.reg.connected
      && PlaysUnder(r.reg, c, m, auth, k)
      && S.Stays(AllHappened(Step(r, R.Receive(c, m), auth), later, auth, k), c)
    ensures var r := Run(START, es, auth);
      var was := At(r.sessions, r.reg.connected, k);
      var r1 := Step(r, R.Receive(c, m), auth);
      var end := Run(r1, later, auth);
      var media := S.MediaOf(AllHappened(r1, later, auth, k));
      var life := LifeOf(START, es, auth, k, Life({}, []));
      && k in end.sessions
      && S.SentTo(end.sessions[k], c) == S.SentTo(was, c) + (S.Replay(was.cache) + media)
      && S.StartsAtKeyFrame(S.Replay(was.cache) + media, S.Epoch(S.Fresh(life.connected), life.events, []), media, n)
  {
    var r := Run(START, es, auth);
    var e := R.Receive(c, m);
    var r1 := Step(r, e, auth);
    var life := LifeOf(START, es, auth, k, Life({}, []));
    StartAgrees(k);
    RunKeepsAgree(START, es, auth);
    SessionIsItsLife(START, es, auth, k, Life({}, []));
    StepKeepsAgree(r, e, auth);
    PlayRegisters(r, c, m, auth, k);
    var feed := AllHappened(r1, later, auth, k);
    n := S.LatePlayerFeed(life.connected, life.events, c, feed);
    S.JoinReplays(Lived(life), c);
    hide *;
    KeptRun(r1, later, auth, k, c);
  }

  lemma StartAgrees(k: Text)
    ensures Agree(START) && At(START.sessions, START.reg.connected, k) == Lived(Life({}, []))
  {
  }

  lemma PlayRegisters(r: Live, c: Conn, m: Message, auth: R.Authorize, k: Text)
    requires Agree(r) && c in r.reg.connected && PlaysUnder(r.reg, c, m, auth, k)
    ensures var r1 := Step(r, R.Receive(c, m), auth);
      && k in r1.sessions
      && r1.sessions[k] == S.Step(At(r.sessions, r.reg.connected, k), S.JoinEvent(c))
      && At(r.sessions, r.reg.connected, k).connected == r.reg.connected
  {
    var was := At(r.sessions, r.reg.connected, k);
    PlayJoins(r.reg, c, m, auth, k);
    hide R.HandleMessage, MessageEffect, S.Step, S.Run, DecodeCommand, R.Target, R.MakeKey;
    S.RunOne(was, S.JoinEvent(c));
    StepAt(r, R.Receive(c, m), auth, k);
    assert [S.JoinEvent(c)] + [] == [S.JoinEvent(c)];
  }
}
