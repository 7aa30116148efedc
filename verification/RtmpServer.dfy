/** The server's objects: contexts, sessions and the handlers that update them in place. */
module RtmpServerObject {
  import opened Bytes
  import opened RtmpTypes
  import opened RtmpCommands
  import Sessions = RtmpSessions
  import R = RtmpRegistry
  import L = RtmpLive

  type Conn = R.Conn

  class RtmpConnectionContext {
    var role: R.Role
    var app: Text
    var streamName: Text
    var publishType: Text
    var streamId: U32
    var nextStreamId: U32
    /** A weak reference: it does not keep the session alive. */
    var session: Sessions.RtmpSession?

    ghost function View(locked: Option<Text>): R.Context
      reads this
    {
      R.Context(role, app, streamName, publishType, streamId, nextStreamId, locked)
    }

    function StreamKey(): (k: Text)
      reads this
      ensures k == [] <==> app == [] || streamName == []
    {
      R.MakeKey(app, streamName)
    }

    constructor ()
      ensures session == null && View(None) == R.NEW_CONTEXT
    {
      role := R.Unknown;
      app, streamName, publishType := [], [], [];
      streamId, nextStreamId := 0, 1;
      session := null;
    }

    method Unbind()
      modifies this
      ensures session == null && View(None) == Unbound(old(View(None)))
    {
      session := null;
      role := R.Unknown;
      streamId := 0;
      streamName := [];
      publishType := [];
    }

    method AllocateNextStreamId() returns (id: U32)
      modifies this`nextStreamId
      ensures id == old(nextStreamId) && nextStreamId == Wrap32(id + 1)
    {
      id := nextStreamId;
      nextStreamId := Wrap32(nextStreamId + 1);
    }
  }

  function Unbound(x: R.Context): R.Context {
    x.(session := None, role := R.Unknown, streamId := 0, streamName := [], publishType := [])
  }

  lemma UnpublishIs(s: R.State, ss: L.Sessions, k: Text, c: Conn)
    requires k in ss && s.sessions == L.Registries(ss)
    ensures s.(sessions := L.Registries(ss[k := Sessions.Step(ss[k], Sessions.UnpublishEvent(c))]))
      == R.WithSession(s, k, R.Without(s.sessions[k], c, R.Publisher))
  {
    L.RegistriesUpdate(ss, k, Sessions.Step(ss[k], Sessions.UnpublishEvent(c)));
  }

  lemma LeaveIs(s: R.State, ss: L.Sessions, k: Text, c: Conn)
    requires k in ss && s.sessions == L.Registries(ss)
    ensures s.(sessions := L.Registries(ss[k := Sessions.Step(ss[k], Sessions.LeaveEvent(c))]))
      == R.WithSession(s, k, R.Without(s.sessions[k], c, R.Player))
  {
    L.RegistriesUpdate(ss, k, Sessions.Step(ss[k], Sessions.LeaveEvent(c)));
  }

  lemma PublishIs(s: R.State, ss: L.Sessions, k: Text, c: Conn)
    requires k in ss && s.sessions == L.Registries(ss)
    ensures var e := s.sessions[k];
      && (Sessions.Published(ss[k], c).0 <==> e.publisher == None || e.publisher == Some(c))
      && s.(sessions := L.Registries(ss[k := Sessions.Step(ss[k], Sessions.PublishEvent(c))]))
         == if Sessions.Published(ss[k], c).0 then R.WithSession(s, k, e.(publisher := Some(c))) else s
  {
    L.RegistriesUpdate(ss, k, Sessions.Step(ss[k], Sessions.PublishEvent(c)));
    assert ss[k := ss[k]] == ss;
  }

  lemma JoinIs(s: R.State, ss: L.Sessions, k: Text, c: Conn)
    requires k in ss && s.sessions == L.Registries(ss)
    ensures s.(sessions := L.Registries(ss[k := Sessions.Step(ss[k], Sessions.JoinEvent(c))]))
      == R.WithSession(s, k, s.sessions[k].(players := s.sessions[k].players + {c}))
  {
    hide Sessions.Replay;
    L.RegistriesUpdate(ss, k, Sessions.Step(ss[k], Sessions.JoinEvent(c)));
  }

  lemma MediaIs(s: R.State, ss: L.Sessions, k: Text, m: Message)
    requires k in ss && s.sessions == L.Registries(ss) && ss[k].connected == s.connected
    ensures s.(sessions := L.Registries(ss[k := Sessions.Step(ss[k], Sessions.MediaEvent(m))]))
      == R.WithSession(s, k, s.sessions[k].(players := s.sessions[k].players * s.connected))
  {
    hide Sessions.Cached;
    L.RegistriesUpdate(ss, k, Sessions.Step(ss[k], Sessions.MediaEvent(m)));
  }

  lemma CleanupIs(s: R.State, c: Conn)
    requires c in s.contexts
    ensures var k := R.StreamKey(s.contexts[c]);
      && R.Cleanup(s, c) == (if k == [] || k !in s.sessions then s
           else R.RemoveIfEmpty(R.WithSession(s, k, R.Without(s.sessions[k], c, s.contexts[c].role)), k))
      && (L.Leaving(s.contexts[c], c).events == [] || (k != [] && L.Leaving(s.contexts[c], c).key == k))
  {
    hide R.StreamKey, R.RemoveIfEmpty, R.Without;
  }

  lemma FreshIs(s: R.State, ss: L.Sessions, k: Text)
    requires s.sessions == L.Registries(ss)
    ensures s.(sessions := L.Registries(ss[k := Sessions.Fresh(s.connected)])) == R.WithSession(s, k, R.NEW_SESSION)
  {
    L.RegistriesUpdate(ss, k, Sessions.Fresh(s.connected));
  }

  lemma GetOrCreateIs(s: R.State, k: Text)
    ensures R.GetOrCreate(s, k).contexts == s.contexts
  {
  }

  /** Leaving a registered session is one event there; a connection without a role leaves nothing. */
  lemma LeavingIsOne(ss: L.Sessions, connected: set<Conn>, x: R.Context, c: Conn)
    requires R.StreamKey(x) in ss && R.StreamKey(x) != []
    ensures var k := R.StreamKey(x);
      L.Evolve(ss, connected, ss.Keys, L.Leaving(x, c)) ==
        match x.role
        case Publisher => ss[k := Sessions.Step(ss[k], Sessions.UnpublishEvent(c))]
        case Player => ss[k := Sessions.Step(ss[k], Sessions.LeaveEvent(c))]
        case Unknown => ss
  {
    hide Sessions.Step, L.Evolve, R.StreamKey;
    var k := R.StreamKey(x);
    assert ss.Keys + {k} == ss.Keys;
    L.EvolveOne(ss, connected, k, Sessions.UnpublishEvent(c));
    L.EvolveOne(ss, connected, k, Sessions.LeaveEvent(c));
    L.EvolveElsewhere(ss, connected, L.NOTHING);
  }

  lemma DetachIsBoth(s: R.State, c: Conn)
    requires c in s.contexts
    ensures R.Cleanup(s, c).contexts.Keys == s.contexts.Keys
    ensures R.Detach(s, c) == R.WithContext(R.Cleanup(s, c), c, Unbound(R.Cleanup(s, c).contexts[c]))
  {
  }

  class RtmpServer {
    const network: Sessions.Network
    const authCallback: R.Authorize
    var contexts: map<Conn, RtmpConnectionContext>
    var sessions: map<Text, Sessions.RtmpSession>

    ghost predicate SessionsKnowTheirKey()
      reads this`sessions
    {
      forall k | k in sessions :: sessions[k].streamKey == k && sessions[k].network == network
    }

    ghost predicate ContextsDiffer()
      reads this`contexts
    {
      forall c, d | c in contexts && d in contexts :: contexts[c] == contexts[d] ==> c == d
    }

    ghost predicate Valid()
      reads this`sessions, this`contexts
    {
      SessionsKnowTheirKey() && ContextsDiffer()
    }

    /** `weak_ptr::lock`: a session lives as long as it is registered. */
    predicate Registered(s: Sessions.RtmpSession?)
      reads this
    {
      s != null && s.streamKey in sessions && sessions[s.streamKey] == s
    }

    ghost function ContextView(x: RtmpConnectionContext): R.Context
      reads this, x
    {
      x.View(if Registered(x.session) then Some(x.session.streamKey) else None)
    }

    ghost function Contexts(): (xs: map<Conn, R.Context>)
      reads this, contexts.Values
      ensures xs.Keys == contexts.Keys
    {
      map c | c in contexts :: ContextView(contexts[c])
    }

    /** The registered sessions with their caches and all that they have sent. */
    ghost function Lives(): (ss: L.Sessions)
      reads this`sessions, sessions.Values, network`connected
      requires SessionsKnowTheirKey()
      ensures ss.Keys == sessions.Keys
    {
      map k | k in sessions :: sessions[k].View()
    }

    ghost function View(): (v: R.State)
      reads this, contexts.Values, sessions.Values, network`connected
      requires Valid()
      ensures v.contexts.Keys == contexts.Keys && v.sessions.Keys == sessions.Keys && v.connected == network.connected
    {
      R.State(Contexts(), L.Registries(Lives()), network.connected)
    }

    ghost function LiveView(): L.Live
      reads this, contexts.Values, sessions.Values, network`connected
      requires Valid()
    {
      L.Live(View(), Lives())
    }

    constructor (n: Sessions.Network, auth: R.Authorize)
      requires n.connected == {}
      ensures Valid() && network == n && authCallback == auth && LiveView() == L.START
    {
      network, authCallback := n, auth;
      contexts, sessions := map[], map[];
    }

    method GetOrCreateSession(k: Text) returns (session: Sessions.RtmpSession)
      requires Valid()
      modifies this`sessions
      ensures Valid() && k in sessions && sessions[k] == session && session.streamKey == k
      ensures session in old(sessions.Values) || fresh(session)
      ensures View() == R.GetOrCreate(old(View()), k)
      ensures Lives() == old(Lives())[k := L.At(old(Lives()), network.connected, k)]
    {
      hide View;
      if k in sessions {
        assert Lives()[k := Lives()[k]] == Lives();
        return sessions[k];
      }
      session := CreateSession(k);
    }

    method CreateSession(k: Text) returns (session: Sessions.RtmpSession)
      requires Valid() && k !in sessions
      modifies this`sessions
      ensures Valid() && k in sessions && sessions[k] == session && fresh(session)
      ensures View() == R.WithSession(old(View()), k, R.NEW_SESSION)
      ensures Lives() == old(Lives())[k := Sessions.Fresh(network.connected)]
    {
      hide View, Contexts, Lives;
      session := new Sessions.RtmpSession(k, network);
      Register(session);
    }

    /** `emplace`: no weak reference can point to a session that is new. */
    method Register(session: Sessions.RtmpSession)
      requires Valid() && session.network == network && session.streamKey !in sessions
      requires session.View() == Sessions.Fresh(network.connected)
      requires forall c | c in contexts :: contexts[c].session != session
      modifies this`sessions
      ensures Valid() && sessions == old(sessions)[session.streamKey := session]
      ensures View() == R.WithSession(old(View()), session.streamKey, R.NEW_SESSION)
      ensures Lives() == old(Lives())[session.streamKey := session.View()]
    {
      hide L.Registries, R.WithSession, Sessions.Fresh;
      sessions := sessions[session.streamKey := session];
      assert Contexts() == old(Contexts());
      hide Contexts;
      assert Lives() == old(Lives())[session.streamKey := session.View()];
      FreshIs(old(View()), old(Lives()), session.streamKey);
    }

    method RemoveIfEmpty(k: Text)
      requires Valid()
      modifies this`sessions
      ensures Valid() && sessions.Values <= old(sessions.Values)
      ensures View() == R.RemoveIfEmpty(old(View()), k)
      ensures sessions.Keys <= old(sessions.Keys) && Lives() == L.Restrict(old(Lives()), sessions.Keys)
    {
      if k in sessions && sessions[k].Empty() {
        Unregister(k);
      }
    }

    method Unregister(k: Text)
      requires Valid() && k in sessions
      modifies this`sessions
      ensures Valid() && sessions == old(sessions) - {k} && Lives() == old(Lives()) - {k}
      ensures View().connected == old(View()).connected
      ensures View().sessions == old(View()).sessions - {k}
      ensures View().contexts == map c | c in old(View()).contexts :: R.Expire(old(View()).contexts[c], k)
    {
      sessions := sessions - {k};
      forall c | c in contexts
        ensures ContextView(contexts[c]) == R.Expire(old(ContextView(contexts[c])), k)
      {
      }
      assert Lives() == old(Lives()) - {k};
      L.RegistriesRemove(old(Lives()), k);
    }

    method KeyOf(c: Conn) returns (k: Text)
      requires Valid() && c in contexts
      ensures k == R.StreamKey(View().contexts[c])
    {
      k := contexts[c].StreamKey();
    }

    method CleanupConnection(c: Conn)
      requires Valid() && c in contexts
      modifies this`sessions, sessions.Values
      ensures Valid() && sessions.Values <= old(sessions.Values)
      ensures View() == R.Cleanup(old(View()), c)
      ensures Lives()
        == L.Evolve(old(Lives()), network.connected, sessions.Keys, L.Leaving(old(View()).contexts[c], c))
    {
      hide View, SessionsKnowTheirKey, ContextsDiffer, Lives, R.StreamKey, R.Without, R.WithSession, R.RemoveIfEmpty,
           R.Cleanup, L.Restrict, L.Evolve, L.Leaving;
      ghost var lives, f := Lives(), L.Leaving(View().contexts[c], c);
      CleanupIs(View(), c);
      var k := KeyOf(c);
      if k == [] || k !in sessions {
        L.EvolveElsewhere(lives, network.connected, f);
        return;
      }
      Leave(k, c);
      ghost var before := sessions.Keys;
      RemoveIfEmpty(k);
      L.EvolveRestrict(lives, network.connected, before, sessions.Keys, f);
    }

    method Leave(k: Text, c: Conn)
      requires Valid() && c in contexts && k in sessions && k != [] && k == R.StreamKey(View().contexts[c])
      modifies sessions[k]
      ensures Valid()
      ensures View() == R.WithSession(old(View()), k,
        R.Without(old(View()).sessions[k], c, old(View()).contexts[c].role))
      ensures Lives()
        == L.Evolve(old(Lives()), network.connected, sessions.Keys, L.Leaving(old(View()).contexts[c], c))
    {
      hide View, SessionsKnowTheirKey, ContextsDiffer, Lives, L.Evolve, Sessions.Step;
      LeavingIsOne(Lives(), network.connected, View().contexts[c], c);
      var role := RoleOf(c);
      if role == R.Publisher {
        DropPublisher(k, c);
      } else if role == R.Player {
        DropPlayer(k, c);
      }
    }

    method RoleOf(c: Conn) returns (role: R.Role)
      requires Valid() && c in contexts
      ensures role == View().contexts[c].role
    {
      role := contexts[c].role;
    }

    method DropPublisher(k: Text, c: Conn)
      requires Valid() && k in sessions
      modifies sessions[k]
      ensures Valid()
      ensures View() == R.WithSession(old(View()), k, R.Without(old(View()).sessions[k], c, R.Publisher))
      ensures Lives() == old(Lives())[k := Sessions.Step(old(Lives())[k], Sessions.UnpublishEvent(c))]
    {
      hide Contexts, L.Registries, R.Without, R.WithSession;
      sessions[k].ClearPublisher(c);
      ghost var lives := old(Lives());
      assert sessions[k].View() == Sessions.Step(lives[k], Sessions.UnpublishEvent(c));
      hide Sessions.Step;
      assert Lives() == lives[k := Sessions.Step(lives[k], Sessions.UnpublishEvent(c))];
      UnpublishIs(old(View()), lives, k, c);
    }

    method DropPlayer(k: Text, c: Conn)
      requires Valid() && k in sessions
      modifies sessions[k]
      ensures Valid()
      ensures View() == R.WithSession(old(View()), k, R.Without(old(View()).sessions[k], c, R.Player))
      ensures Lives() == old(Lives())[k := Sessions.Step(old(Lives())[k], Sessions.LeaveEvent(c))]
    {
      hide Contexts, L.Registries, R.Without, R.WithSession;
      sessions[k].RemovePlayer(c);
      ghost var lives := old(Lives());
      assert sessions[k].View() == Sessions.Step(lives[k], Sessions.LeaveEvent(c));
      hide Sessions.Step;
      assert Lives() == lives[k := Sessions.Step(lives[k], Sessions.LeaveEvent(c))];
      LeaveIs(old(View()), lives, k, c);
    }

    /** The five setters that end a detach. */
    method ResetContext(c: Conn)
      requires Valid() && c in contexts
      modifies contexts[c]
      ensures Valid() && View() == R.WithContext(old(View()), c, Unbound(old(View()).contexts[c]))
      ensures Lives() == old(Lives())
    {
      hide Lives, L.Registries;
      contexts[c].Unbind();
      assert Contexts() == old(Contexts())[c := ContextView(contexts[c])];
    }

    method DetachConnectionFromSession(c: Conn)
      requires Valid() && c in contexts
      modifies this`sessions, sessions.Values, contexts[c]
      ensures Valid() && View() == R.Detach(old(View()), c)
      ensures Lives()
        == L.Evolve(old(Lives()), network.connected, sessions.Keys, L.Leaving(old(View()).contexts[c], c))
    {
      assert c in View().contexts;
      hide *;
      CleanupConnection(c);
      ResetContext(c);
      DetachIsBoth(old(View()), c);
    }

    // ---------- The command handlers ----------

    method StoreApp(c: Conn, app: Text)
      requires Valid() && c in contexts
      modifies contexts[c]
      ensures Valid()
      ensures View() == R.WithContext(old(View()), c, old(View()).contexts[c].(app := app))
      ensures Lives() == old(Lives())
    {
      hide Lives, L.Registries;
      contexts[c].app := app;
      assert Contexts() == old(Contexts())[c := ContextView(contexts[c])];
    }

    method HandleConnect(c: Conn, cmd: Command) returns (ok: bool)
      requires Valid() && c in contexts
      modifies contexts[c]
      ensures Valid() && (ok, View()) == R.HandleConnect(old(View()), c, cmd)
      ensures Lives() == old(Lives())
    {
      var app := AppOf(cmd.commandObject);
      if app == None {
        return false;
      }
      StoreApp(c, app.value);
      return true;
    }

    method AllocateStreamId(c: Conn) returns (id: U32)
      requires Valid() && c in contexts
      modifies contexts[c]
      ensures Valid() && id == old(View()).contexts[c].nextStreamId
      ensures View() == R.WithContext(old(View()), c, old(View()).contexts[c].(nextStreamId := Wrap32(id + 1)))
      ensures Lives() == old(Lives())
    {
      hide Lives, L.Registries;
      id := contexts[c].AllocateNextStreamId();
      assert Contexts() == old(Contexts())[c := ContextView(contexts[c])];
    }

    method StoreStreamId(c: Conn, id: U32)
      requires Valid() && c in contexts
      modifies contexts[c]
      ensures Valid()
      ensures View() == R.WithContext(old(View()), c, old(View()).contexts[c].(streamId := id))
      ensures Lives() == old(Lives())
    {
      hide Lives, L.Registries;
      contexts[c].streamId := id;
      assert Contexts() == old(Contexts())[c := ContextView(contexts[c])];
    }

    method HandleCreateStream(c: Conn) returns (ok: bool)
      requires Valid() && c in contexts
      modifies contexts[c]
      ensures Valid() && (ok, View()) == R.HandleCreateStream(old(View()), c)
      ensures Lives() == old(Lives())
    {
      hide View, SessionsKnowTheirKey, ContextsDiffer, Lives;
      ghost var start := View();
      var streamId := AllocateStreamId(c);
      StoreStreamId(c, streamId);
      assert View().contexts == R.HandleCreateStream(start, c).1.contexts;
      return true;
    }

    /** What publish and play check first; a good target's name is stored at once. */
    method CheckTarget(c: Conn, cmd: Command) returns (target: Option<StreamTarget>)
      requires Valid() && c in contexts
      ensures target == R.Target(View().contexts[c], cmd)
    {
      hide ParseTarget;
      var context := contexts[c];
      if context.streamId == 0 {
        return None;
      }
      if cmd.messageStreamId != context.streamId {
        return None;
      }
      if |cmd.arguments| == 0 || !cmd.arguments[0].String? {
        return None;
      }
      target := ParseStreamTarget(cmd.arguments[0].text);
    }

    method StoreNames(c: Conn, streamName: Text, publishType: Text)
      requires Valid() && c in contexts
      modifies contexts[c]
      ensures Valid()
      ensures View() == R.WithContext(old(View()), c,
        old(View()).contexts[c].(streamName := streamName, publishType := publishType))
      ensures Lives() == old(Lives())
    {
      hide Lives, L.Registries;
      contexts[c].streamName := streamName;
      contexts[c].publishType := publishType;
      assert Contexts() == old(Contexts())[c := ContextView(contexts[c])];
    }

    method StoreStreamName(c: Conn, streamName: Text)
      requires Valid() && c in contexts
      modifies contexts[c]
      ensures Valid()
      ensures View() == R.WithContext(old(View()), c, old(View()).contexts[c].(streamName := streamName))
      ensures Lives() == old(Lives())
    {
      hide Lives, L.Registries;
      contexts[c].streamName := streamName;
      assert Contexts() == old(Contexts())[c := ContextView(contexts[c])];
    }

    method Bind(c: Conn, role: R.Role, session: Sessions.RtmpSession)
      requires Valid() && c in contexts && Registered(session)
      modifies contexts[c]
      ensures Valid()
      ensures View() == R.Bind(old(View()), c, role, session.streamKey)
      ensures Lives() == old(Lives())
    {
      hide Lives, L.Registries;
      contexts[c].role := role;
      contexts[c].session := session;
      assert Contexts() == old(Contexts())[c := ContextView(contexts[c])];
    }

    method Claim(session: Sessions.RtmpSession, c: Conn) returns (accepted: bool)
      requires Valid() && session.streamKey in sessions && sessions[session.streamKey] == session
      modifies session
      ensures Valid()
      ensures var e := old(View()).sessions[session.streamKey];
        && (accepted <==> e.publisher == None || e.publisher == Some(c))
        && View() == if accepted
                     then R.WithSession(old(View()), session.streamKey, e.(publisher := Some(c)))
                     else old(View())
      ensures Lives() == old(Lives())[session.streamKey :=
        Sessions.Step(old(Lives())[session.streamKey], Sessions.PublishEvent(c))]
    {
      hide Contexts, L.Registries, R.WithSession;
      accepted := session.SetPublisher(c);
      ghost var lives := old(Lives());
      assert sessions[session.streamKey].View() == Sessions.Step(lives[session.streamKey], Sessions.PublishEvent(c));
      hide Sessions.Step;
      assert Lives() == lives[session.streamKey := Sessions.Step(lives[session.streamKey], Sessions.PublishEvent(c))];
      PublishIs(old(View()), lives, session.streamKey, c);
    }

    method HandlePublish(c: Conn, cmd: Command) returns (ok: bool)
      requires Valid() && c in contexts
      modifies this`sessions, sessions.Values, contexts[c]
      ensures Valid() && (ok, View()) == R.HandlePublish(old(View()), c, cmd, authCallback)
      ensures Lives() == L.Evolve(old(Lives()), network.connected, sessions.Keys,
        match R.Target(old(View()).contexts[c], cmd)
        case None => L.NOTHING
        case Some(t) => L.PublishEffect(old(View()).contexts[c], c, t, authCallback))
    {
      hide View, ContextView, Lives, R.Target, SessionsKnowTheirKey, ContextsDiffer, R.PublishTo, R.PublishType,
           L.Evolve, L.PublishEffect;
      L.EvolveElsewhere(Lives(), network.connected, L.NOTHING);
      var target := CheckTarget(c, cmd);
      if target == None {
        return false;
      }
      var publishType := NewPublishType(c, cmd);
      ok := PublishTo(c, target.value, publishType);
    }

    method PublishTo(c: Conn, target: StreamTarget, publishType: Text) returns (ok: bool)
      requires Valid() && c in contexts
      modifies this`sessions, sessions.Values, contexts[c]
      ensures Valid() && (ok, View()) == R.PublishTo(old(View()), c, target, publishType, authCallback)
      ensures Lives() == L.Evolve(old(Lives()), network.connected, sessions.Keys,
        L.PublishEffect(old(View()).contexts[c], c, target, authCallback))
    {
      hide View, ContextView, Lives, R.MakeKey, SessionsKnowTheirKey, ContextsDiffer, R.AttachPublisher, L.Evolve;
      L.EvolveElsewhere(Lives(), network.connected, L.NOTHING);
      StoreNames(c, target.streamName, publishType);
      var k := KeyOf(c);
      if k == [] || !authCallback(k, target.ticket, true) {
        return false;
      }
      AttachPublisher(c, k);
      return true;
    }

    method AttachPublisher(c: Conn, k: Text)
      requires Valid() && c in contexts
      modifies this`sessions, sessions.Values, contexts[c]
      ensures Valid() && View() == R.AttachPublisher(old(View()), c, k)
      ensures Lives()
        == L.Evolve(old(Lives()), network.connected, sessions.Keys, L.Effect(k, [Sessions.PublishEvent(c)]))
    {
      hide View, SessionsKnowTheirKey, ContextsDiffer, Lives, L.At, L.Evolve, Sessions.Step, R.GetOrCreate;
      GetOrCreateIs(View(), k);
      L.EvolveNew(Lives(), network.connected, k, Sessions.PublishEvent(c));
      var session := GetOrCreateSession(k);
      var accepted := Claim(session, c);
      if accepted {
        Bind(c, R.Publisher, session);
      }
    }

    method NewPublishType(c: Conn, cmd: Command) returns (publishType: Text)
      requires Valid() && c in contexts
      ensures publishType == R.PublishType(View().contexts[c], cmd)
    {
      publishType := contexts[c].publishType;
      if |cmd.arguments| >= 2 && cmd.arguments[1].String? {
        publishType := cmd.arguments[1].text;
      }
    }

    /** Joining and the replay. */
    method Admit(session: Sessions.RtmpSession, c: Conn)
      requires Valid() && session.streamKey in sessions && sessions[session.streamKey] == session
      modifies session
      ensures Valid()
      ensures var e := old(View()).sessions[session.streamKey];
        View() == R.WithSession(old(View()), session.streamKey, e.(players := e.players + {c}))
      ensures Lives() == old(Lives())[session.streamKey :=
        Sessions.Step(old(Lives())[session.streamKey], Sessions.JoinEvent(c))]
    {
      hide Contexts, L.Registries, R.WithSession, Sessions.Replay, Sessions.Join;
      session.AddPlayer(c);
      ghost var lives := old(Lives());
      assert sessions[session.streamKey].View() == Sessions.Step(lives[session.streamKey], Sessions.JoinEvent(c));
      hide Sessions.Step;
      assert Lives() == lives[session.streamKey := Sessions.Step(lives[session.streamKey], Sessions.JoinEvent(c))];
      JoinIs(old(View()), lives, session.streamKey, c);
    }

    method AttachPlayer(c: Conn, k: Text)
      requires Valid() && c in contexts
      modifies this`sessions, sessions.Values, contexts[c]
      ensures Valid() && View() == R.AttachPlayer(old(View()), c, k)
      ensures Lives()
        == L.Evolve(old(Lives()), network.connected, sessions.Keys, L.Effect(k, [Sessions.JoinEvent(c)]))
    {
      hide View, SessionsKnowTheirKey, ContextsDiffer, Lives, L.At, L.Evolve, Sessions.Step, R.GetOrCreate;
      GetOrCreateIs(View(), k);
      L.EvolveNew(Lives(), network.connected, k, Sessions.JoinEvent(c));
      var session := GetOrCreateSession(k);
      Admit(session, c);
      Bind(c, R.Player, session);
    }

    method HandlePlay(c: Conn, cmd: Command) returns (ok: bool)
      requires Valid() && c in contexts
      modifies this`sessions, sessions.Values, contexts[c]
      ensures Valid() && (ok, View()) == R.HandlePlay(old(View()), c, cmd, authCallback)
      ensures Lives() == L.Evolve(old(Lives()), network.connected, sessions.Keys,
        match R.Target(old(View()).contexts[c], cmd)
        case None => L.NOTHING
        case Some(t) => L.PlayEffect(old(View()).contexts[c], c, t, authCallback))
    {
      hide View, ContextView, Lives, R.Target, SessionsKnowTheirKey, ContextsDiffer, R.PlayFrom, L.Evolve, L.PlayEffect;
      L.EvolveElsewhere(Lives(), network.connected, L.NOTHING);
      var target := CheckTarget(c, cmd);
      if target == None {
        return false;
      }
      ok := PlayFrom(c, target.value);
    }

    method PlayFrom(c: Conn, target: StreamTarget) returns (ok: bool)
      requires Valid() && c in contexts
      modifies this`sessions, sessions.Values, contexts[c]
      ensures Valid() && (ok, View()) == R.PlayFrom(old(View()), c, target, authCallback)
      ensures Lives() == L.Evolve(old(Lives()), network.connected, sessions.Keys,
        L.PlayEffect(old(View()).contexts[c], c, target, authCallback))
    {
      hide View, ContextView, Lives, R.MakeKey, SessionsKnowTheirKey, ContextsDiffer, R.AttachPlayer, L.Evolve;
      L.EvolveElsewhere(Lives(), network.connected, L.NOTHING);
      StoreStreamName(c, target.streamName);
      var k := KeyOf(c);
      if k == [] || !authCallback(k, target.ticket, false) {
        return false;
      }
      AttachPlayer(c, k);
      return true;
    }

    method HandleDeleteStream(c: Conn, cmd: Command) returns (ok: bool)
      requires Valid() && c in contexts
      modifies this`sessions, sessions.Values, contexts[c]
      ensures Valid() && (ok, View()) == R.HandleDeleteStream(old(View()), c, cmd)
      ensures Lives() == L.Evolve(old(Lives()), network.connected, sessions.Keys,
        L.DeleteEffect(old(View()).contexts[c], c, cmd))
    {
      hide R.Detach, L.Evolve, L.Leaving, Lives;
      L.EvolveElsewhere(Lives(), network.connected, L.NOTHING);
      var context := contexts[c];
      if context.role == R.Unknown || !Registered(context.session) {
        return true;
      }
      if cmd.messageStreamId != 0 && context.streamId != 0 && cmd.messageStreamId != context.streamId {
        return false;
      }
      DetachConnectionFromSession(c);
      return true;
    }

    /** The broadcast keeps the players that are connected. */
    method Publish(session: Sessions.RtmpSession, m: Message)
      requires Valid() && session.streamKey in sessions && sessions[session.streamKey] == session
      modifies session
      ensures Valid()
      ensures var e := old(View()).sessions[session.streamKey];
        View() == R.WithSession(old(View()), session.streamKey, e.(players := e.players * old(View()).connected))
      ensures Lives() == old(Lives())[session.streamKey :=
        Sessions.Step(old(Lives())[session.streamKey], Sessions.MediaEvent(m))]
    {
      hide Contexts, L.Registries, R.WithSession, Sessions.Media;
      session.OnMediaMessage(m);
      ghost var lives := old(Lives());
      assert sessions[session.streamKey].View() == Sessions.Step(lives[session.streamKey], Sessions.MediaEvent(m));
      hide Sessions.Step;
      assert Lives() == lives[session.streamKey := Sessions.Step(lives[session.streamKey], Sessions.MediaEvent(m))];
      MediaIs(old(View()), lives, session.streamKey, m);
    }

    method HandleMediaMessage(c: Conn, m: Message) returns (ok: bool)
      requires Valid() && c in contexts
      modifies sessions.Values
      ensures Valid() && (ok, View()) == R.HandleMedia(old(View()), c)
      ensures Lives()
        == L.Evolve(old(Lives()), network.connected, sessions.Keys, L.MediaEffect(old(View()), c, m))
    {
      hide Sessions.Step, L.Evolve, Lives;
      L.EvolveElsewhere(Lives(), network.connected, L.NOTHING);
      var context := contexts[c];
      if context.role != R.Publisher {
        return true;
      }
      if !Registered(context.session) {
        return false;
      }
      assert sessions.Keys + {context.session.streamKey} == sessions.Keys;
      L.EvolveOne(Lives(), network.connected, context.session.streamKey, Sessions.MediaEvent(m));
      Publish(context.session, m);
      return true;
    }

    method HandleCommandMessage(c: Conn, cmd: Command) returns (ok: bool)
      requires Valid() && c in contexts
      modifies this`sessions, sessions.Values, contexts[c]
      ensures Valid() && (ok, View()) == R.HandleCommand(old(View()), c, cmd, authCallback)
      ensures Lives() == L.Evolve(old(Lives()), network.connected, sessions.Keys,
        L.CommandEffect(old(View()).contexts[c], c, cmd, authCallback))
    {
      hide View, SessionsKnowTheirKey, ContextsDiffer, Lives, R.HandleConnect, R.HandleCreateStream,
           R.HandlePublish, R.HandlePlay,
           R.HandleDeleteStream, R.Target, L.Evolve, L.PublishEffect, L.PlayEffect, L.DeleteEffect;
      L.EvolveElsewhere(Lives(), network.connected, L.NOTHING);
      if cmd.name == CONNECT {
        ok := HandleConnect(c, cmd);
      } else if cmd.name == CREATE_STREAM {
        ok := HandleCreateStream(c);
      } else if cmd.name == PUBLISH {
        ok := HandlePublish(c, cmd);
      } else if cmd.name == PLAY {
        ok := HandlePlay(c, cmd);
      } else if cmd.name == DELETE_STREAM || cmd.name == CLOSE_STREAM {
        ok := HandleDeleteStream(c, cmd);
      } else {
        ok := true;
      }
    }

    method HandleMessage(c: Conn, m: Message) returns (ok: bool)
      requires Valid() && c in contexts
      modifies this`sessions, sessions.Values, contexts[c]
      ensures Valid() && (ok, View()) == R.HandleMessage(old(View()), c, m, authCallback)
      ensures Lives() == L.Evolve(old(Lives()), network.connected, sessions.Keys,
        L.MessageEffect(old(View()), c, m, authCallback))
    {
      hide View, SessionsKnowTheirKey, ContextsDiffer, Lives, R.HandleCommand, R.HandleMedia, DecodeCommand,
           L.Evolve, L.CommandEffect, L.MediaEffect;
      L.EvolveElsewhere(Lives(), network.connected, L.NOTHING);
      if m.typeId == SET_CHUNK_SIZE {
        return true;
      }
      if m.typeId == COMMAND_AMF0 {
        var cmd := DecodeCommand(m);
        if cmd == None {
          return false;
        }
        ok := HandleCommandMessage(c, cmd.value);
      } else if m.typeId == DATA_AMF0 || m.typeId == AUDIO || m.typeId == VIDEO {
        ok := HandleMediaMessage(c, m);
      } else {
        ok := true;
      }
    }

    method ShutdownConnection(c: Conn)
      requires Valid()
      modifies network`connected
      ensures Valid() && View() == R.Shutdown(old(View()), c)
      ensures Lives() == L.ToAll(old(Lives()), Sessions.DisconnectEvent(c))
    {
      hide Contexts, L.Registries;
      network.connected := network.connected - {c};
      assert Lives() == L.ToAll(old(Lives()), Sessions.DisconnectEvent(c));
      L.RegistriesToAll(old(Lives()), Sessions.DisconnectEvent(c));
    }

    /** A failed message shuts the connection down. */
    method OnMessage(c: Conn, m: Message)
      requires Valid()
      modifies this`sessions, sessions.Values, contexts.Values, network
      ensures Valid() && LiveView() == L.Step(old(LiveView()), R.Receive(c, m), authCallback)
    {
      hide View, SessionsKnowTheirKey, ContextsDiffer, Lives, R.HandleMessage, L.Evolve, L.ToAll, L.MessageEffect;
      if c !in contexts {
        return;
      }
      var ok := HandleMessage(c, m);
      if !ok {
        ShutdownConnection(c);
      }
    }

    method OnOpen(c: Conn)
      requires Valid() && c !in contexts
      modifies this`contexts, network`connected
      ensures Valid() && LiveView() == L.Step(old(LiveView()), R.Open(c), authCallback)
    {
      hide View, SessionsKnowTheirKey, ContextsDiffer, Lives, R.HandleMessage, R.Cleanup, L.Evolve, L.ToAll,
           L.MessageEffect;
      AddContext(c);
      NoteConnected(c);
    }

    method NoteConnected(c: Conn)
      requires Valid()
      modifies network`connected
      ensures Valid() && View() == old(View()).(connected := old(View()).connected + {c})
      ensures Lives() == L.ToAll(old(Lives()), Sessions.ConnectEvent(c))
    {
      hide Contexts, L.Registries;
      network.connected := network.connected + {c};
      assert Lives() == L.ToAll(old(Lives()), Sessions.ConnectEvent(c));
      L.RegistriesToAll(old(Lives()), Sessions.ConnectEvent(c));
    }

    method AddContext(c: Conn)
      requires Valid() && c !in contexts
      modifies this`contexts
      ensures Valid() && View() == R.WithContext(old(View()), c, R.NEW_CONTEXT) && Lives() == old(Lives())
    {
      hide Lives, L.Registries;
      var context := new RtmpConnectionContext();
      contexts := contexts[c := context];
      assert Contexts() == old(Contexts())[c := R.NEW_CONTEXT];
    }

    method OnClose(c: Conn)
      requires Valid() && c in contexts
      modifies this, sessions.Values, network`connected
      ensures Valid() && LiveView() == L.Step(old(LiveView()), R.Close(c), authCallback)
    {
      hide View, SessionsKnowTheirKey, ContextsDiffer, Lives, R.Cleanup, R.HandleMessage, L.Evolve, L.ToAll,
           L.MessageEffect, L.Leaving;
      ShutdownConnection(c);
      CleanupConnection(c);
      RemoveContext(c);
    }

    method RemoveContext(c: Conn)
      requires Valid()
      modifies this`contexts
      ensures Valid() && View() == old(View()).(contexts := old(View()).contexts - {c}) && Lives() == old(Lives())
    {
      hide Lives, L.Registries;
      contexts := contexts - {c};
      assert Contexts() == old(Contexts()) - {c};
    }
  }
}
