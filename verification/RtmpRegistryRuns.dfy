/** What every step of the registry keeps, exactly when, and what follows for whole runs. */
module RtmpRegistryRuns {
  import opened Bytes
  import opened RtmpCommands
  import opened RtmpKeys
  import opened RtmpRegistry

  // ---------- One connection, one place ----------

  /** In a consistent state a connection is in at most one session, as publisher or as player. */
  lemma OnePlace(s: State, c: Conn, j: Text, k: Text)
    requires Consistent(s)
    requires j in s.sessions && s.sessions[j].Refers(c) && k in s.sessions && s.sessions[k].Refers(c)
    ensures j == k == StreamKey(s.contexts[c]) && s.contexts[c].session == Some(k)
    ensures s.contexts[c].role == Publisher <==> s.sessions[k].publisher == Some(c)
    ensures s.contexts[c].role == Player <==> c in s.sessions[k].players
  {
    assert Matches(s.contexts[c], s.sessions[j], c, j);
    assert Matches(s.contexts[c], s.sessions[k], c, k);
  }

  // ---------- Leaving a session ----------

  /** Consistent for everyone but `c`, to whom no session refers. */
  ghost predicate ConsistentWithout(s: State, c: Conn) {
    && NoneEmpty(s)
    && SessionsMatch(s)
    && !Referenced(s, c)
    && (forall d | d in s.contexts && d != c :: HasPlace(s, d))
    && s.connected <= s.contexts.Keys
  }

  lemma CleanupDetaches(s: State, c: Conn)
    requires Consistent(s) && c in s.contexts
    ensures ConsistentWithout(Cleanup(s, c), c)
    ensures Cleanup(s, c).contexts.Keys == s.contexts.Keys && Cleanup(s, c).connected == s.connected
  {
    var x := s.contexts[c];
    var k := StreamKey(x);
    var s1 := Cleanup(s, c);
    assert HasPlace(s, c);
    forall j | j in s.sessions && s.sessions[j].Refers(c)
      ensures j == k
    {
      assert Matches(x, s.sessions[j], c, j);
    }
    if k != [] && k in s.sessions {
      var e := Without(s.sessions[k], c, x.role);
      assert !e.Refers(c) by {
        if s.sessions[k].Refers(c) {
          assert Matches(x, s.sessions[k], c, k);
        }
      }
      forall d | d != c
        ensures e.Refers(d) <==> s.sessions[k].Refers(d)
        ensures e.publisher == Some(d) <==> s.sessions[k].publisher == Some(d)
      {
      }
      forall j, d | j in s1.sessions && s1.sessions[j].Refers(d)
        ensures d in s1.contexts && Matches(s1.contexts[d], s1.sessions[j], d, j)
      {
        assert Matches(s.contexts[d], s.sessions[j], d, j);
      }
      forall d | d in s1.contexts && d != c
        ensures HasPlace(s1, d)
      {
        assert HasPlace(s, d);
      }
    }
  }

  lemma DetachKeeps(s: State, c: Conn)
    requires Consistent(s) && c in s.contexts
    ensures Consistent(Detach(s, c)) && !Referenced(Detach(s, c), c)
  {
    CleanupDetaches(s, c);
    var s1 := Cleanup(s, c);
    var s2 := Detach(s, c);
    hide Cleanup;
    forall j, d | j in s2.sessions && s2.sessions[j].Refers(d)
      ensures d in s2.contexts && Matches(s2.contexts[d], s2.sessions[j], d, j)
    {
      assert Matches(s1.contexts[d], s1.sessions[j], d, j);
    }
    forall d | d in s2.contexts
      ensures HasPlace(s2, d)
    {
      assert d != c ==> HasPlace(s1, d);
    }
  }

  lemma ShutdownKeeps(s: State, c: Conn)
    ensures Consistent(s) ==> Consistent(Shutdown(s, c))
    ensures SessionsMatch(Shutdown(s, c)) == SessionsMatch(s)
  {
    var s1 := Shutdown(s, c);
    if Consistent(s) {
      forall d | d in s1.contexts
        ensures HasPlace(s1, d)
      {
        assert HasPlace(s, d);
      }
    }
  }

  /** Taking a detached connection's context away completes a consistent state. */
  lemma ForgetKeeps(s: State, c: Conn)
    requires ConsistentWithout(s, c) && c !in s.connected
    ensures var s1 := s.(contexts := s.contexts - {c}); Consistent(s1) && !Referenced(s1, c)
  {
    var s1 := s.(contexts := s.contexts - {c});
    forall j, d | j in s1.sessions && s1.sessions[j].Refers(d)
      ensures d in s1.contexts && Matches(s1.contexts[d], s1.sessions[j], d, j)
    {
      assert Matches(s.contexts[d], s.sessions[j], d, j);
    }
    forall d | d in s1.contexts
      ensures HasPlace(s1, d)
    {
      assert HasPlace(s, d);
    }
  }

  /** After a close nothing is left of the connection. */
  lemma CloseDetaches(s: State, c: Conn, auth: Authorize)
    requires Consistent(s)
    ensures var s1 := Step(s, Close(c), auth);
      Consistent(s1) && !Referenced(s1, c) && c !in s1.contexts
  {
    if c in s.contexts {
      var s0 := Shutdown(s, c);
      ShutdownKeeps(s, c);
      CleanupDetaches(s0, c);
      ForgetKeeps(Cleanup(s0, c), c);
      hide Cleanup, Consistent, ConsistentWithout, Referenced;
      assert Step(s, Close(c), auth) == Cleanup(s0, c).(contexts := Cleanup(s0, c).contexts - {c});
    }
  }

  /** A delete that succeeds, even one that is ignored, leaves no session that refers to the connection. */
  lemma DeleteDetaches(s: State, c: Conn, cmd: Command)
    requires Consistent(s) && c in s.contexts
    ensures Consistent(HandleDeleteStream(s, c, cmd).1)
    ensures HandleDeleteStream(s, c, cmd).0 ==> !Referenced(HandleDeleteStream(s, c, cmd).1, c)
  {
    DetachKeeps(s, c);
  }

  lemma MediaKeeps(s: State, c: Conn)
    requires Consistent(s) && c in s.contexts
    ensures Consistent(HandleMedia(s, c).1) && HandleMedia(s, c).0
  {
    var x := s.contexts[c];
    assert HasPlace(s, c);
    if x.role == Publisher {
      var k := x.session.value;
      var s1 := HandleMedia(s, c).1;
      forall j, d | j in s1.sessions && s1.sessions[j].Refers(d)
        ensures d in s1.contexts && Matches(s1.contexts[d], s1.sessions[j], d, j)
      {
        assert Matches(s.contexts[d], s.sessions[j], d, j);
      }
      forall d | d in s1.contexts
        ensures HasPlace(s1, d)
      {
        assert HasPlace(s, d);
      }
    }
  }

  // ---------- Changing a context ----------

  /** A session other than the one a context names still refers to it. */
  lemma StrayReference(s: State, c: Conn, k: Text)
    requires c in s.contexts && k in s.sessions && s.sessions[k].Refers(c)
    requires StreamKey(s.contexts[c]) != k
      || (s.contexts[c].role == Publisher && c in s.sessions[k].players)
      || (s.contexts[c].role == Player && s.sessions[k].publisher == Some(c))
    ensures !SessionsMatch(s)
  {
    assert !Matches(s.contexts[c], s.sessions[k], c, k);
  }

  /** Changing the names of a connection is safe just when no session refers to it or its key stays. */
  lemma RenameKeepsIff(s: State, c: Conn, x1: Context)
    requires Consistent(s) && c in s.contexts
    requires x1.role == s.contexts[c].role && x1.session == s.contexts[c].session
    ensures var s1 := WithContext(s, c, x1);
      var ok := !Referenced(s, c) || StreamKey(x1) == StreamKey(s.contexts[c]);
      (ok ==> Consistent(s1)) && (!ok ==> !SessionsMatch(s1))
  {
    var x := s.contexts[c];
    var s1 := WithContext(s, c, x1);
    if Referenced(s, c) {
      var k :| k in s.sessions && s.sessions[k].Refers(c);
      assert Matches(x, s.sessions[k], c, k);
      if StreamKey(x1) != StreamKey(x) {
        StrayReference(s1, c, k);
        return;
      }
    }
    hide StreamKey;
    forall j, d | j in s1.sessions && s1.sessions[j].Refers(d)
      ensures d in s1.contexts && Matches(s1.contexts[d], s1.sessions[j], d, j)
    {
      assert Matches(s.contexts[d], s.sessions[j], d, j);
    }
    forall d | d in s1.contexts
      ensures HasPlace(s1, d)
    {
      assert HasPlace(s, d);
    }
  }

  /** The session `k` takes in `c`, to whom no session referred. */
  lemma BindKeeps(s: State, c: Conn, x1: Context, e: Session)
    requires Consistent(s) && c in s.contexts && !Referenced(s, c)
    requires x1.role != Unknown && StreamKey(x1) != [] && x1.session == Some(StreamKey(x1))
    requires var was := if StreamKey(x1) in s.sessions then s.sessions[StreamKey(x1)] else NEW_SESSION;
      if x1.role == Publisher then was.publisher == None && e == was.(publisher := Some(c))
      else e == was.(players := was.players + {c})
    ensures Consistent(WithContext(WithSession(s, StreamKey(x1), e), c, x1))
  {
    var k := StreamKey(x1);
    var s1 := WithContext(WithSession(s, k, e), c, x1);
    hide StreamKey;
    forall j, d | j in s1.sessions && s1.sessions[j].Refers(d)
      ensures d in s1.contexts && Matches(s1.contexts[d], s1.sessions[j], d, j)
    {
      if d != c {
        assert s.sessions[j].Refers(d);
        assert Matches(s.contexts[d], s.sessions[j], d, j);
      } else {
        assert j == k;
        assert k in s.sessions ==> !s.sessions[k].Refers(c);
      }
    }
    forall d | d in s1.contexts
      ensures HasPlace(s1, d)
    {
      assert HasPlace(s, d);
    }
  }

  // ---------- Connect, publish and play ----------

  /** The command makes a connection that is in a session change its stream key or its role. */
  predicate Forsakes(s: State, c: Conn, cmd: Command, auth: Authorize)
    requires c in s.contexts
  {
    var x := s.contexts[c];
    var k := StreamKey(x);
    if cmd.name == CONNECT then
      AppOf(cmd.commandObject).Some? && AppOf(cmd.commandObject).value != x.app
    else if cmd.name == PUBLISH then
      && Target(x, cmd).Some?
      && (|| Target(x, cmd).value.streamName != x.streamName
          || (x.role == Player && auth(k, Target(x, cmd).value.ticket, true)
              && k in s.sessions && s.sessions[k].publisher == None))
    else if cmd.name == PLAY then
      && Target(x, cmd).Some?
      && (|| Target(x, cmd).value.streamName != x.streamName
          || (x.role == Publisher && auth(k, Target(x, cmd).value.ticket, false)))
    else false
  }

  lemma ReferencedHasKey(s: State, c: Conn)
    requires Consistent(s) && Referenced(s, c)
    ensures c in s.contexts
    ensures var x := s.contexts[c];
      var k := StreamKey(x);
      && x.session == Some(k)
      && k != [] && x.role != Unknown && k in s.sessions && s.sessions[k].Refers(c)
      && (x.role == Publisher <==> s.sessions[k].publisher == Some(c))
      && (x.role == Player <==> c in s.sessions[k].players)
  {
    var k :| k in s.sessions && s.sessions[k].Refers(c);
    OnePlace(s, c, k, k);
  }

  lemma ConnectKeepsIff(s: State, c: Conn, cmd: Command, auth: Authorize)
    requires Consistent(s) && c in s.contexts && cmd.name == CONNECT
    ensures var s1 := HandleConnect(s, c, cmd).1;
      var ok := !(Referenced(s, c) && Forsakes(s, c, cmd, auth));
      (ok ==> Consistent(s1)) && (!ok ==> !SessionsMatch(s1))
  {
    if AppOf(cmd.commandObject).Some? {
      var x := s.contexts[c];
      var x1 := x.(app := AppOf(cmd.commandObject).value);
      RenameKeepsIff(s, c, x1);
      if Referenced(s, c) {
        ReferencedHasKey(s, c);
        if StreamKey(x1) == StreamKey(x) {
          KeyTells(x, x1);
        }
      }
      hide StreamKey, SessionsMatch, Consistent, Referenced, AppOf;
    }
  }

  /** What a publish does, in one update of the context and one of the session. */
  lemma PublishIs(s: State, c: Conn, cmd: Command, auth: Authorize)
    requires c in s.contexts && Target(s.contexts[c], cmd).Some?
    ensures var x := s.contexts[c];
      var t := Target(x, cmd).value;
      var x1 := x.(streamName := t.streamName, publishType := PublishType(x, cmd));
      var k := StreamKey(x1);
      var was := if k in s.sessions then s.sessions[k] else NEW_SESSION;
      HandlePublish(s, c, cmd, auth).1 ==
        if k == [] || !auth(k, t.ticket, true) || (was.publisher.Some? && was.publisher != Some(c))
        then WithContext(s, c, x1)
        else WithContext(WithSession(s, k, was.(publisher := Some(c))), c, x1.(role := Publisher, session := Some(k)))
  {
    hide Target, StreamKey;
  }

  lemma PublishKeepsIff(s: State, c: Conn, cmd: Command, auth: Authorize)
    requires Consistent(s) && c in s.contexts && cmd.name == PUBLISH
    ensures var s1 := HandlePublish(s, c, cmd, auth).1;
      var ok := !(Referenced(s, c) && Forsakes(s, c, cmd, auth));
      (ok ==> Consistent(s1)) && (!ok ==> !SessionsMatch(s1))
  {
    var x := s.contexts[c];
    if Target(x, cmd).Some? {
      var t := Target(x, cmd).value;
      var x1 := x.(streamName := t.streamName, publishType := PublishType(x, cmd));
      var k := StreamKey(x1);
      var x2 := x1.(role := Publisher, session := Some(k));
      var was := if k in s.sessions then s.sessions[k] else NEW_SESSION;
      var s1 := HandlePublish(s, c, cmd, auth).1;
      assert CONNECT[0] != PUBLISH[0];
      SameKey(s, c, x1);
      RenameKeepsIff(s, c, x1);
      PublishIs(s, c, cmd, auth);
      hide HandlePublish, SessionsMatch, Target, Referenced;
      if k == [] || !auth(k, t.ticket, true) || (was.publisher.Some? && was.publisher != Some(c)) {
        assert s1 == WithContext(s, c, x1);
      } else {
        if !Referenced(s, c) {
          assert StreamKey(x2) == k;
          BindKeeps(s, c, x2, was.(publisher := Some(c)));
        } else if k == StreamKey(x) && x.role == Publisher {
          assert s1 == WithContext(s, c, x1);
        } else {
          StrayReference(s1, c, StreamKey(x));
        }
      }
    }
  }

  /** A referenced connection keeps its key just when it keeps its names. */
  lemma SameKey(s: State, c: Conn, x1: Context)
    requires Consistent(s) && c in s.contexts && x1.app == s.contexts[c].app
    ensures Referenced(s, c) ==>
      var x := s.contexts[c];
      var k := StreamKey(x);
      && k != [] && x.role != Unknown && k in s.sessions && s.sessions[k].Refers(c)
      && x.session == Some(k)
      && (x.role == Publisher <==> s.sessions[k].publisher == Some(c))
      && (x.role == Player <==> c in s.sessions[k].players)
      && (StreamKey(x1) == k <==> x1.streamName == x.streamName)
  {
    if Referenced(s, c) {
      ReferencedHasKey(s, c);
      if StreamKey(x1) == StreamKey(s.contexts[c]) {
        KeyTells(s.contexts[c], x1);
      }
    }
  }

  /** What a play does, in one update of the context and one of the session. */
  lemma PlayIs(s: State, c: Conn, cmd: Command, auth: Authorize)
    requires c in s.contexts && Target(s.contexts[c], cmd).Some?
    ensures var x := s.contexts[c];
      var t := Target(x, cmd).value;
      var x1 := x.(streamName := t.streamName);
      var k := StreamKey(x1);
      var was := if k in s.sessions then s.sessions[k] else NEW_SESSION;
      HandlePlay(s, c, cmd, auth).1 ==
        if k == [] || !auth(k, t.ticket, false) then WithContext(s, c, x1)
        else WithContext(WithSession(s, k, was.(players := was.players + {c})), c,
                         x1.(role := Player, session := Some(k)))
  {
    hide Target, StreamKey;
  }

  lemma PlayKeepsIff(s: State, c: Conn, cmd: Command, auth: Authorize)
    requires Consistent(s) && c in s.contexts && cmd.name == PLAY
    ensures var s1 := HandlePlay(s, c, cmd, auth).1;
      var ok := !(Referenced(s, c) && Forsakes(s, c, cmd, auth));
      (ok ==> Consistent(s1)) && (!ok ==> !SessionsMatch(s1))
  {
    var x := s.contexts[c];
    if Target(x, cmd).Some? {
      var t := Target(x, cmd).value;
      var x1 := x.(streamName := t.streamName);
      var k := StreamKey(x1);
      var x2 := x1.(role := Player, session := Some(k));
      var was := if k in s.sessions then s.sessions[k] else NEW_SESSION;
      var s1 := HandlePlay(s, c, cmd, auth).1;
      SameKey(s, c, x1);
      RenameKeepsIff(s, c, x1);
      PlayIs(s, c, cmd, auth);
      hide HandlePlay, SessionsMatch, Target, Referenced;
      if k == [] || !auth(k, t.ticket, false) {
        assert s1 == WithContext(s, c, x1);
      } else {
        var e := was.(players := was.players + {c});
        if !Referenced(s, c) {
          assert StreamKey(x2) == k;
          BindKeeps(s, c, x2, e);
        } else if k == StreamKey(x) && x.role == Player {
          assert e.players == was.players && x2 == x1;
          assert s1 == WithContext(s, c, x1);
        } else {
          StrayReference(s1, c, StreamKey(x));
        }
      }
    }
  }

  // ---------- Steps and runs ----------

  /** The event makes a connection leave its session without being taken off it. */
  predicate Forsaking(s: State, e: Event, auth: Authorize) {
    && e.Receive?
    && e.conn in s.contexts
    && DecodeCommand(e.message).Some?
    && Forsakes(s, e.conn, DecodeCommand(e.message).value, auth)
  }

  lemma CommandKeepsIff(s: State, c: Conn, cmd: Command, auth: Authorize)
    requires Consistent(s) && c in s.contexts
    ensures var s1 := HandleCommand(s, c, cmd, auth).1;
      var ok := !(Referenced(s, c) && Forsakes(s, c, cmd, auth));
      (ok ==> Consistent(s1)) && (!ok ==> !SessionsMatch(s1))
  {
    if cmd.name == CONNECT {
      ConnectKeepsIff(s, c, cmd, auth);
    } else if cmd.name == CREATE_STREAM {
      RenameKeepsIff(s, c, HandleCreateStream(s, c).1.contexts[c]);
    } else if cmd.name == PUBLISH {
      PublishKeepsIff(s, c, cmd, auth);
    } else if cmd.name == PLAY {
      PlayKeepsIff(s, c, cmd, auth);
    } else if cmd.name == DELETE_STREAM || cmd.name == CLOSE_STREAM {
      DeleteDetaches(s, c, cmd);
    }
  }

  lemma OpenKeeps(s: State, c: Conn, auth: Authorize)
    requires Consistent(s)
    ensures Consistent(Step(s, Open(c), auth))
  {
    var s1 := Step(s, Open(c), auth);
    forall j, d | j in s1.sessions && s1.sessions[j].Refers(d)
      ensures d in s1.contexts && Matches(s1.contexts[d], s1.sessions[j], d, j)
    {
      assert Matches(s.contexts[d], s.sessions[j], d, j);
    }
    forall d | d in s1.contexts
      ensures HasPlace(s1, d)
    {
      assert d in s.contexts ==> HasPlace(s, d);
    }
  }

  /**
   The exact condition: a step keeps the registry consistent unless it makes a connection that a
   session refers to change its key or role; then it always breaks it.
   */
  lemma StepKeepsIff(s: State, e: Event, auth: Authorize)
    requires Consistent(s)
    ensures Consistent(Step(s, e, auth)) <==> !(Forsaking(s, e, auth) && Referenced(s, e.conn))
  {
    match e
    case Open(c) => OpenKeeps(s, c, auth);
    case Close(c) => CloseDetaches(s, c, auth);
    case Receive(c, m) =>
      if c in s.contexts {
        hide Consistent, SessionsMatch, Forsakes, HandleCommand, HandleMedia, DecodeCommand, Referenced;
        var s1 := HandleMessage(s, c, m, auth).1;
        ShutdownKeeps(s1, c);
        MediaKeeps(s, c);
        if DecodeCommand(m).Some? {
          CommandKeepsIff(s, c, DecodeCommand(m).value, auth);
        }
        ConsistentMatches(Step(s, e, auth));
      }
  }

  lemma ConsistentMatches(s: State)
    ensures Consistent(s) ==> SessionsMatch(s)
  {
  }

  /** No event of the run makes a connection forsake a session that refers to it. */
  ghost predicate NeverForsakes(s: State, es: seq<Event>, auth: Authorize)
    decreases |es|
  {
    es == [] ||
    (!(Forsaking(s, es[0], auth) && Referenced(s, es[0].conn)) && NeverForsakes(Step(s, es[0], auth), es[1..], auth))
  }

  ghost predicate AlwaysConsistent(s: State, es: seq<Event>, auth: Authorize)
    decreases |es|
  {
    Consistent(s) && (es != [] ==> AlwaysConsistent(Step(s, es[0], auth), es[1..], auth))
  }

  /** Over whole runs: the registry is consistent throughout just when no session is forsaken. */
  lemma {:induction false} RunKeepsIff(s: State, es: seq<Event>, auth: Authorize)
    requires Consistent(s)
    ensures AlwaysConsistent(s, es, auth) <==> NeverForsakes(s, es, auth)
    decreases |es|
  {
    if es != [] {
      hide Consistent, Forsaking, Step, Referenced;
      StepKeepsIff(s, es[0], auth);
      if Consistent(Step(s, es[0], auth)) {
        RunKeepsIff(Step(s, es[0], auth), es[1..], auth);
      }
    }
  }

  /** Connect, publish and play come only from connections without a role. */
  predicate Disciplined(s: State, es: seq<Event>, auth: Authorize)
    decreases |es|
  {
    es == [] || (InTurn(s, es[0]) && Disciplined(Step(s, es[0], auth), es[1..], auth))
  }

  predicate InTurn(s: State, e: Event) {
    e.Receive? && e.conn in s.contexts && DecodeCommand(e.message).Some?
      && DecodeCommand(e.message).value.name in {CONNECT, PUBLISH, PLAY}
    ==> s.contexts[e.conn].role == Unknown
  }

  lemma InTurnKeeps(s: State, e: Event, auth: Authorize)
    requires Consistent(s) && InTurn(s, e)
    ensures Consistent(Step(s, e, auth))
  {
    hide Step, DecodeCommand, Target, AppOf;
    StepKeepsIff(s, e, auth);
    if Forsaking(s, e, auth) && Referenced(s, e.conn) {
      ReferencedHasKey(s, e.conn);
    }
  }

  /** The registry agrees with the contexts in every state that a disciplined run reaches. */
  lemma {:induction false} DisciplinedRunsAreConsistent(s: State, es: seq<Event>, auth: Authorize)
    requires Consistent(s) && Disciplined(s, es, auth)
    ensures Consistent(Run(s, es, auth))
    decreases |es|
  {
    if es != [] {
      hide Consistent, InTurn, Step;
      InTurnKeeps(s, es[0], auth);
      DisciplinedRunsAreConsistent(Step(s, es[0], auth), es[1..], auth);
    }
  }

  /** What a disciplined run from the start promises in the registry's own terms. */
  lemma RegistryAgrees(es: seq<Event>, auth: Authorize, k: Text, c: Conn)
    requires Disciplined(START, es, auth)
    ensures var s := Run(START, es, auth);
      && (k in s.sessions ==> !s.sessions[k].Empty())
      && (k in s.sessions && s.sessions[k].publisher == Some(c) ==>
            c in s.contexts && s.contexts[c].role == Publisher && StreamKey(s.contexts[c]) == k)
      && (k in s.sessions && c in s.sessions[k].players ==>
            c in s.contexts && s.contexts[c].role == Player && StreamKey(s.contexts[c]) == k)
      && (c in s.contexts && s.contexts[c].role == Publisher ==>
            var j := StreamKey(s.contexts[c]); j in s.sessions && s.sessions[j].publisher == Some(c))
  {
    DisciplinedRunsAreConsistent(START, es, auth);
    var s := Run(START, es, auth);
    hide Run, Disciplined;
    if k in s.sessions && s.sessions[k].Refers(c) {
      assert Matches(s.contexts[c], s.sessions[k], c, k);
    }
    if c in s.contexts && s.contexts[c].role == Publisher {
      assert HasPlace(s, c);
      var j := s.contexts[c].session.value;
      assert s.sessions[j].Refers(c);
      assert Matches(s.contexts[c], s.sessions[j], c, j);
    }
  }

  /**
   What goes wrong otherwise: publishing or playing under a second name leaves the first session
   with a reference that closing the connection does not take away.
   */
  lemma ForsakenSessionLeaks(s: State, c: Conn, cmd: Command, auth: Authorize)
    requires Consistent(s) && c in s.contexts && Referenced(s, c)
    requires cmd.name == PUBLISH || cmd.name == PLAY
    requires Target(s.contexts[c], cmd).Some?
    requires Target(s.contexts[c], cmd).value.streamName != s.contexts[c].streamName
    ensures var s1 := Step(HandleCommand(s, c, cmd, auth).1, Close(c), auth);
      && c !in s1.contexts
      && StreamKey(s.contexts[c]) in s1.sessions
      && s1.sessions[StreamKey(s.contexts[c])].Refers(c)
  {
    SameKey(s, c, s.contexts[c].(streamName := Target(s.contexts[c], cmd).value.streamName));
    CommandRenames(s, c, cmd, auth);
    hide HandleCommand, StreamKey, Target;
    CloseSparesOthers(HandleCommand(s, c, cmd, auth).1, c, StreamKey(s.contexts[c]), auth);
  }

  /** A publish or play of another name leaves the session of the old key as it is. */
  lemma CommandRenames(s: State, c: Conn, cmd: Command, auth: Authorize)
    requires c in s.contexts && StreamKey(s.contexts[c]) in s.sessions
    requires cmd.name == PUBLISH || cmd.name == PLAY
    requires Target(s.contexts[c], cmd).Some?
    requires var x := s.contexts[c];
      StreamKey(x.(streamName := Target(x, cmd).value.streamName)) != StreamKey(x)
    ensures var s1 := HandleCommand(s, c, cmd, auth).1;
      && c in s1.contexts
      && StreamKey(s1.contexts[c]) != StreamKey(s.contexts[c])
      && StreamKey(s.contexts[c]) in s1.sessions
      && s1.sessions[StreamKey(s.contexts[c])] == s.sessions[StreamKey(s.contexts[c])]
  {
    hide Target;
    assert PUBLISH[0] != CONNECT[0] && PLAY[1] != PUBLISH[1] && PLAY[0] != CONNECT[0];
    assert PUBLISH[0] != CREATE_STREAM[0] && PLAY[0] != CREATE_STREAM[0];
  }

  lemma CloseSparesOthers(s: State, c: Conn, k: Text, auth: Authorize)
    requires c in s.contexts && k in s.sessions && StreamKey(s.contexts[c]) != k
    ensures var s1 := Step(s, Close(c), auth);
      c !in s1.contexts && k in s1.sessions && s1.sessions[k] == s.sessions[k]
  {
    hide StreamKey;
  }

  // ---------- What becomes of a forsaken session ----------

  /** The session `k` has a publisher that is no longer there. */
  predicate Orphaned(s: State, c: Conn, k: Text) {
    k in s.sessions && s.sessions[k].publisher == Some(c) && c !in s.contexts
  }

  lemma CleanupOrphaned(s: State, c: Conn, k: Text, d: Conn)
    requires k in s.sessions && s.sessions[k].publisher == Some(c) && d in s.contexts && d != c
    ensures k in Cleanup(s, d).sessions && Cleanup(s, d).sessions[k].publisher == Some(c)
    ensures Cleanup(s, d).contexts.Keys == s.contexts.Keys
  {
    hide StreamKey;
  }

  lemma CommandOrphaned(s: State, c: Conn, k: Text, d: Conn, cmd: Command, auth: Authorize)
    requires Orphaned(s, c, k) && d in s.contexts
    ensures Orphaned(HandleCommand(s, d, cmd, auth).1, c, k)
  {
    hide StreamKey, Target, AppOf, Cleanup;
    CleanupOrphaned(s, c, k, d);
  }

  lemma OrphanedStep(s: State, c: Conn, k: Text, e: Event, auth: Authorize)
    requires Orphaned(s, c, k) && e != Open(c)
    ensures Orphaned(Step(s, e, auth), c, k)
  {
    hide HandleCommand, DecodeCommand, Cleanup;
    match e
    case Open(d) =>
    case Close(d) =>
      if d in s.contexts {
        CleanupOrphaned(Shutdown(s, d), c, k, d);
      }
    case Receive(d, m) =>
      if d in s.contexts && DecodeCommand(m).Some? {
        CommandOrphaned(s, c, k, d, DecodeCommand(m).value, auth);
      }
  }

  lemma {:induction false} OrphanedRun(s: State, c: Conn, k: Text, es: seq<Event>, auth: Authorize)
    requires Orphaned(s, c, k) && Open(c) !in es
    ensures Orphaned(Run(s, es, auth), c, k)
    decreases |es|
  {
    if es != [] {
      hide Orphaned, Step;
      OrphanedStep(s, c, k, es[0], auth);
      OrphanedRun(Step(s, es[0], auth), c, k, es[1..], auth);
    }
  }

  /** Whoever publishes under the key of an orphaned session is refused and stays as it was. */
  lemma OrphanRefuses(s: State, c: Conn, k: Text, d: Conn, cmd: Command, auth: Authorize)
    requires Orphaned(s, c, k) && d in s.contexts && Target(s.contexts[d], cmd).Some?
    requires StreamKey(s.contexts[d].(streamName := Target(s.contexts[d], cmd).value.streamName)) == k
    ensures var s1 := HandlePublish(s, d, cmd, auth).1;
      && s1.sessions == s.sessions
      && s1.contexts[d].role == s.contexts[d].role && s1.contexts[d].session == s.contexts[d].session
  {
    hide Target;
  }

  /**
   A publisher that publishes or plays under another name and then closes blocks the key it left:
   whatever happens afterwards, unless the connection itself is opened again, the session stays
   registered with that publisher, and every other publish under the key is refused.
   */
  lemma ForsakenKeyIsBlocked(s: State, c: Conn, cmd: Command, later: seq<Event>, auth: Authorize,
                             d: Conn, again: Command)
    requires Consistent(s) && c in s.contexts && s.contexts[c].role == Publisher
    requires cmd.name == PUBLISH || cmd.name == PLAY
    requires Target(s.contexts[c], cmd).Some?
    requires Target(s.contexts[c], cmd).value.streamName != s.contexts[c].streamName
    requires Open(c) !in later
    ensures var k := StreamKey(s.contexts[c]);
      var r := Run(Step(HandleCommand(s, c, cmd, auth).1, Close(c), auth), later, auth);
      && Orphaned(r, c, k)
      && (d in r.contexts && Target(r.contexts[d], again).Some?
          && StreamKey(r.contexts[d].(streamName := Target(r.contexts[d], again).value.streamName)) == k
          ==> HandlePublish(r, d, again, auth).1.sessions == r.sessions)
  {
    var k := StreamKey(s.contexts[c]);
    PublisherIsReferenced(s, c);
    SameKey(s, c, s.contexts[c].(streamName := Target(s.contexts[c], cmd).value.streamName));
    CommandRenames(s, c, cmd, auth);
    hide HandleCommand, HandlePublish, StreamKey, Target, Consistent, Step, Run;
    var s1 := HandleCommand(s, c, cmd, auth).1;
    CloseSparesOthers(s1, c, k, auth);
    var s2 := Step(s1, Close(c), auth);
    OrphanedRun(s2, c, k, later, auth);
    var r := Run(s2, later, auth);
    if d in r.contexts && Target(r.contexts[d], again).Some?
       && StreamKey(r.contexts[d].(streamName := Target(r.contexts[d], again).value.streamName)) == k {
      OrphanRefuses(r, c, k, d, again, auth);
    }
  }

  lemma PublisherIsReferenced(s: State, c: Conn)
    requires Consistent(s) && c in s.contexts && s.contexts[c].role == Publisher
    ensures Referenced(s, c)
  {
    assert HasPlace(s, c);
    assert s.sessions[s.contexts[c].session.value].Refers(c);
  }

  /** A player that is gone is not left behind for good: the next broadcast of the session drops it. */
  lemma LeftPlayerIsDropped(s: State, c: Conn, k: Text, d: Conn)
    requires k in s.sessions && c !in s.connected
    requires d in s.contexts && s.contexts[d].role == Publisher && s.contexts[d].session == Some(k)
    ensures var s1 := HandleMedia(s, d).1; k in s1.sessions && c !in s1.sessions[k].players
  {
  }
}
