/** A client that shows what `StepKeepsIff` and `ForsakenKeyIsBlocked` speak of: it publishes twice. */
module RtmpForsaking {
  import opened Bytes
  import opened OrderedMaps
  import opened RtmpCommands
  import opened RtmpRegistry
  import opened RtmpRegistryRuns
  import Amf0

  function ConnectTo(app: Text): Command {
    Command(CONNECT, 0, Amf0.Object([Entry(APP, Amf0.String(app))]), [])
  }

  function CreateAStream(): Command {
    Command(CREATE_STREAM, 0, Amf0.Null, [])
  }

  function PublishAs(name: Text): Command {
    Command(PUBLISH, 1, Amf0.Null, [Amf0.String(name)])
  }

  function Sends(c: Conn, cmd: Command): Event {
    Receive(c, CommandMessage(cmd, 0))
  }

  /** A client connects, creates a stream and publishes it. */
  function OnePublish(c: Conn, app: Text, name: Text): seq<Event> {
    [Open(c), Sends(c, ConnectTo(app)), Sends(c, CreateAStream()), Sends(c, PublishAs(name))]
  }

  lemma {:induction false} GoodList(vs: seq<Amf0.Value>)
    requires forall v :: v in vs ==> Amf0.Canonical(v) && Amf0.Short(v)
    ensures Amf0.AllCanonical(vs) && Amf0.AllShort(vs)
  {
    if vs != [] {
      GoodList(vs[1..]);
    }
  }

  lemma AppIsGood(app: Text)
    requires |app| < 0x1_0000
    ensures Amf0.Canonical(ConnectTo(app).commandObject) && Amf0.Short(ConnectTo(app).commandObject)
  {
    var v := Amf0.String(app);
    var props := [Entry(APP, v)];
    assert Amf0.Canonical(v) && Amf0.Short(v);
    assert props[0].value == v && props[0].key == APP && props[1..] == [];
    assert Amf0.CanonicalAll(props[1..]) && Amf0.ShortAll(props[1..]) && Sorted(props[1..]);
    assert Amf0.CanonicalAll(props) && Amf0.ShortAll(props) && Sorted(props);
    assert ConnectTo(app).commandObject == Amf0.Object(props);
  }

  lemma ConnectArrives(app: Text)
    requires |app| < 0x1_0000
    ensures DecodeCommand(CommandMessage(ConnectTo(app), 0)) == Some(ConnectTo(app))
  {
    AppIsGood(app);
    GoodList(CommandValues(ConnectTo(app), 0));
    hide Amf0.AllCanonical, Amf0.AllShort;
    CommandRoundTrip(ConnectTo(app), 0);
  }

  lemma CreateArrives()
    ensures DecodeCommand(CommandMessage(CreateAStream(), 0)) == Some(CreateAStream())
  {
    GoodList(CommandValues(CreateAStream(), 0));
    hide Amf0.AllCanonical, Amf0.AllShort;
    CommandRoundTrip(CreateAStream(), 0);
  }

  lemma PublishArrives(name: Text)
    requires |name| < 0x1_0000
    ensures DecodeCommand(CommandMessage(PublishAs(name), 0)) == Some(PublishAs(name))
  {
    GoodList(CommandValues(PublishAs(name), 0));
    hide Amf0.AllCanonical, Amf0.AllShort;
    CommandRoundTrip(PublishAs(name), 0);
  }

  lemma SendIs(s: State, c: Conn, cmd: Command, auth: Authorize)
    requires c in s.contexts && DecodeCommand(CommandMessage(cmd, 0)) == Some(cmd)
    ensures var (ok, s1) := HandleCommand(s, c, cmd, auth);
      Step(s, Sends(c, cmd), auth) == if ok then s1 else Shutdown(s1, c)
  {
    hide HandleCommand, DecodeCommand, Amf0.EncodeAll;
  }

  /** A client that has joined `app` and opened its one stream. */
  function Ready(c: Conn, app: Text): State {
    State(map[c := NEW_CONTEXT.(app := app, streamId := 1, nextStreamId := 2)], map[], {c})
  }

  /** The same client, publishing `name`. */
  function Publishing(c: Conn, app: Text, name: Text): State {
    var k := MakeKey(app, name);
    State(map[c := Context(Publisher, app, name, [], 1, 2, Some(k))], map[k := Session(Some(c), {})], {c})
  }

  lemma ConnectIsHandled(c: Conn, app: Text, auth: Authorize)
    requires |app| < 0x1_0000
    ensures Step(Step(START, Open(c), auth), Sends(c, ConnectTo(app)), auth)
      == State(map[c := NEW_CONTEXT.(app := app)], map[], {c})
  {
    ConnectArrives(app);
    var s := Step(START, Open(c), auth);
    assert s == State(map[c := NEW_CONTEXT], map[], {c});
    SendIs(s, c, ConnectTo(app), auth);
    assert AppOf(ConnectTo(app).commandObject) == Some(app);
    hide DecodeCommand, CommandMessage, AppOf, Step;
    assert HandleConnect(s, c, ConnectTo(app)).1 == State(map[c := NEW_CONTEXT.(app := app)], map[], {c});
  }

  lemma ReadyIsReached(c: Conn, app: Text, auth: Authorize)
    requires |app| < 0x1_0000
    ensures var s := Step(START, Open(c), auth);
      Step(Step(s, Sends(c, ConnectTo(app)), auth), Sends(c, CreateAStream()), auth) == Ready(c, app)
  {
    hide HandlePublish, HandlePlay, HandleDeleteStream, HandleConnect, DecodeCommand, CommandMessage, Step;
    ConnectIsHandled(c, app, auth);
    CreateArrives();
    var s := State(map[c := NEW_CONTEXT.(app := app)], map[], {c});
    SendIs(s, c, CreateAStream(), auth);
    assert CREATE_STREAM[1] != CONNECT[1];
    assert HandleCommand(s, c, CreateAStream(), auth) == HandleCreateStream(s, c);
    assert HandleCreateStream(s, c).1 == Ready(c, app);
  }

  lemma PublishingIsReached(c: Conn, app: Text, name: Text, auth: Authorize)
    requires app != [] && 0 < |name| < 0x1_0000 && QUESTION !in name && auth(MakeKey(app, name), [], true)
    ensures Step(Ready(c, app), Sends(c, PublishAs(name)), auth) == Publishing(c, app, name)
  {
    PublishArrives(name);
    TargetRoundTrip(name, []);
    var s, cmd := Ready(c, app), PublishAs(name);
    SendIs(s, c, cmd, auth);
    assert PUBLISH[0] != CONNECT[0] && PUBLISH[0] != CREATE_STREAM[0];
    assert Target(s.contexts[c], cmd) == Some(StreamTarget(name, []));
    hide ParseTarget, DecodeCommand, MakeKey, CommandMessage, Target, Step;
    PublishIs(s, c, cmd, auth);
    assert HandlePublish(s, c, cmd, auth).0;
    hide HandlePublish;
    assert s.contexts[c := Publishing(c, app, name).contexts[c]] == Publishing(c, app, name).contexts;
    assert HandlePublish(s, c, cmd, auth).1 == Publishing(c, app, name);
  }

  lemma OnePublishReaches(c: Conn, app: Text, name: Text, auth: Authorize)
    requires 0 < |app| < 0x1_0000 && 0 < |name| < 0x1_0000 && QUESTION !in name
    requires auth(MakeKey(app, name), [], true)
    ensures Run(START, OnePublish(c, app, name), auth) == Publishing(c, app, name)
  {
    ReadyIsReached(c, app, auth);
    PublishingIsReached(c, app, name, auth);
    hide Step, Sends, Ready, Publishing;
    var es := OnePublish(c, app, name);
    assert es[1..][1..][1..] == [es[3]];
    assert es[1..][1..][0] == es[2] && es[1..][0] == es[1];
    FourSteps(START, es, auth);
  }

  lemma FourSteps(s: State, es: seq<Event>, auth: Authorize)
    requires |es| == 4
    ensures Run(s, es, auth)
      == Step(Step(Step(Step(s, es[0], auth), es[1], auth), es[2], auth), es[3], auth)
  {
    hide Step;
    var s1 := Step(s, es[0], auth);
    var s2 := Step(s1, es[1], auth);
    var s3 := Step(s2, es[2], auth);
    assert Run(s, es, auth) == Run(s1, es[1..], auth);
    assert Run(s1, es[1..], auth) == Run(s2, es[1..][1..], auth);
    assert Run(s2, es[1..][1..], auth) == Run(s3, es[1..][1..][1..], auth);
    assert Run(s3, es[1..][1..][1..], auth) == Step(s3, es[3], auth);
  }

  lemma PublishingIsConsistent(c: Conn, app: Text, name: Text)
    requires app != [] && name != []
    ensures Consistent(Publishing(c, app, name)) && Referenced(Publishing(c, app, name), c)
  {
    var s, k := Publishing(c, app, name), MakeKey(app, name);
    hide MakeKey;
    assert s.sessions[k].Refers(c);
    assert HasPlace(s, c);
  }

  /**
   A run from the start that breaks the registry: after one publish everything agrees, and a second
   publish under any other name, authorised or not, leaves the first session with a publisher whose
   context says otherwise.
   */
  lemma SecondPublishBreaks(c: Conn, app: Text, a: Text, b: Text, auth: Authorize)
    requires 0 < |app| < 0x1_0000 && 0 < |a| < 0x1_0000 && 0 < |b| < 0x1_0000 && a != b
    requires QUESTION !in a && QUESTION !in b && auth(MakeKey(app, a), [], true)
    ensures var s := Run(START, OnePublish(c, app, a), auth);
      && Consistent(s) && Referenced(s, c)
      && Forsaking(s, Sends(c, PublishAs(b)), auth)
      && !Consistent(Step(s, Sends(c, PublishAs(b)), auth))
  {
    OnePublishReaches(c, app, a, auth);
    PublishingIsConsistent(c, app, a);
    PublishArrives(b);
    TargetRoundTrip(b, []);
    var s := Publishing(c, app, a);
    assert PUBLISH[0] != CONNECT[0];
    hide Consistent, Referenced, ParseTarget, DecodeCommand, CommandMessage, MakeKey, Step, Run;
    assert Target(s.contexts[c], PublishAs(b)) == Some(StreamTarget(b, []));
    assert Forsakes(s, c, PublishAs(b), auth);
    StepKeepsIff(s, Sends(c, PublishAs(b)), auth);
  }

  /** One such run: application "live", streams "a" and "b", everybody authorised. */
  lemma SomeRunBreaks()
    ensures var everybody: Authorize := (k, t, p) => true;
      !Consistent(Run(START, OnePublish(0, [108, 105, 118, 101], [97]) + [Sends(0, PublishAs([98]))], everybody))
  {
    var everybody: Authorize := (k, t, p) => true;
    var es, e := OnePublish(0, [108, 105, 118, 101], [97]), Sends(0, PublishAs([98]));
    SecondPublishBreaks(0, [108, 105, 118, 101], [97], [98], everybody);
    hide *;
    RunOneMore(START, es, e, everybody);
  }

  lemma {:induction false} RunOneMore(s: State, es: seq<Event>, e: Event, auth: Authorize)
    ensures Run(s, es + [e], auth) == Step(Run(s, es, auth), e, auth)
    decreases |es|
  {
    hide Step;
    if es == [] {
      assert es + [e] == [e] && [e][1..] == [];
    } else {
      RunOneMore(Step(s, es[0], auth), es[1..], e, auth);
      assert (es + [e])[0] == es[0] && (es + [e])[1..] == es[1..] + [e];
    }
  }
}
