/** One stream's session (rtmp/RtmpSession.cc): publisher, players and the cache for late players. */
module RtmpSessions {
  import opened Bytes
  import opened RtmpTypes

  predicate IsAacSequenceHeader(m: Message) {
    m.typeId == AUDIO && |m.payload| >= 2 && m.payload[0] / 16 == 10 && m.payload[1] == 0
  }

  predicate IsAvcSequenceHeader(m: Message) {
    m.typeId == VIDEO && |m.payload| >= 2 && m.payload[0] % 16 == 7 && m.payload[1] == 0
  }

  predicate IsVideoKeyFrame(m: Message) {
    m.typeId == VIDEO && |m.payload| > 0 && m.payload[0] / 16 == 1
  }

  datatype Cache = Cache(
    metadata: Option<Message>,
    audioHeader: Option<Message>,
    videoHeader: Option<Message>,
    gop: seq<Message>,
    started: bool)

  const EMPTY_CACHE := Cache(None, None, None, [], false)

  /** `cacheMediaMessage`. */
  function Cached(c: Cache, m: Message): Cache {
    if m.typeId == DATA_AMF0 then c.(metadata := Some(m))
    else if IsAacSequenceHeader(m) then c.(audioHeader := Some(m))
    else if IsAvcSequenceHeader(m) then c.(videoHeader := Some(m))
    else
      var c1 := if IsVideoKeyFrame(m) then c.(gop := [], started := true) else c;
      if c1.started && (m.typeId == AUDIO || m.typeId == VIDEO) then c1.(gop := c1.gop + [m]) else c1
  }

  /** `replayCachedMessagesToPlayer`: what a late player is sent first. */
  function Replay(c: Cache): seq<Message> {
    Opt(c.metadata) + Opt(c.audioHeader) + Opt(c.videoHeader) + c.gop
  }

  function Opt(m: Option<Message>): seq<Message> {
    match m case None => [] case Some(x) => [x]
  }

  // ---------- What the cache means ----------

  predicate IsFrame(m: Message) {
    (m.typeId == AUDIO || m.typeId == VIDEO) && !IsAacSequenceHeader(m) && !IsAvcSequenceHeader(m)
  }

  predicate IsKeyFrame(m: Message) {
    IsFrame(m) && IsVideoKeyFrame(m)
  }

  /** The audio and video of a history, without the sequence headers. */
  function Frames(h: seq<Message>): seq<Message> {
    if h == [] then [] else (if IsFrame(h[0]) then [h[0]] else []) + Frames(h[1..])
  }

  /** From the last key frame on; nothing before there has been one. */
  function SinceKeyFrame(frames: seq<Message>): seq<Message> {
    if frames == [] then []
    else if SinceKeyFrame(frames[1..]) != [] then SinceKeyFrame(frames[1..])
    else if IsKeyFrame(frames[0]) then frames
    else []
  }

  datatype Kind = Metadata | AacHeader | AvcHeader

  predicate OfKind(m: Message, k: Kind) {
    match k
    case Metadata => m.typeId == DATA_AMF0
    case AacHeader => IsAacSequenceHeader(m)
    case AvcHeader => IsAvcSequenceHeader(m)
  }

  /** The last message of a kind. */
  function Latest(h: seq<Message>, k: Kind): Option<Message> {
    if h == [] then None
    else if OfKind(h[|h| - 1], k) then Some(h[|h| - 1])
    else Latest(h[..|h| - 1], k)
  }

  /** The cache that a history of one publisher epoch calls for. */
  function CacheOf(h: seq<Message>): Cache {
    Cache(Latest(h, Metadata), Latest(h, AacHeader), Latest(h, AvcHeader),
          SinceKeyFrame(Frames(h)), SinceKeyFrame(Frames(h)) != [])
  }

  lemma {:induction false} FramesConcat(a: seq<Message>, b: seq<Message>)
    ensures Frames(a + b) == Frames(a) + Frames(b)
  {
    if a == [] {
      assert a + b == b;
    } else {
      FramesConcat(a[1..], b);
      assert (a + b)[0] == a[0] && (a + b)[1..] == a[1..] + b;
      var head := if IsFrame(a[0]) then [a[0]] else [];
      assert head + (Frames(a[1..]) + Frames(b)) == head + Frames(a[1..]) + Frames(b);
    }
  }

  lemma {:induction false} SinceKeyFrameAppend(frames: seq<Message>, m: Message)
    ensures SinceKeyFrame(frames + [m]) ==
      if IsKeyFrame(m) then [m]
      else if SinceKeyFrame(frames) != [] then SinceKeyFrame(frames) + [m]
      else []
  {
    if frames == [] {
      assert frames + [m] == [m] && [m][1..] == [];
    } else {
      SinceKeyFrameAppend(frames[1..], m);
      assert (frames + [m])[0] == frames[0] && (frames + [m])[1..] == frames[1..] + [m];
    }
  }

  /** Caching one more message is the cache of the longer history. */
  lemma CachedRefines(h: seq<Message>, m: Message)
    ensures CacheOf(h + [m]) == Cached(CacheOf(h), m)
  {
    FramesConcat(h, [m]);
    assert Frames([m]) == if IsFrame(m) then [m] else [] by {
      assert [m][1..] == [];
    }
    assert (h + [m])[|h|] == m && (h + [m])[..|h|] == h;
    if IsFrame(m) {
      SinceKeyFrameAppend(Frames(h), m);
    } else {
      assert Frames(h) + [] == Frames(h);
    }
  }

  /** What `SinceKeyFrame` is: the suffix that starts at the last key frame. */
  lemma {:induction false} SinceKeyFrameIsSuffix(frames: seq<Message>) returns (k: nat)
    ensures k <= |frames| && SinceKeyFrame(frames) == frames[k..]
    ensures k < |frames| ==> IsKeyFrame(frames[k])
    ensures forall i :: k < i < |frames| ==> !IsKeyFrame(frames[i])
    ensures k == |frames| ==> forall i :: 0 <= i < |frames| ==> !IsKeyFrame(frames[i])
  {
    if frames == [] {
      k := 0;
    } else {
      var j := SinceKeyFrameIsSuffix(frames[1..]);
      assert forall i :: 1 <= i < |frames| ==> frames[i] == frames[1..][i - 1];
      if SinceKeyFrame(frames[1..]) != [] {
        k := j + 1;
      } else if IsKeyFrame(frames[0]) {
        k := 0;
      } else {
        k := |frames|;
      }
    }
  }

  lemma {:induction false} LatestIsOfKind(h: seq<Message>, k: Kind)
    ensures Latest(h, k).Some? ==> OfKind(Latest(h, k).value, k) && Latest(h, k).value in h
    ensures Latest(h, k).None? ==> forall m :: m in h ==> !OfKind(m, k)
  {
    if h != [] {
      LatestIsOfKind(h[..|h| - 1], k);
      assert h == h[..|h| - 1] + [h[|h| - 1]];
    }
  }

  lemma {:induction false} FramesOfFrames(frames: seq<Message>)
    requires forall m :: m in frames ==> IsFrame(m)
    ensures Frames(frames) == frames
  {
    if frames != [] {
      FramesOfFrames(frames[1..]);
      assert frames == [frames[0]] + frames[1..];
    }
  }

  lemma {:induction false} FramesAreFrames(h: seq<Message>)
    ensures forall m :: m in Frames(h) ==> IsFrame(m)
  {
    if h != [] {
      FramesAreFrames(h[1..]);
    }
  }

  lemma {:induction false} HeadersAreNoFrames(m: Option<Message>, k: Kind)
    requires m.Some? ==> OfKind(m.value, k)
    ensures Frames(Opt(m)) == []
  {
    if m.Some? {
      assert Opt(m)[1..] == [];
    }
  }

  /** The replay is the latest headers, which are no frames, and then the current group of pictures. */
  lemma FramesOfReplay(h: seq<Message>)
    ensures Frames(Replay(CacheOf(h))) == SinceKeyFrame(Frames(h))
  {
    var c := CacheOf(h);
    LatestIsOfKind(h, Metadata);
    LatestIsOfKind(h, AacHeader);
    LatestIsOfKind(h, AvcHeader);
    HeadersAreNoFrames(c.metadata, Metadata);
    HeadersAreNoFrames(c.audioHeader, AacHeader);
    HeadersAreNoFrames(c.videoHeader, AvcHeader);
    var k := SinceKeyFrameIsSuffix(Frames(h));
    FramesAreFrames(h);
    FramesOfFrames(c.gop);
    hide Frames, Latest, SinceKeyFrame, Opt;
    FramesConcat(Opt(c.metadata), Opt(c.audioHeader));
    FramesConcat(Opt(c.metadata) + Opt(c.audioHeader), Opt(c.videoHeader));
    FramesConcat(Opt(c.metadata) + Opt(c.audioHeader) + Opt(c.videoHeader), c.gop);
  }

  /**
   The audio and video of `feed` are those of `before` and then `live`, from the last key frame of
   `before` on; without one in `before` they are those of `live`.
   */
  predicate StartsAtKeyFrame(feed: seq<Message>, before: seq<Message>, live: seq<Message>, k: nat) {
    && k <= |Frames(before)| <= |Frames(before + live)|
    && Frames(feed) == Frames(before + live)[k..]
    && (k < |Frames(before)| ==> IsKeyFrame(Frames(before + live)[k]))
    && (forall i :: k < i < |Frames(before)| ==> !IsKeyFrame(Frames(before)[i]))
    && (k == |Frames(before)| ==> forall m :: m in Frames(before) ==> !IsKeyFrame(m))
  }

  /**
   A player that joins after `before` and then follows `live` sees, of the audio and video of the
   whole epoch, exactly the part from the last key frame before it joined: no gap, no duplicate.
   */
  lemma LatePlayer(before: seq<Message>, live: seq<Message>) returns (k: nat)
    ensures StartsAtKeyFrame(Replay(CacheOf(before)) + live, before, live, k)
  {
    k := SinceKeyFrameIsSuffix(Frames(before));
    FramesOfReplay(before);
    hide Frames, SinceKeyFrame;
    FramesConcat(Replay(CacheOf(before)), live);
    FramesConcat(before, live);
    assert (Frames(before) + Frames(live))[k..] == Frames(before)[k..] + Frames(live);
  }

  // ---------- The session over a run ----------

  type Peer = nat

  /** `connected` says which connections are connected, and `sent` what this session has sent to each. */
  datatype Session = Session(
    publisher: Option<Peer>,
    players: set<Peer>,
    cache: Cache,
    connected: set<Peer>,
    sent: map<Peer, seq<Message>>)

  function SentTo(s: Session, p: Peer): seq<Message> {
    if p in s.sent then s.sent[p] else []
  }

  function Published(s: Session, p: Peer): (bool, Session) {
    if s.publisher.Some? && s.publisher.value != p then (false, s)
    else (true, s.(publisher := Some(p), cache := if s.publisher == Some(p) then s.cache else EMPTY_CACHE))
  }

  function Unpublished(s: Session, p: Peer): Session {
    if s.publisher == Some(p) then s.(publisher := None) else s
  }

  function Deliver(s: Session, p: Peer, ms: seq<Message>): Session {
    s.(sent := s.sent[p := SentTo(s, p) + ms])
  }

  /** Joining: the player is added, then gets the cache. */
  function Join(s: Session, p: Peer): Session {
    var s1 := s.(players := s.players + {p});
    if p in s.connected then Deliver(s1, p, Replay(s.cache)) else s1
  }

  /** `onMediaMessage`: cache, then send to every connected player and forget the others. */
  function Media(s: Session, m: Message): Session {
    var to := s.players * s.connected;
    Session(s.publisher, to, Cached(s.cache, m), s.connected,
            map p | p in s.sent.Keys + to :: if p in to then SentTo(s, p) + [m] else s.sent[p])
  }

  datatype Event =
    | PublishEvent(peer: Peer)
    | UnpublishEvent(peer: Peer)
    | JoinEvent(peer: Peer)
    | LeaveEvent(peer: Peer)
    | MediaEvent(message: Message)
    | ConnectEvent(peer: Peer)
    | DisconnectEvent(peer: Peer)

  function Step(s: Session, e: Event): Session {
    match e
    case PublishEvent(p) => Published(s, p).1
    case UnpublishEvent(p) => Unpublished(s, p)
    case JoinEvent(p) => Join(s, p)
    case LeaveEvent(p) => s.(players := s.players - {p})
    case MediaEvent(m) => Media(s, m)
    case ConnectEvent(p) => s.(connected := s.connected + {p})
    case DisconnectEvent(p) => s.(connected := s.connected - {p})
  }

  function Run(s: Session, es: seq<Event>): Session
    decreases |es|
  {
    if es == [] then s else Run(Step(s, es[0]), es[1..])
  }

  lemma {:induction false} RunConcat(s: Session, a: seq<Event>, b: seq<Event>)
    ensures Run(s, a + b) == Run(Run(s, a), b)
    decreases |a|
  {
    hide Step;
    if a == [] {
      assert a + b == b;
    } else {
      RunConcat(Step(s, a[0]), a[1..], b);
      assert (a + b)[0] == a[0] && (a + b)[1..] == a[1..] + b;
    }
  }

  lemma RunOne(s: Session, e: Event)
    ensures Run(s, [e]) == Step(s, e)
  {
    hide Step;
    assert [e][1..] == [];
  }

  /** A session just created while these are connected. */
  function Fresh(connected: set<Peer>): Session {
    Session(None, {}, EMPTY_CACHE, connected, map[])
  }

  /** The media since the current publisher, or the last one, took over. */
  function Epoch(s: Session, es: seq<Event>, h: seq<Message>): seq<Message>
    decreases |es|
  {
    if es == [] then h
    else
      var h1 := match es[0]
        case MediaEvent(m) => h + [m]
        case PublishEvent(p) => if s.publisher.None? then [] else h
        case _ => h;
      Epoch(Step(s, es[0]), es[1..], h1)
  }

  lemma {:induction false} CacheFollowsEpoch(s: Session, es: seq<Event>, h: seq<Message>)
    requires s.cache == CacheOf(h)
    ensures Run(s, es).cache == CacheOf(Epoch(s, es, h))
    decreases |es|
  {
    if es != [] {
      hide CacheOf, Cached, Replay;
      EmptyCache();
      match es[0]
      case MediaEvent(m) =>
        CachedRefines(h, m);
        CacheFollowsEpoch(Step(s, es[0]), es[1..], h + [m]);
      case PublishEvent(p) =>
        CacheFollowsEpoch(Step(s, es[0]), es[1..], if s.publisher.None? then [] else h);
      case _ =>
        CacheFollowsEpoch(Step(s, es[0]), es[1..], h);
    }
  }

  lemma EmptyCache()
    ensures CacheOf([]) == EMPTY_CACHE
  {
  }

  /**
   After any run the cache is a function of the history: the latest metadata and sequence headers
   since the publisher epoch began, and the audio and video since the epoch's last key frame.
   */
  lemma CacheRefinesHistory(connected: set<Peer>, es: seq<Event>)
    ensures Run(Fresh(connected), es).cache == CacheOf(Epoch(Fresh(connected), es, []))
  {
    EmptyCache();
    CacheFollowsEpoch(Fresh(connected), es, []);
  }

  function MediaOf(es: seq<Event>): seq<Message> {
    if es == [] then []
    else MediaIn(es[0]) + MediaOf(es[1..])
  }

  /** Nothing in `es` takes `p` off the session or off the network, or makes it join again. */
  predicate Stays(es: seq<Event>, p: Peer) {
    forall e :: e in es ==> e != LeaveEvent(p) && e != DisconnectEvent(p) && e != JoinEvent(p)
  }

  function MediaIn(e: Event): seq<Message> {
    if e.MediaEvent? then [e.message] else []
  }

  lemma StepFeeds(s: Session, e: Event, p: Peer)
    requires p in s.players && p in s.connected
    requires e != LeaveEvent(p) && e != DisconnectEvent(p) && e != JoinEvent(p)
    ensures p in Step(s, e).players && p in Step(s, e).connected
    ensures SentTo(Step(s, e), p) == SentTo(s, p) + MediaIn(e)
  {
    hide Cached, Replay;
    if !e.MediaEvent? {
      assert SentTo(s, p) + [] == SentTo(s, p);
    }
  }

  /** A player that stays gets every message that is published, once, in order. */
  lemma {:induction false} PlayerFeed(s: Session, es: seq<Event>, p: Peer)
    requires p in s.players && p in s.connected && Stays(es, p)
    ensures p in Run(s, es).players && p in Run(s, es).connected
    ensures SentTo(Run(s, es), p) == SentTo(s, p) + MediaOf(es)
    decreases |es|
  {
    if es == [] {
      assert SentTo(s, p) + MediaOf(es) == SentTo(s, p);
    } else {
      assert es[0] in es && forall e :: e in es[1..] ==> e in es;
      StepFeeds(s, es[0], p);
      hide Step, SentTo, MediaIn;
      PlayerFeed(Step(s, es[0]), es[1..], p);
      Associate(SentTo(s, p), MediaIn(es[0]), MediaOf(es[1..]));
    }
  }

  lemma JoinReplays(s: Session, p: Peer)
    requires p in s.connected
    ensures p in Step(s, JoinEvent(p)).players && p in Step(s, JoinEvent(p)).connected
    ensures SentTo(Step(s, JoinEvent(p)), p) == SentTo(s, p) + Replay(s.cache)
  {
    hide Replay;
  }

  /**
   A player that joins in any reachable state and stays is sent the replay and then the live media;
   while the publisher does not change, its audio and video are those of the epoch from the last key
   frame before it joined.
   */
  lemma LatePlayerFeed(connected: set<Peer>, es: seq<Event>, p: Peer, later: seq<Event>) returns (k: nat)
    requires p in Run(Fresh(connected), es).connected && Stays(later, p)
    ensures var s := Run(Fresh(connected), es);
      var h := Epoch(Fresh(connected), es, []);
      && SentTo(Run(Step(s, JoinEvent(p)), later), p) == SentTo(s, p) + (Replay(s.cache) + MediaOf(later))
      && StartsAtKeyFrame(Replay(s.cache) + MediaOf(later), h, MediaOf(later), k)
  {
    var s := Run(Fresh(connected), es);
    CacheRefinesHistory(connected, es);
    JoinReplays(s, p);
    k := LatePlayer(Epoch(Fresh(connected), es, []), MediaOf(later));
    hide *;
    PlayerFeed(Step(s, JoinEvent(p)), later, p);
    Associate(SentTo(s, p), Replay(s.cache), MediaOf(later));
  }

  /** The connections, of which a session asks only whether they are connected. */
  class Network {
    var connected: set<Peer>
  }

  /** The session object. */
  class RtmpSession {
    var publisher: Option<Peer>
    var players: set<Peer>
    var metadata: Option<Message>
    var audioSequenceHeader: Option<Message>
    var videoSequenceHeader: Option<Message>
    var gopCache: seq<Message>
    var gopStarted: bool
    const streamKey: seq<Byte>
    const network: Network
    ghost var sent: map<Peer, seq<Message>>

    ghost function View(): Session
      reads this, network`connected
    {
      Session(publisher, players, CacheView(), network.connected, sent)
    }

    function CacheView(): Cache
      reads this
    {
      Cache(metadata, audioSequenceHeader, videoSequenceHeader, gopCache, gopStarted)
    }

    constructor (key: seq<Byte>, n: Network)
      ensures streamKey == key && network == n && View() == Fresh(n.connected)
    {
      streamKey, network, sent := key, n, map[];
      publisher, players := None, {};
      metadata, audioSequenceHeader, videoSequenceHeader := None, None, None;
      gopCache, gopStarted := [], false;
    }

    method SetPublisher(p: Peer) returns (accepted: bool)
      modifies this
      ensures (accepted, View()) == Published(old(View()), p)
    {
      if publisher.Some? && publisher != Some(p) {
        return false;
      }
      if publisher != Some(p) {
        metadata, audioSequenceHeader, videoSequenceHeader := None, None, None;
        gopCache := [];
        gopStarted := false;
      }
      publisher := Some(p);
      return true;
    }

    method ClearPublisher(p: Peer)
      modifies this`publisher
      ensures View() == Unpublished(old(View()), p)
    {
      if publisher == Some(p) {
        publisher := None;
      }
    }

    method CacheMediaMessage(m: Message)
      modifies this`metadata, this`audioSequenceHeader, this`videoSequenceHeader, this`gopCache, this`gopStarted
      ensures CacheView() == Cached(old(CacheView()), m)
    {
      if m.typeId == DATA_AMF0 {
        metadata := Some(m);
        return;
      }
      if IsAacSequenceHeader(m) {
        audioSequenceHeader := Some(m);
        return;
      }
      if IsAvcSequenceHeader(m) {
        videoSequenceHeader := Some(m);
        return;
      }
      if m.typeId == VIDEO && IsVideoKeyFrame(m) {
        gopCache := [];
        gopStarted := true;
      }
      if !gopStarted {
        return;
      }
      if m.typeId == AUDIO || m.typeId == VIDEO {
        gopCache := gopCache + [m];
      }
    }

    method Send(p: Peer, m: Message)
      modifies this`sent
      ensures sent == old(sent)[p := (if p in old(sent) then old(sent)[p] else []) + [m]]
    {
      sent := sent[p := (if p in sent then sent[p] else []) + [m]];
    }

    /** Walks the players in any order, dropping those that are gone. */
    method BroadcastMessage(m: Message)
      modifies this`players, this`sent
      ensures players == old(players) * network.connected
      ensures sent == map p | p in old(sent).Keys + players ::
        if p in players then SentTo(old(View()), p) + [m] else old(sent)[p]
    {
      var waiting := players;
      ghost var start := View();
      while waiting != {}
        invariant waiting <= players && network.connected == start.connected
        invariant forall p :: p in players <==> p in start.players && (p in waiting || p in start.connected)
        invariant sent.Keys == start.sent.Keys + (players - waiting)
        invariant forall p :: p in sent ==>
          sent[p] == if p in players - waiting then SentTo(start, p) + [m] else start.sent[p]
        decreases waiting
      {
        var p :| p in waiting;
        waiting := waiting - {p};
        if p !in network.connected {
          players := players - {p};
        } else {
          Send(p, m);
        }
      }
      assert players == start.players * start.connected;
    }

    method OnMediaMessage(m: Message)
      modifies this
      ensures View() == Media(old(View()), m)
      ensures publisher == old(publisher) && players == old(players) * network.connected
    {
      hide Cached;
      ghost var start := View();
      CacheMediaMessage(m);
      BroadcastMessage(m);
      assert View() == Media(start, m);
    }

    /** `addPlayer` followed by the replay, as `handlePlay` does. */
    method AddPlayer(p: Peer)
      modifies this`players, this`sent
      ensures View() == Join(old(View()), p)
      ensures players == old(players) + {p}
    {
      hide Replay;
      players := players + {p};
      if p in network.connected {
        SendAll(p, Replay(CacheView()));
      }
    }

    method SendAll(p: Peer, ms: seq<Message>)
      modifies this`sent
      ensures sent == old(sent)[p := SentTo(old(View()), p) + ms]
    {
      ghost var start := View();
      sent := sent[p := SentTo(start, p)];
      assert ms[..0] == [] && SentTo(start, p) + [] == SentTo(start, p);
      for i := 0 to |ms|
        invariant sent == start.sent[p := SentTo(start, p) + ms[..i]]
      {
        assert ms[..i + 1] == ms[..i] + [ms[i]];
        assert SentTo(start, p) + (ms[..i] + [ms[i]]) == SentTo(start, p) + ms[..i] + [ms[i]];
        Send(p, ms[i]);
      }
      assert ms[..|ms|] == ms;
    }

    predicate Empty()
      reads this
    {
      publisher == None && players == {}
    }

    method RemovePlayer(p: Peer)
      modifies this`players
      ensures View() == old(View()).(players := old(players) - {p})
    {
      players := players - {p};
    }
  }
}
