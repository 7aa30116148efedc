/**
 Which messages the session cache keeps, by their bytes (rtmp/RtmpSession.cc): message types 8, 9 and
 18, the frame type and codec in the first payload byte, packet type in the second.
 */
module RtmpMedia {
  import opened Bytes
  import opened RtmpTypes
  import opened RtmpSessions

  predicate OnMetaData(m: Message) {
    m.typeId == 18
  }

  /** Audio whose sound format, the upper four bits, is 10 (AAC), with packet type 0. */
  predicate AacConfig(m: Message) {
    m.typeId == 8 && |m.payload| >= 2 && 160 <= m.payload[0] < 176 && m.payload[1] == 0
  }

  /** Video whose codec, the lower four bits, is 7 (AVC), with packet type 0. */
  predicate AvcConfig(m: Message) {
    m.typeId == 9 && |m.payload| >= 2 && (exists k :: 0 <= k < 16 && m.payload[0] == 16 * k + 7) && m.payload[1] == 0
  }

  /** Audio and video that is no configuration. */
  predicate Frame(m: Message) {
    (m.typeId == 8 || m.typeId == 9) && !AacConfig(m) && !AvcConfig(m)
  }

  /** Video of frame type 1, the upper four bits, that is no configuration. */
  predicate KeyFrame(m: Message) {
    m.typeId == 9 && |m.payload| >= 1 && 16 <= m.payload[0] < 32 && !AvcConfig(m)
  }

  lemma KindsAre(m: Message)
    ensures IsAacSequenceHeader(m) <==> AacConfig(m)
    ensures IsAvcSequenceHeader(m) <==> AvcConfig(m)
    ensures IsFrame(m) <==> Frame(m)
    ensures IsKeyFrame(m) <==> KeyFrame(m)
  {
    if |m.payload| >= 1 {
      var k := m.payload[0] / 16;
      assert m.payload[0] == 16 * k + m.payload[0] % 16;
    }
  }

  /**
   What caching one message does: a key frame makes the group exactly itself, any other frame joins
   a group that has been started and never empties it, and each of the three others replaces only
   its own kind.
   */
  lemma CachedByBytes(c: Cache, m: Message)
    ensures var r := Cached(c, m);
      && (OnMetaData(m) ==> r == c.(metadata := Some(m)))
      && (AacConfig(m) ==> r == c.(audioHeader := Some(m)))
      && (AvcConfig(m) ==> r == c.(videoHeader := Some(m)))
      && (KeyFrame(m) ==> r == c.(gop := [m], started := true))
      && (Frame(m) && !KeyFrame(m) ==> r == if c.started then c.(gop := c.gop + [m]) else c)
      && (m.typeId !in {8, 9, 18} ==> r == c)
  {
    KindsAre(m);
    assert [] + [m] == [m];
  }

  // ---------- The cache by positions in the history ----------

  /** `i` is where the last message in `h` with property `P` stands, if there is one. */
  ghost predicate LastAt(h: seq<Message>, P: Message -> bool, i: Option<nat>) {
    match i
    case None => forall j :: 0 <= j < |h| ==> !P(h[j])
    case Some(n) => n < |h| && P(h[n]) && forall j :: n < j < |h| ==> !P(h[j])
  }

  /** The messages of `h` with property `P`, in order. */
  function Pick(h: seq<Message>, P: Message -> bool): seq<Message> {
    if h == [] then [] else (if P(h[0]) then [h[0]] else []) + Pick(h[1..], P)
  }

  function At(h: seq<Message>, i: Option<nat>): seq<Message>
    requires i.Some? ==> i.value < |h|
  {
    match i case None => [] case Some(n) => [h[n]]
  }

  lemma {:induction false} LatestIsLast(h: seq<Message>, k: Kind, P: Message -> bool) returns (i: Option<nat>)
    requires forall m :: OfKind(m, k) <==> P(m)
    ensures LastAt(h, P, i) && Opt(Latest(h, k)) == At(h, i)
  {
    if h == [] {
      i := None;
    } else {
      var n := |h| - 1;
      if P(h[n]) {
        i := Some(n);
      } else {
        i := LatestIsLast(h[..n], k, P);
        assert forall j :: 0 <= j < n ==> h[..n][j] == h[j];
      }
    }
  }

  lemma {:induction false} PickConcat(a: seq<Message>, b: seq<Message>, P: Message -> bool)
    ensures Pick(a + b, P) == Pick(a, P) + Pick(b, P)
  {
    if a == [] {
      assert a + b == b;
    } else {
      PickConcat(a[1..], b, P);
      assert (a + b)[0] == a[0] && (a + b)[1..] == a[1..] + b;
      Associate(if P(a[0]) then [a[0]] else [], Pick(a[1..], P), Pick(b, P));
    }
  }

  lemma {:induction false} FramesArePicked(h: seq<Message>)
    ensures Frames(h) == Pick(h, Frame)
  {
    if h != [] {
      KindsAre(h[0]);
      FramesArePicked(h[1..]);
    }
  }

  /** The group of a history: its frames from the last key frame on. */
  lemma {:induction false} GroupIsLast(h: seq<Message>) returns (i: Option<nat>)
    ensures LastAt(h, KeyFrame, i)
    ensures SinceKeyFrame(Frames(h)) == if i.Some? then Pick(h[i.value..], Frame) else []
  {
    if h == [] {
      i := None;
    } else {
      var n := |h| - 1;
      var j := GroupIsLast(h[..n]);
      i := if KeyFrame(h[n]) then Some(n) else j;
      GroupAppend(h);
      if j.Some? {
        GroupStarts(h[..n], j.value);
      }
      GroupGrows(h, n, i, h[n]);
      hide SinceKeyFrame, Frames, Pick, Frame, KeyFrame;
      LastAppend(h, KeyFrame, j, i);
    }
  }

  lemma LastAppend(h: seq<Message>, P: Message -> bool, j: Option<nat>, i: Option<nat>)
    requires h != [] && LastAt(h[..|h| - 1], P, j) && i == if P(h[|h| - 1]) then Some(|h| - 1) else j
    ensures LastAt(h, P, i)
  {
    assert forall x :: 0 <= x < |h| - 1 ==> h[..|h| - 1][x] == h[x];
  }

  /** One more message: a key frame starts the group, another frame joins it. */
  lemma GroupAppend(h: seq<Message>)
    requires h != []
    ensures var before, m := SinceKeyFrame(Frames(h[..|h| - 1])), h[|h| - 1];
      SinceKeyFrame(Frames(h)) ==
        if KeyFrame(m) then [m] else if before != [] && Frame(m) then before + [m] else before
  {
    var a, m := h[..|h| - 1], h[|h| - 1];
    assert h == a + [m];
    KindsAre(m);
    FramesOne(m);
    hide SinceKeyFrame, Frames, Frame, KeyFrame, IsFrame, IsKeyFrame;
    FramesConcat(a, [m]);
    assert Frames(a) + [] == Frames(a);
    assert KeyFrame(m) ==> Frame(m) by { KeyFrameIsFrame(m); }
    SinceKeyFrameAppend(Frames(a), m);
  }

  lemma FramesOne(m: Message)
    ensures Frames([m]) == if Frame(m) then [m] else []
  {
    KindsAre(m);
    assert [m][1..] == [];
  }

  lemma KeyFrameIsFrame(m: Message)
    ensures KeyFrame(m) ==> Frame(m)
  {
  }

  lemma GroupGrows(h: seq<Message>, n: nat, i: Option<nat>, m: Message)
    requires h != [] && n == |h| - 1 && m == h[n] && (i.Some? ==> i.value <= n)
    ensures i == Some(n) ==> Pick(h[n..], Frame) == if Frame(m) then [m] else []
    ensures i.Some? && i.value < n ==>
      Pick(h[i.value..], Frame) == Pick(h[..n][i.value..], Frame) + if Frame(m) then [m] else []
  {
    assert h[n..] == [m] && [m][1..] == [];
    if i.Some? && i.value < n {
      assert h[i.value..] == h[..n][i.value..] + [m];
      PickConcat(h[..n][i.value..], [m], Frame);
    }
  }

  lemma GroupStarts(h: seq<Message>, n: nat)
    requires n < |h| && KeyFrame(h[n])
    ensures Pick(h[n..], Frame) != []
  {
  }

  /**
   The replay for any history: the last metadata, the last AAC and the last AVC configuration, each
   if there has been one, and then all audio and video from the last key frame on.
   */
  lemma ReplayByBytes(h: seq<Message>)
    returns (meta: Option<nat>, aac: Option<nat>, avc: Option<nat>, key: Option<nat>)
    ensures LastAt(h, OnMetaData, meta) && LastAt(h, AacConfig, aac) && LastAt(h, AvcConfig, avc)
    ensures LastAt(h, KeyFrame, key)
    ensures Replay(CacheOf(h))
      == At(h, meta) + At(h, aac) + At(h, avc) + if key.Some? then Pick(h[key.value..], Frame) else []
  {
    forall m ensures OfKind(m, Metadata) <==> OnMetaData(m) {
    }
    forall m ensures OfKind(m, AacHeader) <==> AacConfig(m) {
      KindsAre(m);
    }
    forall m ensures OfKind(m, AvcHeader) <==> AvcConfig(m) {
      KindsAre(m);
    }
    meta := LatestIsLast(h, Metadata, OnMetaData);
    aac := LatestIsLast(h, AacHeader, AacConfig);
    avc := LatestIsLast(h, AvcHeader, AvcConfig);
    key := GroupIsLast(h);
    hide LastAt, Latest, SinceKeyFrame, Frames, Pick, Opt, At;
  }

  // ---------- Who is sent what ----------

  /** While `p` publishes, nobody else gets in, and nothing but its own leaving ends that. */
  lemma {:induction false} PublisherStays(s: Session, es: seq<Event>, p: Peer)
    requires s.publisher == Some(p) && UnpublishEvent(p) !in es
    ensures Run(s, es).publisher == Some(p)
    ensures forall x: Peer :: Published(Run(s, es), x).0 <==> x == p
    decreases |es|
  {
    if es != [] {
      hide Cached, Replay;
      PublisherStays(Step(s, es[0]), es[1..], p);
    }
  }

  /** A connection that has not joined is sent nothing. */
  lemma {:induction false} OthersHearNothing(s: Session, es: seq<Event>, p: Peer)
    requires p !in s.players && JoinEvent(p) !in es
    ensures p !in Run(s, es).players && SentTo(Run(s, es), p) == SentTo(s, p)
    decreases |es|
  {
    if es != [] {
      hide Cached, Replay;
      assert es[0] in es && forall e :: e in es[1..] ==> e in es;
      OthersHearNothing(Step(s, es[0]), es[1..], p);
    }
  }

  /** Nor is one that has left, until it joins again. */
  lemma LeaverHearsNothing(s: Session, es: seq<Event>, p: Peer)
    requires JoinEvent(p) !in es
    ensures SentTo(Run(Step(s, LeaveEvent(p)), es), p) == SentTo(s, p)
  {
    OthersHearNothing(Step(s, LeaveEvent(p)), es, p);
    hide Run;
  }

  /** A player that is not connected when something is published is forgotten: reconnecting is not enough. */
  lemma AbsentIsForgotten(s: Session, m: Message, es: seq<Event>, p: Peer)
    requires p !in s.connected && JoinEvent(p) !in es
    ensures SentTo(Run(Step(s, MediaEvent(m)), es), p) == SentTo(s, p)
  {
    hide Cached;
    OthersHearNothing(Step(s, MediaEvent(m)), es, p);
    hide Run;
  }

  /** Once the publisher has left, anyone can publish. */
  lemma LeftIsFree(s: Session, p: Peer, x: Peer)
    requires s.publisher == Some(p)
    ensures Published(Step(s, UnpublishEvent(p)), x).0
    ensures x != p ==> !Published(s, x).0 && Step(s, PublishEvent(x)) == s && Step(s, UnpublishEvent(x)) == s
  {
  }

  /** Nor is one that is not connected, whether it has joined or not. */
  lemma {:induction false} DisconnectedHearNothing(s: Session, es: seq<Event>, p: Peer)
    requires p !in s.connected && ConnectEvent(p) !in es
    ensures p !in Run(s, es).connected && SentTo(Run(s, es), p) == SentTo(s, p)
    decreases |es|
  {
    if es != [] {
      hide Cached, Replay;
      assert es[0] in es && forall e :: e in es[1..] ==> e in es;
      DisconnectedHearNothing(Step(s, es[0]), es[1..], p);
    }
  }

  /** While `p` publishes, the history grows by what is published. */
  lemma {:induction false} EpochGrows(s: Session, es: seq<Event>, p: Peer, h: seq<Message>)
    requires s.publisher == Some(p) && UnpublishEvent(p) !in es
    ensures Epoch(s, es, h) == h + MediaOf(es)
    decreases |es|
  {
    if es == [] {
      assert h + MediaOf(es) == h;
    } else {
      hide Cached, Replay;
      var more := if es[0].MediaEvent? then h + [es[0].message] else h;
      EpochGrows(Step(s, es[0]), es[1..], p, more);
      Associate(h, MediaIn(es[0]), MediaOf(es[1..]));
      assert more == h + MediaIn(es[0]);
    }
  }

  /** However a session got there, a publisher that takes over starts with an empty cache. */
  lemma TakeOver(s: Session, p: Peer, es: seq<Event>)
    requires s.publisher == None && UnpublishEvent(p) !in es
    ensures Run(Step(s, PublishEvent(p)), es).cache == CacheOf(MediaOf(es))
  {
    var s1 := Step(s, PublishEvent(p));
    EmptyCache();
    CacheFollowsEpoch(s1, es, []);
    EpochGrows(s1, es, p, []);
    assert [] + MediaOf(es) == MediaOf(es);
  }

  /**
   What a player is sent, by bytes: of the messages published since the publisher took over the last
   metadata, the last AAC and AVC configurations, the audio and video from the last key frame on,
   and then every message that is published while it stays.
   */
  lemma FeedByBytes(s: Session, p: Peer, es: seq<Event>, x: Peer, later: seq<Event>)
    returns (meta: Option<nat>, aac: Option<nat>, avc: Option<nat>, key: Option<nat>)
    requires s.publisher == None && UnpublishEvent(p) !in es
    requires x in Run(Step(s, PublishEvent(p)), es).connected && Stays(later, x)
    ensures var h := MediaOf(es);
      && LastAt(h, OnMetaData, meta) && LastAt(h, AacConfig, aac) && LastAt(h, AvcConfig, avc)
      && LastAt(h, KeyFrame, key)
      && var u := Run(Step(s, PublishEvent(p)), es);
         SentTo(Run(Step(u, JoinEvent(x)), later), x)
           == SentTo(u, x) + (At(h, meta) + At(h, aac) + At(h, avc)
                              + (if key.Some? then Pick(h[key.value..], Frame) else []) + MediaOf(later))
  {
    var u := Run(Step(s, PublishEvent(p)), es);
    TakeOver(s, p, es);
    meta, aac, avc, key := ReplayByBytes(MediaOf(es));
    JoinReplays(u, x);
    PlayerFeed(Step(u, JoinEvent(x)), later, x);
    hide Step, Run, Replay, CacheOf, At, Pick, LastAt, SentTo;
    Associate(SentTo(u, x), Replay(u.cache), MediaOf(later));
  }
}
