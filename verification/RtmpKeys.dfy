/** Which streams share a stream key (rtmp/RtmpTypes.h, `MakeStreamKey`), and so a session. */
module RtmpKeys {
  import opened Bytes
  import opened RtmpCommands
  import opened RtmpRegistry

  /** The application `b` swallows a part `t` of the name `n`. */
  predicate ShiftsBy(a: Text, n: Text, b: Text, m: Text, t: Text) {
    b == a + [SLASH] + t && n == t + [SLASH] + m
  }

  ghost predicate Shifts(a: Text, n: Text, b: Text, m: Text) {
    exists t :: ShiftsBy(a, n, b, m, t)
  }

  lemma ShiftedKeys(a: Text, n: Text, b: Text, m: Text, t: Text)
    requires a != [] && m != [] && ShiftsBy(a, n, b, m, t)
    ensures MakeKey(a, n) == MakeKey(b, m)
  {
    assert [SLASH] + a + [SLASH] + (t + [SLASH] + m) == [SLASH] + (a + [SLASH] + t) + [SLASH] + m;
  }

  /** Where the parts of a key lie in it. */
  lemma KeyParts(a: Text, n: Text)
    requires a != [] && n != []
    ensures var k := MakeKey(a, n);
      && |k| == |a| + |n| + 2
      && k[1..1 + |a|] == a && k[1 + |a|] == SLASH && k[2 + |a|..] == n
  {
  }

  lemma ShorterFirst(a: Text, n: Text, b: Text, m: Text)
    requires a != [] && n != [] && m != [] && MakeKey(a, n) == MakeKey(b, m) && |a| < |b|
    ensures Shifts(a, n, b, m)
  {
    var k, t := MakeKey(a, n), b[|a| + 1..];
    KeyParts(a, n);
    KeyParts(b, m);
    hide MakeKey;
    assert b == k[1..1 + |b|] && b[..|a|] == k[1..1 + |a|] == a && b[|a|] == k[1 + |a|];
    assert b == a + [SLASH] + t;
    assert t == k[2 + |a|..1 + |b|];
    assert n == k[2 + |a|..] == t + [SLASH] + m;
    assert ShiftsBy(a, n, b, m, t);
  }

  lemma SameLength(a: Text, n: Text, b: Text, m: Text)
    requires a != [] && n != [] && b != [] && m != [] && MakeKey(a, n) == MakeKey(b, m)
    requires |a| == |b| || |n| == |m|
    ensures a == b && n == m
  {
    KeyParts(a, n);
    KeyParts(b, m);
    hide MakeKey;
  }

  /** Two streams share a key exactly when they are one, or one's application takes in a part of the other's name. */
  lemma SameKeyIff(a: Text, n: Text, b: Text, m: Text)
    requires a != [] && n != [] && b != [] && m != []
    ensures MakeKey(a, n) == MakeKey(b, m) <==> (a == b && n == m) || Shifts(a, n, b, m) || Shifts(b, m, a, n)
  {
    hide MakeKey, ShiftsBy;
    if MakeKey(a, n) == MakeKey(b, m) {
      if |a| < |b| {
        ShorterFirst(a, n, b, m);
      } else if |b| < |a| {
        ShorterFirst(b, m, a, n);
      } else {
        SameLength(a, n, b, m);
      }
    }
    if Shifts(a, n, b, m) {
      var t :| ShiftsBy(a, n, b, m, t);
      ShiftedKeys(a, n, b, m, t);
    }
    if Shifts(b, m, a, n) {
      var t :| ShiftsBy(b, m, a, n, t);
      ShiftedKeys(b, m, a, n, t);
    }
  }

  // ---------- Whether a stream is alone on its key ----------

  /** Another stream with the key of this one. */
  predicate Rival(a: Text, n: Text, b: Text, m: Text) {
    b != [] && m != [] && (a != b || n != m) && MakeKey(b, m) == MakeKey(a, n)
  }

  predicate SlashBehindFirst(a: Text) {
    exists i :: 1 <= i < |a| && a[i] == SLASH
  }

  predicate SlashBeforeLast(n: Text) {
    exists i :: 0 <= i < |n| - 1 && n[i] == SLASH
  }

  lemma SlashInApplication(a: Text, n: Text, i: nat)
    requires n != [] && 1 <= i < |a| && a[i] == SLASH
    ensures Rival(a, n, a[..i], a[i + 1..] + [SLASH] + n)
  {
    assert a == a[..i] + [SLASH] + a[i + 1..];
    ShiftedKeys(a[..i], a[i + 1..] + [SLASH] + n, a, n, a[i + 1..]);
  }

  lemma SlashInName(a: Text, n: Text, i: nat)
    requires a != [] && i < |n| - 1 && n[i] == SLASH
    ensures Rival(a, n, a + [SLASH] + n[..i], n[i + 1..])
  {
    assert n == n[..i] + [SLASH] + n[i + 1..];
    ShiftedKeys(a, n, a + [SLASH] + n[..i], n[i + 1..], n[..i]);
  }

  lemma RivalHasSlash(a: Text, n: Text, b: Text, m: Text)
    requires a != [] && n != [] && Rival(a, n, b, m)
    ensures SlashBehindFirst(a) || SlashBeforeLast(n)
  {
    SameKeyIff(a, n, b, m);
    hide MakeKey;
    if Shifts(a, n, b, m) {
      var t :| ShiftsBy(a, n, b, m, t);
      assert n[|t|] == SLASH;
    } else {
      var t :| ShiftsBy(b, m, a, n, t);
      assert a[|b|] == SLASH;
    }
  }

  /**
   Exactly when a stream shares its key with another one: its application has a slash behind its
   first byte, or its name has one before its last byte.
   */
  lemma KeyIsSharedIff(a: Text, n: Text)
    requires a != [] && n != []
    ensures (exists b, m :: Rival(a, n, b, m)) <==> SlashBehindFirst(a) || SlashBeforeLast(n)
  {
    hide Rival;
    if SlashBehindFirst(a) {
      var i :| 1 <= i < |a| && a[i] == SLASH;
      SlashInApplication(a, n, i);
    }
    if SlashBeforeLast(n) {
      var i :| 0 <= i < |n| - 1 && n[i] == SLASH;
      SlashInName(a, n, i);
    }
    if exists b, m :: Rival(a, n, b, m) {
      var b, m :| Rival(a, n, b, m);
      RivalHasSlash(a, n, b, m);
    }
  }

  /** Here "a", "b/c" and "a/b", "c". */
  lemma KeysCollide()
    ensures Rival([97], [98, SLASH, 99], [97, SLASH, 98], [99])
  {
    assert MakeKey([97], [98, SLASH, 99]) == [SLASH, 97, SLASH, 98, SLASH, 99] == MakeKey([97, SLASH, 98], [99]);
  }

  /** With the same application or the same name, the key tells the other. */
  lemma KeyTells(x: Context, y: Context)
    requires StreamKey(x) == StreamKey(y) != []
    requires x.app == y.app || x.streamName == y.streamName
    ensures x.app == y.app && x.streamName == y.streamName
  {
    SameLength(x.app, x.streamName, y.app, y.streamName);
  }

  /** Whoever may play a stream joins the publisher of any stream that shares its key. */
  lemma RivalIsJoined(s: State, c: Conn, d: Conn, t: StreamTarget, auth: Authorize)
    requires c in s.contexts && d in s.contexts
    requires var k := StreamKey(s.contexts[c]);
      && k != [] && k in s.sessions && s.sessions[k].publisher == Some(c)
      && Rival(s.contexts[c].app, s.contexts[c].streamName, s.contexts[d].app, t.streamName)
      && auth(k, t.ticket, false)
    ensures var k := StreamKey(s.contexts[c]);
      var (ok, s1) := PlayFrom(s, d, t, auth);
      && ok && k in s1.sessions
      && s1.sessions[k] == s.sessions[k].(players := s.sessions[k].players + {d})
      && s1.contexts[d].session == Some(k)
  {
    hide MakeKey;
  }

  /** And whoever may publish one of them keeps the others from being published. */
  lemma RivalIsRefused(s: State, c: Conn, d: Conn, t: StreamTarget, publishType: Text, auth: Authorize)
    requires c in s.contexts && d in s.contexts && c != d
    requires var k := StreamKey(s.contexts[c]);
      && k != [] && k in s.sessions && s.sessions[k].publisher == Some(c)
      && Rival(s.contexts[c].app, s.contexts[c].streamName, s.contexts[d].app, t.streamName)
    ensures var s1 := PublishTo(s, d, t, publishType, auth).1;
      && s1.sessions == s.sessions
      && s1.contexts[d].role == s.contexts[d].role && s1.contexts[d].session == s.contexts[d].session
  {
    hide MakeKey;
  }
}
