/**
 The output path of a connection (net/TcpConnection.cc) as a state machine: direct writes, the
 backlog, write interest and the half-close. The kernel's answers are inputs.
 */
module TcpOutput {
  import opened Bytes

  datatype State = Connecting | Connected | Disconnecting | Disconnected

  /** `Broken` is EPIPE or ECONNRESET; `OtherError` is any error but these and EWOULDBLOCK. */
  datatype WriteResult = Wrote(n: nat) | WouldBlock | Broken | OtherError

  /** Callbacks queued to the loop. */
  datatype Notice = WriteComplete | HighWater(size: nat)

  const HIGH_WATER_MARK := 64 * 1024 * 1024

  datatype Conn = Conn(
    state: State,
    backlog: seq<Byte>,       // `outputBuffer_`
    writing: bool,            // interest in EPOLLOUT
    notices: seq<Notice>,
    wire: seq<Byte>,          // what the kernel has taken
    accepted: seq<Byte>,      // all sends, less those refused by a broken peer
    halfCloses: nat)

  const START := Conn(Connected, [], false, [], [], [], 0)

  datatype Event =
    | Send(data: seq<Byte>, result: WriteResult)
    | Writable(result: WriteResult)
    | Shutdown
    | Close

  /** The kernel takes no more than it is given. */
  predicate Enabled(c: Conn, e: Event) {
    match e
    case Send(data, r) => r.Wrote? ==> r.n <= |data|
    case Writable(r) => r.Wrote? ==> r.n <= |c.backlog|
    case _ => true
  }

  function Notify(c: Conn, n: Notice): Conn {
    c.(notices := c.notices + [n])
  }

  predicate Live(c: Conn) {
    c.state == Connected || c.state == Disconnecting
  }

  /** `sendInLoop`: write directly only when nothing is waiting; queue what was not taken. */
  function SendInLoop(c: Conn, data: seq<Byte>, r: WriteResult): Conn
    requires Enabled(c, Send(data, r))
  {
    if c.state == Disconnected then c
    else
      var direct := !c.writing && c.backlog == [];
      var n := if direct && r.Wrote? then r.n else 0;
      var remaining := |data| - n;
      var c1 := c.(wire := c.wire + data[..n]);
      var c2 := if direct && r.Wrote? && remaining == 0 then Notify(c1, WriteComplete) else c1;
      if direct && r == Broken then c2
      else
        var c3 := c2.(accepted := c.accepted + data);
        if remaining == 0 then c3
        else QueueRest(c3, data[n..])
  }

  /** What was not written waits for the socket; crossing the mark upwards is reported. */
  function QueueRest(c: Conn, rest: seq<Byte>): Conn {
    var was := |c.backlog|;
    var c1 := if was + |rest| >= HIGH_WATER_MARK && was < HIGH_WATER_MARK
              then Notify(c, HighWater(was + |rest|)) else c;
    c1.(backlog := c.backlog + rest, writing := true)
  }

  function ShutdownInLoop(c: Conn): Conn {
    if !c.writing then c.(halfCloses := c.halfCloses + 1) else c
  }

  function HandleWrite(c: Conn, r: WriteResult): Conn
    requires Enabled(c, Writable(r))
  {
    if !c.writing || !r.Wrote? || r.n == 0 then c
    else
      var c1 := c.(wire := c.wire + c.backlog[..r.n], backlog := c.backlog[r.n..]);
      if c1.backlog != [] then c1
      else
        var c2 := Notify(c1.(writing := false), WriteComplete);
        if c2.state == Disconnecting then ShutdownInLoop(c2) else c2
  }

  function Step(c: Conn, e: Event): Conn {
    if !Enabled(c, e) then c
    else
      match e
      case Send(data, r) => if c.state == Connected then SendInLoop(c, data, r) else c
      case Writable(r) => HandleWrite(c, r)
      case Shutdown => if c.state == Connected then ShutdownInLoop(c.(state := Disconnecting)) else c
      case Close => c.(state := Disconnected, writing := false)
  }

  function Run(c: Conn, es: seq<Event>): Conn
    decreases |es|
  {
    if es == [] then c else Run(Step(c, es[0]), es[1..])
  }

  /**
   Nothing is lost, duplicated or reordered; write interest is on exactly while there is a backlog;
   a connection that is shutting down has been half-closed exactly when its backlog is out.
   */
  ghost predicate Inv(c: Conn) {
    && c.wire + c.backlog == c.accepted
    && (Live(c) ==> (c.writing <==> c.backlog != []))
    && (!Live(c) ==> !c.writing)
    && (c.state == Disconnecting ==> c.halfCloses == if c.backlog == [] then 1 else 0)
    && (c.state == Connected || c.state == Connecting ==> c.halfCloses == 0)
    && c.halfCloses <= 1
    && (c.halfCloses == 1 ==> c.backlog == [])
  }

  lemma SendKeepsInv(c: Conn, data: seq<Byte>, r: WriteResult)
    requires Inv(c) && c.state == Connected && Enabled(c, Send(data, r))
    ensures Inv(SendInLoop(c, data, r))
  {
    var direct := !c.writing && c.backlog == [];
    var n := if direct && r.Wrote? then r.n else 0;
    assert data == data[..n] + data[n..];
    if direct && !(r == Broken) {
      Associate(c.wire, data[..n], data[n..]);
      assert c.wire == c.accepted;
    } else {
      Associate(c.wire, c.backlog, data);
    }
  }

  lemma WriteKeepsInv(c: Conn, r: WriteResult)
    requires Inv(c) && Enabled(c, Writable(r))
    ensures Inv(HandleWrite(c, r))
  {
    if c.writing && r.Wrote? && r.n > 0 {
      assert c.backlog == c.backlog[..r.n] + c.backlog[r.n..];
      Associate(c.wire, c.backlog[..r.n], c.backlog[r.n..]);
    }
  }

  lemma StepKeepsInv(c: Conn, e: Event)
    requires Inv(c)
    ensures Inv(Step(c, e))
  {
    if Enabled(c, e) {
      match e
      case Send(data, r) => if c.state == Connected { SendKeepsInv(c, data, r); }
      case Writable(r) => WriteKeepsInv(c, r);
      case Shutdown =>
      case Close =>
    }
  }

  lemma {:induction false} RunKeepsInv(c: Conn, es: seq<Event>)
    requires Inv(c)
    ensures Inv(Run(c, es))
    decreases |es|
  {
    if es != [] {
      StepKeepsInv(c, es[0]);
      hide Inv, Step;
      RunKeepsInv(Step(c, es[0]), es[1..]);
    }
  }

  /** The data of the sends of a run, as the application sees it, while it is connected. */
  function Sent(c: Conn, es: seq<Event>): seq<Byte>
    decreases |es|
  {
    if es == [] then []
    else
      (if es[0].Send? && Enabled(c, es[0]) && c.state == Connected
          && !(es[0].result == Broken && !c.writing && c.backlog == [])
       then es[0].data else [])
      + Sent(Step(c, es[0]), es[1..])
  }

  lemma {:induction false} AcceptedIsSent(c: Conn, es: seq<Event>)
    ensures Run(c, es).accepted == c.accepted + Sent(c, es)
    decreases |es|
  {
    if es == [] {
      assert c.accepted + Sent(c, es) == c.accepted;
    } else {
      StepAccepts(c, es[0]);
      hide Step;
      AcceptedIsSent(Step(c, es[0]), es[1..]);
      var now := if es[0].Send? && Enabled(c, es[0]) && c.state == Connected
                    && !(es[0].result == Broken && !c.writing && c.backlog == []) then es[0].data else [];
      Associate(c.accepted, now, Sent(Step(c, es[0]), es[1..]));
    }
  }

  lemma StepAccepts(c: Conn, e: Event)
    ensures Step(c, e).accepted == c.accepted
      + if e.Send? && Enabled(c, e) && c.state == Connected && !(e.result == Broken && !c.writing && c.backlog == [])
        then e.data else []
  {
  }

  /**
   Conservation of output bytes over every run: the wire followed by the backlog is everything sent
   while connected, except sends that a broken peer refused outright.
   */
  lemma OutputIsConserved(es: seq<Event>)
    ensures var c := Run(START, es);
      && c.wire + c.backlog == Sent(START, es)
      && (Live(c) ==> (c.writing <==> c.backlog != []))
      && c.halfCloses <= 1
  {
    RunKeepsInv(START, es);
    AcceptedIsSent(START, es);
    assert START.accepted + Sent(START, es) == Sent(START, es);
  }

  /** A half-closed connection has everything on the wire, and nothing more is ever sent. */
  lemma HalfCloseIsLast(es: seq<Event>, later: seq<Event>)
    requires Run(START, es).halfCloses == 1
    ensures Run(START, es).wire == Sent(START, es)
    ensures var c, d := Run(START, es), Run(Run(START, es), later);
      d.halfCloses == 1 && d.wire == c.wire && d.accepted == c.accepted
  {
    OutputIsConserved(es);
    RunKeepsInv(START, es);
    var c := Run(START, es);
    assert c.wire + c.backlog == c.wire;
    ClosedStays(c, later);
  }

  lemma {:induction false} ClosedStays(c: Conn, es: seq<Event>)
    requires Inv(c) && c.halfCloses == 1
    ensures var d := Run(c, es); d.halfCloses == 1 && d.wire == c.wire && d.accepted == c.accepted
    decreases |es|
  {
    if es != [] {
      StepKeepsInv(c, es[0]);
      StepClosed(c, es[0]);
      hide Inv, Step;
      ClosedStays(Step(c, es[0]), es[1..]);
    }
  }

  lemma StepClosed(c: Conn, e: Event)
    requires Inv(c) && c.halfCloses == 1
    ensures var d := Step(c, e); d.halfCloses == 1 && d.wire == c.wire && d.accepted == c.accepted
  {
  }

  // ---------- Notices ----------

  /** The last waiting byte is out, or a send was written whole at once. */
  predicate Completes(c: Conn, e: Event, d: Conn) {
    && d.backlog == []
    && match e
       case Writable(_) => c.backlog != []
       case Send(data, r) => c.state == Connected && c.backlog == [] && Enabled(c, e) && r.Wrote?
       case _ => false
  }

  /** The backlog reaches 64 MiB from below. */
  predicate Crosses(c: Conn, d: Conn) {
    |c.backlog| < 67108864 <= |d.backlog|
  }

  /**
   In every reachable state: a step queues the write-complete callback exactly when it empties the
   backlog or writes a send whole, and then everything accepted is on the wire; it queues the
   high-water callback exactly when the backlog crosses the mark upwards, with its new length.
   */
  lemma NoticesIff(es: seq<Event>, e: Event)
    ensures var c := Run(START, es);
      var d := Step(c, e);
      && d.notices == c.notices
         + (if Completes(c, e, d) then [WriteComplete] else [])
         + (if Crosses(c, d) then [HighWater(|d.backlog|)] else [])
      && (Completes(c, e, d) ==> d.wire == d.accepted)
  {
    RunKeepsInv(START, es);
    var c := Run(START, es);
    StepKeepsInv(c, e);
    StepNotices(c, e);
    var d := Step(c, e);
    assert Completes(c, e, d) ==> d.wire + [] == d.wire;
  }

  lemma StepNotices(c: Conn, e: Event)
    requires Inv(c)
    ensures var d := Step(c, e);
      d.notices == c.notices
        + (if Completes(c, e, d) then [WriteComplete] else [])
        + (if Crosses(c, d) then [HighWater(|d.backlog|)] else [])
  {
  }

  function Sum(ns: seq<nat>): nat {
    if ns == [] then 0 else ns[0] + Sum(ns[1..])
  }

  function Writes(ns: seq<nat>): seq<Event> {
    if ns == [] then [] else [Writable(Wrote(ns[0]))] + Writes(ns[1..])
  }

  /** After `shutdown`, any partial writes that add up to the backlog lead to the half-close. */
  lemma {:induction false} DrainHalfCloses(c: Conn, ns: seq<nat>)
    requires Inv(c) && c.state == Disconnecting
    requires Sum(ns) == |c.backlog| && forall n :: n in ns ==> n > 0
    ensures var d := Run(c, Writes(ns));
      d.halfCloses == 1 && d.wire == c.accepted && d.accepted == c.accepted
    decreases |ns|
  {
    if ns == [] {
      assert c.wire + c.backlog == c.wire;
    } else {
      var w := Writable(Wrote(ns[0]));
      assert Writes(ns)[0] == w && Writes(ns)[1..] == Writes(ns[1..]);
      StepKeepsInv(c, w);
      var c' := Step(c, w);
      assert c'.state == Disconnecting && |c'.backlog| == |c.backlog| - ns[0] && c'.accepted == c.accepted;
      assert forall n :: n in ns[1..] ==> n in ns;
      hide Inv, Step;
      DrainHalfCloses(c', ns[1..]);
    }
  }
}

/** The connection object, over a compacting buffer. */
module TcpConnectionObject {
  import opened Bytes
  import opened Buffers
  import opened TcpOutput

  class TcpConnection {
    var state: State
    const outputBuffer: Buffer
    var writing: bool
    var notices: seq<Notice>
    ghost var wire: seq<Byte>
    ghost var accepted: seq<Byte>
    ghost var halfCloses: nat

    ghost predicate Valid()
      reads this, outputBuffer
    {
      outputBuffer.Valid() && Inv(View())
    }

    ghost function View(): Conn
      reads this, outputBuffer
      requires outputBuffer.Valid()
    {
      Conn(state, outputBuffer.Contents(), writing, notices, wire, accepted, halfCloses)
    }

    constructor ()
      ensures Valid() && View() == START && fresh(outputBuffer)
    {
      state, writing, notices := Connected, false, [];
      outputBuffer := new Buffer(1024);
      wire, accepted, halfCloses := [], [], 0;
    }

    method SendMessage(data: seq<Byte>, r: WriteResult)
      requires Valid() && Enabled(View(), Send(data, r))
      modifies this, outputBuffer
      ensures Valid() && View() == Step(old(View()), Send(data, r))
    {
      StepKeepsInv(View(), Send(data, r));
      if state == Connected {
        WriteOrQueue(data, r);
      }
    }

    /** `sendInLoop`. */
    method WriteOrQueue(data: seq<Byte>, r: WriteResult)
      requires outputBuffer.Valid() && Enabled(View(), Send(data, r))
      modifies this, outputBuffer
      ensures outputBuffer.Valid() && View() == SendInLoop(old(View()), data, r)
    {
      hide QueueRest;
      var nwrote, remaining, faultError := 0, |data|, false;
      if state == Disconnected {
        return;
      }
      if !writing && outputBuffer.ReadableBytes() == 0 {
        if r.Wrote? {
          nwrote := r.n;
          wire := wire + data[..nwrote];
          remaining := |data| - nwrote;
          if remaining == 0 {
            notices := notices + [WriteComplete];
          }
        } else if r == Broken {
          faultError := true;
        }
      }
      if !faultError {
        accepted := accepted + data;
      }
      assert old(wire) + data[..0] == old(wire);
      if !faultError && remaining > 0 {
        AppendRest(data[nwrote..]);
      }
    }

    method AppendRest(rest: seq<Byte>)
      requires outputBuffer.Valid()
      modifies this`notices, this`writing, outputBuffer
      ensures outputBuffer.Valid() && View() == QueueRest(old(View()), rest)
    {
      var oldLen := outputBuffer.ReadableBytes();
      if oldLen + |rest| >= HIGH_WATER_MARK && oldLen < HIGH_WATER_MARK {
        notices := notices + [HighWater(oldLen + |rest|)];
      }
      outputBuffer.Append(rest);
      if !writing {
        writing := true;
      }
    }

    /** The poller reports the socket writable. */
    method WriteBacklog(r: WriteResult)
      requires Valid() && Enabled(View(), Writable(r))
      modifies this, outputBuffer
      ensures Valid() && View() == Step(old(View()), Writable(r))
    {
      StepKeepsInv(View(), Writable(r));
      if writing {
        if r.Wrote? && r.n > 0 {
          wire := wire + outputBuffer.Peek()[..r.n];
          outputBuffer.Retrieve(r.n);
          if outputBuffer.ReadableBytes() == 0 {
            writing := false;
            notices := notices + [WriteComplete];
            if state == Disconnecting {
              ShutdownWrite();
            }
          }
        }
      }
    }

    method ShutDown()
      requires Valid()
      modifies this
      ensures Valid() && View() == Step(old(View()), Shutdown)
    {
      StepKeepsInv(View(), Shutdown);
      if state == Connected {
        state := Disconnecting;
        ShutdownWrite();
      }
    }

    /** `shutdownInLoop`. */
    method ShutdownWrite()
      requires outputBuffer.Valid()
      modifies this`halfCloses
      ensures View() == ShutdownInLoop(old(View()))
    {
      if !writing {
        halfCloses := halfCloses + 1;
      }
    }

    method HandleClose()
      requires Valid()
      modifies this
      ensures Valid() && View() == Step(old(View()), Close)
    {
      StepKeepsInv(View(), Close);
      state := Disconnected;
      writing := false;
    }
  }
}
