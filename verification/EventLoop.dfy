/**
 The cross-thread handoff of the event loop (net/EventLoop.cc) as interleaved atomic steps: the
 locked push and the eventfd write of a post are separate, and so are the rounds of the loop.
 */
module EventLoops {

  datatype Phase = Polling | Handling(wakeupReady: bool) | Running

  /** Functors are numbered in the order in which they are pushed. */
  datatype Loop = Loop(
    pending: seq<nat>,        // `pendingFunctors_`
    functors: seq<nat>,       // swapped out by `doPendingFunctors`, still to be called
    calling: bool,            // `callingPendingFunctors_`
    phase: Phase,
    counter: nat,             // the eventfd
    waking: set<nat>,         // other threads between their push and their wakeup
    loopWaking: bool,         // the loop thread between its push and its wakeup
    posted: nat,
    executed: seq<nat>)

  const START := Loop([], [], false, Polling, 0, {}, false, 0, [])

  datatype Event =
    | ThreadPush(thread: nat)
    | ThreadWakeup(thread: nat)
    | PollReturn
    | HandleWakeup
    | LoopPush
    | LoopWakeup
    | Swap
    | Call
    | Finish

  predicate Enabled(q: Loop, e: Event) {
    match e
    case ThreadPush(t) => t !in q.waking
    case ThreadWakeup(t) => t in q.waking
    case PollReturn => q.phase == Polling
    case HandleWakeup => q.phase == Handling(true)
    case LoopPush => q.phase != Polling && !q.loopWaking
    case LoopWakeup => q.loopWaking
    case Swap => q.phase == Handling(false)
    case Call => q.phase == Running && q.functors != [] && !q.loopWaking
    case Finish => q.phase == Running && q.functors == [] && !q.loopWaking
  }

  function Push(q: Loop): Loop {
    q.(pending := q.pending + [q.posted], posted := q.posted + 1)
  }

  function Apply(q: Loop, e: Event): Loop
    requires Enabled(q, e)
  {
    match e
    case ThreadPush(t) => Push(q).(waking := q.waking + {t})
    case ThreadWakeup(t) => q.(counter := q.counter + 1, waking := q.waking - {t})
    case PollReturn => q.(phase := Handling(q.counter > 0))
    case HandleWakeup => q.(phase := Handling(false), counter := 0)
    case LoopPush => Push(q).(loopWaking := q.calling)
    case LoopWakeup => q.(counter := q.counter + 1, loopWaking := false)
    case Swap => q.(phase := Running, calling := true, functors := q.pending, pending := [])
    case Call => q.(executed := q.executed + [q.functors[0]], functors := q.functors[1..])
    case Finish => q.(phase := Polling, calling := false)
  }

  function Step(q: Loop, e: Event): Loop {
    if Enabled(q, e) then Apply(q, e) else q
  }

  function Run(q: Loop, es: seq<Event>): Loop
    decreases |es|
  {
    if es == [] then q else Run(Step(q, es[0]), es[1..])
  }

  function UpTo(n: nat): (r: seq<nat>)
    ensures |r| == n && forall i :: 0 <= i < n ==> r[i] == i
  {
    seq(n, i => i)
  }

  /** Posters that have pushed and not yet written to the eventfd. */
  function Late(q: Loop): nat {
    |q.waking| + if q.loopWaking then 1 else 0
  }

  /** Every functor pushed since the last swap has a wakeup behind it, written or on its way. */
  predicate Covered(q: Loop) {
    |q.pending| <= q.counter + Late(q)
  }

  ghost predicate Inv(q: Loop) {
    && q.executed + q.functors + q.pending == UpTo(q.posted)
    && (q.calling <==> q.phase == Running)
    && (q.phase != Running ==> q.functors == [])
    && (q.loopWaking ==> q.phase == Running)
    && (!q.phase.Handling? ==> Covered(q))
  }

  lemma PushKeeps(q: Loop)
    requires Inv(q)
    ensures Push(q).executed + Push(q).functors + Push(q).pending == UpTo(Push(q).posted)
  {
    var r := Push(q);
    assert r.executed + r.functors + r.pending == (q.executed + q.functors + q.pending) + [q.posted];
  }

  lemma StepKeepsInv(q: Loop, e: Event)
    requires Inv(q)
    ensures Inv(Step(q, e))
  {
    hide UpTo;
    if Enabled(q, e) {
      match e
      case ThreadPush(t) => PushKeeps(q);
      case LoopPush => PushKeeps(q);
      case Swap =>
        assert q.executed + q.functors + q.pending == q.executed + q.pending == q.executed + q.pending + [];
      case Call =>
        var r := Step(q, e);
        assert q.functors == [q.functors[0]] + r.functors;
        assert r.executed + r.functors == q.executed + q.functors;
      case _ =>
    }
  }

  lemma {:induction false} RunKeepsInv(q: Loop, es: seq<Event>)
    requires Inv(q)
    ensures Inv(Run(q, es))
    decreases |es|
  {
    if es != [] {
      StepKeepsInv(q, es[0]);
      hide Inv, Step;
      RunKeepsInv(Step(q, es[0]), es[1..]);
    }
  }

  /**
   No lost wakeup, for any number of posting threads and any interleaving: while the loop waits in
   poll with functors pending, the eventfd is readable or some poster is about to write to it.
   */
  lemma NoLostWakeup(es: seq<Event>)
    ensures var q := Run(START, es);
      q.phase == Polling && q.pending != [] ==> q.counter > 0 || q.waking != {}
  {
    RunKeepsInv(START, es);
    var q := Run(START, es);
    if q.waking == {} {
      assert |q.waking| == 0;
    }
  }

  /** Functors run at most once and in the order in which they were pushed. */
  lemma FirstInFirstOut(es: seq<Event>)
    ensures var q := Run(START, es);
      && |q.executed| <= q.posted
      && forall i :: 0 <= i < |q.executed| ==> q.executed[i] == i
  {
    RunKeepsInv(START, es);
    var q := Run(START, es);
    forall i | 0 <= i < |q.executed| ensures q.executed[i] == i {
      assert (q.executed + q.functors + q.pending)[i] == UpTo(q.posted)[i];
    }
    assert |q.executed + q.functors + q.pending| == q.posted;
  }

  /** Functors that have left the pending list. */
  function Taken(q: Loop): nat {
    |q.executed| + |q.functors|
  }

  lemma StepKeepsTaken(q: Loop, e: Event)
    requires Inv(q)
    ensures Taken(q) <= Taken(Step(q, e))
  {
  }

  lemma {:induction false} RunKeepsTaken(q: Loop, es: seq<Event>)
    requires Inv(q)
    ensures Taken(q) <= Taken(Run(q, es))
    decreases |es|
  {
    if es != [] {
      StepKeepsInv(q, es[0]);
      StepKeepsTaken(q, es[0]);
      hide Inv, Step, Taken;
      RunKeepsTaken(Step(q, es[0]), es[1..]);
    }
  }

  /**
   Whatever is pending when the loop swaps has run by the time it polls again, however posts and
   wakeups interleave meanwhile.
   */
  lemma SwapDrains(q: Loop, es: seq<Event>)
    requires Inv(q) && Enabled(q, Swap)
    ensures var r := Run(Step(q, Swap), es);
      r.phase == Polling ==> |r.executed| >= q.posted
  {
    StepKeepsInv(q, Swap);
    RunKeepsTaken(Step(q, Swap), es);
    RunKeepsInv(Step(q, Swap), es);
    assert |q.executed + q.functors + q.pending| == q.posted;
  }

  function Calls(n: nat): seq<Event> {
    if n == 0 then [Finish] else [Call] + Calls(n - 1)
  }

  lemma {:induction false} CallsDrain(q: Loop)
    requires q.phase == Running && !q.loopWaking
    ensures Run(q, Calls(|q.functors|)) ==
      q.(executed := q.executed + q.functors, functors := [], phase := Polling, calling := false)
    decreases |q.functors|
  {
    if q.functors == [] {
      assert [Finish][1..] == [];
      assert q.executed + q.functors == q.executed;
    } else {
      var n := |q.functors|;
      assert Calls(n)[0] == Call && Calls(n)[1..] == Calls(n - 1);
      var r := Step(q, Call);
      CallsDrain(r);
      assert r.executed + r.functors == q.executed + q.functors;
    }
  }

  /** A readable eventfd lets the loop through: one undisturbed round runs everything pending. */
  lemma WakeupRunsPending(q: Loop)
    requires Inv(q) && q.phase == Polling && q.counter > 0
    ensures var r := Run(q, [PollReturn, HandleWakeup, Swap] + Calls(|q.pending|));
      r == q.(executed := q.executed + q.pending, pending := [], counter := 0)
  {
    RunThree(q, PollReturn, HandleWakeup, Swap, Calls(|q.pending|));
    hide Run, Calls;
    CallsDrain(Step(Step(Step(q, PollReturn), HandleWakeup), Swap));
  }

  lemma RunThree(q: Loop, a: Event, b: Event, c: Event, es: seq<Event>)
    ensures Run(q, [a, b, c] + es) == Run(Step(Step(Step(q, a), b), c), es)
  {
    hide Step;
    assert ([a, b, c] + es)[1..] == [b, c] + es && ([b, c] + es)[1..] == [c] + es && ([c] + es)[1..] == es;
    assert Run(q, [a, b, c] + es) == Run(Step(q, a), [b, c] + es);
    assert Run(Step(q, a), [b, c] + es) == Run(Step(Step(q, a), b), [c] + es);
  }

  /**
   The loop object. Each method is one atomic step of one thread; `posted` and `executed` number
   the functors.
   */
  class EventLoop {
    var pendingFunctors: seq<nat>
    var callingPendingFunctors: bool
    var phase: Phase
    var wakeupCounter: nat
    var posted: nat
    ghost var functors: seq<nat>
    ghost var waking: set<nat>
    ghost var loopWaking: bool
    ghost var executed: seq<nat>

    ghost function View(): Loop
      reads this
    {
      Loop(pendingFunctors, functors, callingPendingFunctors, phase, wakeupCounter,
           waking, loopWaking, posted, executed)
    }

    constructor ()
      ensures View() == START
    {
      pendingFunctors, callingPendingFunctors := [], false;
      phase, wakeupCounter, posted := Polling, 0, 0;
      functors, waking, loopWaking, executed := [], {}, false, [];
    }

    /** The locked part of `queueInLoop`, by another thread (`Some`) or by the loop thread. */
    method EmplaceBack(inLoopThread: bool, thread: nat) returns (mustWakeup: bool)
      requires Enabled(View(), if inLoopThread then LoopPush else ThreadPush(thread))
      modifies this`pendingFunctors, this`posted, this`waking, this`loopWaking
      ensures View() == Step(old(View()), if inLoopThread then LoopPush else ThreadPush(thread))
      ensures mustWakeup == (!inLoopThread || callingPendingFunctors)
      ensures inLoopThread ==> (mustWakeup <==> loopWaking)
    {
      pendingFunctors := pendingFunctors + [posted];
      posted := posted + 1;
      mustWakeup := !inLoopThread || callingPendingFunctors;
      if inLoopThread {
        loopWaking := mustWakeup;
      } else {
        waking := waking + {thread};
      }
    }

    /** The eventfd write at the end of `queueInLoop`. */
    method Wakeup(inLoopThread: bool, thread: nat)
      requires Enabled(View(), if inLoopThread then LoopWakeup else ThreadWakeup(thread))
      modifies this`wakeupCounter, this`waking, this`loopWaking
      ensures View() == Step(old(View()), if inLoopThread then LoopWakeup else ThreadWakeup(thread))
    {
      wakeupCounter := wakeupCounter + 1;
      if inLoopThread {
        loopWaking := false;
      } else {
        waking := waking - {thread};
      }
    }

    method Poll() returns (wakeupReady: bool)
      requires Enabled(View(), PollReturn)
      modifies this`phase
      ensures View() == Step(old(View()), PollReturn) && wakeupReady == (wakeupCounter > 0)
    {
      wakeupReady := wakeupCounter > 0;
      phase := Handling(wakeupReady);
    }

    /** Reading an eventfd resets it. */
    method HandleRead()
      requires Enabled(View(), HandleWakeup)
      modifies this`phase, this`wakeupCounter
      ensures View() == Step(old(View()), HandleWakeup)
    {
      wakeupCounter := 0;
      phase := Handling(false);
    }

    /** `doPendingFunctors` with no post in between: the loop over the swapped functors. */
    method DoPendingFunctors()
      requires Enabled(View(), Swap) && Inv(View())
      modifies this`phase, this`callingPendingFunctors, this`pendingFunctors, this`functors, this`executed
      ensures View() == Run(Step(old(View()), Swap), Calls(|old(pendingFunctors)|))
      ensures executed == old(executed) + old(pendingFunctors) && pendingFunctors == []
    {
      ghost var swapped := Step(View(), Swap);
      StepKeepsInv(View(), Swap);
      CallsDrain(swapped);
      var functors_ := pendingFunctors;
      callingPendingFunctors, phase := true, Running;
      pendingFunctors, functors := [], functors_;
      for i := 0 to |functors_|
        invariant functors == functors_[i..] && executed == old(executed) + functors_[..i]
      {
        assert functors_[..i + 1] == functors_[..i] + [functors_[i]];
        executed := executed + [functors_[i]];
        functors := functors[1..];
      }
      assert functors_[..|functors_|] == functors_;
      callingPendingFunctors, phase := false, Polling;
    }
  }
}
