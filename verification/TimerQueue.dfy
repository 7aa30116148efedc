/** The timer queue object (net/TimerQueue.h, net/TimerQueue.cc), updated in place. */
module TimerQueueObject {
  import opened Bytes
  import T = Timers
  import opened TimerRuns
  import L = TimerLives

  type Addr = T.Addr
  type Entry = T.Entry
  type Id = T.Id

  /** What callbacks and other threads may do; the rest is `HandleRead`'s own. */
  predicate Outside(e: T.Event) {
    e.TickEvent? || e.ElsewhereEvent? || e.CreateEvent? || e.AddEvent? || e.CancelEvent?
  }

  /** The first `n` callbacks of a batch, the `i`-th callback doing `script(i)`. */
  ghost function Inside(script: nat -> seq<T.Event>, n: nat): seq<T.Event> {
    if n == 0 then [] else Inside(script, n - 1) + ([T.RunEvent] + script(n - 1))
  }

  /** `handleRead` up to its `n`-th callback. */
  ghost function Trace(script: nat -> seq<T.Event>, n: nat): seq<T.Event> {
    [T.BeginEvent] + Inside(script, n)
  }

  class TimerQueue {
    // the C++ heap, the timers still owned by posted functors, and the clock
    var heap: map<Addr, T.Timer>
    var inFlight: set<Addr>
    var created: nat
    ghost var own: set<nat>
    var clock: int
    // the timerfd
    var deadline: Option<int>
    ghost var armedAt: int
    // the members of the class
    var timers: seq<Entry>
    var active: set<Id>
    var calling: bool
    var canceling: set<Id>
    // the local variables of `handleRead`, and records of what happened
    ghost var batch: seq<Entry>
    ghost var ran: nat
    ghost var batchTime: int
    ghost var freed: seq<nat>
    ghost var log: seq<nat>

    ghost function View(): T.Queue
      reads this
    {
      T.Queue(heap, inFlight, timers, active, calling, canceling, batch, ran, batchTime, created, own,
              freed, log, clock, deadline, armedAt)
    }

    constructor (now: int)
      requires 0 < now
      ensures View() == T.Empty(now) && T.Inv(View())
    {
      heap, inFlight, created, clock, own := map[], {}, 0, now, {};
      deadline, armedAt := None, now;
      timers, active, calling, canceling := [], {}, false, {};
      batch, ran, batchTime, freed, log := [], 0, 0, [], [];
      new;
      EmptyIsGood(now);
    }

    method ResetTimerfd(when: int)
      modifies this`deadline, this`armedAt
      ensures View() == T.Arm(old(View()), when)
    {
      var microseconds := when - clock;
      if microseconds < T.FLOOR {
        microseconds := T.FLOOR;
      }
      deadline := Some(clock + microseconds);
      armedAt := clock;
    }

    /** The set's `insert` finds the place in order. */
    method InsertEntry(e: Entry)
      modifies this`timers
      ensures timers == T.InsertEntry(old(timers), e)
    {
      var i := 0;
      while i < |timers| && e != timers[i] && !T.Before(e, timers[i])
        invariant 0 <= i <= |timers|
        invariant T.InsertEntry(timers, e) == timers[..i] + T.InsertEntry(timers[i..], e)
      {
        assert timers[i..][1..] == timers[i + 1..];
        i := i + 1;
      }
      if i == |timers| || e != timers[i] {
        timers := timers[..i] + [e] + timers[i..];
      } else {
        assert timers == timers[..i] + timers[i..];
      }
    }

    method Insert(p: Addr) returns (earliestChanged: bool)
      requires p in heap
      modifies this`timers, this`active
      ensures View() == T.Insert(old(View()), p)
      ensures earliestChanged == T.EarliestChanged(old(View()), p)
    {
      earliestChanged := false;
      var when := heap[p].expiration;
      if timers == [] || when < timers[0].when {
        earliestChanged := true;
      }
      InsertEntry(T.Entry(when, p));
      active := active + {T.Id(p, heap[p].sequence)};
    }

    method NewTimer(p: Addr, when: int, repeat: bool, delta: nat) returns (id: Id)
      requires p !in heap
      modifies this`heap, this`inFlight, this`created, this`own
      ensures View() == T.Create(old(View()), p, when, repeat, delta)
      ensures id == T.IdOf(View(), p)
    {
      created, own := created + 1, own + {created + 1};
      heap := heap[p := T.Timer(when, repeat, delta, created)];
      inFlight := inFlight + {p};
      id := T.Id(p, created);
    }

    method AddTimerInLoop(p: Addr)
      requires p in heap
      modifies this`timers, this`active, this`inFlight, this`deadline, this`armedAt
      ensures View() == T.AddInLoop(old(View()), p)
    {
      var earliestChanged := Insert(p);
      inFlight := inFlight - {p};
      if earliestChanged {
        ResetTimerfd(heap[p].expiration);
      }
    }

    method CancelInLoop(id: Id)
      requires id in active ==> id.timer in heap
      modifies this`timers, this`active, this`heap, this`freed, this`canceling
      ensures View() == T.CancelInLoop(old(View()), id)
    {
      if id in active {
        timers := T.EraseEntry(timers, T.Entry(heap[id.timer].expiration, id.timer));
        freed := freed + [heap[id.timer].sequence];
        heap := heap - {id.timer};
        active := active - {id};
      } else if calling {
        canceling := canceling + {id};
      }
    }

    /** Takes the expired timers out of both indices. */
    method GetExpired(now: int) returns (expired: seq<Entry>)
      requires forall e :: e in timers ==> e.timer in heap
      requires now == clock
      modifies this`timers, this`active
      ensures var r := T.Begin(old(View()));
        expired == r.batch && timers == r.timers && active == r.active
    {
      var n := T.Expired(timers, now);
      expired := timers[..n];
      timers := timers[n..];
      for i := 0 to |expired|
        invariant timers == old(timers)[n..]
        invariant active == old(active) - T.IdsOf(heap, expired[..i])
      {
        assert expired[i] in old(timers);
        assert expired[..i + 1] == expired[..i] + [expired[i]];
        assert forall e :: e in expired[..i + 1] <==> e in expired[..i] || e == expired[i];
        active := active - {T.Id(expired[i].timer, heap[expired[i].timer].sequence)};
      }
      assert expired[..|expired|] == expired;
    }

    /** One thing a callback or another thread does, if it can. */
    method Perform(e: T.Event)
      requires T.Inv(View()) && Outside(e)
      modifies this`heap, this`inFlight, this`created, this`own, this`clock, this`deadline, this`armedAt,
               this`timers, this`active, this`canceling, this`freed
      ensures View() == T.Step(old(View()), e) && T.Inv(View())
    {
      StepKeepsInv(View(), e);
      hide T.IndicesAgree, T.Owned, T.FreedOnce, T.Armed, T.InsertEntry, T.EraseEntry;
      match e
      case TickEvent(d) =>
        clock := clock + d;
      case ElsewhereEvent(n) =>
        created := created + n;
      case CreateEvent(p, when, repeat, delta) =>
        if p !in heap {
          var id := NewTimer(p, when, repeat, delta);
        }
      case AddEvent(p) =>
        if p in inFlight {
          InFlightIsLive(View(), p);
          AddTimerInLoop(p);
        }
      case CancelEvent(id) =>
        ActiveIsLive(View(), id);
        CancelInLoop(id);
    }

    method SettleOne(e: Entry, now: int)
      requires batch != [] && batch[0] == e && e.timer in heap && batchTime == now
      modifies this`heap, this`timers, this`active, this`freed, this`batch
      ensures View() == T.Settle(old(View()))
    {
      var p := e.timer;
      batch := batch[1..];
      if heap[p].repeat && T.Id(p, heap[p].sequence) !in canceling {
        heap := heap[p := heap[p].(expiration := now + heap[p].delta)];
        var _ := Insert(p);
      } else {
        freed := freed + [heap[p].sequence];
        heap := heap - {p};
      }
    }

    /** The expired timers are restarted or deleted, and the timerfd is armed for the next one. */
    method Reset(expired: seq<Entry>, now: int)
      requires T.Inv(View()) && calling && ran == 0 && batch == expired && batchTime == now
      modifies this`heap, this`timers, this`active, this`freed, this`batch, this`deadline, this`armedAt,
               this`calling, this`ran
      ensures View() == T.Rearm(T.SettleAll(old(View()))) && T.Inv(View())
    {
      ghost var start := View();
      assert start.(ran := 0) == start;
      EndKeepsInv(start);
      hide T.Inv, T.Settle, T.SettleAll;
      SettleBatch(expired, now);
      calling := false;
      if timers != [] && timers[0].when > 0 {
        ResetTimerfd(timers[0].when);
      }
    }

    method SettleBatch(expired: seq<Entry>, now: int)
      requires T.Inv(View()) && calling && ran == 0 && batch == expired && batchTime == now
      modifies this`heap, this`timers, this`active, this`freed, this`batch
      ensures View() == T.SettleAll(old(View()))
    {
      hide T.Inv, T.Settle, T.SettleAll;
      ghost var start := View();
      for i := 0 to |expired|
        invariant T.Inv(View()) && batch == expired[i..]
        invariant T.SettleAll(View()) == T.SettleAll(start)
      {
        SettleAllStep(View());
        SettleOne(expired[i], now);
      }
      SettleAllEnd(View());
    }

    /** The body of one callback. */
    method Callback(ops: seq<T.Event>)
      requires T.Inv(View()) && forall e :: e in ops ==> Outside(e)
      modifies this`heap, this`inFlight, this`created, this`own, this`clock, this`deadline, this`armedAt,
               this`timers, this`active, this`canceling, this`freed
      ensures T.Inv(View()) && View() == Run(old(View()), ops)
    {
      hide T.Inv, T.Step, Run;
      ghost var called := View();
      NoStep(called);
      assert ops[..0] == [];
      for j := 0 to |ops|
        invariant T.Inv(View()) && T.Inv(called)
        invariant View() == Run(called, ops[..j])
      {
        RunConcat(called, ops[..j], [ops[j]]);
        OneStep(View(), ops[j]);
        assert ops[..j + 1] == ops[..j] + [ops[j]];
        Perform(ops[j]);
      }
      assert ops[..|ops|] == ops;
    }

    /** `handleRead` up to the loop over the callbacks. */
    method StartBatch() returns (expired: seq<Entry>)
      requires forall e :: e in timers ==> e.timer in heap
      modifies this
      ensures View() == T.Begin(old(View())) && expired == batch
    {
      expired := GetExpired(clock);
      hide T.Expired, T.IdsOf;
      deadline := None;
      batch, ran, batchTime := expired, 0, clock;
      calling := true;
      canceling := {};
    }

    method CallTimer(e: Entry, ops: seq<T.Event>)
      requires T.Inv(View()) && calling && ran < |batch| && batch[ran] == e
      requires forall op :: op in ops ==> Outside(op)
      modifies this`heap, this`inFlight, this`created, this`own, this`clock, this`deadline, this`armedAt,
               this`timers, this`active, this`canceling, this`freed, this`log, this`ran
      ensures T.Inv(View()) && View() == Run(old(View()), [T.RunEvent] + ops)
      ensures ran == old(ran) + 1
    {
      hide T.Inv, T.Step, Run;
      ghost var before := View();
      RunRun(before);
      log := log + [heap[e.timer].sequence];
      ran := ran + 1;
      assert View() == T.RunNext(before);
      Callback(ops);
      OneStep(before, T.RunEvent);
      RunConcat(before, [T.RunEvent], ops);
    }

    /** The loop of `handleRead` over the expired timers. */
    method CallAll(expired: seq<Entry>, ghost start: T.Queue, script: nat -> seq<T.Event>)
      requires T.Inv(start) && T.Inv(View()) && View() == Run(start, Trace(script, 0))
      requires calling && ran == 0 && batch == expired
      requires forall i, e :: e in script(i) ==> Outside(e)
      modifies this`heap, this`inFlight, this`created, this`own, this`clock, this`deadline, this`armedAt,
               this`timers, this`active, this`canceling, this`freed, this`log, this`ran
      ensures T.Inv(View()) && View() == Run(start, Trace(script, |expired|)) && ran == |expired|
    {
      hide T.Inv, T.Step, Run, Trace;
      var i := 0;
      while i < |expired|
        invariant 0 <= i <= |expired| && ran == i
        invariant T.Inv(View())
        invariant View() == Run(start, Trace(script, i))
      {
        CallTimer(expired[i], script(i));
        TraceStep(start, script, i);
        i := i + 1;
      }
    }

    /**
     `handleRead`, for any behaviour of its callbacks: the queue goes through one batch of the state
     machine, so everything proved of its runs holds here.
     */
    method HandleRead(script: nat -> seq<T.Event>)
      requires T.Inv(View()) && T.Enabled(View(), T.BeginEvent)
      requires forall i, e :: e in script(i) ==> Outside(e)
      modifies this
      ensures T.Inv(View()) && !calling
      ensures View() == Run(old(View()), Trace(script, T.Expired(old(timers), old(clock))) + [T.EndEvent])
      ensures L.Batch(old(View()), Inside(script, T.Expired(old(timers), old(clock))), View())
    {
      hide T.Inv, T.Step, Run, Trace, T.SettleAll, T.Rearm;
      ghost var start := View();
      BeginTrace(start, script);
      var now := clock;
      var expired := StartBatch();
      assert |batch| == T.Expired(start.timers, start.clock);
      hide T.Begin, T.Expired;
      CallAll(expired, start, script);
      ghost var called := View();
      EndTrace(start, Trace(script, |expired|), called);
      WholeBatch(start, script, |expired|, called);
      ran := 0;
      Reset(expired, now);
    }
  }

  lemma SettleAllStep(q: T.Queue)
    requires T.Inv(q) && q.calling && q.ran == 0 && q.batch != []
    ensures q.batch[0].timer in q.heap && T.Inv(T.Settle(q)) && T.Settle(q).batch == q.batch[1..]
    ensures T.SettleAll(q) == T.SettleAll(T.Settle(q))
  {
    assert q.(ran := 0) == q;
    T.SettleKeepsInv(q);
  }

  lemma SettleAllEnd(q: T.Queue)
    requires T.Inv(q) && q.calling && q.ran == 0 && q.batch == []
    ensures T.SettleAll(q) == q
  {
    assert q.(ran := 0) == q;
  }

  lemma NoStep(q: T.Queue)
    requires T.Inv(q)
    ensures Run(q, []) == q
  {
  }

  lemma InFlightIsLive(q: T.Queue, p: Addr)
    requires T.Inv(q) && p in q.inFlight
    ensures p in q.heap
  {
    assert p in q.heap.Keys;
  }

  lemma ActiveIsLive(q: T.Queue, id: Id)
    requires T.Inv(q)
    ensures id in q.active ==> id.timer in q.heap
  {
  }

  lemma OneStep(q: T.Queue, e: T.Event)
    requires T.Inv(q)
    ensures Run(q, [e]) == T.Step(q, e)
  {
    hide T.Inv, T.Step;
    StepKeepsInv(q, e);
    assert [e][1..] == [];
  }

  lemma BeginTrace(q: T.Queue, script: nat -> seq<T.Event>)
    requires T.Inv(q) && T.Enabled(q, T.BeginEvent)
    ensures forall e :: e in q.timers ==> e.timer in q.heap
    ensures T.Inv(T.Begin(q)) && T.Begin(q) == Run(q, Trace(script, 0))
  {
    assert Trace(script, 0) == [T.BeginEvent];
    hide *;
    L.BeginIs(q);
    OneStep(q, T.BeginEvent);
    StepKeepsInv(q, T.BeginEvent);
  }

  lemma TraceStep(q: T.Queue, script: nat -> seq<T.Event>, i: nat)
    requires T.Inv(q)
    ensures Run(q, Trace(script, i + 1)) == Run(Run(q, Trace(script, i)), [T.RunEvent] + script(i))
  {
    TraceGrows(script, i);
    hide T.Inv, Run, Trace;
    RunConcat(q, Trace(script, i), [T.RunEvent] + script(i));
  }

  lemma TraceGrows(script: nat -> seq<T.Event>, i: nat)
    ensures Trace(script, i + 1) == Trace(script, i) + ([T.RunEvent] + script(i))
  {
    assert Inside(script, i + 1) == Inside(script, i) + ([T.RunEvent] + script(i));
  }

  lemma {:induction false} NoEndInside(script: nat -> seq<T.Event>, n: nat)
    requires forall i, e :: e in script(i) ==> Outside(e)
    ensures T.EndEvent !in Inside(script, n)
  {
    if n > 0 {
      NoEndInside(script, n - 1);
      assert !Outside(T.EndEvent);
      assert T.EndEvent !in script(n - 1) by {
        assert forall e :: e in script(n - 1) ==> Outside(e);
      }
    }
  }

  lemma WholeBatch(q: T.Queue, script: nat -> seq<T.Event>, n: nat, called: T.Queue)
    requires T.Inv(q) && T.Enabled(q, T.BeginEvent) && forall i, e :: e in script(i) ==> Outside(e)
    requires called == Run(q, Trace(script, n)) && T.Enabled(called, T.EndEvent) && T.Inv(called.(ran := 0))
    ensures L.Batch(q, Inside(script, n), T.Rearm(T.SettleAll(called.(ran := 0))))
  {
    NoEndInside(script, n);
    StepKeepsInv(q, T.BeginEvent);
    OneStep(q, T.BeginEvent);
    RunConcat(q, [T.BeginEvent], Inside(script, n));
    EndRun(called);
    hide T.Inv, T.Step, Run, T.SettleAll, T.Rearm, T.Enabled;
  }

  lemma EndTrace(start: T.Queue, trace: seq<T.Event>, q: T.Queue)
    requires T.Inv(start) && q == Run(start, trace) && T.Enabled(q, T.EndEvent)
    ensures T.Inv(q.(ran := 0))
    ensures Run(start, trace + [T.EndEvent]) == T.Rearm(T.SettleAll(q.(ran := 0)))
    ensures !T.Rearm(T.SettleAll(q.(ran := 0))).calling
  {
    hide T.Inv, T.Step, Run, T.SettleAll;
    RunConcat(start, trace, [T.EndEvent]);
    OneStep(q, T.EndEvent);
    EndRun(q);
  }

  lemma RunRun(q: T.Queue)
    requires T.Inv(q) && T.Enabled(q, T.RunEvent)
    ensures q.batch[q.ran].timer in q.heap
    ensures T.Step(q, T.RunEvent) == T.RunNext(q) && T.Inv(T.RunNext(q))
  {
    BatchIsLive(q, q.ran);
    StepKeepsInv(q, T.RunEvent);
  }

  lemma EndRun(q: T.Queue)
    requires T.Inv(q) && T.Enabled(q, T.EndEvent)
    ensures T.Inv(q.(ran := 0))
    ensures T.Step(q, T.EndEvent) == T.Rearm(T.SettleAll(q.(ran := 0)))
  {
    T.RestartBatch(q);
  }
}
