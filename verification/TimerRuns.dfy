/** What holds of the timer queue over whole runs, whatever callbacks and other threads do. */
module TimerRuns {
  import opened Bytes
  import opened Timers

  lemma TickKeepsInv(q: Queue, d: nat)
    requires Inv(q)
    ensures Inv(q.(clock := q.clock + d))
  {
    SameHeapFreed(q, q.(clock := q.clock + d));
    SameIndices(q, q.(clock := q.clock + d));
    hide IndicesAgree, FreedOnce;
  }

  /** Other queues draw their sequence numbers from the same counter. */
  lemma ElsewhereKeepsInv(q: Queue, n: nat)
    requires Inv(q)
    ensures Inv(q.(created := q.created + n))
  {
    SameHeapFreed(q, q.(created := q.created + n));
    SameIndices(q, q.(created := q.created + n));
    hide IndicesAgree, FreedOnce;
  }

  lemma RunEventKeepsInv(q: Queue)
    requires Inv(q) && q.ran < |q.batch| && q.batch[q.ran].timer in q.heap
    ensures Inv(RunNext(q))
  {
    SameHeapFreed(q, RunNext(q));
    SameIndices(q, RunNext(q));
    hide IndicesAgree, FreedOnce;
  }

  lemma RearmKeepsInv(q: Queue)
    requires Inv(q) && q.calling && q.batch == []
    ensures Inv(Rearm(q))
  {
    SameHeapFreed(q, Rearm(q));
    SameIndices(q, Rearm(q));
    hide IndicesAgree, FreedOnce;
  }

  lemma EndKeepsInv(q: Queue)
    requires Inv(q) && q.calling
    ensures Inv(q.(ran := 0)) && Inv(Rearm(SettleAll(q.(ran := 0))))
  {
    RestartBatch(q);
    hide Inv, SettleAll, Rearm;
    SettleAllKeepsInv(q.(ran := 0));
    RearmKeepsInv(SettleAll(q.(ran := 0)));
  }

  /** Index agreement, single ownership, single freeing and timely arming survive every event. */
  lemma StepKeepsInv(q: Queue, e: Event)
    requires Inv(q)
    ensures Inv(Step(q, e))
  {
    hide IndicesAgree, Owned, FreedOnce, Armed, SettleAll, Rearm, Begin, AddInLoop, CancelInLoop, Create, RunNext;
    if Enabled(q, e) {
      match e
      case TickEvent(d) => TickKeepsInv(q, d);
      case ElsewhereEvent(n) => ElsewhereKeepsInv(q, n);
      case CreateEvent(p, when, repeat, delta) => CreateKeepsInv(q, p, when, repeat, delta);
      case AddEvent(p) => AddKeepsInv(q, p);
      case CancelEvent(id) => CancelKeepsInv(q, id);
      case BeginEvent => BeginKeepsInv(q);
      case RunEvent =>
        BatchIsLive(q, q.ran);
        RunEventKeepsInv(q);
      case EndEvent => EndKeepsInv(q);
    }
  }

  lemma BatchIsLive(q: Queue, i: nat)
    requires Inv(q) && i < |q.batch|
    ensures q.batch[i].timer in q.heap
  {
    assert q.batch[i] in q.batch && q.batch[i].timer in Ptrs(q.batch);
    assert q.batch[i].timer in q.heap.Keys;
  }

  ghost function Run(q: Queue, es: seq<Event>): (r: Queue)
    requires Inv(q)
    ensures Inv(r)
    decreases |es|
  {
    if es == [] then q
    else
      StepKeepsInv(q, es[0]);
      Run(Step(q, es[0]), es[1..])
  }

  lemma EmptyIsGood(clock: int)
    requires 0 < clock
    ensures Inv(Empty(clock))
  {
  }

  lemma {:induction false} RunConcat(q: Queue, a: seq<Event>, b: seq<Event>)
    requires Inv(q)
    ensures Run(q, a + b) == Run(Run(q, a), b)
    decreases |a|
  {
    hide Inv, Step;
    if a == [] {
      assert a + b == b;
    } else {
      StepKeepsInv(q, a[0]);
      RunConcat(Step(q, a[0]), a[1..], b);
      assert (a + b)[0] == a[0] && (a + b)[1..] == a[1..] + b;
    }
  }

  // ---------- No timer is stranded ----------

  /**
   Outside `handleRead` a pending timer is always covered: the timerfd is readable, or armed no
   later than the earliest expiration (100 microseconds from now at the most), and by then reading
   it takes the earliest timer.
   */
  lemma NeverStranded(q: Queue)
    requires Inv(q) && !q.calling && q.timers != []
    ensures q.deadline.Some? && q.deadline.value <= Max(q.timers[0].when, q.clock + FLOOR)
    ensures var later := Step(q, TickEvent(Max(q.timers[0].when, q.clock + FLOOR) - q.clock));
      && Inv(later)
      && Enabled(later, BeginEvent)
      && Step(later, BeginEvent).batch != []
      && Step(later, BeginEvent).batch[0] == q.timers[0]
  {
    StepKeepsInv(q, TickEvent(Max(q.timers[0].when, q.clock + FLOOR) - q.clock));
    hide IndicesAgree, Owned, FreedOnce;
  }

  lemma ExpiredSplits(s: seq<Entry>, now: int)
    requires Ascending(s)
    ensures forall e :: e in s[..Expired(s, now)] ==> e.when <= now
    ensures forall e :: e in s[Expired(s, now)..] ==> e.when > now
  {
    var n := Expired(s, now);
    forall e | e in s[n..] ensures e.when > now {
      var j :| 0 <= j < |s| - n && s[n..][j] == e;
      assert j > 0 ==> Before(s[n], s[n + j]);
    }
  }

  /** A batch is exactly the timers that have expired, in the order of their expirations. */
  lemma BatchIsExpired(q: Queue)
    requires Inv(q)
    ensures var r := Begin(q);
      && q.timers == r.batch + r.timers
      && (forall e :: e in r.batch ==> e.when <= q.clock)
      && (forall e :: e in r.timers ==> e.when > q.clock)
      && Ascending(r.batch)
  {
    hide Owned, FreedOnce, Armed;
    ExpiredSplits(q.timers, q.clock);
  }

  // ---------- Cancellation ----------

  /** Freed timers stay freed, and what has run stays on record. */
  predicate Extends(q: Queue, r: Queue) {
    && |q.freed| <= |r.freed| && q.freed == r.freed[..|q.freed|]
    && |q.log| <= |r.log| && q.log == r.log[..|q.log|]
  }

  lemma ExtendsTransitive(a: Queue, b: Queue, c: Queue)
    requires Extends(a, b) && Extends(b, c)
    ensures Extends(a, c)
  {
    assert c.freed[..|b.freed|][..|a.freed|] == c.freed[..|a.freed|];
    assert c.log[..|b.log|][..|a.log|] == c.log[..|a.log|];
  }

  lemma SettleExtends(q: Queue)
    requires q.batch != [] && q.batch[0].timer in q.heap
    ensures Extends(q, Settle(q)) && Settle(q).log == q.log
  {
    hide InsertEntry;
  }

  lemma {:induction false} SettleAllExtends(q: Queue)
    requires Inv(q) && q.calling && q.ran == 0
    ensures Extends(q, SettleAll(q)) && SettleAll(q).log == q.log
    decreases |q.batch|
  {
    assert q.(ran := 0) == q;
    if q.batch != [] {
      SettleKeepsInv(q);
      hide Inv, Settle, Extends;
      SettleExtends(q);
      SettleAllExtends(Settle(q));
      ExtendsTransitive(q, Settle(q), SettleAll(q));
    } else {
      assert Extends(q, q);
    }
  }

  lemma EndExtends(q: Queue)
    requires Inv(q) && q.calling
    ensures Inv(q.(ran := 0))
    ensures Extends(q, Rearm(SettleAll(q.(ran := 0)))) && Rearm(SettleAll(q.(ran := 0))).log == q.log
  {
    RestartBatch(q);
    hide Inv, SettleAll;
    SettleAllExtends(q.(ran := 0));
  }

  /** One step runs at most one callback, and never that of a freed timer. */
  lemma StepExtends(q: Queue, e: Event)
    requires Inv(q)
    ensures Extends(q, Step(q, e))
    ensures |Step(q, e).log| <= |q.log| + 1
    ensures |Step(q, e).log| == |q.log| + 1 ==> Step(q, e).log[|q.log|] !in q.freed
  {
    hide IndicesAgree, Owned, Armed, SettleAll, Rearm, InsertEntry, EraseEntry, Expired;
    if Enabled(q, e) {
      if e == EndEvent {
        EndExtends(q);
      } else if e == RunEvent {
        BatchIsLive(q, q.ran);
      }
    }
  }

  lemma {:induction false} RunExtends(q: Queue, es: seq<Event>)
    requires Inv(q)
    ensures Extends(q, Run(q, es))
    decreases |es|
  {
    if es != [] {
      StepKeepsInv(q, es[0]);
      StepExtends(q, es[0]);
      hide Inv, Step, Extends;
      RunExtends(Step(q, es[0]), es[1..]);
      ExtendsTransitive(q, Step(q, es[0]), Run(q, es));
    }
  }

  /** None of the callbacks that ran after `q` was that of timer `k`. */
  ghost predicate NotSince(q: Queue, r: Queue, k: nat) {
    Extends(q, r) && forall i :: |q.log| <= i < |r.log| ==> r.log[i] != k
  }

  /** A freed timer never runs again, whatever its address is used for. */
  lemma {:induction false} FreedNeverRuns(q: Queue, es: seq<Event>, k: nat)
    requires Inv(q) && k in q.freed
    ensures NotSince(q, Run(q, es), k)
    decreases |es|
  {
    RunExtends(q, es);
    if es != [] {
      StepKeepsInv(q, es[0]);
      StepExtends(q, es[0]);
      var q1 := Step(q, es[0]);
      hide Inv, Step;
      assert k in q1.freed;
      FreedNeverRuns(q1, es[1..], k);
      SinceStep(q, q1, Run(q1, es[1..]), k);
    }
  }

  lemma SinceStep(q: Queue, q1: Queue, r: Queue, k: nat)
    requires Extends(q, q1) && Extends(q, r) && NotSince(q1, r, k) && k in q.freed
    requires |q1.log| <= |q.log| + 1 && (|q1.log| == |q.log| + 1 ==> q1.log[|q.log|] !in q.freed)
    ensures NotSince(q, r, k)
  {
    forall i | |q.log| <= i < |r.log| ensures r.log[i] != k {
      if i < |q1.log| {
        assert r.log[i] == r.log[..|q1.log|][i] == q1.log[i];
      }
    }
  }

  /** Cancelling a pending timer frees it: it never runs again. */
  lemma CancelledNeverRuns(q: Queue, id: Id, es: seq<Event>)
    requires Inv(q) && id in q.active
    ensures var r := Step(q, CancelEvent(id));
      && Inv(r)
      && id.sequence in r.freed
      && id !in r.active && Entry(q.heap[id.timer].expiration, id.timer) !in r.timers
      && NotSince(r, Run(r, es), id.sequence)
  {
    StepKeepsInv(q, CancelEvent(id));
    var r := Step(q, CancelEvent(id));
    CancelKeepsIndices(q, id);
    assert IdOf(q, id.timer) == id;
    assert r.freed == q.freed + [id.sequence];
    FreedNeverRuns(r, es, id.sequence);
  }

  lemma ActiveIsPending(q: Queue, id: Id)
    requires Inv(q)
    ensures id in q.active ==> id.timer in Ptrs(q.timers) && id.timer !in Ptrs(q.batch)
  {
    if id in q.active {
      assert Entry(q.heap[id.timer].expiration, id.timer) in q.timers;
    }
  }

  lemma BatchIsInactive(q: Queue, id: Id)
    requires Inv(q) && id.timer in Ptrs(q.batch)
    ensures id !in q.active
  {
    ActiveIsPending(q, id);
    hide Inv, Ptrs;
  }

  /** The timer is in the batch being run and has been cancelled. */
  ghost predicate Doomed(q: Queue, id: Id) {
    && q.calling && id in q.canceling
    && id.timer in Ptrs(q.batch) && id.timer in q.heap && IdOf(q, id.timer) == id
  }

  lemma {:induction false} SettleAllFrees(q: Queue, id: Id)
    requires Inv(q) && q.calling && q.ran == 0 && Doomed(q, id)
    ensures q.batch != [] && id.sequence in SettleAll(q).freed
    decreases |q.batch|
  {
    assert q.(ran := 0) == q;
    SettleKeepsInv(q);
    SettleAllExtends(Settle(q));
    SettleDoomed(q, id);
    hide Inv, Settle, Doomed;
    if id.sequence !in Settle(q).freed {
      SettleAllFrees(Settle(q), id);
    }
  }

  lemma SettleDoomed(q: Queue, id: Id)
    requires Doomed(q, id) && q.batch != [] && q.batch[0].timer in q.heap
    ensures id.sequence in Settle(q).freed || Doomed(Settle(q), id)
  {
    hide InsertEntry, Ptrs;
    if q.batch[0].timer == id.timer {
      assert id.sequence in Settle(q).freed;
    } else {
      TailPtrs(q.batch, id.timer);
    }
  }

  lemma TailPtrs(s: seq<Entry>, p: Addr)
    requires s != [] && p in Ptrs(s) && s[0].timer != p
    ensures p in Ptrs(s[1..])
  {
    var e :| e in s && e.timer == p;
    assert s == [s[0]] + s[1..];
  }

  /** A cancelled timer of the batch stays cancelled until the batch ends, and is freed then. */
  lemma DoomedStays(q: Queue, id: Id, e: Event)
    requires Inv(q) && (Doomed(q, id) || id.sequence in q.freed)
    ensures Doomed(Step(q, e), id) || id.sequence in Step(q, e).freed
  {
    StepExtends(q, e);
    if id.sequence in q.freed {
      hide Inv, Step;
    } else if Enabled(q, e) {
      if e == EndEvent {
        EndKeepsInv(q);
        SettleAllFrees(q.(ran := 0), id);
      } else if e.CancelEvent? {
        ActiveIsPending(q, e.id);
      } else if e.CreateEvent? {
        assert e.addr != id.timer;
      }
    }
  }

  lemma {:induction false} DoomedRun(q: Queue, id: Id, es: seq<Event>)
    requires Inv(q) && (Doomed(q, id) || id.sequence in q.freed)
    ensures Doomed(Run(q, es), id) || id.sequence in Run(q, es).freed
    decreases |es|
  {
    if es != [] {
      StepKeepsInv(q, es[0]);
      DoomedStays(q, id, es[0]);
      hide Inv, Step, Doomed;
      DoomedRun(Step(q, es[0]), id, es[1..]);
    }
  }

  /**
   Cancelling a timer of the current batch, from its own or another callback: whatever happens, once
   that batch is over the timer is freed and never runs again.
   */
  lemma CancelInBatchIsFinal(q: Queue, id: Id, es: seq<Event>, later: seq<Event>)
    requires Inv(q) && q.calling && id.timer in Ptrs(q.batch) && id.timer in q.heap && IdOf(q, id.timer) == id
    ensures var r := Step(q, CancelEvent(id));
      && Inv(r)
      && var s := Run(r, es);
         !s.calling ==>
           && id.sequence in s.freed
           && NotSince(s, Run(s, later), id.sequence)
  {
    StepKeepsInv(q, CancelEvent(id));
    var r := Step(q, CancelEvent(id));
    BatchIsInactive(q, id);
    assert Doomed(r, id);
    DoomedRun(r, id, es);
    var s := Run(r, es);
    if !s.calling {
      FreedNeverRuns(s, later, id.sequence);
    }
  }

  // ---------- Stale ids ----------

  /** Equal but for a cancellation of a timer that is gone. */
  ghost predicate Twins(a: Queue, b: Queue, id: Id) {
    && a == b.(canceling := a.canceling)
    && id.sequence in b.freed
    && forall x :: x != id ==> (x in a.canceling <==> x in b.canceling)
  }

  lemma SettleTwins(a: Queue, b: Queue, id: Id)
    requires Twins(a, b, id) && b.batch != [] && b.batch[0].timer in b.heap
    requires b.heap[b.batch[0].timer].sequence !in b.freed
    ensures Twins(Settle(a), Settle(b), id)
  {
    hide InsertEntry;
    assert IdOf(b, b.batch[0].timer) != id;
  }

  lemma {:induction false} SettleAllTwins(a: Queue, b: Queue, id: Id)
    requires Inv(a) && Inv(b) && a.calling && a.ran == 0 && Twins(a, b, id)
    ensures Twins(SettleAll(a), SettleAll(b), id)
    decreases |a.batch|
  {
    assert a.(ran := 0) == a && b.(ran := 0) == b;
    if a.batch != [] {
      SettleKeepsInv(a);
      SettleKeepsInv(b);
      assert b.heap[b.batch[0].timer].sequence !in b.freed;
      hide Inv, Settle;
      SettleTwins(a, b, id);
      hide Twins;
      TwinFields(Settle(a), Settle(b), id);
      SettleAllTwins(Settle(a), Settle(b), id);
    }
  }

  lemma TwinFields(a: Queue, b: Queue, id: Id)
    requires Twins(a, b, id)
    ensures a.batch == b.batch && a.ran == b.ran && a.calling == b.calling
  {
  }

  lemma EndTwins(a: Queue, b: Queue, id: Id)
    requires Inv(a) && Inv(b) && a.calling && Twins(a, b, id)
    ensures Inv(a.(ran := 0)) && Inv(b.(ran := 0))
    ensures Twins(Rearm(SettleAll(a.(ran := 0))), Rearm(SettleAll(b.(ran := 0))), id)
  {
    RestartBatch(a);
    RestartBatch(b);
    RestartTwins(a, b, id);
    TwinFields(a, b, id);
    hide Inv, SettleAll, Twins, Rearm;
    SettleAllTwins(a.(ran := 0), b.(ran := 0), id);
    RearmTwins(SettleAll(a.(ran := 0)), SettleAll(b.(ran := 0)), id);
  }

  lemma RestartTwins(a: Queue, b: Queue, id: Id)
    requires Twins(a, b, id)
    ensures Twins(a.(ran := 0), b.(ran := 0), id)
  {
  }

  lemma RearmTwins(a: Queue, b: Queue, id: Id)
    requires Twins(a, b, id)
    ensures Twins(Rearm(a), Rearm(b), id)
  {
  }

  lemma StepTwins(a: Queue, b: Queue, id: Id, e: Event)
    requires Inv(a) && Inv(b) && Twins(a, b, id)
    ensures Twins(Step(a, e), Step(b, e), id)
  {
    hide IndicesAgree, Owned, FreedOnce, Armed, SettleAll, Rearm, InsertEntry, EraseEntry, Expired;
    if Enabled(b, e) {
      if e == EndEvent {
        EndTwins(a, b, id);
      } else if e == RunEvent {
        BatchIsLive(b, b.ran);
      }
    }
  }

  lemma {:induction false} RunTwins(a: Queue, b: Queue, id: Id, es: seq<Event>)
    requires Inv(a) && Inv(b) && Twins(a, b, id)
    ensures Twins(Run(a, es), Run(b, es), id)
    decreases |es|
  {
    if es != [] {
      StepKeepsInv(a, es[0]);
      StepKeepsInv(b, es[0]);
      StepTwins(a, b, id, es[0]);
      hide Inv, Step;
      RunTwins(Step(a, es[0]), Step(b, es[0]), id, es[1..]);
    }
  }

  /**
   A stale id cancels nothing, even when a new timer lives at its address: every later run is the
   run without that cancellation, but for the id itself in the cancellation set.
   */
  lemma StaleCancelIsHarmless(q: Queue, id: Id, es: seq<Event>)
    requires Inv(q) && id.sequence in q.freed
    ensures Inv(Step(q, CancelEvent(id)))
    ensures Twins(Run(Step(q, CancelEvent(id)), es), Run(q, es), id)
  {
    StepKeepsInv(q, CancelEvent(id));
    assert id !in q.active;
    hide IndicesAgree, Owned, FreedOnce, Armed;
    RunTwins(Step(q, CancelEvent(id)), q, id, es);
  }

  // ---------- From the start ----------

  /**
   Every reachable state: the two indices hold the same timers under their current expirations,
   every live timer has one owner, every timer is live or freed exactly once, and outside
   `handleRead` a pending timer is covered by the timerfd.
   */
  lemma EveryRun(clock: int, es: seq<Event>)
    requires 0 < clock
    ensures Inv(Empty(clock))
    ensures var q := Run(Empty(clock), es);
      && IndicesAgree(q) && Owned(q) && FreedOnce(q)
      && (q.timers != [] && !q.calling ==>
            q.deadline.Some? && q.deadline.value <= Max(q.timers[0].when, q.clock + FLOOR))
  {
    EmptyIsGood(clock);
    var q := Run(Empty(clock), es);
    if q.timers != [] && !q.calling {
      NeverStranded(q);
    }
  }
}
