/** What becomes of a timer: which callbacks a batch runs, who is restarted and who is freed. */
module TimerLives {
  import opened Bytes
  import opened Timers
  import opened TimerRuns

  // ---------- The end of a batch ----------

  ghost predicate Restarts(q: Queue, p: Addr)
    requires p in q.heap
  {
    q.heap[p].repeat && IdOf(q, p) !in q.canceling
  }

  /** What settling the batch of `q` has done to the timer `p` of it. */
  ghost predicate Settled(q: Queue, f: Queue, p: Addr)
    requires p in q.heap
  {
    var t := q.heap[p];
    if Restarts(q, p) then
      var next := q.batchTime + t.delta;
      p in f.heap && f.heap[p] == t.(expiration := next) && Entry(next, p) in f.timers
    else p !in f.heap && t.sequence in f.freed
  }

  /** Timers outside the batch, and entries already pending, are left alone. */
  ghost predicate Spared(q: Queue, f: Queue) {
    && (forall p :: p in q.heap && p !in Ptrs(q.batch) ==> p in f.heap && f.heap[p] == q.heap[p])
    && (forall p :: p in f.heap ==> p in q.heap)
    && (forall e :: e in q.timers ==> e in f.timers)
    && (forall k :: k in q.freed ==> k in f.freed)
  }

  /** What settling the first timer of the batch does. */
  ghost predicate FirstSettled(q: Queue, r: Queue)
    requires q.batch != [] && q.batch[0].timer in q.heap
  {
    var p := q.batch[0].timer;
    && r.batch == q.batch[1..] && r.canceling == q.canceling && r.batchTime == q.batchTime
    && Settled(q, r, p)
    && (forall x :: x in q.heap && x != p ==> x in r.heap && r.heap[x] == q.heap[x])
    && (forall x :: x in r.heap ==> x in q.heap)
    && (forall e :: e in q.timers ==> e in r.timers)
    && (forall k :: k in q.freed ==> k in r.freed)
  }

  lemma SettleOne(q: Queue)
    requires Inv(q) && q.calling && q.ran == 0 && q.batch != []
    ensures q.batch[0].timer in q.heap && FirstSettled(q, Settle(q))
  {
    SettleKeepsInv(q);
    var p := q.batch[0].timer;
    var e := Entry(q.batchTime + q.heap[p].delta, p);
    InsertEntryOrdered(q.timers, e);
    hide *;
    SettledFirst(q, e);
  }

  lemma SettledFirst(q: Queue, e: Entry)
    requires q.batch != [] && q.batch[0].timer in q.heap
    requires e == Entry(q.batchTime + q.heap[q.batch[0].timer].delta, q.batch[0].timer)
    requires forall x :: x in InsertEntry(q.timers, e) <==> x in q.timers || x == e
    ensures FirstSettled(q, Settle(q))
  {
    hide InsertEntry;
    var p := q.batch[0].timer;
    if Restarts(q, p) {
      assert Settle(q).timers == InsertEntry(q.timers, e);
    } else {
      assert Settle(q).freed[|q.freed|] == q.heap[p].sequence;
    }
  }

  lemma FirstStays(q: Queue, r: Queue, f: Queue)
    requires q.batch != [] && q.batch[0].timer in q.heap && FirstSettled(q, r) && Spared(r, f)
    requires q.batch[0].timer !in Ptrs(r.batch)
    ensures Settled(q, f, q.batch[0].timer)
  {
    hide Ptrs;
  }

  lemma LaterSettled(q: Queue, r: Queue, f: Queue, x: Addr)
    requires q.batch != [] && q.batch[0].timer in q.heap && FirstSettled(q, r)
    requires x in q.heap && x != q.batch[0].timer && x in r.heap && Settled(r, f, x)
    ensures Settled(q, f, x)
  {
  }

  lemma SparedFromFirst(q: Queue, r: Queue, f: Queue)
    requires q.batch != [] && q.batch[0].timer in q.heap && FirstSettled(q, r) && Spared(r, f)
    requires Ptrs(q.batch) == {q.batch[0].timer} + Ptrs(r.batch)
    ensures Spared(q, f)
  {
    hide Ptrs, Settled;
  }

  lemma BatchTail(q: Queue)
    requires Inv(q) && q.batch != []
    ensures Ptrs(q.batch) == {q.batch[0].timer} + Ptrs(q.batch[1..]) && q.batch[0].timer !in Ptrs(q.batch[1..])
    ensures Ptrs(q.batch) <= q.heap.Keys
  {
    DistinctHalves(q.batch, 1);
    assert q.batch[..1] == [q.batch[0]];
    assert Ptrs([q.batch[0]]) == {q.batch[0].timer};
  }

  lemma {:induction false} SettleAllEffect(q: Queue)
    requires Inv(q) && q.calling && q.ran == 0
    ensures forall p :: p in Ptrs(q.batch) ==> p in q.heap && Settled(q, SettleAll(q), p)
    ensures Spared(q, SettleAll(q))
    decreases |q.batch|
  {
    assert q.(ran := 0) == q;
    if q.batch == [] {
      assert Ptrs(q.batch) == {};
    } else {
      var p, r := q.batch[0].timer, Settle(q);
      BatchTail(q);
      SettleKeepsInv(q);
      SettleOne(q);
      assert SettleAll(q) == SettleAll(r);
      hide Inv, Settle, SettleAll, Ptrs, Settled, Spared, FirstSettled;
      FirstBatch(q, r);
      SettleAllEffect(r);
      FirstStays(q, r, SettleAll(r));
      SparedFromFirst(q, r, SettleAll(r));
      forall x | x in Ptrs(q.batch) ensures x in q.heap && Settled(q, SettleAll(q), x) {
        if x != p {
          LaterSettled(q, r, SettleAll(r), x);
        }
      }
    }
  }

  lemma FirstBatch(q: Queue, r: Queue)
    requires q.batch != [] && q.batch[0].timer in q.heap && FirstSettled(q, r)
    ensures r.batch == q.batch[1..] && forall x :: x in q.heap && x != q.batch[0].timer ==> x in r.heap
  {
    hide Settled;
  }

  // ---------- While the callbacks run ----------

  function Sequences(heap: map<Addr, Timer>, s: seq<Entry>): (ks: seq<nat>)
    requires forall i :: 0 <= i < |s| ==> s[i].timer in heap
    ensures |ks| == |s|
  {
    seq(|s|, i requires 0 <= i < |s| => heap[s[i].timer].sequence)
  }

  /** After `es` in the batch that started in `q`: nothing but the callbacks of the batch has run. */
  ghost predicate During(q: Queue, r: Queue, es: seq<Event>) {
    && r.calling && r.batchTime == q.clock && r.ran <= |r.batch| <= |q.timers| && r.batch == q.timers[..|r.batch|]
    && (forall i :: 0 <= i < |r.batch| ==>
          var p := r.batch[i].timer;
          && p in q.heap && p in r.heap && r.heap[p] == q.heap[p]
          && (IdOf(q, p) in r.canceling <==> CancelEvent(IdOf(q, p)) in es))
    && r.log == q.log + Sequences(q.heap, r.batch[..r.ran])
  }

  lemma BeginTakesDue(q: Queue)
    requires Inv(q) && Enabled(q, BeginEvent)
    ensures forall e :: e in q.timers ==> e.timer in q.heap
    ensures var r := Begin(q);
      && Step(q, BeginEvent) == r && |r.batch| <= |q.timers| && r.batch == q.timers[..|r.batch|]
      && (forall i :: 0 <= i < |r.batch| ==> q.timers[i].when <= q.clock)
      && (forall i :: |r.batch| <= i < |q.timers| ==> q.timers[i].when > q.clock)
  {
    HeldIsLive(q);
    BatchIsExpired(q);
    BeginIs(q);
    Parts(Begin(q).batch, Begin(q).timers);
    hide *;
  }

  lemma Parts(a: seq<Entry>, b: seq<Entry>)
    ensures (a + b)[..|a|] == a
    ensures forall i :: 0 <= i < |a| ==> (a + b)[i] in a
    ensures forall i :: |a| <= i < |a + b| ==> (a + b)[i] in b
  {
  }

  lemma BeginIs(q: Queue)
    requires Inv(q) && Enabled(q, BeginEvent)
    ensures forall e :: e in q.timers ==> e.timer in q.heap
    ensures Step(q, BeginEvent) == Begin(q)
  {
    HeldIsLive(q);
    hide Inv, Begin;
  }

  lemma BeginDuring(q: Queue)
    requires Inv(q) && Enabled(q, BeginEvent)
    ensures During(q, Step(q, BeginEvent), [])
  {
    BeginTakesDue(q);
    hide Inv, Expired, IdsOf;
    var r := Begin(q);
    assert r.batch[..0] == [];
    forall i | 0 <= i < |r.batch| ensures r.batch[i].timer in q.heap {
      assert r.batch[i] == q.timers[i] && q.timers[i] in q.timers;
    }
  }

  lemma NotInSnoc(es: seq<Event>, e: Event, x: Event)
    ensures x in es + [e] <==> x in es || x == e
  {
  }

  lemma RunDuring(q: Queue, r: Queue, es: seq<Event>)
    requires Inv(r) && During(q, r, es) && r.ran < |r.batch|
    ensures r.batch[r.ran].timer in r.heap && During(q, RunNext(r), es + [RunEvent])
  {
    var p := r.batch[r.ran].timer;
    assert r.batch[..r.ran + 1] == r.batch[..r.ran] + [r.batch[r.ran]];
    assert Sequences(q.heap, r.batch[..r.ran + 1]) == Sequences(q.heap, r.batch[..r.ran]) + [q.heap[p].sequence];
    hide Inv;
    forall i | 0 <= i < |r.batch|
      ensures CancelEvent(IdOf(q, r.batch[i].timer)) in es + [RunEvent]
        <==> CancelEvent(IdOf(q, r.batch[i].timer)) in es
    {
      NotInSnoc(es, RunEvent, CancelEvent(IdOf(q, r.batch[i].timer)));
    }
  }

  predicate SameTimer(r: Queue, r': Queue, p: Addr) {
    p in r.heap && p in r'.heap && r'.heap[p] == r.heap[p]
  }

  predicate Noted(q: Queue, r: Queue, e: Event, r': Queue, p: Addr) {
    p in q.heap && (IdOf(q, p) in r'.canceling <==> IdOf(q, p) in r.canceling || e == CancelEvent(IdOf(q, p)))
  }

  /** A step that keeps batch, log and the timers of the batch, and notes just the cancellations in it. */
  lemma OtherDuring(q: Queue, r: Queue, es: seq<Event>, e: Event, r': Queue)
    requires During(q, r, es)
    requires r'.calling && r'.batchTime == r.batchTime && r'.batch == r.batch && r'.ran == r.ran && r'.log == r.log
    requires forall i :: 0 <= i < |r.batch| ==> SameTimer(r, r', r.batch[i].timer)
    requires forall i :: 0 <= i < |r.batch| ==> Noted(q, r, e, r', r.batch[i].timer)
    ensures During(q, r', es + [e])
  {
    forall i | 0 <= i < |r.batch|
      ensures CancelEvent(IdOf(q, r.batch[i].timer)) in es + [e] <==>
        CancelEvent(IdOf(q, r.batch[i].timer)) in es || e == CancelEvent(IdOf(q, r.batch[i].timer))
    {
      NotInSnoc(es, e, CancelEvent(IdOf(q, r.batch[i].timer)));
    }
  }

  /** A timer of the batch is not pending, so its id is not active and its entry not erased. */
  lemma BatchIsHeld(r: Queue, i: nat)
    requires Inv(r) && i < |r.batch|
    ensures r.batch[i].timer in r.heap && r.batch[i].timer !in Ptrs(r.timers)
    ensures forall id :: id in r.active ==> id.timer != r.batch[i].timer
  {
    BatchIsLive(r, i);
    assert r.batch[i] in r.batch && r.batch[i].timer in Ptrs(r.batch);
    forall id | id in r.active ensures id.timer != r.batch[i].timer {
      ActiveIsPending(r, id);
    }
  }

  lemma StepDuring(q: Queue, r: Queue, es: seq<Event>, e: Event)
    requires Inv(r) && During(q, r, es) && e != EndEvent
    ensures During(q, Step(r, e), es + [e]) && Step(r, e).batch == r.batch
  {
    forall i | 0 <= i < |r.batch|
      ensures r.batch[i].timer in r.heap && forall id :: id in r.active ==> id.timer != r.batch[i].timer
    {
      BatchIsHeld(r, i);
    }
    if e == RunEvent && Enabled(r, e) {
      RunDuring(q, r, es);
    } else {
      OtherStep(r, e);
      hide Inv, Step;
      OtherDuring(q, r, es, e, Step(r, e));
    }
  }

  /** Other steps leave the batch alone, and the heap but for a new timer or an active one that is cancelled. */
  lemma OtherStep(r: Queue, e: Event)
    requires Inv(r) && r.calling && e != EndEvent && (e == RunEvent ==> !Enabled(r, e))
    ensures var r' := Step(r, e);
      && r'.calling && r'.batchTime == r.batchTime && r'.batch == r.batch && r'.ran == r.ran && r'.log == r.log
      && (forall p :: p in r.heap && !(e.CancelEvent? && e.id in r.active && p == e.id.timer) ==> SameTimer(r, r', p))
      && r'.canceling == r.canceling + if e.CancelEvent? && e.id !in r.active then {e.id} else {}
  {
    HeldIsLive(r);
    hide Inv, InsertEntry, EraseEntry;
  }

  lemma {:induction false} WholeDuring(q: Queue, r: Queue, past: seq<Event>, es: seq<Event>)
    requires Inv(r) && During(q, r, past) && EndEvent !in es
    ensures During(q, Run(r, es), past + es) && Run(r, es).batch == r.batch
    decreases |es|
  {
    if es == [] {
      assert past + es == past;
    } else {
      StepKeepsInv(r, es[0]);
      StepDuring(q, r, past, es[0]);
      hide Inv, Step, During;
      WholeDuring(q, Step(r, es[0]), past + [es[0]], es[1..]);
      assert past + [es[0]] + es[1..] == past + es;
    }
  }

  /** The timer `p`, pending and due in `q`, once the batch in which `es` happened is over. */
  ghost predicate Outcome(q: Queue, es: seq<Event>, f: Queue, p: Addr)
    requires p in q.heap
  {
    var t := q.heap[p];
    if t.repeat && CancelEvent(IdOf(q, p)) !in es then
      var next := q.clock + t.delta;
      && p in f.heap && f.heap[p] == t.(expiration := next)
      && Entry(next, p) in f.timers && t.sequence !in f.freed
    else t.sequence in f.freed
  }

  /**
   A whole batch, whatever its callbacks and other threads do: the log grows by exactly the
   sequence numbers of the timers that were due, in the order of their expirations. Afterwards a
   repeating timer that was not cancelled is pending at the time of the batch plus its interval,
   and every other timer of the batch is freed.
   */
  lemma BatchOutcome(q: Queue, es: seq<Event>) returns (n: nat)
    requires Inv(q) && Enabled(q, BeginEvent) && EndEvent !in es
    requires Inv(Step(q, BeginEvent)) && Enabled(Run(Step(q, BeginEvent), es), EndEvent)
    ensures n <= |q.timers| && (forall i :: 0 <= i < n ==> q.timers[i].when <= q.clock && q.timers[i].timer in q.heap)
    ensures forall i :: n <= i < |q.timers| ==> q.timers[i].when > q.clock
    ensures var f := Step(Run(Step(q, BeginEvent), es), EndEvent);
      && f.log == q.log + Sequences(q.heap, q.timers[..n])
      && !f.calling
      && forall i :: 0 <= i < n ==> Outcome(q, es, f, q.timers[i].timer)
  {
    BeginTakesDue(q);
    BeginDuring(q);
    hide *;
    var r := Step(q, BeginEvent);
    n := |r.batch|;
    WholeDuring(q, r, [], es);
    assert [] + es == es;
    var s := Run(r, es);
    EndIs(q, es, s);
    SameBatch(q, r, s, es);
    forall i | 0 <= i < n
      ensures q.timers[i].timer in q.heap && Outcome(q, es, Step(s, EndEvent), q.timers[i].timer)
    {
      assert s.batch[i] == q.timers[i];
    }
  }

  /** The batch that ends is the one that began, and it has run to its end. */
  lemma SameBatch(q: Queue, r: Queue, s: Queue, es: seq<Event>)
    requires During(q, r, []) && During(q, s, es) && Enabled(s, EndEvent) && s.batch == r.batch
    ensures forall i :: 0 <= i < |r.batch| ==> q.timers[i].timer in q.heap && s.batch[i] == q.timers[i]
    ensures s.log == q.log + Sequences(q.heap, q.timers[..|r.batch|])
  {
    assert s.batch[..s.ran] == q.timers[..|r.batch|];
    forall i | 0 <= i < |r.batch| ensures q.timers[i].timer in q.heap {
      assert s.batch[i] == q.timers[i];
    }
  }

  lemma EndIs(q: Queue, es: seq<Event>, s: Queue)
    requires Inv(s) && During(q, s, es) && Enabled(s, EndEvent)
    ensures var f := Step(s, EndEvent);
      && f.log == s.log && !f.calling
      && forall i :: 0 <= i < |s.batch| ==> s.batch[i].timer in q.heap && Outcome(q, es, f, s.batch[i].timer)
  {
    EndEffect(s);
    var f := Step(s, EndEvent);
    hide Inv, Step, Ptrs, Spared;
    forall i | 0 <= i < |s.batch| ensures s.batch[i].timer in q.heap && Outcome(q, es, f, s.batch[i].timer) {
      assert s.batch[i] in s.batch && s.batch[i].timer in Ptrs(s.batch) by { InPtrs(s.batch, i); }
      SettledIsOutcome(q, es, s, f, s.batch[i].timer);
    }
  }

  lemma InPtrs(s: seq<Entry>, i: nat)
    requires i < |s|
    ensures s[i].timer in Ptrs(s)
  {
    assert s[i] in s;
  }

  lemma EndEffect(s: Queue)
    requires Inv(s) && Enabled(s, EndEvent)
    ensures var f := Step(s, EndEvent);
      && Inv(f) && f.log == s.log && !f.calling && Spared(s, f)
      && forall p :: p in Ptrs(s.batch) ==> p in s.heap && Settled(s, f, p)
  {
    EndIsRearm(s);
    StepKeepsInv(s, EndEvent);
    var s0, f := s.(ran := 0), Step(s, EndEvent);
    SettleAllEffect(s0);
    hide Inv, SettleAll, Ptrs, Step, Settled;
    forall p | p in Ptrs(s.batch) ensures p in s.heap && Settled(s, f, p) {
      SameSettled(s0, SettleAll(s0), s, f, p);
    }
  }

  lemma EndIsRearm(s: Queue)
    requires Inv(s) && Enabled(s, EndEvent)
    ensures Inv(s.(ran := 0))
    ensures var f, f0 := Step(s, EndEvent), SettleAll(s.(ran := 0));
      && f.heap == f0.heap && f.timers == f0.timers && f.freed == f0.freed && f.log == s.log && !f.calling
  {
    EndExtends(s);
    hide Inv, SettleAll, Extends;
  }

  lemma SameSettled(q: Queue, f: Queue, q': Queue, f': Queue, p: Addr)
    requires p in q.heap && Settled(q, f, p)
    requires q'.heap == q.heap && q'.canceling == q.canceling && q'.batchTime == q.batchTime
    requires f'.heap == f.heap && f'.timers == f.timers && f'.freed == f.freed
    ensures Settled(q', f', p)
  {
  }

  lemma SettledIsOutcome(q: Queue, es: seq<Event>, s: Queue, f: Queue, p: Addr)
    requires p in q.heap && p in s.heap && s.heap[p] == q.heap[p] && s.batchTime == q.clock && Inv(f)
    requires IdOf(q, p) in s.canceling <==> CancelEvent(IdOf(q, p)) in es
    requires Settled(s, f, p)
    ensures Outcome(q, es, f, p)
  {
    hide IndicesAgree, Owned, Armed;
  }

  // ---------- The life of one timer ----------

  /** How often the callback of timer `k` has run since the log was `n` long. */
  function Runs(q: Queue, n: nat, k: nat): nat
    requires n <= |q.log|
  {
    multiset(q.log[n..])[k]
  }

  /** The timer `t` at `p` has been called in the current batch. */
  ghost predicate JustCalled(r: Queue, p: Addr) {
    r.calling && exists i :: 0 <= i < r.ran && i < |r.batch| && r.batch[i].timer == p
  }

  ghost predicate HasTimer(r: Queue, p: Addr, t: Timer, e: int) {
    p in r.heap && r.heap[p] == t.(expiration := e)
  }

  /** Where the timer created as `t` at `p` stands, if nobody has cancelled it. */
  ghost predicate Standing(r: Queue, n: nat, p: Addr, t: Timer) {
    && n <= |r.log|
    && Id(p, t.sequence) !in r.canceling
    && if Runs(r, n, t.sequence) == 0 then HasTimer(r, p, t, t.expiration) && !JustCalled(r, p)
       else if t.repeat then exists e :: HasTimer(r, p, t, e)
       else Runs(r, n, t.sequence) == 1
            && (t.sequence in r.freed || (HasTimer(r, p, t, t.expiration) && JustCalled(r, p)))
  }

  lemma NoRuns(q: Queue, n: nat, r: Queue, k: nat)
    requires n <= |q.log| && r.log == q.log
    ensures Runs(r, n, k) == Runs(q, n, k)
  {
  }

  lemma OneRun(q: Queue, n: nat, k: nat, x: nat)
    requires n <= |q.log|
    ensures var log := q.log + [x];
      multiset(log[n..])[k] == Runs(q, n, k) + if x == k then 1 else 0
  {
    assert (q.log + [x])[n..] == q.log[n..] + [x];
  }

  lemma StandingRuns(r: Queue, n: nat, p: Addr, t: Timer)
    requires Inv(r) && Standing(r, n, p, t) && Enabled(r, RunEvent)
    ensures Standing(Step(r, RunEvent), n, p, t)
  {
    BatchIsLive(r, r.ran);
    NextIsNew(r);
    RunIs(r);
    hide Inv, Step;
    StandsCalled(r, n, p, t, r.batch[r.ran].timer);
  }

  lemma RunIs(r: Queue)
    requires Inv(r) && Enabled(r, RunEvent)
    ensures r.batch[r.ran].timer in r.heap && Step(r, RunEvent) == RunNext(r)
  {
    BatchIsLive(r, r.ran);
    hide Inv;
  }

  /** The next callback of the batch is of a timer that is not freed, and that has not been called in it. */
  lemma NextIsNew(r: Queue)
    requires Inv(r) && r.ran < |r.batch| && r.batch[r.ran].timer in r.heap
    ensures var x := r.batch[r.ran].timer;
      && r.heap[x].sequence !in r.freed
      && (forall y :: y in r.heap && r.heap[y].sequence == r.heap[x].sequence ==> y == x)
      && !JustCalled(r, x)
  {
    hide IndicesAgree, Armed, Ptrs;
  }

  lemma StandsCalled(r: Queue, n: nat, p: Addr, t: Timer, x: Addr)
    requires Standing(r, n, p, t) && r.calling && r.ran < |r.batch| && x == r.batch[r.ran].timer && x in r.heap
    requires r.heap[x].sequence !in r.freed && !JustCalled(r, x)
    requires forall y :: y in r.heap && r.heap[y].sequence == r.heap[x].sequence ==> y == x
    ensures Standing(RunNext(r), n, p, t)
  {
    OneRun(r, n, t.sequence, r.heap[x].sequence);
    var r' := RunNext(r);
    assert r'.log == r.log + [r.heap[x].sequence];
    CallsGrow(r);
    hide JustCalled;
    if Runs(r, n, t.sequence) == 0 {
      assert HasTimer(r', p, t, t.expiration);
    } else if t.repeat {
      var e :| HasTimer(r, p, t, e);
      assert HasTimer(r', p, t, e);
    }
  }

  lemma CallsGrow(r: Queue)
    requires r.calling && r.ran < |r.batch| && r.batch[r.ran].timer in r.heap
    ensures forall p :: JustCalled(RunNext(r), p) <==> JustCalled(r, p) || p == r.batch[r.ran].timer
  {
    var r' := RunNext(r);
    forall p ensures JustCalled(r', p) <==> JustCalled(r, p) || p == r.batch[r.ran].timer {
      if JustCalled(r, p) {
        var i :| 0 <= i < r.ran && i < |r.batch| && r.batch[i].timer == p;
        assert i < r'.ran && r'.batch[i].timer == p;
      }
      assert r'.batch[r'.ran - 1] == r.batch[r.ran];
      if JustCalled(r', p) && p != r.batch[r.ran].timer {
        var i :| 0 <= i < r'.ran && i < |r'.batch| && r'.batch[i].timer == p;
        assert i < r.ran;
      }
    }
  }

  lemma StandingEnds(r: Queue, n: nat, p: Addr, t: Timer)
    requires Inv(r) && Standing(r, n, p, t) && Enabled(r, EndEvent)
    ensures Standing(Step(r, EndEvent), n, p, t)
  {
    EndEffect(r);
    EndKeepsCanceling(r);
    var f := Step(r, EndEvent);
    hide Inv, Step, Ptrs;
    if p in Ptrs(r.batch) {
      InBatch(r, p);
      assert JustCalled(r, p);
    }
    if JustCalled(r, p) {
      var i :| 0 <= i < r.ran && i < |r.batch| && r.batch[i].timer == p;
      InPtrs(r.batch, i);
    }
    hide *;
    StandsAfter(r, f, n, p, t);
  }

  lemma StandsAfter(r: Queue, f: Queue, n: nat, p: Addr, t: Timer)
    requires Standing(r, n, p, t) && Spared(r, f) && f.log == r.log && f.canceling == r.canceling && !f.calling
    requires JustCalled(r, p) <==> p in Ptrs(r.batch)
    requires p in Ptrs(r.batch) ==> p in r.heap && Settled(r, f, p)
    ensures Standing(f, n, p, t)
  {
    hide Ptrs;
    assert !JustCalled(f, p);
    hide JustCalled;
    if t.repeat && Runs(r, n, t.sequence) > 0 {
      var e :| HasTimer(r, p, t, e);
      assert HasTimer(f, p, t, if p in Ptrs(r.batch) then r.batchTime + t.delta else e);
    }
  }

  lemma InBatch(r: Queue, p: Addr)
    requires p in Ptrs(r.batch)
    ensures exists i :: 0 <= i < |r.batch| && r.batch[i].timer == p
  {
    var e :| e in r.batch && e.timer == p;
  }

  lemma {:induction false} SettleAllKeepsCanceling(q: Queue)
    requires Inv(q) && q.calling && q.ran == 0
    ensures SettleAll(q).canceling == q.canceling
    decreases |q.batch|
  {
    assert q.(ran := 0) == q;
    if q.batch != [] {
      SettleKeepsInv(q);
      hide Inv;
      SettleAllKeepsCanceling(Settle(q));
    }
  }

  lemma EndKeepsCanceling(r: Queue)
    requires Inv(r) && Enabled(r, EndEvent)
    ensures Step(r, EndEvent).canceling == r.canceling
  {
    RestartBatch(r);
    SettleAllKeepsCanceling(r.(ran := 0));
    hide Inv, SettleAll;
  }

  /** Steps outside a batch, or in one but of others. */
  lemma StandingSteps(r: Queue, n: nat, p: Addr, t: Timer, e: Event)
    requires Inv(r) && Standing(r, n, p, t)
    requires e != CancelEvent(Id(p, t.sequence)) && e != RunEvent && e != EndEvent
    ensures Standing(Step(r, e), n, p, t)
  {
    HeldIsLive(r);
    StepExtends(r, e);
    var r' := Step(r, e);
    OtherTimer(r, p, e);
    CallsStay(r, e);
    hide Inv, Step, Ptrs;
    NoRuns(r, n, r', t.sequence);
    assert Id(p, t.sequence) !in r'.canceling;
    if JustCalled(r, p) {
      var i :| 0 <= i < r.ran && i < |r.batch| && r.batch[i].timer == p;
      assert r'.batch[i].timer == p;
    }
    if JustCalled(r', p) && r.calling {
      var i :| 0 <= i < r'.ran && i < |r'.batch| && r'.batch[i].timer == p;
      assert r.batch[i].timer == p;
    }
    if t.repeat && Runs(r, n, t.sequence) > 0 {
      var x :| HasTimer(r, p, t, x);
      assert HasTimer(r', p, t, x);
    }
  }

  lemma CallsStay(r: Queue, e: Event)
    requires Inv(r) && e != RunEvent && e != EndEvent
    ensures var r' := Step(r, e);
      && r'.log == r.log
      && (r.calling ==> r'.calling && r'.batch == r.batch && r'.ran == r.ran)
      && (!r.calling ==> !r'.calling || r'.ran == 0)
      && (forall id :: id in r'.canceling ==> id in r.canceling || e == CancelEvent(id))
  {
    HeldIsLive(r);
    hide Inv, InsertEntry, EraseEntry, Expired;
  }

  lemma OtherTimer(r: Queue, p: Addr, e: Event)
    requires Inv(r) && e != RunEvent && e != EndEvent
    ensures p in r.heap && e != CancelEvent(IdOf(r, p)) ==> SameTimer(r, Step(r, e), p)
  {
    HeldIsLive(r);
    hide Ascending, Owned, FreedOnce, Armed, InsertEntry, EraseEntry, Expired, IdsOf;
  }

  lemma {:induction false} StandingRun(r: Queue, n: nat, p: Addr, t: Timer, es: seq<Event>)
    requires Inv(r) && Standing(r, n, p, t) && CancelEvent(Id(p, t.sequence)) !in es
    ensures Standing(Run(r, es), n, p, t)
    decreases |es|
  {
    if es != [] {
      StepKeepsInv(r, es[0]);
      var r' := Step(r, es[0]);
      if es[0] == RunEvent && Enabled(r, es[0]) {
        StandingRuns(r, n, p, t);
      } else if es[0] == EndEvent && Enabled(r, es[0]) {
        StandingEnds(r, n, p, t);
      } else if Enabled(r, es[0]) {
        StandingSteps(r, n, p, t, es[0]);
      }
      hide Inv, Step, Standing;
      StandingRun(r', n, p, t, es[1..]);
    }
  }

  /** A new timer as the caller has asked for it. */
  lemma CreatedStands(q: Queue, p: Addr, when: int, repeat: bool, delta: nat)
    requires Inv(q) && p !in q.heap && Id(p, q.created + 1) !in q.canceling
    ensures var t := Timer(when, repeat, delta, q.created + 1);
      Standing(Step(q, CreateEvent(p, when, repeat, delta)), |q.log|, p, t)
  {
    var s := Step(q, CreateEvent(p, when, repeat, delta));
    assert s.log[|q.log|..] == [];
    hide IndicesAgree, FreedOnce, Armed, Ptrs;
    forall i | 0 <= i < |s.batch| ensures s.batch[i].timer != p {
      BatchIsLive(q, i);
    }
  }

  /**
   A timer that is never cancelled, in every later state: a repeating one is alive with its
   interval and has not been freed; any other runs at most once and is freed only after it has run.
   Until it has run it expires when its creator said.
   */
  lemma CreatedTimer(q: Queue, p: Addr, when: int, repeat: bool, delta: nat, es: seq<Event>)
    requires Inv(q) && p !in q.heap
    requires Id(p, q.created + 1) !in q.canceling && CancelEvent(Id(p, q.created + 1)) !in es
    ensures var s := Step(q, CreateEvent(p, when, repeat, delta));
      && Inv(s)
      && var r, k := Run(s, es), q.created + 1;
         && |q.log| <= |r.log|
         && (repeat ==> k !in r.freed && p in r.heap && r.heap[p].repeat)
         && (k !in r.freed ==> p in r.heap && r.heap[p] == Timer(r.heap[p].expiration, repeat, delta, k))
         && (!repeat ==> Runs(r, |q.log|, k) <= 1 && (k in r.freed ==> Runs(r, |q.log|, k) == 1))
         && (Runs(r, |q.log|, k) == 0 ==> k !in r.freed && r.heap[p].expiration == when)
  {
    var create := CreateEvent(p, when, repeat, delta);
    var t := Timer(when, repeat, delta, q.created + 1);
    StepKeepsInv(q, create);
    CreatedStands(q, p, when, repeat, delta);
    var s := Step(q, create);
    StandingRun(s, |q.log|, p, t, es);
    StandsAlive(Run(s, es), |q.log|, p, t);
    hide Inv, Step, Run, JustCalled;
  }

  lemma StandsAlive(r: Queue, n: nat, p: Addr, t: Timer)
    requires Inv(r) && Standing(r, n, p, t)
    ensures forall e :: HasTimer(r, p, t, e) ==> t.sequence !in r.freed
  {
    hide IndicesAgree, Owned, Armed;
  }

  /** The entry of a timer that is due is among those that the next batch takes. */
  ghost predicate Due(q: Queue, p: Addr) {
    p in q.heap && Entry(q.heap[p].expiration, p) in q.timers && q.heap[p].expiration <= q.clock
  }

  /** `u` is reached after creating a timer by `es`, in which nobody cancels it; its number is `k`. */
  ghost predicate Created(q: Queue, p: Addr, when: int, repeat: bool, delta: nat, es: seq<Event>, u: Queue, k: nat) {
    && Inv(q) && p !in q.heap && k == q.created + 1
    && Id(p, k) !in q.canceling && CancelEvent(Id(p, k)) !in es
    && var create := CreateEvent(p, when, repeat, delta);
       Inv(Step(q, create)) && u == Run(Step(q, create), es)
  }

  /** `f` is reached from `u` by a whole batch, in which `es` happen besides. */
  ghost predicate Batch(u: Queue, es: seq<Event>, f: Queue) {
    && Inv(u) && Enabled(u, BeginEvent) && EndEvent !in es
    && var b := Step(u, BeginEvent);
       Inv(b) && Enabled(Run(b, es), EndEvent) && f == Step(Run(b, es), EndEvent)
  }

  lemma BatchIs(u: Queue, es: seq<Event>, f: Queue) returns (n: nat)
    requires Batch(u, es, f)
    ensures Inv(u) && n <= |u.timers| && (forall i :: 0 <= i < n ==> u.timers[i].timer in u.heap)
    ensures forall i :: n <= i < |u.timers| ==> u.timers[i].when > u.clock
    ensures f.log == u.log + Sequences(u.heap, u.timers[..n])
    ensures forall i :: 0 <= i < n ==> Outcome(u, es, f, u.timers[i].timer)
  {
    n := BatchOutcome(u, es);
    hide *;
  }

  lemma CreatedIs(q: Queue, p: Addr, when: int, repeat: bool, delta: nat, es: seq<Event>, u: Queue, k: nat)
    requires Created(q, p, when, repeat, delta, es, u, k) && k !in u.freed
    ensures p in u.heap && u.heap[p] == Timer(u.heap[p].expiration, repeat, delta, k)
  {
    CreatedTimer(q, p, when, repeat, delta, es);
    hide *;
  }

  /**
   From its creation through any batch that takes it, a timer that nobody cancels: created to
   repeat, it is alive and pending at the time of the batch plus its interval, and not freed;
   created to run once, it is freed. Either way its callback has run in that batch.
   */
  lemma RepeatsOrEnds(q: Queue, p: Addr, when: int, repeat: bool, delta: nat, es: seq<Event>, u: Queue, k: nat,
                      batch: seq<Event>, f: Queue)
    requires Created(q, p, when, repeat, delta, es, u, k) && k !in u.freed && Due(u, p)
    requires Batch(u, batch, f) && CancelEvent(Id(p, k)) !in batch
    ensures repeat ==>
      && p in f.heap && f.heap[p] == Timer(u.clock + delta, true, delta, k)
      && Entry(u.clock + delta, p) in f.timers && k !in f.freed
    ensures !repeat ==> k in f.freed
    ensures |u.log| <= |f.log| && k in f.log[|u.log|..]
  {
    hide *;
    CreatedIs(q, p, when, repeat, delta, es, u, k);
    var n := BatchIs(u, batch, f);
    var i := DueIndex(u, n, p);
    Grown(f.log, u.log, Sequences(u.heap, u.timers[..n]), i);
    SequenceAt(u.heap, u.timers[..n], i);
    OutcomeIs(u, batch, f, p, k);
  }

  lemma DueIndex(u: Queue, n: nat, p: Addr) returns (i: nat)
    requires Due(u, p) && n <= |u.timers| && forall i :: n <= i < |u.timers| ==> u.timers[i].when > u.clock
    ensures i < n && u.timers[..n][i].timer == p && u.timers[i].timer == p
  {
    i :| 0 <= i < |u.timers| && u.timers[i] == Entry(u.heap[p].expiration, p);
  }

  lemma SequenceAt(heap: map<Addr, Timer>, s: seq<Entry>, i: nat)
    requires i < |s| && forall j :: 0 <= j < |s| ==> s[j].timer in heap
    ensures Sequences(heap, s)[i] == heap[s[i].timer].sequence
  {
  }

  lemma Grown(log: seq<nat>, base: seq<nat>, more: seq<nat>, i: nat)
    requires log == base + more && i < |more|
    ensures more[i] in log[|base|..]
  {
    assert log[|base|..] == more;
  }

  lemma OutcomeIs(u: Queue, batch: seq<Event>, f: Queue, p: Addr, k: nat)
    requires p in u.heap && u.heap[p].sequence == k && CancelEvent(Id(p, k)) !in batch && Outcome(u, batch, f, p)
    ensures var t := u.heap[p];
      && (t.repeat ==> p in f.heap && f.heap[p] == t.(expiration := u.clock + t.delta)
                       && Entry(u.clock + t.delta, p) in f.timers && k !in f.freed)
      && (!t.repeat ==> k in f.freed)
  {
  }

  // ---------- Arming ----------

  /** When the earliest expiration changes, or a batch ends, the timerfd is armed for exactly that time. */
  ghost predicate ArmedFor(q: Queue, when: int) {
    q.deadline == Some(if when - q.clock < 100 then q.clock + 100 else when)
  }

  lemma AddArms(q: Queue, p: Addr)
    requires Inv(q) && p in q.inFlight
    ensures p in q.heap
    ensures var r, when := Step(q, AddEvent(p)), q.heap[p].expiration;
      && Entry(when, p) in r.timers && r.timers != []
      && (r.timers[0].when < when || (q.timers != [] && q.timers[0].when == when) ==> r.deadline == q.deadline)
      && (r.timers[0] == Entry(when, p) && (q.timers == [] || when < q.timers[0].when) ==> ArmedFor(r, when))
  {
    HeldIsLive(q);
    InsertEntryOrdered(q.timers, Entry(q.heap[p].expiration, p));
    hide Ascending, IndicesAgree, Owned, FreedOnce, InsertEntry;
  }

  lemma EndArms(q: Queue)
    requires Inv(q) && Enabled(q, EndEvent)
    ensures var r := Step(q, EndEvent);
      r.timers != [] && r.timers[0].when > 0 ==> ArmedFor(r, r.timers[0].when)
  {
    RestartBatch(q);
    hide Inv, SettleAll;
  }
}
