/**
 The timer queue (net/TimerQueue.cc, net/Timer.h) as a state machine.

 Timers live in a heap whose addresses may be reused after a timer is freed. Every step the loop
 thread takes, and every step other threads may take in between, is an event; a callback is
 whatever events happen between two `RunNext`s.
 */
module Timers {
  import opened Bytes

  type Addr = nat

  /** `delta` is the interval in whole microseconds; `repeat` says whether it was positive. */
  datatype Timer = Timer(expiration: int, repeat: bool, delta: nat, sequence: nat)

  datatype Entry = Entry(when: int, timer: Addr)

  datatype Id = Id(timer: Addr, sequence: nat)

  const FLOOR := 100

  // ---------- The ordered set of entries ----------

  predicate Before(a: Entry, b: Entry) {
    a.when < b.when || (a.when == b.when && a.timer < b.timer)
  }

  ghost predicate Ascending(s: seq<Entry>) {
    forall i, j :: 0 <= i < j < |s| ==> Before(s[i], s[j])
  }

  function InsertEntry(s: seq<Entry>, e: Entry): seq<Entry> {
    if s == [] then [e]
    else if e == s[0] then s
    else if Before(e, s[0]) then [e] + s
    else [s[0]] + InsertEntry(s[1..], e)
  }

  function EraseEntry(s: seq<Entry>, e: Entry): seq<Entry> {
    if s == [] then []
    else if e == s[0] then s[1..]
    else [s[0]] + EraseEntry(s[1..], e)
  }

  /** `lower_bound` of the pair of `now` and the largest address. */
  function Expired(s: seq<Entry>, now: int): (n: nat)
    ensures n <= |s|
    ensures forall i :: 0 <= i < n ==> s[i].when <= now
    ensures n < |s| ==> s[n].when > now
  {
    if s != [] && s[0].when <= now then 1 + Expired(s[1..], now) else 0
  }

  lemma {:induction false} InsertEntryOrdered(s: seq<Entry>, e: Entry)
    requires Ascending(s)
    ensures Ascending(InsertEntry(s, e))
    ensures forall x :: x in InsertEntry(s, e) <==> x in s || x == e
    ensures |InsertEntry(s, e)| > 0
    ensures s == [] || Before(e, s[0]) ==> InsertEntry(s, e)[0] == e
    ensures s != [] && !Before(e, s[0]) ==> InsertEntry(s, e)[0] == s[0]
  {
    if s != [] && e != s[0] && !Before(e, s[0]) {
      InsertEntryOrdered(s[1..], e);
      var t := InsertEntry(s[1..], e);
      assert InsertEntry(s, e) == [s[0]] + t;
      forall i | 0 <= i < |t| ensures Before(s[0], t[i]) {
        assert t[i] in t;
        if t[i] != e {
          assert t[i] in s[1..];
        }
      }
      assert forall x :: x in s <==> x == s[0] || x in s[1..];
    }
  }

  lemma {:induction false} EraseEntryOrdered(s: seq<Entry>, e: Entry)
    requires Ascending(s)
    ensures Ascending(EraseEntry(s, e))
    ensures forall x :: x in EraseEntry(s, e) <==> x in s && x != e
    ensures EraseEntry(s, e) != [] ==> s != [] && s[0].when <= EraseEntry(s, e)[0].when
  {
    if s != [] {
      assert forall x :: x in s <==> x == s[0] || x in s[1..];
      if e == s[0] {
        forall x | x in s[1..] ensures x != e {
          var i :| 0 <= i < |s[1..]| && s[1..][i] == x;
          assert Before(s[0], s[i + 1]);
        }
      } else {
        EraseEntryOrdered(s[1..], e);
        var t := EraseEntry(s[1..], e);
        forall i | 0 <= i < |t| ensures Before(s[0], t[i]) {
          assert t[i] in t && t[i] in s[1..];
        }
      }
    }
  }

  // ---------- The state ----------

  datatype Queue = Queue(
    heap: map<Addr, Timer>,     // live timers
    inFlight: set<Addr>,        // created, `addTimerInLoop` still to run
    timers: seq<Entry>,         // `timers_`
    active: set<Id>,            // `activeTimers_`
    calling: bool,              // `callingExpiredTimers_`
    canceling: set<Id>,         // `cancelingTimers_`
    batch: seq<Entry>,          // the expired timers `handleRead` holds
    ran: nat,                   // how many of them have been called
    batchTime: int,
    created: nat,               // `s_numCreated_`, which all queues share
    own: set<nat>,              // the sequence numbers given to timers of this queue
    freed: seq<nat>,            // sequence numbers of deleted timers
    log: seq<nat>,              // sequence numbers in the order their callbacks ran
    clock: int,
    deadline: Option<int>,      // when the timerfd becomes readable
    armedAt: int)

  function Empty(clock: int): Queue {
    Queue(map[], {}, [], {}, false, {}, [], 0, 0, 0, {}, [], [], clock, None, clock)
  }

  /** `resetTimerfd`: a relative time, never less than 100 microseconds. */
  function Arm(q: Queue, when: int): Queue {
    q.(deadline := Some(q.clock + Max(FLOOR, when - q.clock)), armedAt := q.clock)
  }

  function IdOf(q: Queue, p: Addr): Id
    requires p in q.heap
  {
    Id(p, q.heap[p].sequence)
  }

  /** `insert`, without the result. */
  function Insert(q: Queue, p: Addr): Queue
    requires p in q.heap
  {
    q.(timers := InsertEntry(q.timers, Entry(q.heap[p].expiration, p)), active := q.active + {IdOf(q, p)})
  }

  predicate EarliestChanged(q: Queue, p: Addr)
    requires p in q.heap
  {
    q.timers == [] || q.heap[p].expiration < q.timers[0].when
  }

  function Delete(q: Queue, p: Addr): Queue
    requires p in q.heap
  {
    q.(heap := q.heap - {p}, freed := q.freed + [q.heap[p].sequence])
  }

  function Create(q: Queue, p: Addr, when: int, repeat: bool, delta: nat): Queue {
    q.(heap := q.heap[p := Timer(when, repeat, delta, q.created + 1)],
       inFlight := q.inFlight + {p}, created := q.created + 1, own := q.own + {q.created + 1})
  }

  function AddInLoop(q: Queue, p: Addr): Queue
    requires p in q.heap
  {
    var q1 := Insert(q, p).(inFlight := q.inFlight - {p});
    if EarliestChanged(q, p) then Arm(q1, q.heap[p].expiration) else q1
  }

  function CancelInLoop(q: Queue, id: Id): Queue
    requires id in q.active ==> id.timer in q.heap
  {
    if id in q.active then
      Delete(q.(timers := EraseEntry(q.timers, Entry(q.heap[id.timer].expiration, id.timer)),
                active := q.active - {id}), id.timer)
    else if q.calling then q.(canceling := q.canceling + {id})
    else q
  }

  function IdsOf(heap: map<Addr, Timer>, s: seq<Entry>): set<Id>
    requires forall e :: e in s ==> e.timer in heap
  {
    set e | e in s :: Id(e.timer, heap[e.timer].sequence)
  }

  /** `handleRead` up to the first callback. */
  function Begin(q: Queue): Queue
    requires forall e :: e in q.timers ==> e.timer in q.heap
  {
    var n := Expired(q.timers, q.clock);
    q.(deadline := None, timers := q.timers[n..], batch := q.timers[..n], batchTime := q.clock, ran := 0,
       active := q.active - IdsOf(q.heap, q.timers[..n]),
       calling := true, canceling := {})
  }

  function RunNext(q: Queue): Queue
    requires q.ran < |q.batch| && q.batch[q.ran].timer in q.heap
  {
    q.(ran := q.ran + 1, log := q.log + [q.heap[q.batch[q.ran].timer].sequence])
  }

  /** `reset` for the first timer of the batch: restarted and inserted, or deleted. */
  function Settle(q: Queue): Queue
    requires q.batch != [] && q.batch[0].timer in q.heap
  {
    var p := q.batch[0].timer;
    var t := q.heap[p];
    var q1 := q.(batch := q.batch[1..]);
    if t.repeat && IdOf(q, p) !in q.canceling
    then Insert(q1.(heap := q.heap[p := t.(expiration := q.batchTime + t.delta)]), p)
    else Delete(q1, p)
  }

  /** The end of `reset`. */
  function Rearm(q: Queue): Queue {
    var q1 := q.(calling := false, ran := 0);
    if q.timers != [] && q.timers[0].when > 0 then Arm(q1, q.timers[0].when) else q1
  }

  // ---------- The invariant ----------

  /** The timers in a list of entries. */
  ghost function Ptrs(s: seq<Entry>): set<Addr> {
    set e | e in s :: e.timer
  }

  lemma PtrsAdd(s: seq<Entry>, t: seq<Entry>, e: Entry)
    requires forall x :: x in t <==> x in s || x == e
    ensures Ptrs(t) == Ptrs(s) + {e.timer}
  {
  }

  lemma PtrsDrop(s: seq<Entry>, t: seq<Entry>, p: Addr)
    requires forall x :: x in t <==> x in s && x.timer != p
    ensures Ptrs(t) == Ptrs(s) - {p}
  {
  }

  lemma PtrsConcat(a: seq<Entry>, b: seq<Entry>)
    ensures Ptrs(a + b) == Ptrs(a) + Ptrs(b)
  {
    assert forall e :: e in a + b <==> e in a || e in b;
  }

  /** The two indices hold the same timers, each under its current expiration. */
  ghost predicate IndicesAgree(q: Queue) {
    && Ascending(q.timers)
    && (forall e :: e in q.timers ==>
          e.timer in q.heap && q.heap[e.timer].expiration == e.when && IdOf(q, e.timer) in q.active)
    && (forall id :: id in q.active ==>
          id.timer in q.heap && IdOf(q, id.timer) == id && Entry(q.heap[id.timer].expiration, id.timer) in q.timers)
  }

  ghost predicate Distinct(s: seq<Entry>) {
    forall i, j :: 0 <= i < j < |s| ==> s[i].timer != s[j].timer
  }

  /** Every live timer has exactly one owner: a posted functor, the pending set or the batch. */
  ghost predicate Owned(q: Queue) {
    && q.heap.Keys == q.inFlight + Ptrs(q.timers) + Ptrs(q.batch)
    && q.inFlight !! Ptrs(q.timers)
    && q.inFlight !! Ptrs(q.batch)
    && Ptrs(q.timers) !! Ptrs(q.batch)
    && Distinct(q.batch)
  }

  ghost predicate Live(q: Queue, k: nat) {
    exists p :: p in q.heap && q.heap[p].sequence == k
  }

  /** Every timer ever created for this queue is either live, under one address, or freed, once. */
  ghost predicate FreedOnce(q: Queue) {
    && (forall k :: k in q.own ==> 1 <= k <= q.created)
    && (forall p :: p in q.heap ==> q.heap[p].sequence in q.own && q.heap[p].sequence !in q.freed)
    && (forall p, r :: p in q.heap && r in q.heap && q.heap[p].sequence == q.heap[r].sequence ==> p == r)
    && (forall k :: k in q.freed ==> k in q.own)
    && (forall k :: k in q.own ==> k in q.freed || Live(q, k))
    && (forall i, j :: 0 <= i < j < |q.freed| ==> q.freed[i] != q.freed[j])
  }

  /** The timerfd is armed no later than the earliest timer, up to the floor when it was armed. */
  predicate ArmedInTime(q: Queue) {
    && q.timers != []
    && q.deadline.Some?
    && q.deadline.value <= Max(q.timers[0].when, q.armedAt + FLOOR)
  }

  /** While callbacks run only timers of the past, added by them, need be covered already. */
  ghost predicate Armed(q: Queue) {
    && 0 < q.clock && q.armedAt <= q.clock && q.batchTime <= q.clock
    && (!q.calling ==> q.batch == [] && q.ran == 0)
    && (q.calling ==> 0 < q.batchTime)
    && q.ran <= |q.batch|
    && (q.timers != [] && (!q.calling || q.timers[0].when <= 0) ==> ArmedInTime(q))
  }

  ghost predicate Inv(q: Queue) {
    IndicesAgree(q) && Owned(q) && FreedOnce(q) && Armed(q)
  }

  // ---------- Events ----------

  datatype Event =
    | TickEvent(delay: nat)
    | ElsewhereEvent(count: nat)
    | CreateEvent(addr: Addr, when: int, repeat: bool, delta: nat)
    | AddEvent(addr: Addr)
    | CancelEvent(id: Id)
    | BeginEvent
    | RunEvent
    | EndEvent

  /** What may happen: memory is allocated where nothing lives, and the timerfd is read when readable. */
  predicate Enabled(q: Queue, e: Event) {
    match e
    case TickEvent(_) => true
    case ElsewhereEvent(_) => true
    case CreateEvent(p, _, _, _) => p !in q.heap
    case AddEvent(p) => p in q.inFlight
    case CancelEvent(_) => true
    case BeginEvent => !q.calling && q.deadline.Some? && q.deadline.value <= q.clock
    case RunEvent => q.calling && q.ran < |q.batch|
    case EndEvent => q.calling && q.ran == |q.batch|
  }

  ghost function SettleAll(q: Queue): Queue
    requires Inv(q.(ran := 0)) && q.calling
    decreases |q.batch|
  {
    if q.batch == [] then q
    else
      SettleKeepsInv(q.(ran := 0));
      SettleAll(Settle(q.(ran := 0)))
  }

  /** Whoever holds the address of a timer holds that of a live one. */
  lemma HeldIsLive(q: Queue)
    requires Inv(q)
    ensures forall p :: p in q.inFlight ==> p in q.heap
    ensures forall id :: id in q.active ==> id.timer in q.heap
    ensures forall e :: e in q.timers ==> e.timer in q.heap
    ensures forall e :: e in q.batch ==> e.timer in q.heap
  {
    hide Ascending, FreedOnce, Armed;
    forall e | e in q.batch ensures e.timer in q.heap {
      assert e.timer in Ptrs(q.batch) && e.timer in q.heap.Keys;
    }
    forall p | p in q.inFlight ensures p in q.heap {
      assert p in q.heap.Keys;
    }
  }

  lemma RestartBatch(q: Queue)
    requires Inv(q)
    ensures Inv(q.(ran := 0))
  {
    SameHeapFreed(q, q.(ran := 0));
    SameIndices(q, q.(ran := 0));
    hide IndicesAgree, FreedOnce;
  }

  ghost function Step(q: Queue, e: Event): Queue
    requires Inv(q)
  {
    HeldIsLive(q);
    RestartBatch(q);
    if !Enabled(q, e) then q
    else
      match e
      case TickEvent(d) => q.(clock := q.clock + d)
      case ElsewhereEvent(n) => q.(created := q.created + n)
      case CreateEvent(p, when, repeat, delta) => Create(q, p, when, repeat, delta)
      case AddEvent(p) => AddInLoop(q, p)
      case CancelEvent(id) => CancelInLoop(q, id)
      case BeginEvent => Begin(q)
      case RunEvent => RunNext(q)
      case EndEvent =>
        Rearm(SettleAll(q.(ran := 0)))
  }

  lemma DeleteKeepsFreed(q: Queue, p: Addr)
    requires FreedOnce(q) && p in q.heap
    ensures FreedOnce(Delete(q, p))
  {
    var r := Delete(q, p);
    forall k | k in r.own ensures k in r.freed || Live(r, k) {
      if k !in r.freed {
        var x :| x in q.heap && q.heap[x].sequence == k;
        assert x in r.heap;
      }
    }
  }

  lemma CreateKeepsFreed(q: Queue, p: Addr, when: int, repeat: bool, delta: nat)
    requires FreedOnce(q) && p !in q.heap
    ensures FreedOnce(Create(q, p, when, repeat, delta))
  {
    var r := Create(q, p, when, repeat, delta);
    forall k | k in r.own ensures k in r.freed || Live(r, k) {
      if k == r.created {
        assert r.heap[p].sequence == k;
      } else if k !in q.freed {
        var x :| x in q.heap && q.heap[x].sequence == k;
        assert x in r.heap && r.heap[x].sequence == k;
      }
    }
  }

  lemma CreateKeepsOwned(q: Queue, p: Addr, when: int, repeat: bool, delta: nat)
    requires Owned(q) && p !in q.heap
    ensures Owned(Create(q, p, when, repeat, delta))
  {
    hide Ptrs;
    assert p !in q.heap.Keys;
    assert Create(q, p, when, repeat, delta).heap.Keys == q.heap.Keys + {p};
  }

  lemma CreateKeepsInv(q: Queue, p: Addr, when: int, repeat: bool, delta: nat)
    requires Inv(q) && p !in q.heap
    ensures Inv(Create(q, p, when, repeat, delta))
  {
    hide FreedOnce, Owned;
    CreateKeepsFreed(q, p, when, repeat, delta);
    CreateKeepsOwned(q, p, when, repeat, delta);
  }

  /** Inserting a live timer that is not pending. */
  lemma InsertKeeps(q: Queue, p: Addr)
    requires IndicesAgree(q) && p in q.heap && p !in Ptrs(q.timers)
    ensures IndicesAgree(Insert(q, p))
    ensures Ptrs(Insert(q, p).timers) == Ptrs(q.timers) + {p}
  {
    var e := Entry(q.heap[p].expiration, p);
    InsertEntryOrdered(q.timers, e);
    PtrsAdd(q.timers, Insert(q, p).timers, e);
    hide Ascending;
  }

  lemma AddKeepsOwned(q: Queue, p: Addr)
    requires Owned(q) && IndicesAgree(q) && p in q.inFlight && p in q.heap
    ensures Owned(AddInLoop(q, p))
  {
    InsertKeeps(q, p);
    hide Ptrs, IndicesAgree, InsertEntry;
    assert AddInLoop(q, p).timers == Insert(q, p).timers;
  }

  lemma AddKeepsArmed(q: Queue, p: Addr)
    requires Armed(q) && Ascending(q.timers) && p in q.heap
    ensures Armed(AddInLoop(q, p))
  {
    InsertEntryOrdered(q.timers, Entry(q.heap[p].expiration, p));
    hide Ascending;
  }

  lemma AddKeepsInv(q: Queue, p: Addr)
    requires Inv(q) && p in q.inFlight
    ensures Inv(AddInLoop(q, p))
  {
    assert p in q.heap.Keys && p !in Ptrs(q.timers);
    InsertKeeps(q, p);
    AddKeepsOwned(q, p);
    AddKeepsArmed(q, p);
    AddKeepsFreed(q, p);
    AddKeepsIndices(q, p);
    hide Owned, Armed, FreedOnce, IndicesAgree, AddInLoop;
  }

  lemma AddKeepsIndices(q: Queue, p: Addr)
    requires IndicesAgree(q) && p in q.heap && p !in Ptrs(q.timers)
    ensures IndicesAgree(AddInLoop(q, p))
  {
    InsertKeeps(q, p);
    SameIndices(Insert(q, p), AddInLoop(q, p));
  }

  lemma SameIndices(q: Queue, r: Queue)
    requires IndicesAgree(q) && r.heap == q.heap && r.timers == q.timers && r.active == q.active
    ensures IndicesAgree(r)
  {
    hide Ascending;
  }

  lemma AddKeepsFreed(q: Queue, p: Addr)
    requires FreedOnce(q) && p in q.heap
    ensures FreedOnce(AddInLoop(q, p))
  {
    SameHeapFreed(q, AddInLoop(q, p));
  }

  lemma SameHeapFreed(q: Queue, r: Queue)
    requires FreedOnce(q) && r.heap == q.heap && r.freed == q.freed && r.own == q.own && q.created <= r.created
    ensures FreedOnce(r)
  {
    assert forall k :: Live(r, k) <==> Live(q, k);
  }

  lemma CancelKeepsIndices(q: Queue, id: Id)
    requires IndicesAgree(q) && id in q.active
    ensures IndicesAgree(CancelInLoop(q, id))
    ensures forall e :: e in CancelInLoop(q, id).timers <==> e in q.timers && e.timer != id.timer
    ensures CancelInLoop(q, id).timers != [] ==>
      q.timers != [] && q.timers[0].when <= CancelInLoop(q, id).timers[0].when
  {
    EraseEntryOrdered(q.timers, Entry(q.heap[id.timer].expiration, id.timer));
    hide Ascending;
  }

  lemma CancelKeepsOwned(q: Queue, id: Id)
    requires Owned(q) && IndicesAgree(q) && id in q.active
    ensures Owned(CancelInLoop(q, id))
  {
    CancelKeepsIndices(q, id);
    var r := CancelInLoop(q, id);
    PtrsDrop(q.timers, r.timers, id.timer);
    assert id.timer in Ptrs(q.timers) by {
      assert Entry(q.heap[id.timer].expiration, id.timer) in q.timers;
    }
    hide IndicesAgree, Ptrs, EraseEntry;
    assert r.heap.Keys == q.heap.Keys - {id.timer};
  }

  lemma CancelKeepsArmed(q: Queue, id: Id)
    requires Armed(q) && IndicesAgree(q) && id in q.active
    ensures Armed(CancelInLoop(q, id))
  {
    CancelKeepsIndices(q, id);
    hide Ascending, IndicesAgree, EraseEntry;
  }

  lemma CancelKeepsInv(q: Queue, id: Id)
    requires Inv(q)
    ensures Inv(CancelInLoop(q, id))
  {
    if id in q.active {
      CancelKeepsIndices(q, id);
      CancelKeepsOwned(q, id);
      DeleteKeepsFreed(q, id.timer);
      SameHeapFreed(Delete(q, id.timer), CancelInLoop(q, id));
      CancelKeepsArmed(q, id);
      hide IndicesAgree, Owned, FreedOnce, Armed, CancelInLoop;
    } else {
      CancelLaterKeepsInv(q, id);
    }
  }

  lemma CancelLaterKeepsInv(q: Queue, id: Id)
    requires Inv(q) && id !in q.active
    ensures Inv(CancelInLoop(q, id))
  {
    SameHeapFreed(q, CancelInLoop(q, id));
    hide FreedOnce, Ptrs, Ascending;
  }

  lemma SameTimerSameEntry(q: Queue, i: nat, j: nat)
    requires IndicesAgree(q) && i < j < |q.timers|
    ensures q.timers[i].timer != q.timers[j].timer
  {
    assert Before(q.timers[i], q.timers[j]);
    assert q.timers[i] in q.timers && q.timers[j] in q.timers;
  }

  lemma TimersDistinct(q: Queue)
    requires IndicesAgree(q)
    ensures Distinct(q.timers)
  {
    forall i, j | 0 <= i < j < |q.timers| ensures q.timers[i].timer != q.timers[j].timer {
      SameTimerSameEntry(q, i, j);
    }
  }

  /** The two halves of a list of distinct timers share none. */
  lemma DistinctHalves(s: seq<Entry>, n: nat)
    requires Distinct(s) && n <= |s|
    ensures Distinct(s[..n]) && Ptrs(s[..n]) !! Ptrs(s[n..])
    ensures Ptrs(s) == Ptrs(s[..n]) + Ptrs(s[n..])
  {
    PtrsConcat(s[..n], s[n..]);
    assert s == s[..n] + s[n..];
    forall e, f | e in s[..n] && f in s[n..] ensures e.timer != f.timer {
      var i :| 0 <= i < n && s[..n][i] == e;
      var j :| 0 <= j < |s[n..]| && s[n..][j] == f;
      assert s[i] == e && s[n + j] == f;
    }
  }

  lemma BeginActive(q: Queue)
    requires IndicesAgree(q)
    ensures forall id :: id in Begin(q).active <==> id in q.active && id.timer !in Ptrs(Begin(q).batch)
  {
    hide Ascending, Expired;
    var r := Begin(q);
    forall id | id in q.active ensures id in r.active <==> id.timer !in Ptrs(r.batch) {
      assert IdOf(q, id.timer) == id;
    }
  }

  lemma Halves(s: seq<Entry>, n: nat)
    requires Ascending(s) && n <= |s|
    ensures Ascending(s[n..])
    ensures forall e :: e in s <==> e in s[..n] || e in s[n..]
  {
    assert s == s[..n] + s[n..];
  }

  lemma BeginEntries(q: Queue)
    requires IndicesAgree(q)
    ensures var r := Begin(q);
      && Ascending(r.timers)
      && (forall e :: e in q.timers <==> e in r.batch || e in r.timers)
      && Ptrs(r.batch) !! Ptrs(r.timers)
  {
    TimersDistinct(q);
    DistinctHalves(q.timers, Expired(q.timers, q.clock));
    Halves(q.timers, Expired(q.timers, q.clock));
    hide Ptrs, Distinct, Expired, IdsOf, Ascending;
  }

  lemma BeginKeepsIndices(q: Queue)
    requires IndicesAgree(q)
    ensures IndicesAgree(Begin(q))
  {
    BeginActive(q);
    BeginEntries(q);
    var r := Begin(q);
    assert r.heap == q.heap;
    hide Ascending, Expired, Begin;
    forall id | id in r.active ensures Entry(r.heap[id.timer].expiration, id.timer) in r.timers {
      assert Entry(q.heap[id.timer].expiration, id.timer) in q.timers;
    }
    forall e | e in r.timers ensures IdOf(r, e.timer) in r.active {
      assert e.timer in Ptrs(r.timers);
    }
  }

  lemma BeginKeepsOwned(q: Queue)
    requires IndicesAgree(q) && Owned(q) && q.batch == []
    ensures Owned(Begin(q))
  {
    TimersDistinct(q);
    DistinctHalves(q.timers, Expired(q.timers, q.clock));
    assert Ptrs([]) == {};
    hide Ptrs, Distinct, Expired, Ascending;
  }

  lemma BeginKeepsInv(q: Queue)
    requires Inv(q) && !q.calling
    ensures Inv(Begin(q))
  {
    BeginKeepsIndices(q);
    BeginKeepsOwned(q);
    hide IndicesAgree, Owned;
    SameHeapFreed(q, Begin(q));
    hide FreedOnce;
  }

  predicate Kept(q: Queue)
    requires q.batch != [] && q.batch[0].timer in q.heap
  {
    q.heap[q.batch[0].timer].repeat && IdOf(q, q.batch[0].timer) !in q.canceling
  }

  lemma SettleKeepsIndices(q: Queue)
    requires IndicesAgree(q) && q.batch != [] && q.batch[0].timer in q.heap
    requires q.batch[0].timer !in Ptrs(q.timers)
    ensures IndicesAgree(Settle(q))
    ensures Ptrs(Settle(q).timers) == Ptrs(q.timers) + if Kept(q) then {q.batch[0].timer} else {}
  {
    var p := q.batch[0].timer;
    SettleIs(q);
    hide IndicesAgree, Ptrs, Settle, Insert;
    if Kept(q) {
      RestartKeepsIndices(q, p, q.batchTime + q.heap[p].delta);
      InsertKeeps(Restarted(q, p, q.batchTime + q.heap[p].delta), p);
    } else {
      DeleteKeepsIndices(q, p);
    }
  }

  lemma SettleIs(q: Queue)
    requires q.batch != [] && q.batch[0].timer in q.heap
    ensures var p := q.batch[0].timer;
      Settle(q) == if Kept(q) then Insert(Restarted(q, p, q.batchTime + q.heap[p].delta), p)
                   else Delete(q.(batch := q.batch[1..]), p)
  {
  }

  /** The first timer of the batch, taken off it, with a new expiration. */
  function Restarted(q: Queue, p: Addr, when: int): Queue
    requires p in q.heap && q.batch != []
  {
    q.(batch := q.batch[1..], heap := q.heap[p := q.heap[p].(expiration := when)])
  }

  lemma RestartKeepsIndices(q: Queue, p: Addr, when: int)
    requires IndicesAgree(q) && p in q.heap && p !in Ptrs(q.timers) && q.batch != []
    ensures IndicesAgree(Restarted(q, p, when))
  {
    assert forall e :: e in q.timers ==> e.timer != p;
    assert forall id :: id in q.active ==> id.timer != p;
    hide Ptrs, Ascending;
  }

  lemma DeleteKeepsIndices(q: Queue, p: Addr)
    requires IndicesAgree(q) && p in q.heap && p !in Ptrs(q.timers) && q.batch != []
    ensures IndicesAgree(Delete(q.(batch := q.batch[1..]), p))
  {
    assert forall e :: e in q.timers ==> e.timer != p;
    assert forall id :: id in q.active ==> id.timer != p;
    hide Ptrs, Ascending;
  }

  lemma SettleKeepsOwned(q: Queue)
    requires IndicesAgree(q) && Owned(q) && q.batch != [] && q.batch[0].timer in q.heap
    ensures Owned(Settle(q))
  {
    var p, r := q.batch[0].timer, Settle(q);
    DistinctHalves(q.batch, 1);
    assert Ptrs(q.batch[..1]) == {p} by {
      assert q.batch[..1] == [q.batch[0]];
    }
    DistinctTail(q.batch);
    SettleKeepsIndices(q);
    hide IndicesAgree, InsertEntry, Ptrs, Distinct;
    assert r.batch == q.batch[1..];
    assert r.heap.Keys == if Kept(q) then q.heap.Keys else q.heap.Keys - {p};
  }

  lemma DistinctTail(s: seq<Entry>)
    requires Distinct(s) && s != []
    ensures Distinct(s[1..])
  {
  }

  lemma SettleKeepsFreed(q: Queue)
    requires FreedOnce(q) && q.batch != [] && q.batch[0].timer in q.heap
    ensures FreedOnce(Settle(q))
  {
    var p := q.batch[0].timer;
    if Kept(q) {
      var r := Settle(q);
      assert r.heap.Keys == q.heap.Keys;
      assert forall x :: x in q.heap ==> r.heap[x].sequence == q.heap[x].sequence;
      assert forall k :: Live(r, k) <==> Live(q, k);
    } else {
      DeleteKeepsFreed(q.(batch := q.batch[1..]), p) by {
        assert forall k :: Live(q.(batch := q.batch[1..]), k) <==> Live(q, k);
      }
    }
  }

  lemma SettleKeepsArmed(q: Queue)
    requires Armed(q) && Ascending(q.timers) && q.calling && q.ran == 0
    requires q.batch != [] && q.batch[0].timer in q.heap
    ensures Armed(Settle(q))
  {
    var p := q.batch[0].timer;
    InsertEntryOrdered(q.timers, Entry(q.batchTime + q.heap[p].delta, p));
    hide Ascending;
  }

  lemma SettleKeepsInv(q: Queue)
    requires Inv(q) && q.calling && q.ran == 0 && q.batch != []
    ensures q.batch[0].timer in q.heap
    ensures Inv(Settle(q)) && Settle(q).calling && Settle(q).ran == 0
  {
    assert q.batch[0] in q.batch && q.batch[0].timer in Ptrs(q.batch) && q.batch[0].timer in q.heap.Keys;
    SettleKeepsIndices(q);
    SettleKeepsOwned(q);
    SettleKeepsFreed(q);
    SettleKeepsArmed(q);
    hide IndicesAgree, Owned, FreedOnce, Armed;
  }

  lemma {:induction false} SettleAllKeepsInv(q: Queue)
    requires Inv(q) && q.calling && q.ran == 0
    ensures Inv(SettleAll(q)) && SettleAll(q).calling && SettleAll(q).batch == [] && SettleAll(q).ran == 0
    decreases |q.batch|
  {
    assert q.(ran := 0) == q;
    if q.batch != [] {
      SettleKeepsInv(q);
      hide Inv;
      SettleAllKeepsInv(Settle(q));
    }
  }
}
