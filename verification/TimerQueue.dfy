/** The timer queue of an event loop (muduo/net/TimerQueue.cc, muduo/net/Timer.h, muduo/net/Timer.cc).

    A state holds the Timer objects that have been created and not deleted, the two sets that index the
    same timers, the cancellation set, the batch being run and the timerfd. Addresses come from an
    allocator that may hand out a deleted timer's address again. Callbacks act between steps: while a
    batch is being run, any number of additions and cancellations may come before the next callback. */
module Timers {

  import opened Common

  const UINTPTR_MAX: nat := 0xFFFF_FFFF_FFFF_FFFF

  type Addr = nat

  /** delta is the repeat interval in microseconds, as addTime truncates it. */
  datatype Timer = Timer(expiration: int, delta: nat, repeat: bool, sequence: nat)

  datatype Entry = Entry(when: int, timer: Addr)

  /** The element of activeTimers_ and cancelingTimers_, and the content of a TimerId. */
  datatype TimerId = TimerId(timer: Addr, sequence: nat)

  datatype TimerFd = Disarmed | Armed(deadline: int, armedAt: int) | Readable

  datatype Queue = Queue(
    heap: map<Addr, Timer>,
    timers: seq<Entry>,        // timers_, in set order
    active: set<TimerId>,      // activeTimers_
    canceling: set<TimerId>,   // cancelingTimers_
    calling: bool,             // callingExpiredTimers_
    done: seq<Entry>,          // expired entries whose callback has run
    todo: seq<Entry>,          // expired entries still to run
    now: int,                  // the time the batch was collected
    queued: set<Addr>,         // created, addTimerInLoop not yet run
    created: nat,              // s_numCreated_
    fd: TimerFd,
    clock: int,
    calls: seq<nat>,           // sequence numbers of all callbacks run
    freed: seq<nat>)           // sequence numbers of all timers deleted

  datatype Step =
    | Create(addr: Addr, when: int, delta: nat, repeat: bool)
    | AddInLoop(addr: Addr)
    | CancelInLoop(id: TimerId)
    | Tick(time: int)
    | CollectExpired
    | RunNext
    | Reset

  // ----- std::set<Entry> as a strictly sorted sequence -----

  predicate Less(e: Entry, f: Entry) {
    e.when < f.when || (e.when == f.when && e.timer < f.timer)
  }

  predicate Sorted(s: seq<Entry>) {
    forall i, j :: 0 <= i < j < |s| ==> Less(s[i], s[j])
  }

  function InsertEntry(s: seq<Entry>, e: Entry): seq<Entry> {
    if s == [] || Less(e, s[0]) then [e] + s else [s[0]] + InsertEntry(s[1..], e)
  }

  function EraseEntry(s: seq<Entry>, e: Entry): seq<Entry> {
    if s == [] then [] else if s[0] == e then s[1..] else [s[0]] + EraseEntry(s[1..], e)
  }

  /** How many entries come before the given one: the position of lower_bound. */
  function LowerBound(s: seq<Entry>, e: Entry): (n: nat)
    ensures n <= |s|
  {
    if s == [] || !Less(s[0], e) then 0 else 1 + LowerBound(s[1..], e)
  }

  lemma {:induction false} InsertEntryMembers(s: seq<Entry>, e: Entry)
    ensures forall x :: x in InsertEntry(s, e) <==> x in s || x == e
    ensures |InsertEntry(s, e)| == |s| + 1
  {
    if s != [] && !Less(e, s[0]) {
      InsertEntryMembers(s[1..], e);
      assert s == [s[0]] + s[1..];
    }
  }

  predicate AllAfter(e: Entry, s: seq<Entry>) {
    forall x :: x in s ==> Less(e, x)
  }

  lemma SortedCons(e: Entry, s: seq<Entry>)
    ensures Sorted([e] + s) <==> Sorted(s) && AllAfter(e, s)
  {
    var t := [e] + s;
    if Sorted(t) {
      forall i, j | 0 <= i < j < |s|
        ensures Less(s[i], s[j])
      {
        assert s[i] == t[i + 1] && s[j] == t[j + 1];
      }
      forall x | x in s
        ensures Less(e, x)
      {
        var i :| 0 <= i < |s| && s[i] == x;
        assert e == t[0] && x == t[i + 1];
      }
    }
    if Sorted(s) && AllAfter(e, s) {
      forall i, j | 0 <= i < j < |t|
        ensures Less(t[i], t[j])
      {
        assert t[j] == s[j - 1];
        if i > 0 { assert t[i] == s[i - 1]; }
      }
    }
  }

  lemma {:induction false} InsertEntrySorted(s: seq<Entry>, e: Entry)
    requires Sorted(s) && e !in s
    ensures Sorted(InsertEntry(s, e))
  {
    hide Sorted;
    if s == [] {
      SortedCons(e, s);
    } else {
      assert s == [s[0]] + s[1..];
      SortedCons(s[0], s[1..]);
      if Less(e, s[0]) {
        SortedCons(e, s);
      } else {
        InsertEntrySorted(s[1..], e);
        InsertEntryMembers(s[1..], e);
        SortedCons(s[0], InsertEntry(s[1..], e));
      }
    }
  }

  lemma {:induction false} EraseEntryMembers(s: seq<Entry>, e: Entry)
    requires Sorted(s)
    ensures Sorted(EraseEntry(s, e))
    ensures forall x :: x in EraseEntry(s, e) <==> x in s && x != e
    ensures e in s ==> |EraseEntry(s, e)| == |s| - 1
  {
    hide Sorted;
    if s == [] {
    } else {
      assert s == [s[0]] + s[1..];
      SortedCons(s[0], s[1..]);
      if s[0] != e {
        EraseEntryMembers(s[1..], e);
        SortedCons(s[0], EraseEntry(s[1..], e));
      }
    }
  }

  /** The sentry of getExpired splits the set by time alone. */
  lemma {:induction false} LowerBoundSplits(s: seq<Entry>, now: int)
    requires Sorted(s) && forall e :: e in s ==> e.timer < UINTPTR_MAX
    ensures var n := LowerBound(s, Entry(now, UINTPTR_MAX));
            Sorted(s[..n]) && Sorted(s[n..]) &&
            (forall e :: e in s[..n] <==> e in s && e.when <= now) &&
            (forall e :: e in s[n..] <==> e in s && e.when > now)
  {
    if s != [] {
      hide Sorted;
      var n := LowerBound(s, Entry(now, UINTPTR_MAX));
      assert s == [s[0]] + s[1..];
      SortedCons(s[0], s[1..]);
      LowerBoundSplits(s[1..], now);
      if n == 0 {
        assert s[..n] == [] && s[n..] == s;
        assert Sorted([]) by { SortedEmpty(); }
      } else {
        assert s[..n] == [s[0]] + s[1..][..n - 1] && s[n..] == s[1..][n - 1..];
        SortedCons(s[0], s[1..][..n - 1]);
      }
    }
  }

  lemma SortedEmpty()
    ensures Sorted([])
  {
  }

  // ----- The steps -----

  function Max(a: int, b: int): int {
    if a >= b then a else b
  }

  function Init(clock: int): Queue {
    Queue(map[], [], {}, {}, false, [], [], clock, {}, 0, Disarmed, clock, [], [])
  }

  /** resetTimerfd: at least 100 microseconds from now (howMuchTimeFromNow). */
  function Arm(q: Queue, when: int): Queue {
    q.(fd := Armed(q.clock + Max(when - q.clock, 100), q.clock))
  }

  function EarliestChanged(q: Queue, when: int): bool {
    q.timers == [] || when < q.timers[0].when
  }

  function Insert(q: Queue, addr: Addr): Queue
    requires addr in q.heap
  {
    var t := q.heap[addr];
    q.(timers := InsertEntry(q.timers, Entry(t.expiration, addr)), active := q.active + {TimerId(addr, t.sequence)})
  }

  function Delete(q: Queue, addr: Addr): Queue
    requires addr in q.heap
  {
    q.(heap := q.heap - {addr}, freed := q.freed + [q.heap[addr].sequence])
  }

  /** Timer::restart, for a repeating timer. */
  function Restart(q: Queue, addr: Addr): Queue
    requires addr in q.heap
  {
    q.(heap := q.heap[addr := q.heap[addr].(expiration := q.now + q.heap[addr].delta)])
  }

  function Ids(heap: map<Addr, Timer>, entries: seq<Entry>): set<TimerId> {
    set e | e in entries && e.timer in heap :: TimerId(e.timer, heap[e.timer].sequence)
  }

  /** One iteration of the loop in reset. */
  function ResetOne(q: Queue): Queue
    requires q.done != [] && q.done[0].timer in q.heap
  {
    var addr := q.done[0].timer;
    var t := q.heap[addr];
    var q1 := q.(done := q.done[1..]);
    if t.repeat && TimerId(addr, t.sequence) !in q.canceling then Insert(Restart(q1, addr), addr) else Delete(q1, addr)
  }

  function Rearm(q: Queue): Queue {
    if q.timers != [] && q.timers[0].when > 0 then Arm(q, q.timers[0].when) else q
  }

  function CreateTimer(q: Queue, addr: Addr, when: int, delta: nat, repeat: bool): Queue {
    q.(heap := q.heap[addr := Timer(when, delta, repeat, q.created + 1)], created := q.created + 1,
      queued := q.queued + {addr})
  }

  function AddTimer(q: Queue, addr: Addr): Queue
    requires addr in q.heap
  {
    var q1 := Insert(q.(queued := q.queued - {addr}), addr);
    var when := q.heap[addr].expiration;
    if EarliestChanged(q, when) then Arm(q1, when) else q1
  }

  function Cancel(q: Queue, id: TimerId): Queue
    requires id in q.active ==> id.timer in q.heap
  {
    if id in q.active then
      var q1 := q.(timers := EraseEntry(q.timers, Entry(q.heap[id.timer].expiration, id.timer)),
        active := q.active - {id});
      Delete(q1, id.timer)
    else if q.calling then q.(canceling := q.canceling + {id})
    else q
  }

  /** The clock reaches t; a timerfd whose deadline has come becomes readable. */
  function Advance(q: Queue, t: int): Queue {
    var clock := Max(q.clock, t);
    q.(clock := clock, fd := if q.fd.Armed? && q.fd.deadline <= clock then Readable else q.fd)
  }

  /** handleRead up to the first callback. The read succeeds only if the timerfd is readable. */
  function Collect(q: Queue): Queue
  {
    var n := LowerBound(q.timers, Entry(q.clock, UINTPTR_MAX));
    q.(timers := q.timers[n..], active := q.active - Ids(q.heap, q.timers[..n]), canceling := {}, calling := true,
       done := [], todo := q.timers[..n], now := q.clock, fd := if q.fd.Readable? then Disarmed else q.fd)
  }

  function CallNext(q: Queue): Queue
    requires q.todo != [] && q.todo[0].timer in q.heap
  {
    q.(done := q.done + [q.todo[0]], todo := q.todo[1..], calls := q.calls + [q.heap[q.todo[0].timer].sequence])
  }

  // ----- The invariant -----

  function Batch(q: Queue): seq<Entry> {
    q.done + q.todo
  }

  type Heap = map<Addr, Timer>

  /** An entry holds its live timer's current expiration. */
  predicate Current(heap: Heap, e: Entry) {
    e.timer in heap && heap[e.timer].expiration == e.when
  }

  function IdOf(heap: Heap, a: Addr): TimerId
    requires a in heap
  {
    TimerId(a, heap[a].sequence)
  }

  function EntryOf(heap: Heap, a: Addr): Entry
    requires a in heap
  {
    Entry(heap[a].expiration, a)
  }

  /** The two sets index the same live timers. */
  predicate Indexed(heap: Heap, timers: seq<Entry>, active: set<TimerId>) {
    && Sorted(timers)
    && (forall e :: e in timers ==> Current(heap, e) && IdOf(heap, e.timer) in active)
    && (forall id :: id in active ==>
       id.timer in heap && IdOf(heap, id.timer) == id && EntryOf(heap, id.timer) in timers)
  }

  /** The batch holds live timers that are in neither set. */
  predicate Batched(heap: Heap, timers: seq<Entry>, queued: set<Addr>, batch: seq<Entry>) {
    && NoDup(batch)
    && (forall e :: e in batch ==> Current(heap, e) && e !in timers && e.timer !in queued)
  }

  /** A live timer is waiting to be added, in the sets, or in the batch. */
  predicate Placed(heap: Heap, timers: seq<Entry>, queued: set<Addr>, batch: seq<Entry>) {
    && (forall a :: a in queued ==> a in heap && EntryOf(heap, a) !in timers)
    && (forall a :: a in heap ==> 0 < a < UINTPTR_MAX)
    && (forall a :: a in heap ==> a in queued || EntryOf(heap, a) in timers || EntryOf(heap, a) in batch)
  }

  predicate Live(heap: Heap, sequence: nat) {
    exists a :: a in heap && heap[a].sequence == sequence
  }

  /** Sequence numbers identify timers for ever: every one created is live or has been deleted, once. */
  predicate Sequenced(heap: Heap, created: nat, freed: seq<nat>) {
    && (forall a :: a in heap ==> 1 <= heap[a].sequence <= created && heap[a].sequence !in freed)
    && (forall a, b :: a in heap && b in heap && a != b ==> heap[a].sequence != heap[b].sequence)
    && NoDup(freed)
    && (forall s :: s in freed ==> 1 <= s <= created)
    && (forall s :: 1 <= s <= created ==> s in freed || Live(heap, s))
  }

  /** Everything in the batch is due. */
  predicate Due(calling: bool, batch: seq<Entry>, now: int, clock: int) {
    && (!calling ==> batch == [])
    && (forall e :: e in batch ==> e.when <= now)
    && 0 < now <= clock
  }

  /** The timerfd will be readable no later than the given time, or 100 microseconds after it was set. */
  predicate WakesBy(fd: TimerFd, clock: int, when: int) {
    fd.Readable? || (fd.Armed? && fd.armedAt <= clock && fd.deadline <= Max(when, fd.armedAt + 100))
  }

  /** Outside a batch the earliest timer is watched. Inside one, that is left to reset, which skips
      times that are not positive; those are watched from the moment they are added. */
  predicate Watched(timers: seq<Entry>, calling: bool, fd: TimerFd, clock: int) {
    timers != [] && (!calling || timers[0].when <= 0) ==> WakesBy(fd, clock, timers[0].when)
  }

  predicate Inv(q: Queue) {
    && Indexed(q.heap, q.timers, q.active)
    && Batched(q.heap, q.timers, q.queued, Batch(q))
    && Placed(q.heap, q.timers, q.queued, Batch(q))
    && Sequenced(q.heap, q.created, q.freed)
    && Due(q.calling, Batch(q), q.now, q.clock)
    && Watched(q.timers, q.calling, q.fd, q.clock)
    && Issued(q.calls, q.created)
  }

  predicate Issued(calls: seq<nat>, created: nat) {
    forall s :: s in calls ==> 1 <= s <= created
  }

  lemma InitInv(clock: int)
    requires clock > 0
    ensures Inv(Init(clock))
  {
  }

  // ----- Every step keeps it -----

  lemma CreateIndexed(heap: Heap, timers: seq<Entry>, active: set<TimerId>, addr: Addr, t: Timer)
    requires Indexed(heap, timers, active) && addr !in heap
    ensures Indexed(heap[addr := t], timers, active)
  {
    hide Sorted;
  }

  lemma CreatePlaced(heap: Heap, timers: seq<Entry>, active: set<TimerId>, queued: set<Addr>, batch: seq<Entry>,
                     addr: Addr, t: Timer)
    requires Batched(heap, timers, queued, batch) && Placed(heap, timers, queued, batch) && addr !in heap &&
             0 < addr < UINTPTR_MAX
    requires Indexed(heap, timers, active)
    ensures Batched(heap[addr := t], timers, queued + {addr}, batch) &&
            Placed(heap[addr := t], timers, queued + {addr}, batch)
  {
    hide NoDup, Sorted;
  }

  lemma CreateTimerInv(q: Queue, addr: Addr, when: int, delta: nat, repeat: bool)
    requires Inv(q) && 0 < addr < UINTPTR_MAX && addr !in q.heap
    ensures Inv(CreateTimer(q, addr, when, delta, repeat))
  {
    hide Indexed, Batched, Placed, Sequenced, Due, Watched, Issued;
    var t := Timer(when, delta, repeat, q.created + 1);
    CreateIndexed(q.heap, q.timers, q.active, addr, t);
    CreatePlaced(q.heap, q.timers, q.active, q.queued, Batch(q), addr, t);
    CreateTimerSequenced(q.heap, q.created, q.freed, addr, t);
    IssuedGrows(q.calls, q.created);
  }

  lemma IssuedGrows(calls: seq<nat>, created: nat)
    requires Issued(calls, created)
    ensures Issued(calls, created + 1)
  {
  }

  lemma CreateTimerSequenced(heap: Heap, created: nat, freed: seq<nat>, addr: Addr, t: Timer)
    requires Sequenced(heap, created, freed) && addr !in heap && t.sequence == created + 1
    ensures Sequenced(heap[addr := t], created + 1, freed)
  {
    hide NoDup;
    var heap' := heap[addr := t];
    forall s | 1 <= s <= created + 1
      ensures s in freed || Live(heap', s)
    {
      if s == created + 1 {
        assert heap'[addr].sequence == s;
      } else if s !in freed {
        var a :| a in heap && heap[a].sequence == s;
        assert heap'[a].sequence == s;
      }
    }
  }

  /** A live timer outside both sets goes into them. */
  lemma InsertIndexed(heap: Heap, timers: seq<Entry>, active: set<TimerId>, addr: Addr)
    requires Indexed(heap, timers, active) && addr in heap && EntryOf(heap, addr) !in timers
    ensures Indexed(heap, InsertEntry(timers, EntryOf(heap, addr)), active + {IdOf(heap, addr)})
    ensures forall x :: x in InsertEntry(timers, EntryOf(heap, addr)) <==> x in timers || x == EntryOf(heap, addr)
  {
    hide Sorted, InsertEntry;
    var e := EntryOf(heap, addr);
    InsertEntryMembers(timers, e);
    InsertEntrySorted(timers, e);
  }

  lemma InsertBatched(heap: Heap, timers: seq<Entry>, queued: set<Addr>, batch: seq<Entry>, e: Entry,
                      timers': seq<Entry>)
    requires Batched(heap, timers, queued, batch) && e !in batch
    requires forall x :: x in timers' <==> x in timers || x == e
    ensures Batched(heap, timers', queued, batch)
  {
    hide NoDup;
  }

  lemma AddPlaced(heap: Heap, timers: seq<Entry>, queued: set<Addr>, batch: seq<Entry>, addr: Addr, timers': seq<Entry>)
    requires Placed(heap, timers, queued, batch) && Batched(heap, timers, queued, batch) && addr in queued
    requires forall x :: x in timers' <==> x in timers || x == EntryOf(heap, addr)
    ensures EntryOf(heap, addr) !in batch
    ensures Placed(heap, timers', queued - {addr}, batch) && Batched(heap, timers, queued - {addr}, batch)
  {
    hide NoDup;
  }

  /** After the earliest entry changes the timerfd is set; otherwise it was right already. */
  lemma AddWatched(timers: seq<Entry>, calling: bool, fd: TimerFd, clock: int, e: Entry)
    requires Watched(timers, calling, fd, clock)
    ensures var fd' := if timers == [] || e.when < timers[0].when then Armed(clock + Max(e.when - clock, 100), clock)
                       else fd;
            Watched(InsertEntry(timers, e), calling, fd', clock)
  {
  }

  lemma QueuedIsLive(q: Queue, addr: Addr)
    requires Inv(q) && addr in q.queued
    ensures addr in q.heap && EntryOf(q.heap, addr) !in q.timers
  {
    hide Sequenced, Indexed, Batched;
  }

  lemma AddTimerShape(q: Queue, addr: Addr)
    requires addr in q.heap
    ensures var e := EntryOf(q.heap, addr);
            AddTimer(q, addr) ==
              q.(queued := q.queued - {addr}, timers := InsertEntry(q.timers, e),
                 active := q.active + {IdOf(q.heap, addr)},
                 fd := if q.timers == [] || e.when < q.timers[0].when
                       then Armed(q.clock + Max(e.when - q.clock, 100), q.clock) else q.fd)
  {
    hide InsertEntry, Max;
  }

  lemma AddTimerInv(q: Queue, addr: Addr)
    requires Inv(q) && addr in q.queued
    ensures Inv(AddTimer(q, addr))
  {
    QueuedIsLive(q, addr);
    AddTimerShape(q, addr);
    hide Indexed, Batched, Placed, Sequenced, Due, Watched, InsertEntry, Max, AddTimer, Issued;
    var e := EntryOf(q.heap, addr);
    var timers' := InsertEntry(q.timers, e);
    var q' := AddTimer(q, addr);
    assert Indexed(q'.heap, q'.timers, q'.active) by {
      InsertIndexed(q.heap, q.timers, q.active, addr);
    }
    assert Placed(q'.heap, q'.timers, q'.queued, Batch(q')) && Batched(q'.heap, q'.timers, q'.queued, Batch(q')) by {
      InsertEntryMembers(q.timers, e);
      AddPlaced(q.heap, q.timers, q.queued, Batch(q), addr, timers');
      InsertBatched(q.heap, q.timers, q.queued - {addr}, Batch(q), e, timers');
    }
    assert Watched(q'.timers, q'.calling, q'.fd, q'.clock) by {
      AddWatched(q.timers, q.calling, q.fd, q.clock, e);
    }
  }

  lemma DeleteSequenced(heap: Heap, created: nat, freed: seq<nat>, addr: Addr)
    requires Sequenced(heap, created, freed) && addr in heap
    ensures Sequenced(heap - {addr}, created, freed + [heap[addr].sequence])
  {
    var heap', freed' := heap - {addr}, freed + [heap[addr].sequence];
    forall s | 1 <= s <= created
      ensures s in freed' || Live(heap', s)
    {
      if s !in freed {
        var a :| a in heap && heap[a].sequence == s;
        if a == addr { assert freed'[|freed|] == s; } else { assert heap'[a].sequence == s; }
      }
    }
    assert NoDup(freed');
  }

  /** Erasing a timer from both sets and deleting it. */
  lemma EraseIndexed(heap: Heap, timers: seq<Entry>, active: set<TimerId>, id: TimerId)
    requires Indexed(heap, timers, active) && id in active
    ensures var e := EntryOf(heap, id.timer);
            Indexed(heap - {id.timer}, EraseEntry(timers, e), active - {id}) &&
            forall x :: x in EraseEntry(timers, e) <==> x in timers && x != e
  {
    hide Sorted, EraseEntry;
    EraseEntryMembers(timers, EntryOf(heap, id.timer));
  }

  lemma EraseHead(s: seq<Entry>, e: Entry)
    requires Sorted(s)
    ensures EraseEntry(s, e) != [] ==> s != [] && s[0].when <= EraseEntry(s, e)[0].when
  {
  }

  lemma ErasePlaced(heap: Heap, timers: seq<Entry>, queued: set<Addr>, batch: seq<Entry>, addr: Addr,
                    timers': seq<Entry>)
    requires Batched(heap, timers, queued, batch) && Placed(heap, timers, queued, batch)
    requires addr in heap && EntryOf(heap, addr) in timers
    requires forall x :: x in timers' <==> x in timers && x != EntryOf(heap, addr)
    ensures Batched(heap - {addr}, timers', queued, batch) && Placed(heap - {addr}, timers', queued, batch)
  {
    hide NoDup;
  }

  lemma CancelInv(q: Queue, id: TimerId)
    requires Inv(q)
    ensures Inv(Cancel(q, id))
  {
    hide Indexed, Batched, Placed, Sequenced, Due, EraseEntry, Sorted;
    if id in q.active {
      CancelActiveInv(q, id);
    }
  }

  lemma CancelActiveInv(q: Queue, id: TimerId)
    requires Inv(q) && id in q.active
    ensures Inv(Cancel(q, id))
  {
    hide Indexed, Batched, Placed, Sequenced, Due, EraseEntry, Sorted, Watched;
    ActiveIsLive(q.heap, q.timers, q.active, id);
    var e := EntryOf(q.heap, id.timer);
    var timers' := EraseEntry(q.timers, e);
    EraseIndexed(q.heap, q.timers, q.active, id);
    ErasePlaced(q.heap, q.timers, q.queued, Batch(q), id.timer, timers');
    DeleteSequenced(q.heap, q.created, q.freed, id.timer);
    EraseWatched(q.timers, q.calling, q.fd, q.clock, e);
    assert Cancel(q, id) == q.(timers := timers', active := q.active - {id}, heap := q.heap - {id.timer},
           freed := q.freed + [q.heap[id.timer].sequence]);
  }

  lemma EraseWatched(timers: seq<Entry>, calling: bool, fd: TimerFd, clock: int, e: Entry)
    requires Sorted(timers) && Watched(timers, calling, fd, clock)
    ensures Watched(EraseEntry(timers, e), calling, fd, clock)
  {
    EraseHead(timers, e);
  }

  lemma ActiveIsLive(heap: Heap, timers: seq<Entry>, active: set<TimerId>, id: TimerId)
    requires Indexed(heap, timers, active) && id in active
    ensures id.timer in heap && IdOf(heap, id.timer) == id && EntryOf(heap, id.timer) in timers && Sorted(timers)
  {
  }

  lemma AdvanceInv(q: Queue, t: int)
    requires Inv(q)
    ensures Inv(Advance(q, t))
  {
  }

  lemma LiveSequence(heap: Heap, created: nat, freed: seq<nat>, a: Addr)
    requires Sequenced(heap, created, freed) && a in heap
    ensures 1 <= heap[a].sequence <= created && heap[a].sequence !in freed
    ensures forall b :: b in heap && heap[b].sequence == heap[a].sequence ==> b == a
  {
    hide NoDup, Live;
  }

  lemma CallNextInv(q: Queue)
    requires Inv(q) && q.todo != []
    ensures q.todo[0].timer in q.heap && Inv(CallNext(q))
    ensures Batch(CallNext(q)) == Batch(q)
  {
    hide Indexed, Placed, Sequenced, NoDup;
    assert q.todo[0] in Batch(q);
    LiveSequence(q.heap, q.created, q.freed, q.todo[0].timer);
    assert q.todo == [q.todo[0]] + q.todo[1..];
    assert Batch(CallNext(q)) == Batch(q);
  }

  lemma CollectIndexed(heap: Heap, timers: seq<Entry>, active: set<TimerId>, now: int)
    requires Indexed(heap, timers, active) && forall e :: e in timers ==> e.timer < UINTPTR_MAX
    ensures var n := LowerBound(timers, Entry(now, UINTPTR_MAX));
            Indexed(heap, timers[n..], active - Ids(heap, timers[..n]))
  {
    hide LowerBound, Sorted;
    LowerBoundSplits(timers, now);
  }

  /** Moving entries from the sets to an empty batch. */
  lemma CollectPlaced(heap: Heap, timers: seq<Entry>, queued: set<Addr>, timers': seq<Entry>, batch': seq<Entry>)
    requires Placed(heap, timers, queued, []) && Sorted(batch')
    requires forall e :: e in timers ==> Current(heap, e)
    requires forall e :: e in timers <==> e in timers' || e in batch'
    requires forall e :: e in timers' ==> e !in batch'
    ensures Placed(heap, timers', queued, batch') && Batched(heap, timers', queued, batch')
  {
    assert NoDup(batch');
    hide NoDup, Sorted;
  }

  lemma EntriesCurrent(q: Queue)
    requires Inv(q)
    ensures Sorted(q.timers) && forall e :: e in q.timers ==> Current(q.heap, e) && e.timer < UINTPTR_MAX
  {
    hide Sequenced, Batched, Due, Watched, Issued, Sorted;
  }

  lemma CollectSplits(q: Queue)
    requires Inv(q) && !q.calling
    ensures Sorted(Collect(q).todo) && Batch(q) == [] && Batch(Collect(q)) == Collect(q).todo
    ensures forall e :: e in Collect(q).todo <==> e in q.timers && e.when <= q.clock
    ensures forall e :: e in Collect(q).timers <==> e in q.timers && e.when > q.clock
  {
    EntriesCurrent(q);
    LowerBoundSplits(q.timers, q.clock);
    assert Batch(Collect(q)) == [] + Collect(q).todo;
  }

  lemma CollectDue(q: Queue)
    requires Inv(q) && !q.calling
    ensures var q' := Collect(q);
            Due(q'.calling, Batch(q'), q'.now, q'.clock) && Watched(q'.timers, q'.calling, q'.fd, q'.clock)
  {
    hide LowerBound, Sorted, Sequenced, Indexed, Placed, Batched, Issued;
    CollectSplits(q);
    var q' := Collect(q);
    assert Due(q'.calling, Batch(q'), q'.now, q'.clock) by { hide Watched; }
    assert q'.timers != [] ==> q'.timers[0] in q'.timers && q'.timers[0].when > q.clock > 0;
    hide Due;
  }

  lemma CollectInv(q: Queue)
    requires Inv(q) && !q.calling
    ensures Inv(Collect(q))
  {
    hide LowerBound, Sorted, Sequenced, Indexed, Placed, Batched, Issued, Due, Watched, Current;
    CollectDue(q);
    var q' := Collect(q);
    assert Indexed(q'.heap, q'.timers, q'.active) by {
      EntriesCurrent(q);
      CollectIndexed(q.heap, q.timers, q.active, q.clock);
    }
    assert Placed(q'.heap, q'.timers, q'.queued, Batch(q')) && Batched(q'.heap, q'.timers, q'.queued, Batch(q')) by {
      CollectSplits(q);
      EntriesCurrent(q);
      CollectPlaced(q.heap, q.timers, q.queued, q'.timers, q'.todo);
    }
  }

  /** A batch entry leaves the batch: its timer is then in no place. */
  lemma LeaveBatch(heap: Heap, timers: seq<Entry>, queued: set<Addr>, batch: seq<Entry>)
    requires Batched(heap, timers, queued, batch) && Placed(heap, timers, queued, batch) && batch != []
    ensures Current(heap, batch[0]) && batch[0] !in timers && batch[0].timer !in queued && batch[0] !in batch[1..]
    ensures Batched(heap, timers, queued, batch[1..])
    ensures PlacedBut(heap, timers, queued, batch[1..], batch[0].timer)
  {
    assert batch == [batch[0]] + batch[1..];
    assert batch[0] in batch;
  }

  /** Placed, but for one timer. */
  predicate PlacedBut(heap: Heap, timers: seq<Entry>, queued: set<Addr>, batch: seq<Entry>, addr: Addr) {
    && (forall a :: a in queued ==> a in heap && EntryOf(heap, a) !in timers)
    && (forall a :: a in heap ==> 0 < a < UINTPTR_MAX)
    && (forall a :: a in heap && a != addr ==> a in queued || EntryOf(heap, a) in timers || EntryOf(heap, a) in batch)
  }

  /** Restarting changes the expiration of a timer that is in no place. */
  lemma RestartSequenced(heap: Heap, created: nat, freed: seq<nat>, addr: Addr, when: int)
    requires Sequenced(heap, created, freed) && addr in heap
    ensures Sequenced(heap[addr := heap[addr].(expiration := when)], created, freed)
  {
    hide NoDup;
    var heap' := heap[addr := heap[addr].(expiration := when)];
    forall s | 1 <= s <= created
      ensures s in freed || Live(heap', s)
    {
      if s !in freed {
        var a :| a in heap && heap[a].sequence == s;
        assert heap'[a].sequence == s;
      }
    }
  }

  predicate NoEntry(addr: Addr, s: seq<Entry>) {
    forall e :: e in s ==> e.timer != addr
  }

  lemma RestartIndexed(heap: Heap, timers: seq<Entry>, active: set<TimerId>, queued: set<Addr>, batch: seq<Entry>,
                       addr: Addr, when: int)
    requires Indexed(heap, timers, active) && Batched(heap, timers, queued, batch)
    requires addr in heap && NoEntry(addr, timers) && NoEntry(addr, batch)
    ensures var heap' := heap[addr := heap[addr].(expiration := when)];
            Indexed(heap', timers, active) && Batched(heap', timers, queued, batch)
  {
    hide Sorted, NoDup;
  }

  lemma LeaveBatchNoEntry(heap: Heap, timers: seq<Entry>, active: set<TimerId>, queued: set<Addr>, batch: seq<Entry>)
    requires Indexed(heap, timers, active) && Batched(heap, timers, queued, batch) && batch != []
    ensures NoEntry(batch[0].timer, timers) && NoEntry(batch[0].timer, batch[1..])
  {
    hide Sorted;
    assert batch == [batch[0]] + batch[1..];
    assert batch[0] in batch;
    assert batch[0] !in batch[1..];
  }

  /** One iteration of reset that re-inserts a repeating timer. */
  lemma ResetOneRepeats(q: Queue)
    requires Inv(q) && q.calling && q.todo == [] && q.done != [] && Current(q.heap, q.done[0])
    ensures var q1 := q.(done := q.done[1..]); Inv(Insert(Restart(q1, q.done[0].timer), q.done[0].timer))
  {
    hide Indexed, Batched, Placed, Sequenced, Due, Watched, InsertEntry, NoEntry;
    var addr := q.done[0].timer;
    var q1 := q.(done := q.done[1..]);
    assert Batch(q) == q.done && Batch(q1) == q.done[1..];
    var when := q.now + q.heap[addr].delta;
    var heap' := q.heap[addr := q.heap[addr].(expiration := when)];
    var timers' := InsertEntry(q.timers, Entry(when, addr));
    var q' := Insert(Restart(q1, addr), addr);
    assert q'.heap == heap' && q'.timers == timers' && Batch(q') == q.done[1..];
    assert Entry(when, addr) !in q.timers && Entry(when, addr) !in q.done[1..] &&
           Indexed(heap', q.timers, q.active) && Batched(heap', q.timers, q.queued, q.done[1..]) by {
      Unplaced(q.heap, q.timers, q.active, q.queued, q.done, when);
    }
    assert Indexed(q'.heap, q'.timers, q'.active) by {
      InsertIndexed(heap', q.timers, q.active, addr);
    }
    assert Batched(q'.heap, q'.timers, q'.queued, Batch(q')) && Placed(q'.heap, q'.timers, q'.queued, Batch(q')) by {
      InsertEntryMembers(q.timers, Entry(when, addr));
      InsertBatched(heap', q.timers, q.queued, q.done[1..], Entry(when, addr), timers');
      LeaveBatch(q.heap, q.timers, q.queued, q.done);
      PlacedAgain(q.heap, q.timers, q.queued, q.done[1..], addr, when, timers');
    }
    assert Sequenced(q'.heap, q'.created, q'.freed) by {
      RestartSequenced(q.heap, q.created, q.freed, addr, when);
    }
    StillDue(q.done, q.now, q.clock);
    RestartWatched(q.timers, q.fd, q.clock, Entry(when, addr));
  }

  lemma Unplaced(heap: Heap, timers: seq<Entry>, active: set<TimerId>, queued: set<Addr>, batch: seq<Entry>, when: int)
    requires Indexed(heap, timers, active) && Batched(heap, timers, queued, batch) && batch != []
    requires batch[0].timer in heap && Placed(heap, timers, queued, batch)
    ensures var addr := batch[0].timer; var heap' := heap[addr := heap[addr].(expiration := when)];
            Entry(when, addr) !in timers && Entry(when, addr) !in batch[1..] &&
            Indexed(heap', timers, active) && Batched(heap', timers, queued, batch[1..])
  {
    LeaveBatch(heap, timers, queued, batch);
    LeaveBatchNoEntry(heap, timers, active, queued, batch);
    hide Indexed, Batched, Placed;
    RestartIndexed(heap, timers, active, queued, batch[1..], batch[0].timer, when);
  }

  lemma StillDue(batch: seq<Entry>, now: int, clock: int)
    requires Due(true, batch, now, clock) && batch != []
    ensures Due(true, batch[1..], now, clock) && now > 0
  {
    assert batch == [batch[0]] + batch[1..];
  }

  lemma RestartWatched(timers: seq<Entry>, fd: TimerFd, clock: int, e: Entry)
    requires Watched(timers, true, fd, clock) && e.when > 0
    ensures Watched(InsertEntry(timers, e), true, fd, clock)
  {
  }

  lemma PlacedAgain(heap: Heap, timers: seq<Entry>, queued: set<Addr>, batch: seq<Entry>, addr: Addr, when: int,
                    timers': seq<Entry>)
    requires addr in heap && addr !in queued
    requires PlacedBut(heap, timers, queued, batch, addr)
    requires forall x :: x in timers' <==> x in timers || x == Entry(when, addr)
    ensures Placed(heap[addr := heap[addr].(expiration := when)], timers', queued, batch)
  {
  }

  /** One iteration of reset that deletes a timer. */
  lemma ResetOneDeletes(q: Queue)
    requires Inv(q) && q.calling && q.todo == [] && q.done != [] && Current(q.heap, q.done[0])
    ensures var q1 := q.(done := q.done[1..]); Inv(Delete(q1, q.done[0].timer))
  {
    hide Indexed, Batched, Placed, Sequenced, Due, Watched, NoEntry, PlacedBut;
    var addr := q.done[0].timer;
    var q1 := q.(done := q.done[1..]);
    assert Batch(q) == q.done && Batch(q1) == q.done[1..];
    var q' := Delete(q1, addr);
    assert Batch(q') == q.done[1..];
    assert Sequenced(q'.heap, q'.created, q'.freed) by {
      DeleteSequenced(q.heap, q.created, q.freed, addr);
    }
    LeaveBatch(q.heap, q.timers, q.queued, q.done);
    LeaveBatchNoEntry(q.heap, q.timers, q.active, q.queued, q.done);
    DeleteIndexed(q.heap, q.timers, q.active, addr);
    DeleteBatched(q.heap, q.timers, q.queued, q.done[1..], addr);
    DeletePlaced(q.heap, q.timers, q.queued, q.done[1..], addr);
    StillDue(q.done, q.now, q.clock);
  }

  lemma DeleteIndexed(heap: Heap, timers: seq<Entry>, active: set<TimerId>, addr: Addr)
    requires Indexed(heap, timers, active) && addr in heap && NoEntry(addr, timers)
    ensures Indexed(heap - {addr}, timers, active)
  {
    hide Sorted;
    forall id | id in active
      ensures id.timer in heap - {addr}
    {
      assert EntryOf(heap, id.timer) in timers;
    }
  }

  lemma DeletePlaced(heap: Heap, timers: seq<Entry>, queued: set<Addr>, batch: seq<Entry>, addr: Addr)
    requires PlacedBut(heap, timers, queued, batch, addr) && addr in heap && addr !in queued
    ensures Placed(heap - {addr}, timers, queued, batch)
  {
  }

  lemma DeleteBatched(heap: Heap, timers: seq<Entry>, queued: set<Addr>, batch: seq<Entry>, addr: Addr)
    requires Batched(heap, timers, queued, batch) && addr in heap && NoEntry(addr, batch)
    ensures Batched(heap - {addr}, timers, queued, batch)
  {
    hide NoDup;
  }

  lemma ResetOneInv(q: Queue)
    requires Inv(q) && q.calling && q.todo == [] && q.done != []
    ensures Current(q.heap, q.done[0]) && Inv(ResetOne(q))
  {
    assert Batch(q) == q.done;
    assert q.done[0] in Batch(q);
    hide Inv;
    ResetOneRepeats(q);
    ResetOneDeletes(q);
  }

  // ----- Runs -----

  /** All of reset: every timer of the batch is restarted or deleted, then the timerfd is set. */
  function ResetAll(q: Queue): (q': Queue)
    requires Inv(q) && q.calling && q.todo == []
    ensures Inv(q') && q'.calling && q'.done == [] && q'.todo == []
    decreases |q.done|
  {
    if q.done == [] then q
    else ResetOneInv(q); ResetAll(ResetOne(q))
  }

  function FinishReset(q: Queue): Queue {
    Rearm(q.(calling := false))
  }

  lemma FinishResetInv(q: Queue)
    requires Inv(q) && q.calling && q.done == [] && q.todo == []
    ensures Inv(FinishReset(q))
  {
    hide Indexed, Batched, Placed, Sequenced;
  }

  /** A step that the state does not allow changes nothing: the allocator returns unused addresses, a
      functor runs once, a batch starts after the previous one has ended. */
  function Apply(q: Queue, step: Step): Queue
    requires Inv(q)
  {
    match step
    case Create(addr, when, delta, repeat) =>
      if 0 < addr < UINTPTR_MAX && addr !in q.heap then CreateTimer(q, addr, when, delta, repeat) else q
    case AddInLoop(addr) => if addr in q.queued then AddTimer(q, addr) else q
    case CancelInLoop(id) => Cancel(q, id)
    case Tick(t) => Advance(q, t)
    case CollectExpired => if !q.calling then Collect(q) else q
    case RunNext => if q.todo != [] then CallNextInv(q); CallNext(q) else q
    case Reset => if q.calling && q.todo == [] then FinishReset(ResetAll(q)) else q
  }

  lemma ApplyInv(q: Queue, step: Step)
    requires Inv(q)
    ensures Inv(Apply(q, step))
  {
    hide Inv, CreateTimer, AddTimer, Cancel, Advance, Collect, CallNext, FinishReset;
    match step
    case Create(addr, when, delta, repeat) =>
      if 0 < addr < UINTPTR_MAX && addr !in q.heap { CreateTimerInv(q, addr, when, delta, repeat); }
    case AddInLoop(addr) => if addr in q.queued { AddTimerInv(q, addr); }
    case CancelInLoop(id) => CancelInv(q, id);
    case Tick(t) => AdvanceInv(q, t);
    case CollectExpired => if !q.calling { CollectInv(q); }
    case RunNext => if q.todo != [] { CallNextInv(q); }
    case Reset => if q.calling && q.todo == [] { FinishResetInv(ResetAll(q)); }
  }

  /** Any sequence of steps: creations from any thread, functors, callbacks and the passing of time. */
  function Exec(q: Queue, steps: seq<Step>): (q': Queue)
    requires Inv(q)
    ensures Inv(q')
    decreases |steps|
  {
    if steps == [] then q
    else ApplyInv(q, steps[0]); Exec(Apply(q, steps[0]), steps[1..])
  }
}
