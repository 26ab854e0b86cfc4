/** What the timer queue guarantees along every run (muduo/net/TimerQueue.cc). */
module TimerRuns {
  import opened Common
  import opened Timers

  // ----- What holds in every reachable state -----

  lemma {:induction false} IdsOfSorted(heap: Heap, s: seq<Entry>)
    requires Sorted(s) && forall e :: e in s ==> Current(heap, e)
    ensures |Ids(heap, s)| == |s|
  {
    if s != [] {
      assert s == [s[0]] + s[1..];
      SortedCons(s[0], s[1..]);
      assert Current(heap, s[0]) by { assert s[0] in s; }
      IdsOfSorted(heap, s[1..]);
      var id := TimerId(s[0].timer, heap[s[0].timer].sequence);
      assert Ids(heap, s) == Ids(heap, s[1..]) + {id};
      assert id !in Ids(heap, s[1..]);
    } else {
      assert Ids(heap, s) == {};
    }
  }

  /** The two sets have the same size and hold the same timers, under their current expirations. */
  lemma SetsAgree(q: Queue)
    requires Inv(q)
    ensures |q.timers| == |q.active|
    ensures forall a :: a in q.heap ==> (IdOf(q.heap, a) in q.active <==> EntryOf(q.heap, a) in q.timers)
    ensures forall e :: e in q.timers ==> Current(q.heap, e)
    ensures forall id :: id in q.active ==> id.timer in q.heap && IdOf(q.heap, id.timer) == id
  {
    hide Batched, Placed, Sequenced, Due, Watched, Issued;
    IdsOfSorted(q.heap, q.timers);
    assert q.active == Ids(q.heap, q.timers);
  }

  predicate ExactlyOne(p: bool, q: bool, r: bool) {
    (p || q || r) && !(p && q) && !(p && r) && !(q && r)
  }

  lemma OnePlace(q: Queue, a: Addr)
    requires Inv(q) && a in q.heap
    ensures ExactlyOne(a in q.queued, EntryOf(q.heap, a) in q.timers, EntryOf(q.heap, a) in Batch(q))
  {
    hide Indexed, Sequenced, Due, Watched, Issued, NoDup;
  }

  /** Every timer ever created has been deleted exactly once and is live no more, or is live in exactly one place. */
  lemma EveryTimerInOnePlace(q: Queue, s: nat)
    requires Inv(q) && 1 <= s <= q.created
    ensures NoDup(q.freed)
    ensures s in q.freed ==> !Live(q.heap, s)
    ensures s !in q.freed ==>
              exists a :: a in q.heap && q.heap[a].sequence == s &&
                ExactlyOne(a in q.queued, EntryOf(q.heap, a) in q.timers, EntryOf(q.heap, a) in Batch(q))
    ensures forall a, b :: a in q.heap && b in q.heap && q.heap[a].sequence == s == q.heap[b].sequence ==> a == b
  {
    hide Indexed, Batched, Placed, Due, Watched, Issued;
    if s !in q.freed {
      assert Live(q.heap, s);
      var a :| a in q.heap && q.heap[a].sequence == s;
      OnePlace(q, a);
    }
  }

  /** A callback that is about to run belongs to a live timer whose time has come. */
  lemma NeverEarlyNeverDeleted(q: Queue)
    requires Inv(q) && q.todo != []
    ensures q.todo[0].timer in q.heap && q.heap[q.todo[0].timer].expiration <= q.now <= q.clock
  {
    hide Indexed, Placed, Sequenced, Watched, Issued, NoDup;
    assert q.todo[0] in Batch(q);
  }

  /** All of it, along every run: the state never leaves the invariant, and between loop steps the timerfd
      is set for the earliest timer. */
  lemma EveryRun(clock: int, steps: seq<Step>)
    requires clock > 0
    ensures var q := (InitInv(clock); Exec(Init(clock), steps));
            Inv(q) && |q.timers| == |q.active| &&
            (!q.calling && q.timers != [] ==>
              WakesBy(q.fd, q.clock, q.timers[0].when) && q.timers[0].when == q.heap[q.timers[0].timer].expiration)
  {
    InitInv(clock);
    var q := Exec(Init(clock), steps);
    SetsAgree(q);
    hide Batched, Placed, Sequenced, Due, Issued, Indexed;
    assert q.timers != [] ==> q.timers[0] in q.timers;
  }

  // ----- Cancellation -----

  function Calls(q: Queue, s: nat): nat {
    multiset(q.calls)[s]
  }

  predicate InTodo(q: Queue, s: nat) {
    exists e :: e in q.todo && e.timer in q.heap && q.heap[e.timer].sequence == s
  }

  function CallsLeft(q: Queue, s: nat): nat {
    if InTodo(q, s) then 1 else 0
  }

  /** Timer s is deleted, or in the batch and marked as cancelled. */
  predicate Doomed(q: Queue, s: nat) {
    s <= q.created && forall a :: a in q.heap && q.heap[a].sequence == s ==>
      EntryOf(q.heap, a) in Batch(q) && TimerId(a, s) in q.canceling
  }

  /** How a state may change without any batch or callback moving. */
  predicate BatchUntouched(q: Queue, q': Queue) {
    && q'.todo == q.todo && q'.done == q.done && q'.calls == q.calls && q.canceling <= q'.canceling &&
       q.created <= q'.created
    && (forall e :: e in Batch(q) && e.timer in q.heap ==> e.timer in q'.heap && q'.heap[e.timer] == q.heap[e.timer])
    && (forall a :: a in q'.heap && q'.heap[a].sequence <= q.created ==> a in q.heap && q.heap[a] == q'.heap[a])
  }

  lemma UntouchedDoomed(q: Queue, q': Queue, s: nat)
    requires BatchUntouched(q, q') && Doomed(q, s)
    requires forall e :: e in q.todo ==> e.timer in q.heap
    ensures Doomed(q', s) && Calls(q', s) + CallsLeft(q', s) == Calls(q, s) + CallsLeft(q, s)
  {
    assert InTodo(q, s) <==> InTodo(q', s);
  }

  lemma CreateUntouched(q: Queue, addr: Addr, when: int, delta: nat, repeat: bool)
    requires Inv(q) && addr !in q.heap
    ensures BatchUntouched(q, CreateTimer(q, addr, when, delta, repeat))
  {
    hide Indexed, Placed, Due, Watched, Issued, NoDup, Sequenced;
  }

  lemma CancelUntouched(q: Queue, id: TimerId)
    requires Inv(q)
    ensures BatchUntouched(q, Cancel(q, id))
  {
    hide Placed, Sequenced, Due, Watched, Issued, NoDup, Sorted, EraseEntry;
    if id in q.active {
      assert EntryOf(q.heap, id.timer) in q.timers;
      assert forall e :: e in Batch(q) ==> e.timer != id.timer;
    }
  }

  lemma SameHeapUntouched(q: Queue, q': Queue)
    requires q'.heap == q.heap && q'.todo == q.todo && q'.done == q.done && q'.calls == q.calls
    requires q'.canceling == q.canceling && q'.created == q.created
    ensures BatchUntouched(q, q')
  {
  }

  lemma ApplyUntouched(q: Queue, step: Step)
    requires Inv(q) && (step.Create? || step.AddInLoop? || step.CancelInLoop? || step.Tick?)
    ensures BatchUntouched(q, Apply(q, step))
  {
    hide Inv, BatchUntouched, CreateTimer, Cancel, InsertEntry, Max;
    SameHeapUntouched(q, q);
    match step
    case Create(addr, when, delta, repeat) =>
      if addr !in q.heap { CreateUntouched(q, addr, when, delta, repeat); }
    case AddInLoop(addr) =>
      SameHeapUntouched(q, Apply(q, step));
    case CancelInLoop(id) =>
      CancelUntouched(q, id);
    case Tick(t) =>
      SameHeapUntouched(q, Apply(q, step));
  }

  lemma TodoDropsHead(q: Queue, s: nat)
    requires Inv(q) && q.todo != [] && q.todo[0].timer in q.heap
    ensures var q' := CallNext(q); InTodo(q', s) <==> InTodo(q, s) && q.heap[q.todo[0].timer].sequence != s
  {
    var q', e := CallNext(q), q.todo[0];
    assert q.todo == [e] + q.todo[1..];
    hide Indexed, Placed, Due, Watched, Issued;
    RunOnce(q);
    LiveSequence(q.heap, q.created, q.freed, e.timer);
    hide Sequenced, NoDup;
    if q.heap[e.timer].sequence == s {
      assert forall x :: x in q.todo ==> x in Batch(q);
      assert forall x :: x in q'.todo ==> q.heap[x.timer].sequence != s;
    } else if InTodo(q, s) {
      var x :| x in q.todo && x.timer in q.heap && q.heap[x.timer].sequence == s;
      assert x in q'.todo;
    }
  }

  lemma CallNextDoomed(q: Queue, s: nat)
    requires Inv(q) && Doomed(q, s) && q.todo != []
    ensures var q' := Apply(q, RunNext);
            Doomed(q', s) && Calls(q', s) + CallsLeft(q', s) <= Calls(q, s) + CallsLeft(q, s)
  {
    hide Inv, InTodo;
    CallNextInv(q);
    TodoDropsHead(q, s);
    HeadInTodo(q);
    assert Calls(CallNext(q), s) == Calls(q, s) + (if q.heap[q.todo[0].timer].sequence == s then 1 else 0);
  }

  lemma HeadInTodo(q: Queue)
    requires q.todo != [] && q.todo[0].timer in q.heap
    ensures InTodo(q, q.heap[q.todo[0].timer].sequence)
  {
    assert q.todo[0] in q.todo;
  }

  lemma RunOnce(q: Queue)
    requires NoDup(Batch(q)) && q.todo != []
    ensures q.todo[0] !in q.todo[1..] && q.todo[0] !in q.done
  {
    var n := |q.done|;
    assert Batch(q)[n] == q.todo[0];
    assert forall i :: 0 <= i < |q.todo[1..]| ==> q.todo[1..][i] == Batch(q)[n + 1 + i];
    assert forall i :: 0 <= i < n ==> q.done[i] == Batch(q)[i];
  }

  lemma ResetOneDoomed(q: Queue, s: nat)
    requires Inv(q) && q.calling && q.todo == [] && q.done != [] && q.done[0].timer in q.heap && Doomed(q, s)
    ensures Doomed(ResetOne(q), s) && ResetOne(q).calls == q.calls && ResetOne(q).canceling == q.canceling
  {
    hide Indexed, Placed, Due, Watched, Issued, Sequenced, InsertEntry;
    var q' := ResetOne(q);
    assert Batch(q) == q.done && q.done == [q.done[0]] + q.done[1..];
    forall a | a in q'.heap && q'.heap[a].sequence == s
      ensures EntryOf(q'.heap, a) in Batch(q') && TimerId(a, s) in q'.canceling
    {
      assert a in q.heap && q.heap[a].sequence == s;
      assert a != q.done[0].timer;
      assert EntryOf(q.heap, a) in q.done[1..];
    }
  }

  lemma {:induction false} ResetAllDoomed(q: Queue, s: nat)
    requires Inv(q) && q.calling && q.todo == [] && Doomed(q, s)
    ensures Doomed(ResetAll(q), s) && ResetAll(q).calls == q.calls
    decreases |q.done|
  {
    if q.done != [] {
      ResetOneInv(q);
      ResetOneDoomed(q, s);
      hide Inv, Doomed;
      ResetAllDoomed(ResetOne(q), s);
    }
  }

  lemma CollectDoomed(q: Queue, s: nat)
    requires Inv(q) && Doomed(q, s) && !q.calling
    ensures Doomed(Collect(q), s) && CallsLeft(Collect(q), s) == 0 && Calls(Collect(q), s) == Calls(q, s)
  {
    hide Indexed, Batched, Placed, Watched, Issued, Sequenced, LowerBound;
    assert Batch(q) == [];
    assert forall a :: a in q.heap ==> q.heap[a].sequence != s;
  }

  lemma ResetDoomed(q: Queue, s: nat)
    requires Inv(q) && Doomed(q, s) && q.calling && q.todo == []
    ensures var q' := FinishReset(ResetAll(q));
            Doomed(q', s) && CallsLeft(q', s) == 0 && Calls(q', s) == Calls(q, s) && !Live(q'.heap, s)
  {
    hide Inv, ResetAll;
    ResetAllDoomed(q, s);
    DoomedFinish(ResetAll(q), s);
  }

  lemma DoomedFinish(q: Queue, s: nat)
    requires Doomed(q, s) && q.done == [] && q.todo == []
    ensures var q' := FinishReset(q);
            Doomed(q', s) && CallsLeft(q', s) == 0 && Calls(q', s) == Calls(q, s) && !Live(q'.heap, s)
  {
  }

  lemma TodoIsLive(q: Queue)
    requires Inv(q)
    ensures forall e :: e in q.todo ==> e.timer in q.heap
  {
    hide Indexed, Placed, Watched, Issued, Sequenced, Due, NoDup;
    assert forall e :: e in q.todo ==> e in Batch(q);
  }

  lemma DoomedStep(q: Queue, step: Step, s: nat)
    requires Inv(q) && Doomed(q, s)
    ensures var q' := Apply(q, step); Doomed(q', s) && Calls(q', s) + CallsLeft(q', s) <= Calls(q, s) + CallsLeft(q, s)
  {
    hide Inv, Doomed, Calls, CallsLeft;
    if step.CollectExpired? {
      hide Collect;
      if !q.calling { CollectDoomed(q, s); }
    } else if step.RunNext? {
      if q.todo != [] { CallNextDoomed(q, s); }
    } else if step.Reset? {
      hide FinishReset, ResetAll;
      if q.calling && q.todo == [] { ResetDoomed(q, s); }
    } else {
      hide Apply, BatchUntouched;
      TodoIsLive(q);
      ApplyUntouched(q, step);
      UntouchedDoomed(q, Apply(q, step), s);
    }
  }

  lemma {:induction false} DoomedRun(q: Queue, steps: seq<Step>, s: nat)
    requires Inv(q) && Doomed(q, s)
    ensures var q' := Exec(q, steps); Doomed(q', s) && Calls(q', s) + CallsLeft(q', s) <= Calls(q, s) + CallsLeft(q, s)
    decreases |steps|
  {
    if steps != [] {
      ApplyInv(q, steps[0]);
      DoomedStep(q, steps[0], s);
      hide Inv, Doomed, Calls, CallsLeft, Apply;
      DoomedRun(Apply(q, steps[0]), steps[1..], s);
    }
  }

  /** Once cancelInLoop has run for a timer that was inserted, its callback runs at most once more, and only
      if it was waiting in the batch being run; the timer never enters the sets again. */
  lemma CancelIsFinal(q: Queue, id: TimerId, steps: seq<Step>)
    requires Inv(q) && id.timer in q.heap && IdOf(q.heap, id.timer) == id && id.timer !in q.queued
    ensures var q' := Exec(q, [CancelInLoop(id)] + steps);
            Calls(q', id.sequence) <= Calls(q, id.sequence) + CallsLeft(q, id.sequence) &&
            (forall x :: x in q'.active ==> x.sequence != id.sequence)
  {
    hide Inv, Cancel, Doomed, Calls, CallsLeft;
    assert ([CancelInLoop(id)] + steps)[1..] == steps;
    ApplyInv(q, CancelInLoop(id));
    CancelDooms(q, id);
    DoomedRun(Cancel(q, id), steps, id.sequence);
    DoomedIsNotActive(Exec(Cancel(q, id), steps), id.sequence);
  }

  /** A cancel takes effect, for good, exactly if the timer has been inserted: one that overtakes the insertion is
      forgotten, and the timer becomes active after all. */
  lemma CancelTakesEffectExactly(q: Queue, id: TimerId)
    requires Inv(q) && id.timer in q.heap && IdOf(q.heap, id.timer) == id
    ensures (forall steps :: id !in Exec(q, [CancelInLoop(id)] + steps).active) <==> id.timer !in q.queued
  {
    hide Inv;
    if id.timer in q.queued {
      CancelOvertakes(q, id);
    } else {
      forall steps
        ensures id !in Exec(q, [CancelInLoop(id)] + steps).active
      {
        CancelIsFinal(q, id, steps);
      }
    }
  }

  lemma CancelOvertakes(q: Queue, id: TimerId)
    requires Inv(q) && id.timer in q.heap && IdOf(q.heap, id.timer) == id && id.timer in q.queued
    ensures id in Exec(q, [CancelInLoop(id)] + [AddInLoop(id.timer)]).active
  {
    hide Inv, Apply;
    var a, b := CancelInLoop(id), AddInLoop(id.timer);
    ApplyInv(q, a);
    CancelOfQueued(q, id);
    ApplyInv(Apply(q, a), b);
    AddActivates(Apply(q, a), id.timer);
    assert ([a] + [b])[1..] == [b] && [b][1..] == [];
    assert Exec(Apply(q, a), [b]) == Apply(Apply(q, a), b);
  }

  /** Such a run from the start: create, cancel, and only then insert. */
  lemma CancelBeforeInsertion(clock: int, addr: Addr, when: int, delta: nat, repeat: bool)
    requires clock > 0 && 0 < addr < UINTPTR_MAX
    ensures var id := TimerId(addr, 1);
            id in (InitInv(clock);
              Exec(Init(clock), [Create(addr, when, delta, repeat)] + ([CancelInLoop(id)] + [AddInLoop(addr)]))).active
  {
    hide Inv, Apply, Init;
    InitInv(clock);
    var q, id := Init(clock), TimerId(addr, 1);
    var create := Create(addr, when, delta, repeat);
    ApplyInv(q, create);
    FirstTimer(clock, addr, when, delta, repeat);
    CancelOvertakes(Apply(q, create), id);
    var rest := [CancelInLoop(id)] + [AddInLoop(addr)];
    assert ([create] + rest)[1..] == rest;
  }

  lemma FirstTimer(clock: int, addr: Addr, when: int, delta: nat, repeat: bool)
    requires Inv(Init(clock)) && 0 < addr < UINTPTR_MAX
    ensures var q := Apply(Init(clock), Create(addr, when, delta, repeat));
            addr in q.heap && IdOf(q.heap, addr) == TimerId(addr, 1) && addr in q.queued
  {
    hide Inv;
  }

  lemma CancelOfQueued(q: Queue, id: TimerId)
    requires Inv(q) && id.timer in q.heap && IdOf(q.heap, id.timer) == id && id.timer in q.queued
    ensures var q1 := Apply(q, CancelInLoop(id)); q1.heap == q.heap && q1.queued == q.queued
  {
    QueuedIsNotActive(q, id);
    hide Inv;
  }

  lemma AddActivates(q: Queue, addr: Addr)
    requires Inv(q) && addr in q.queued && addr in q.heap
    ensures IdOf(q.heap, addr) in Apply(q, AddInLoop(addr)).active
  {
    hide Inv, InsertEntry;
    AddTimerShape(q, addr);
    hide AddTimer;
  }

  lemma QueuedIsNotActive(q: Queue, id: TimerId)
    requires Inv(q) && id.timer in q.queued
    ensures id !in q.active
  {
    hide Batched, Sequenced, Due, Watched, Issued, Sorted;
  }

  lemma DoomedIsNotActive(q: Queue, s: nat)
    requires Inv(q) && Doomed(q, s)
    ensures forall x :: x in q.active ==> x.sequence != s
  {
    hide Placed, Sequenced, Due, Watched, Issued, NoDup, Sorted;
  }

  lemma CancelDooms(q: Queue, id: TimerId)
    requires Inv(q) && id.timer in q.heap && IdOf(q.heap, id.timer) == id && id.timer !in q.queued
    ensures var q1 := Cancel(q, id);
            Doomed(q1, id.sequence) && Calls(q1, id.sequence) == Calls(q, id.sequence) &&
              CallsLeft(q1, id.sequence) <= CallsLeft(q, id.sequence)
  {
    OnePlace(q, id.timer);
    LiveSequence(q.heap, q.created, q.freed, id.timer);
    SetsAgree(q);
    hide Indexed, Batched, Placed, Sequenced, Watched, Issued, EraseEntry;
    assert InTodo(Cancel(q, id), id.sequence) ==> InTodo(q, id.sequence);
  }

  // ----- Stale identifiers -----

  /** Two states that differ only in whether an identifier of no live timer is marked as cancelled. */
  predicate SameButStale(p: Queue, q: Queue, id: TimerId) {
    && p == q.(canceling := p.canceling)
    && p.canceling - {id} == q.canceling - {id}
    && id.sequence <= q.created && !Live(q.heap, id.sequence)
  }

  lemma StaleStaysDead(q: Queue, step: Step, s: nat)
    requires Inv(q) && s <= q.created && !Live(q.heap, s)
    ensures s <= Apply(q, step).created && !Live(Apply(q, step).heap, s)
  {
    hide Inv, Collect, CallNext, FinishReset, ResetAll;
    if step.CollectExpired? {
      SameHeap(q);
    } else if step.RunNext? {
      if q.todo != [] { CallNextInv(q); SameHeap(q); }
    } else if step.Reset? {
      if q.calling && q.todo == [] {
        assert Doomed(q, s);
        ResetDoomed(q, s);
        ResetKeepsCreated(q);
      }
    } else {
      hide Apply;
      ApplyUntouched(q, step);
    }
  }

  lemma SameHeap(q: Queue)
    ensures Collect(q).heap == q.heap && Collect(q).created == q.created
    ensures q.todo != [] && q.todo[0].timer in q.heap ==> CallNext(q).heap == q.heap && CallNext(q).created == q.created
  {
  }

  lemma {:induction false} ResetKeepsCreated(q: Queue)
    requires Inv(q) && q.calling && q.todo == []
    ensures FinishReset(ResetAll(q)).created == q.created
    decreases |q.done|
  {
    hide Inv;
    if q.done != [] {
      ResetOneInv(q);
      ResetKeepsCreated(ResetOne(q));
    }
  }

  lemma {:induction false} ResetAllSameButStale(p: Queue, q: Queue, id: TimerId)
    requires Inv(p) && Inv(q) && q.calling && q.todo == [] && SameButStale(p, q, id)
    ensures SameButStale(ResetAll(p), ResetAll(q), id)
    decreases |q.done|
  {
    hide Inv;
    if q.done == [] {
    } else {
      ResetOneInv(p);
      ResetOneInv(q);
      ResetOneSameButStale(p, q, id);
      hide ResetOne, SameButStale;
      SameDone(p, q, id);
      ResetAllSameButStale(ResetOne(p), ResetOne(q), id);
    }
  }

  lemma SameDone(p: Queue, q: Queue, id: TimerId)
    requires SameButStale(p, q, id)
    ensures p.done == q.done && p.todo == q.todo && p.calling == q.calling
  {
  }

  lemma ResetOneSameButStale(p: Queue, q: Queue, id: TimerId)
    requires SameButStale(p, q, id) && q.done != [] && Current(q.heap, q.done[0])
    ensures p.done == q.done && p.heap == q.heap && SameButStale(ResetOne(p), ResetOne(q), id)
  {
    hide InsertEntry;
    var addr := q.done[0].timer;
    var own := TimerId(addr, q.heap[addr].sequence);
    assert own != id;
    assert own in p.canceling <==> own in p.canceling - {id};
    assert own in q.canceling <==> own in q.canceling - {id};
    var p', q' := ResetOne(p), ResetOne(q);
    assert !Live(q'.heap, id.sequence) by {
      assert forall a :: a in q'.heap ==> a in q.heap && q'.heap[a].sequence == q.heap[a].sequence;
    }
  }

  /** The steps that do not look at the cancellation marks commute with changing them. */
  lemma MarksIgnored(p: Queue, q: Queue, step: Step)
    requires Inv(p) && Inv(q) && p == q.(canceling := p.canceling)
    requires step.Create? || step.AddInLoop? || step.Tick? || step.RunNext?
    ensures Apply(p, step) == Apply(q, step).(canceling := p.canceling) && Apply(q, step).canceling == q.canceling
  {
    hide Inv, InsertEntry, Max;
  }

  lemma CancelMarks(p: Queue, q: Queue, x: TimerId, id: TimerId)
    requires p == q.(canceling := p.canceling) && (x in q.active ==> x.timer in q.heap)
    requires p.canceling - {id} == q.canceling - {id}
    ensures Cancel(p, x) == Cancel(q, x).(canceling := Cancel(p, x).canceling)
    ensures Cancel(p, x).canceling - {id} == Cancel(q, x).canceling - {id}
  {
    hide EraseEntry;
    assert (p.canceling + {x}) - {id} == (p.canceling - {id}) + ({x} - {id});
    assert (q.canceling + {x}) - {id} == (q.canceling - {id}) + ({x} - {id});
  }

  lemma CollectMarks(p: Queue, q: Queue)
    requires p == q.(canceling := p.canceling)
    ensures Collect(p) == Collect(q)
  {
    hide LowerBound;
  }

  lemma FinishMarks(p: Queue, q: Queue, id: TimerId)
    requires SameButStale(p, q, id)
    ensures SameButStale(FinishReset(p), FinishReset(q), id)
  {
    hide Max, Live;
  }

  lemma SameButStaleStep(p: Queue, q: Queue, step: Step, id: TimerId)
    requires Inv(p) && Inv(q) && SameButStale(p, q, id)
    ensures SameButStale(Apply(p, step), Apply(q, step), id)
  {
    if step.Reset? {
      hide Inv;
      if q.calling && q.todo == [] {
        ResetAllSameButStale(p, q, id);
        FinishMarks(ResetAll(p), ResetAll(q), id);
      }
    } else {
      StaleStaysDead(q, step, id.sequence);
      match step
      case CancelInLoop(x) =>
        ActiveTimersLive(q, x);
        hide Inv, Cancel, Live;
        CancelMarks(p, q, x, id);
      case CollectExpired =>
        hide Inv, Collect, Live;
        CollectMarks(p, q);
      case _ =>
        hide Inv, Apply, Live;
        MarksIgnored(p, q, step);
    }
  }

  lemma ActiveTimersLive(q: Queue, x: TimerId)
    requires Inv(q)
    ensures x in q.active ==> x.timer in q.heap
  {
  }

  /** Cancelling with a stale identifier never changes the course of events, even when its address belongs to
      another timer by now: every later state is the same but for the mark itself. */
  lemma {:induction false} StaleCancelIsHarmless(p: Queue, q: Queue, id: TimerId, steps: seq<Step>)
    requires Inv(p) && Inv(q) && SameButStale(p, q, id)
    ensures SameButStale(Exec(p, steps), Exec(q, steps), id)
    decreases |steps|
  {
    if steps != [] {
      ApplyInv(p, steps[0]);
      ApplyInv(q, steps[0]);
      SameButStaleStep(p, q, steps[0], id);
      hide Inv, SameButStale, Apply;
      StaleCancelIsHarmless(Apply(p, steps[0]), Apply(q, steps[0]), id, steps[1..]);
    }
  }

  lemma StaleMark(q: Queue, id: TimerId)
    requires Inv(q) && id.sequence <= q.created && !Live(q.heap, id.sequence)
    ensures SameButStale(Cancel(q, id), q, id)
  {
    hide Batched, Placed, Sequenced, Due, Watched, Issued, Sorted;
    assert id !in q.active;
  }

  lemma StaleCancel(q: Queue, id: TimerId, steps: seq<Step>)
    requires Inv(q) && id.sequence <= q.created && !Live(q.heap, id.sequence)
    ensures SameButStale(Exec(q, [CancelInLoop(id)] + steps), Exec(q, steps), id)
  {
    hide Inv, SameButStale, Cancel;
    ActiveTimersLive(q, id);
    StaleMark(q, id);
    assert ([CancelInLoop(id)] + steps)[1..] == steps;
    ApplyInv(q, CancelInLoop(id));
    StaleCancelIsHarmless(Cancel(q, id), q, id, steps);
  }

  // ----- One-shot and repeating timers -----

  predicate Repeats(q: Queue, e: Entry)
    requires e.timer in q.heap
  {
    q.heap[e.timer].repeat && TimerId(e.timer, q.heap[e.timer].sequence) !in q.canceling
  }

  /** What reset makes of a batch entry: a repeating timer that was not cancelled is back in the sets, due one
      interval after the batch was collected; any other is deleted. */
  predicate WasReset(q: Queue, q': Queue, e: Entry)
    requires e.timer in q.heap
  {
    var t := q.heap[e.timer];
    if Repeats(q, e) then
      e.timer in q'.heap && q'.heap[e.timer] == t.(expiration := q.now + t.delta) &&
        EntryOf(q'.heap, e.timer) in q'.timers
    else
      t.sequence in q'.freed
  }

  predicate Unaffected(q: Queue, q': Queue, a: Addr)
    requires a in q.heap
  {
    a in q'.heap && q'.heap[a] == q.heap[a] && (EntryOf(q.heap, a) in q'.timers <==> EntryOf(q.heap, a) in q.timers)
  }

  /** One iteration: the entry itself, and every other timer. */
  predicate OneReset(q: Queue, q': Queue, e: Entry)
    requires e.timer in q.heap
  {
    && q'.canceling == q.canceling && q'.now == q.now && q.freed <= q'.freed
    && WasReset(q, q', e) && (e.timer in q'.heap ==> Repeats(q, e))
    && (forall a :: a in q.heap && a != e.timer ==> Unaffected(q, q', a))
  }

  lemma ResetOneOutcome(q: Queue)
    requires Inv(q) && q.calling && q.todo == [] && q.done != [] && Current(q.heap, q.done[0])
    ensures OneReset(q, ResetOne(q), q.done[0])
  {
    hide Inv, InsertEntry;
    var e := q.done[0];
    var q' := ResetOne(q);
    if Repeats(q, e) {
      InsertEntryMembers(q.timers, Entry(q.now + q.heap[e.timer].delta, e.timer));
    } else {
      assert q'.freed[|q.freed|] == q.heap[e.timer].sequence;
    }
  }

  lemma WasResetHead(q: Queue, q1: Queue, q': Queue, e: Entry)
    requires e.timer in q.heap && OneReset(q, q1, e) && q1.freed <= q'.freed
    requires e.timer in q1.heap ==> Unaffected(q1, q', e.timer)
    ensures WasReset(q, q', e)
  {
  }

  lemma WasResetTail(q: Queue, q1: Queue, q': Queue, e: Entry, x: Entry)
    requires e.timer in q.heap && OneReset(q, q1, e) && x.timer in q.heap && x.timer != e.timer
    requires x.timer in q1.heap && WasReset(q1, q', x)
    ensures WasReset(q, q', x)
  {
    assert Unaffected(q, q1, x.timer);
  }

  lemma UnaffectedTwice(q: Queue, q1: Queue, q': Queue, e: Entry, a: Addr)
    requires e.timer in q.heap && OneReset(q, q1, e) && a in q.heap && a != e.timer
    requires a in q1.heap ==> Unaffected(q1, q', a)
    ensures Unaffected(q, q', a)
  {
    assert Unaffected(q, q1, a);
  }

  /** All iterations. */
  predicate AllReset(q: Queue, q': Queue)
  {
    && q.freed <= q'.freed
    && (forall e :: e in q.done ==> Current(q.heap, e) && WasReset(q, q', e))
    && (forall a :: a in q.heap && NoEntry(a, q.done) ==> Unaffected(q, q', a))
  }

  lemma AllResetStep(q: Queue, q1: Queue, q': Queue)
    requires q.done != [] && Current(q.heap, q.done[0])
    requires (forall e :: e in q.done ==> Current(q.heap, e)) && (forall e :: e in q1.done ==> Current(q1.heap, e))
    requires q1.done == q.done[1..] && NoEntry(q.done[0].timer, q1.done)
    requires OneReset(q, q1, q.done[0]) && AllReset(q1, q')
    ensures AllReset(q, q')
  {
    var e := q.done[0];
    assert q.done == [e] + q1.done;
    hide OneReset, WasReset, Unaffected;
    forall x | x in q.done
      ensures Current(q.heap, x) && WasReset(q, q', x)
    {
      if x == e { WasResetHead(q, q1, q', e); } else { WasResetTail(q, q1, q', e, x); }
    }
    forall a | a in q.heap && NoEntry(a, q.done)
      ensures Unaffected(q, q', a)
    {
      UnaffectedTwice(q, q1, q', e, a);
    }
    assert q.freed <= q1.freed <= q'.freed by { FreedGrows(q, q1, e); }
  }

  lemma FreedGrows(q: Queue, q1: Queue, e: Entry)
    requires e.timer in q.heap && OneReset(q, q1, e)
    ensures q.freed <= q1.freed
  {
  }

  lemma {:induction false} ResetAllOutcome(q: Queue)
    requires Inv(q) && q.calling && q.todo == []
    ensures AllReset(q, ResetAll(q))
    decreases |q.done|
  {
    hide Inv;
    DoneCurrent(q);
    if q.done != [] {
      ResetOneInv(q);
      ResetOneOutcome(q);
      var q1 := ResetOne(q);
      DoneCurrent(q1);
      DoneDistinct(q);
      ResetAllOutcome(q1);
      hide AllReset, OneReset;
      AllResetStep(q, q1, ResetAll(q1));
    }
  }

  lemma DoneCurrent(q: Queue)
    requires Inv(q)
    ensures forall e :: e in q.done ==> Current(q.heap, e)
  {
    hide Indexed, Placed, Sequenced, Due, Watched, Issued;
    assert forall e :: e in q.done ==> e in Batch(q);
  }

  lemma DoneDistinct(q: Queue)
    requires Inv(q) && q.todo == [] && q.done != []
    ensures NoEntry(q.done[0].timer, q.done[1..])
  {
    assert Batch(q) == q.done;
    LeaveBatchNoEntry(q.heap, q.timers, q.active, q.queued, q.done);
  }

  /** The end of a batch, for every timer that was live when it ended. */
  lemma ResetOutcome(q: Queue)
    requires Inv(q) && q.calling && q.todo == []
    ensures AllReset(q, Apply(q, Reset))
  {
    hide Inv, ResetAll, Max;
    ResetAllOutcome(q);
    var q1, q' := ResetAll(q), Apply(q, Reset);
    assert q'.heap == q1.heap && q'.timers == q1.timers && q'.freed == q1.freed;
  }

  /** A one-shot timer that has run is leaving: it is among the batch entries already run, or deleted. */
  predicate RunsOnce(q: Queue, s: nat) {
    && 1 <= s <= q.created
    && Calls(q, s) <= 1
    && (forall a :: a in q.heap && q.heap[a].sequence == s ==>
          !q.heap[a].repeat && (Calls(q, s) == 1 ==> EntryOf(q.heap, a) in q.done))
  }

  lemma UntouchedRunsOnce(q: Queue, q': Queue, s: nat)
    requires BatchUntouched(q, q') && RunsOnce(q, s)
    ensures RunsOnce(q', s)
  {
  }

  lemma CallNextRunsOnce(q: Queue, s: nat)
    requires Inv(q) && RunsOnce(q, s) && q.todo != []
    ensures RunsOnce(Apply(q, RunNext), s)
  {
    var e := q.todo[0];
    CallNextInv(q);
    assert e in Batch(q);
    BatchCurrent(q, e);
    RunOnce(q);
    LiveSequence(q.heap, q.created, q.freed, e.timer);
    hide Inv;
    var q' := CallNext(q);
    assert Calls(q', s) == Calls(q, s) + (if q.heap[e.timer].sequence == s then 1 else 0);
    assert e in q'.done && forall x :: x in q.done ==> x in q'.done;
  }

  lemma BatchCurrent(q: Queue, e: Entry)
    requires Inv(q) && e in Batch(q)
    ensures Current(q.heap, e)
  {
    hide Indexed, Placed, Sequenced, Due, Watched, Issued;
  }

  lemma CollectRunsOnce(q: Queue, s: nat)
    requires Inv(q) && RunsOnce(q, s) && !q.calling
    ensures RunsOnce(Collect(q), s)
  {
    hide Indexed, Batched, Placed, Sequenced, Watched, Issued, LowerBound;
    assert q.done == [] by { assert q.done <= Batch(q); }
  }

  lemma {:induction false} ResetAllRunsOnce(q: Queue, s: nat)
    requires Inv(q) && q.calling && q.todo == [] && RunsOnce(q, s)
    ensures RunsOnce(ResetAll(q), s)
    decreases |q.done|
  {
    hide Inv;
    if q.done != [] {
      ResetOneInv(q);
      ResetOneRunsOnce(q, s);
      hide RunsOnce, ResetOne;
      ResetAllRunsOnce(ResetOne(q), s);
    }
  }

  lemma ResetOneRunsOnce(q: Queue, s: nat)
    requires q.todo == [] && q.done != [] && Current(q.heap, q.done[0]) && RunsOnce(q, s)
    ensures RunsOnce(ResetOne(q), s)
  {
    hide InsertEntry;
    var q', e := ResetOne(q), q.done[0];
    assert q.done == [e] + q.done[1..];
    forall a | a in q'.heap && q'.heap[a].sequence == s
      ensures !q'.heap[a].repeat && (Calls(q', s) == 1 ==> EntryOf(q'.heap, a) in q'.done)
    {
      assert a in q.heap && q.heap[a].sequence == s && !q.heap[a].repeat;
      assert a != e.timer;
    }
  }

  lemma RunsOnceStep(q: Queue, step: Step, s: nat)
    requires Inv(q) && RunsOnce(q, s)
    ensures RunsOnce(Apply(q, step), s)
  {
    hide Inv, Collect, ResetAll;
    if step.CollectExpired? {
      if !q.calling { CollectRunsOnce(q, s); }
    } else if step.RunNext? {
      if q.todo != [] { CallNextRunsOnce(q, s); }
    } else if step.Reset? {
      if q.calling && q.todo == [] {
        hide Max;
        ResetAllRunsOnce(q, s);
      }
    } else {
      hide Apply, RunsOnce, BatchUntouched;
      ApplyUntouched(q, step);
      UntouchedRunsOnce(q, Apply(q, step), s);
    }
  }

  lemma {:induction false} RunsOnceRun(q: Queue, steps: seq<Step>, s: nat)
    requires Inv(q) && RunsOnce(q, s)
    ensures RunsOnce(Exec(q, steps), s)
    decreases |steps|
  {
    if steps != [] {
      hide Inv, RunsOnce, Apply;
      ApplyInv(q, steps[0]);
      RunsOnceStep(q, steps[0], s);
      RunsOnceRun(Apply(q, steps[0]), steps[1..], s);
    }
  }

  /** The callback of a timer created without an interval runs at most once, whatever happens. */
  lemma OneShotRunsAtMostOnce(q: Queue, addr: Addr, when: int, delta: nat, steps: seq<Step>)
    requires Inv(q) && 0 < addr < UINTPTR_MAX && addr !in q.heap
    ensures Calls(Exec(q, [Create(addr, when, delta, false)] + steps), q.created + 1) <= 1
  {
    var step := Create(addr, when, delta, false);
    ApplyInv(q, step);
    assert ([step] + steps)[1..] == steps;
    FreshRunsOnce(q, addr, when, delta);
    hide Inv, CreateTimer;
    RunsOnceRun(CreateTimer(q, addr, when, delta, false), steps, q.created + 1);
  }

  lemma FreshRunsOnce(q: Queue, addr: Addr, when: int, delta: nat)
    requires Inv(q) && addr !in q.heap
    ensures RunsOnce(CreateTimer(q, addr, when, delta, false), q.created + 1)
  {
    hide Indexed, Batched, Placed, Due, Watched, NoDup, Live;
    assert q.created + 1 !in q.calls;
  }
}
