/** When callbacks run, told by the arguments with which their timers were created, and what a batch and its end do to
    the record of callbacks and to the timerfd (muduo/net/TimerQueue.cc, muduo/net/Timer.h). */
module TimerSchedule {
  import opened Common
  import opened Timers
  import opened TimerRuns

  /** What a caller asks for. */
  datatype Plan = Plan(when: int, delta: nat, repeat: bool)

  /** The k-th interval after the first time. */
  function Nth(p: Plan, k: nat): int {
    p.when + k * p.delta
  }

  lemma NthStep(p: Plan, k: nat)
    ensures Nth(p, k + 1) == Nth(p, k) + p.delta && Nth(p, k) >= p.when && Nth(p, 0) == p.when
  {
    assert (k + 1) * p.delta == k * p.delta + p.delta;
    assert k * p.delta >= 0;
  }

  /** After k calls, a timer that waits for another one is not due before the k-th interval, and exactly at the time
      asked for if it has not run yet. */
  predicate DueAfter(p: Plan, k: nat, expiration: int) {
    Nth(p, k) <= expiration && (k == 0 ==> expiration == p.when)
  }

  predicate TimerOnPlan(p: Plan, k: nat, called: bool, t: Timer) {
    && t.delta == p.delta && t.repeat == p.repeat
    && (if called then k >= 1 && DueAfter(p, k - 1, t.expiration) else DueAfter(p, k, t.expiration))
  }

  /** The timer numbered s, as long as it lives, is what its creator asked for. */
  predicate OnPlan(q: Queue, s: nat, p: Plan) {
    && 1 <= s <= q.created
    && (forall a :: a in q.heap && q.heap[a].sequence == s ==>
          TimerOnPlan(p, Calls(q, s), EntryOf(q.heap, a) in q.done, q.heap[a]))
  }

  lemma UntouchedOnPlan(q: Queue, q': Queue, s: nat, p: Plan)
    requires BatchUntouched(q, q') && OnPlan(q, s, p)
    ensures OnPlan(q', s, p)
  {
    hide TimerOnPlan;
  }

  /** The timer whose callback is next has not been called in this batch, and no other has its number. */
  lemma HeadOfBatch(q: Queue)
    requires Inv(q) && q.todo != []
    ensures var e := q.todo[0];
            && Current(q.heap, e) && e !in q.done
            && (forall a :: a in q.heap && a != e.timer ==> q.heap[a].sequence != q.heap[e.timer].sequence)
  {
    var e := q.todo[0];
    assert e in Batch(q);
    BatchCurrent(q, e);
    RunOnce(q);
    hide Indexed, Batched, Placed, Due, Watched, Issued;
  }

  lemma CalledOnPlan(p: Plan, k: nat, t: Timer)
    requires TimerOnPlan(p, k, false, t)
    ensures TimerOnPlan(p, k + 1, true, t)
  {
  }

  lemma CallNextEffect(q: Queue, s: nat)
    requires Inv(q) && q.todo != [] && Current(q.heap, q.todo[0])
    ensures var q', e := Apply(q, RunNext), q.todo[0];
            && q'.heap == q.heap && q'.created == q.created
            && (forall x :: x in q'.done <==> x in q.done || x == e)
            && Calls(q', s) == Calls(q, s) + (if q.heap[e.timer].sequence == s then 1 else 0)
  {
    hide Inv;
  }

  lemma CallNextOnPlan(q: Queue, s: nat, p: Plan)
    requires Inv(q) && OnPlan(q, s, p) && q.todo != []
    ensures OnPlan(Apply(q, RunNext), s, p)
  {
    hide Inv, TimerOnPlan, Apply, Calls;
    HeadOfBatch(q);
    CallNextEffect(q, s);
    var q', e := Apply(q, RunNext), q.todo[0];
    forall a | a in q'.heap && q'.heap[a].sequence == s
      ensures TimerOnPlan(p, Calls(q', s), EntryOf(q'.heap, a) in q'.done, q'.heap[a])
    {
      if a == e.timer {
        CalledOnPlan(p, Calls(q, s), q.heap[a]);
      }
    }
  }

  lemma CollectOnPlan(q: Queue, s: nat, p: Plan)
    requires Inv(q) && OnPlan(q, s, p) && !q.calling
    ensures OnPlan(Collect(q), s, p)
  {
    hide Indexed, Batched, Placed, Sequenced, Watched, Issued, LowerBound, TimerOnPlan;
    assert q.done == [] by { assert q.done <= Batch(q); }
  }

  /** A timer that is restarted is due one interval after the batch, so one interval later than before at least. */
  lemma RestartOnPlan(p: Plan, k: nat, t: Timer, now: int)
    requires TimerOnPlan(p, k, true, t) && t.expiration <= now
    ensures TimerOnPlan(p, k, false, t.(expiration := now + t.delta))
  {
    NthStep(p, k - 1);
    hide Nth;
  }

  lemma ResetOneEffect(q: Queue)
    requires q.done != [] && q.done[0].timer in q.heap
    ensures var q', e := ResetOne(q), q.done[0];
            && q'.calls == q.calls && q'.created == q.created && q'.done == q.done[1..]
            && (forall a :: a in q'.heap && a != e.timer ==> a in q.heap && q'.heap[a] == q.heap[a])
            && (e.timer in q'.heap ==>
                  q'.heap[e.timer] == q.heap[e.timer].(expiration := q.now + q.heap[e.timer].delta))
  {
    hide InsertEntry;
  }

  lemma ResetOneOnPlan(q: Queue, s: nat, p: Plan)
    requires Inv(q) && q.calling && q.todo == [] && q.done != [] && Current(q.heap, q.done[0]) && OnPlan(q, s, p)
    ensures OnPlan(ResetOne(q), s, p)
  {
    var q', e := ResetOne(q), q.done[0];
    hide Inv, ResetOne;
    ResetOneEffect(q);
    DoneDistinct(q);
    assert e in Batch(q);
    DueNow(q, e);
    forall a | a in q'.heap && q'.heap[a].sequence == s
      ensures TimerOnPlan(p, Calls(q', s), EntryOf(q'.heap, a) in q'.done, q'.heap[a])
    {
      if a == e.timer {
        RestartedOnPlan(q, s, p, q'.heap[a]);
        assert EntryOf(q'.heap, a) !in q'.done;
      } else {
        OthersOnPlan(q, s, p, a);
      }
    }
  }

  lemma RestartedOnPlan(q: Queue, s: nat, p: Plan, t: Timer)
    requires q.done != [] && Current(q.heap, q.done[0]) && q.done[0].when <= q.now && OnPlan(q, s, p)
    requires q.heap[q.done[0].timer].sequence == s
    requires t == q.heap[q.done[0].timer].(expiration := q.now + q.heap[q.done[0].timer].delta)
    ensures TimerOnPlan(p, Calls(q, s), false, t)
  {
    var e := q.done[0];
    assert EntryOf(q.heap, e.timer) == e && e in q.done;
    RestartOnPlan(p, Calls(q, s), q.heap[e.timer], q.now);
  }

  lemma OthersOnPlan(q: Queue, s: nat, p: Plan, a: Addr)
    requires q.done != [] && a in q.heap && a != q.done[0].timer && q.heap[a].sequence == s && OnPlan(q, s, p)
    ensures TimerOnPlan(p, Calls(q, s), EntryOf(q.heap, a) in q.done[1..], q.heap[a])
  {
    assert q.done == [q.done[0]] + q.done[1..];
    hide TimerOnPlan;
  }

  lemma DueNow(q: Queue, e: Entry)
    requires Inv(q) && e in Batch(q)
    ensures e.when <= q.now <= q.clock
  {
    hide Indexed, Batched, Placed, Sequenced, Watched, Issued;
  }

  lemma {:induction false} ResetAllOnPlan(q: Queue, s: nat, p: Plan)
    requires Inv(q) && q.calling && q.todo == [] && OnPlan(q, s, p)
    ensures OnPlan(ResetAll(q), s, p)
    decreases |q.done|
  {
    hide Inv;
    if q.done != [] {
      ResetOneInv(q);
      ResetOneOnPlan(q, s, p);
      hide OnPlan, ResetOne;
      ResetAllOnPlan(ResetOne(q), s, p);
    }
  }

  lemma FinishOnPlan(q: Queue, s: nat, p: Plan)
    requires OnPlan(q, s, p)
    ensures OnPlan(FinishReset(q), s, p)
  {
    hide Max, TimerOnPlan;
  }

  lemma OnPlanStep(q: Queue, step: Step, s: nat, p: Plan)
    requires Inv(q) && OnPlan(q, s, p)
    ensures OnPlan(Apply(q, step), s, p)
  {
    hide Inv, Collect, ResetAll, FinishReset, OnPlan, BatchUntouched;
    match step
    case CollectExpired => if !q.calling { CollectOnPlan(q, s, p); }
    case RunNext => if q.todo != [] { CallNextOnPlan(q, s, p); }
    case Reset =>
      if q.calling && q.todo == [] {
        ResetAllOnPlan(q, s, p);
        FinishOnPlan(ResetAll(q), s, p);
      }
    case _ =>
      hide Apply;
      ApplyUntouched(q, step);
      UntouchedOnPlan(q, Apply(q, step), s, p);
  }

  lemma {:induction false} OnPlanRun(q: Queue, steps: seq<Step>, s: nat, p: Plan)
    requires Inv(q) && OnPlan(q, s, p)
    ensures OnPlan(Exec(q, steps), s, p)
    decreases |steps|
  {
    if steps != [] {
      hide Inv, OnPlan, Apply;
      ApplyInv(q, steps[0]);
      OnPlanStep(q, steps[0], s, p);
      OnPlanRun(Apply(q, steps[0]), steps[1..], s, p);
    }
  }

  lemma FreshOnPlan(q: Queue, addr: Addr, p: Plan)
    requires Inv(q) && 0 < addr < UINTPTR_MAX && addr !in q.heap
    ensures OnPlan(Apply(q, Create(addr, p.when, p.delta, p.repeat)), q.created + 1, p)
  {
    hide Indexed, Batched, Placed, Due, Watched, NoDup, Live;
    assert q.created + 1 !in q.calls;
    var q' := Apply(q, Create(addr, p.when, p.delta, p.repeat));
    assert q'.done == q.done && Calls(q', q.created + 1) == 0;
    DoneCurrent(q);
    NthStep(p, 0);
    hide Nth;
  }

  /** The number of the timer whose callback is next. */
  predicate RunsNext(q: Queue, s: nat) {
    q.todo != [] && q.todo[0].timer in q.heap && q.heap[q.todo[0].timer].sequence == s
  }

  lemma TodoNotDone(q: Queue, e: Entry)
    requires Inv(q) && e in q.todo
    ensures e !in q.done && e in Batch(q) && Current(q.heap, e) && EntryOf(q.heap, e.timer) == e
  {
    hide Indexed, Placed, Sequenced, Watched, Issued, Due;
    var j :| 0 <= j < |q.todo| && q.todo[j] == e;
    assert Batch(q)[|q.done| + j] == e;
    assert forall i :: 0 <= i < |q.done| ==> q.done[i] == Batch(q)[i];
  }

  /** Whatever else happens, a timer keeps to what its creator asked for. Its callback is in no batch before the clock
      reaches `when`; until it has run its expiration is `when`; and when it is about to run for the (k + 1)-th time, at
      least k intervals have passed since then. */
  lemma RunsOnSchedule(q: Queue, addr: Addr, when: int, delta: nat, repeat: bool, steps: seq<Step>)
    requires Inv(q) && 0 < addr < UINTPTR_MAX && addr !in q.heap
    ensures var q' := Exec(q, [Create(addr, when, delta, repeat)] + steps);
            var s, k := q.created + 1, Calls(q', q.created + 1);
            && (InTodo(q', s) ==> when + k * delta <= q'.now <= q'.clock)
            && (RunsNext(q', s) ==> InTodo(q', s))
            && (forall a :: a in q'.heap && q'.heap[a].sequence == s ==>
                  && q'.heap[a].repeat == repeat && q'.heap[a].delta == delta
                  && (k == 0 ==> q'.heap[a].expiration == when))
  {
    var p, step := Plan(when, delta, repeat), Create(addr, when, delta, repeat);
    assert ([step] + steps)[1..] == steps;
    ApplyInv(q, step);
    FreshOnPlan(q, addr, p);
    hide Inv, Apply, OnPlan;
    OnPlanRun(Apply(q, step), steps, q.created + 1, p);
    PlanTells(Exec(q, [step] + steps), q.created + 1, p);
  }

  lemma PlanTells(q: Queue, s: nat, p: Plan)
    requires Inv(q) && OnPlan(q, s, p)
    ensures InTodo(q, s) ==> p.when + Calls(q, s) * p.delta <= q.now <= q.clock
    ensures RunsNext(q, s) ==> InTodo(q, s)
    ensures forall a :: a in q.heap && q.heap[a].sequence == s ==>
              q.heap[a].repeat == p.repeat && q.heap[a].delta == p.delta &&
              (Calls(q, s) == 0 ==> q.heap[a].expiration == p.when)
  {
    if InTodo(q, s) {
      var e :| e in q.todo && e.timer in q.heap && q.heap[e.timer].sequence == s;
      TodoNotDone(q, e);
      DueNow(q, e);
    }
    hide Inv;
  }

  lemma CollectedIsDue(q: Queue, e: Entry)
    requires Inv(q) && !q.calling && e in Collect(q).todo
    ensures e.timer in q.heap && e.timer !in q.queued && q.heap[e.timer].expiration <= q.clock
  {
    hide Inv, Collect;
    CollectSplits(q);
    EntriesCurrent(q);
    assert e in q.timers;
    OnePlace(q, e.timer);
  }

  lemma DueIsCollected(q: Queue, a: Addr)
    requires Inv(q) && !q.calling && a in q.heap && a !in q.queued && q.heap[a].expiration <= q.clock
    ensures EntryOf(q.heap, a) in Collect(q).todo
  {
    hide Inv, Collect;
    CollectSplits(q);
    OnePlace(q, a);
  }

  /** A batch takes exactly the inserted timers whose time has come. */
  lemma CollectedExactly(q: Queue, s: nat)
    requires Inv(q) && !q.calling
    ensures InTodo(Apply(q, CollectExpired), s) <==>
            exists a :: a in q.heap && q.heap[a].sequence == s && a !in q.queued && q.heap[a].expiration <= q.clock
  {
    hide Inv, LowerBound;
    var q' := Collect(q);
    assert Apply(q, CollectExpired) == q' && q'.heap == q.heap;
    hide Collect, Apply;
    forall e | e in q'.todo
      ensures e.timer in q.heap && e.timer !in q.queued && q.heap[e.timer].expiration <= q.clock
    {
      CollectedIsDue(q, e);
    }
    forall a | a in q.heap && a !in q.queued && q.heap[a].expiration <= q.clock
      ensures EntryOf(q.heap, a) in q'.todo
    {
      DueIsCollected(q, a);
    }
  }

  /** So, once inserted, a timer that has not run is in the first batch collected at or after `when`, and in none
      before. */
  lemma RunsInFirstBatch(q: Queue, addr: Addr, when: int, delta: nat, repeat: bool, steps: seq<Step>)
    requires Inv(q) && 0 < addr < UINTPTR_MAX && addr !in q.heap
    ensures var q' := Exec(q, [Create(addr, when, delta, repeat)] + steps);
            var s := q.created + 1;
            !q'.calling && Calls(q', s) == 0 && IsInserted(q', s) ==>
              (InTodo(Apply(q', CollectExpired), s) <==> when <= q'.clock)
  {
    RunsOnSchedule(q, addr, when, delta, repeat, steps);
    var q' := Exec(q, [Create(addr, when, delta, repeat)] + steps);
    if !q'.calling {
      CollectedExactly(q', q.created + 1);
    }
    hide Inv, Apply, Exec;
  }

  /** Live, and in the sets or in the batch. */
  predicate IsInserted(q: Queue, s: nat) {
    exists a :: a in q.heap && q.heap[a].sequence == s && a !in q.queued
  }

  // ----- The batch -----

  /** The numbers of the timers of these entries. */
  function Numbers(heap: Heap, entries: seq<Entry>): seq<nat>
    requires forall e :: e in entries ==> e.timer in heap
  {
    if entries == [] then [] else [heap[entries[0].timer].sequence] + Numbers(heap, entries[1..])
  }

  lemma {:induction false} SameNumbers(heap: Heap, heap': Heap, entries: seq<Entry>)
    requires forall e :: e in entries ==> e.timer in heap && e.timer in heap' && heap'[e.timer] == heap[e.timer]
    ensures Numbers(heap', entries) == Numbers(heap, entries)
  {
    if entries != [] {
      assert entries[0] in entries;
      SameNumbers(heap, heap', entries[1..]);
    }
  }

  /** The callbacks run so far and those still to run in this batch. */
  function CallsToBe(q: Queue): seq<nat>
    requires Inv(q)
  {
    TodoIsLive(q);
    q.calls + Numbers(q.heap, q.todo)
  }

  lemma NumbersHead(q: Queue)
    requires q.todo != [] && forall e :: e in q.todo ==> e.timer in q.heap
    ensures var q' := CallNext(q);
            && (forall e :: e in q'.todo ==> e.timer in q'.heap) && q'.calling == q.calling
            && q'.calls + Numbers(q'.heap, q'.todo) == q.calls + Numbers(q.heap, q.todo)
  {
    var n, more := q.heap[q.todo[0].timer].sequence, Numbers(q.heap, q.todo[1..]);
    assert q.calls + ([n] + more) == q.calls + [n] + more;
  }

  lemma CallNextCallsToBe(q: Queue)
    requires Inv(q) && q.calling && q.todo != []
    ensures var q' := Apply(q, RunNext); Inv(q') && q'.calling && CallsToBe(q') == CallsToBe(q)
  {
    hide Inv, CallNext, Numbers;
    ApplyInv(q, RunNext);
    TodoIsLive(q);
    NumbersHead(q);
  }

  lemma CallsToBeStep(q: Queue, step: Step)
    requires Inv(q) && q.calling && !step.Reset?
    ensures Inv(Apply(q, step)) && Apply(q, step).calling && CallsToBe(Apply(q, step)) == CallsToBe(q)
  {
    var q' := Apply(q, step);
    hide Inv;
    ApplyInv(q, step);
    if step.RunNext? {
      if q.todo != [] {
        hide CallsToBe;
        CallNextCallsToBe(q);
      }
    } else if !step.CollectExpired? {
      hide Apply;
      TodoIsLive(q);
      ApplyUntouched(q, step);
      StaysCalling(q, step);
      assert forall e :: e in q.todo ==> e in Batch(q);
      SameNumbers(q.heap, q'.heap, q.todo);
    }
  }

  lemma StaysCalling(q: Queue, step: Step)
    requires Inv(q) && (step.Create? || step.AddInLoop? || step.CancelInLoop? || step.Tick?)
    ensures Apply(q, step).calling == q.calling
  {
    hide Inv, InsertEntry, EraseEntry, Max;
  }

  /** Whatever callbacks and other threads do meanwhile, a batch runs the callbacks of all its entries, in their order:
      when nothing is left to run, exactly their numbers have been added to the record. */
  lemma {:induction false} BatchRunsInOrder(q: Queue, steps: seq<Step>)
    requires Inv(q) && q.calling && Reset !in steps
    ensures CallsToBe(Exec(q, steps)) == CallsToBe(q)
    ensures Exec(q, steps).todo == [] ==> Exec(q, steps).calls == CallsToBe(q)
    decreases |steps|
  {
    if steps == [] {
    } else {
      assert steps[0] in steps;
      CallsToBeStep(q, steps[0]);
      hide Inv, Apply, CallsToBe;
      BatchRunsInOrder(Apply(q, steps[0]), steps[1..]);
    }
    EmptyTodo(Exec(q, steps));
  }

  lemma EmptyTodo(q: Queue)
    requires Inv(q)
    ensures q.todo == [] ==> q.calls == CallsToBe(q)
  {
    hide Inv;
  }

  // ----- The timerfd -----

  /** Set for the given time, but not sooner than 100 microseconds from now. */
  function SetFor(when: int, clock: int): TimerFd {
    Armed(if when >= clock + 100 then when else clock + 100, clock)
  }

  function FdAfter(q: Queue, step: Step, q': Queue): TimerFd {
    match step
    case Tick(_) => if q.fd.Armed? && q.fd.deadline <= q'.clock then Readable else q.fd
    case AddInLoop(a) =>
      if a in q.queued && a in q.heap && (q.timers == [] || q.heap[a].expiration < q.timers[0].when)
      then SetFor(q.heap[a].expiration, q.clock) else q.fd
    case CollectExpired => if !q.calling && q.fd.Readable? then Disarmed else q.fd
    case Reset =>
      if q.calling && q.todo == [] && q'.timers != [] && q'.timers[0].when > 0
      then SetFor(q'.timers[0].when, q.clock) else q.fd
    case _ => q.fd
  }

  lemma AddSetsTimerfd(q: Queue, a: Addr)
    requires Inv(q)
    ensures var q' := Apply(q, AddInLoop(a)); q'.clock == q.clock && q'.fd == FdAfter(q, AddInLoop(a), q')
  {
    hide Inv, InsertEntry, AddTimer;
    if a in q.queued {
      QueuedIsLive(q, a);
      AddTimerShape(q, a);
    }
  }

  lemma FinishSetsTimerfd(q: Queue)
    ensures var q' := FinishReset(q);
            && q'.clock == q.clock && q'.timers == q.timers
            && q'.fd == if q.timers != [] && q.timers[0].when > 0 then SetFor(q.timers[0].when, q.clock) else q.fd
  {
  }

  lemma ResetSetsTimerfd(q: Queue)
    requires Inv(q)
    ensures var q' := Apply(q, Reset); q'.clock == q.clock && q'.fd == FdAfter(q, Reset, q')
  {
    hide Inv, ResetAll, FinishReset, SetFor;
    if q.calling && q.todo == [] {
      ResetAllKeepsFd(q);
      FinishSetsTimerfd(ResetAll(q));
    }
  }

  lemma CancelKeepsTimerfd(q: Queue, id: TimerId)
    requires Inv(q)
    ensures Cancel(q, id).fd == q.fd && Cancel(q, id).clock == q.clock
  {
    hide Inv, EraseEntry;
  }

  /** The timerfd after each step: time makes it readable, reading disarms it, and it is set anew when an insertion
      changes the earliest expiration, and at the end of a batch if the earliest expiration is positive. */
  lemma TimerfdExactly(q: Queue, step: Step)
    requires Inv(q)
    ensures var q' := Apply(q, step);
            && q'.clock == (if step.Tick? && step.time > q.clock then step.time else q.clock)
            && q'.fd == FdAfter(q, step, q')
  {
    match step
    case AddInLoop(a) =>
      hide Apply;
      AddSetsTimerfd(q, a);
    case Reset =>
      hide Apply;
      ResetSetsTimerfd(q);
    case CancelInLoop(id) =>
      hide Cancel;
      CancelKeepsTimerfd(q, id);
    case _ => hide Inv, LowerBound, CreateTimer;
  }

  lemma {:induction false} ResetAllKeepsFd(q: Queue)
    requires Inv(q) && q.calling && q.todo == []
    ensures ResetAll(q).fd == q.fd && ResetAll(q).clock == q.clock
    decreases |q.done|
  {
    hide Inv;
    if q.done != [] {
      ResetOneInv(q);
      ResetAllKeepsFd(ResetOne(q));
    }
  }
}
