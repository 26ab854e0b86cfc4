/** The TimerQueue object itself (muduo/net/TimerQueue.cc): its methods, statement by statement, carry out the
    steps of module Timers. Reading a deleted timer or deleting one twice would be an access outside `heap`. */
module TimerQueues {
  import opened Common
  import opened Timers
  import opened TimerRuns
  import opened TimerSchedule

  class TimerQueue {
    var heap: map<Addr, Timer>
    var timers: seq<Entry>
    var active: set<TimerId>
    var canceling: set<TimerId>
    var calling: bool
    var queued: set<Addr>
    var created: nat
    var fd: TimerFd
    var clock: int
    ghost var done: seq<Entry>
    ghost var todo: seq<Entry>
    ghost var now: int
    ghost var calls: seq<nat>
    ghost var freed: seq<nat>

    ghost function State(): Queue
      reads this
    {
      Queue(heap, timers, active, canceling, calling, done, todo, now, queued, created, fd, clock, calls, freed)
    }

    constructor (clock: int)
      requires clock > 0
      ensures State() == Init(clock) && Inv(State())
    {
      heap, timers, active, canceling, calling, created, fd := map[], [], {}, {}, false, 0, Disarmed;
      done, todo, queued, calls, freed := [], [], {}, [], [];
      now, this.clock := clock, clock;
      new;
      InitInv(clock);
    }

    /** addTimer: the object is created in the calling thread, with what the caller asks for; addTimerInLoop runs
        later or at once. */
    method NewTimer(addr: Addr, when: int, delta: nat, repeat: bool) returns (id: TimerId)
      requires Inv(State()) && 0 < addr < UINTPTR_MAX && addr !in heap
      modifies this
      ensures Inv(State()) && State() == CreateTimer(old(State()), addr, when, delta, repeat)
      ensures id == TimerId(addr, old(created) + 1)
      ensures heap == old(heap)[addr := Timer(when, delta, repeat, id.sequence)] && addr in queued
      ensures OnPlan(State(), id.sequence, Plan(when, delta, repeat))
    {
      hide Inv, OnPlan;
      FreshOnPlan(State(), addr, Plan(when, delta, repeat));
      CreateTimerInv(State(), addr, when, delta, repeat);
      created := created + 1;
      heap := heap[addr := Timer(when, delta, repeat, created)];
      queued := queued + {addr};
      id := TimerId(addr, created);
    }

    method InsertTimer(addr: Addr) returns (earliestChanged: bool)
      requires addr in heap && EntryOf(heap, addr) !in timers && IdOf(heap, addr) !in active && |timers| == |active|
      modifies this`timers, this`active
      ensures State() == Insert(old(State()), addr) && |timers| == |active|
      ensures earliestChanged <==> EarliestChanged(old(State()), heap[addr].expiration)
    {
      hide InsertEntry;
      earliestChanged := false;
      var when := heap[addr].expiration;
      if timers == [] || when < timers[0].when {
        earliestChanged := true;
      }
      InsertEntryMembers(timers, Entry(when, addr));
      timers := InsertEntry(timers, Entry(when, addr));
      active := active + {TimerId(addr, heap[addr].sequence)};
    }

    method ResetTimerfd(expiration: int)
      modifies this`fd
      ensures State() == Arm(old(State()), expiration)
      ensures fd == SetFor(expiration, clock)
    {
      var microseconds := expiration - clock;
      if microseconds < 100 {
        microseconds := 100;
      }
      fd := Armed(clock + microseconds, clock);
    }

    method AddTimerInLoop(addr: Addr)
      requires Inv(State()) && addr in queued
      modifies this
      ensures Inv(State()) && State() == AddTimer(old(State()), addr)
    {
      AddTimerInv(State(), addr);
      QueuedIsLive(State(), addr);
      SetsAgree(State());
      ghost var before := State();
      hide Inv, InsertEntry;
      queued := queued - {addr};
      var earliestChanged := InsertTimer(addr);
      if earliestChanged {
        ResetTimerfd(heap[addr].expiration);
      }
    }

    method CancelInLoop(id: TimerId)
      requires Inv(State())
      modifies this
      ensures Inv(State()) && State() == Cancel(old(State()), id)
    {
      hide Inv, EraseEntry;
      CancelInv(State(), id);
      SetsAgree(State());
      if id in active {
        assert EntryOf(heap, id.timer) in timers;
        timers := EraseEntry(timers, Entry(heap[id.timer].expiration, id.timer));
        freed := freed + [heap[id.timer].sequence];
        heap := heap - {id.timer};
        active := active - {id};
      } else if calling {
        canceling := canceling + {id};
      }
      SetsAgree(State());
      assert |timers| == |active|;
    }

    /** Moves the due entries out of both sets. */
    method GetExpired(time: int) returns (expired: seq<Entry>)
      requires Inv(State()) && !calling && time == clock
      modifies this`timers, this`active
      ensures expired == Collect(old(State())).todo
      ensures timers == Collect(old(State())).timers && active == Collect(old(State())).active
    {
      hide Inv, LowerBound;
      ghost var q, timers0, active0 := State(), timers, active;
      CollectLive(q);
      var sentry := Entry(time, UINTPTR_MAX);
      var end := LowerBound(timers, sentry);
      expired := timers[..end];
      timers := timers[end..];
      var i := 0;
      while i < |expired|
        invariant 0 <= i <= |expired|
        invariant timers == timers0[end..] && active == active0 - Ids(heap, expired[..i])
      {
        assert expired[i] in expired;
        var timer := TimerId(expired[i].timer, heap[expired[i].timer].sequence);
        active := active - {timer};
        IdsSnoc(heap, expired, i);
        i := i + 1;
      }
      assert expired[..i] == expired;
    }

    /** Time passes while callbacks run. */
    method AdvanceClock(time: int)
      requires Inv(State())
      modifies this`clock, this`fd
      ensures Inv(State()) && State() == Advance(old(State()), time)
    {
      AdvanceInv(State(), time);
      hide Inv;
      if clock < time {
        clock := time;
      }
      if fd.Armed? && fd.deadline <= clock {
        fd := Readable;
      }
    }

    /** One thing that a callback does to the queue. */
    method Perform(step: Step)
      requires Inv(State()) && CallbackStep(step)
      modifies this
      ensures Inv(State()) && State() == Apply(old(State()), step)
    {
      hide Inv, CreateTimer, AddTimer, Cancel, Advance;
      match step
      case Create(addr, when, delta, repeat) =>
        if 0 < addr < UINTPTR_MAX && addr !in heap {
          var _ := NewTimer(addr, when, delta, repeat);
        }
      case AddInLoop(addr) =>
        if addr in queued {
          AddTimerInLoop(addr);
        }
      case CancelInLoop(id) => CancelInLoop(id);
      case Tick(t) => AdvanceClock(t);
    }

    /** Everything that one callback does. */
    method PerformAll(steps: seq<Step>)
      requires Inv(State()) && CallbackSteps(steps)
      modifies this
      ensures Inv(State()) && State() == Exec(old(State()), steps)
      ensures calling == old(calling) && done == old(done) && todo == old(todo) && now == old(now)
    {
      hide Inv, Apply;
      ghost var q0 := State();
      var i := 0;
      while i < |steps|
        invariant 0 <= i <= |steps|
        invariant Inv(State()) && State() == Exec(q0, steps[..i])
        invariant calling == old(calling) && done == old(done) && todo == old(todo) && now == old(now)
      {
        KeepsCalling(State(), steps[i]);
        ExecSnoc(q0, steps[..i], steps[i]);
        assert steps[..i + 1] == steps[..i] + [steps[i]];
        Perform(steps[i]);
        i := i + 1;
      }
      assert steps[..i] == steps;
    }

    /** One iteration of the loop in reset. */
    method ResetEntry(e: Entry, time: int)
      requires Inv(State()) && calling && todo == [] && done != [] && done[0] == e && time == now
      modifies this
      ensures Inv(State()) && Current(old(heap), e) && State() == ResetOne(old(State()))
    {
      hide Inv, InsertEntry;
      ghost var q := State();
      ResetOneInv(q);
      DoneIsUnplaced(q);
      var addr := e.timer;
      var timer := TimerId(addr, heap[addr].sequence);
      done := done[1..];
      if heap[addr].repeat && timer !in canceling {
        heap := heap[addr := heap[addr].(expiration := time + heap[addr].delta)];
        var _ := InsertTimer(addr);
      } else {
        freed := freed + [heap[addr].sequence];
        heap := heap - {addr};
      }
    }

    /** Restarts or deletes the timers of the batch, then sets the timerfd. */
    method ResetTimers(expired: seq<Entry>, time: int)
      requires Inv(State()) && calling && todo == [] && expired == done && time == now
      modifies this
      ensures Inv(State()) && State() == FinishReset(ResetAll(old(State())))
    {
      hide Inv, ResetOne, Max;
      ghost var q0 := State();
      var i := 0;
      while i < |expired|
        invariant 0 <= i <= |expired|
        invariant Inv(State()) && calling && todo == [] && done == expired[i..] && now == time
        invariant ResetAll(State()) == ResetAll(q0)
      {
        ghost var q := State();
        ResetOneShape(q);
        ResetEntry(expired[i], time);
        i := i + 1;
      }
      FinishResetInv(State());
      EntriesCurrent(State());
      calling := false;
      if timers != [] {
        assert timers[0] in timers;
        var nextExpire := heap[timers[0].timer].expiration;
        if nextExpire > 0 {
          ResetTimerfd(nextExpire);
        }
      }
    }

    /** The beginning of handleRead. */
    method BeginBatch() returns (expired: seq<Entry>, time: int)
      requires Inv(State()) && !calling
      modifies this
      ensures Inv(State()) && State() == Collect(old(State())) && expired == todo && time == now
    {
      hide Inv;
      CollectInv(State());
      time := clock;
      expired := GetExpired(time);
      if fd.Readable? {
        fd := Disarmed;
      }
      calling := true;
      canceling := {};
      done, todo, now := [], expired, time;
    }

    /** A callback of the batch and what it does. */
    method RunCallback(e: Entry, body: seq<Step>)
      requires Inv(State()) && todo != [] && todo[0] == e && CallbackSteps(body)
      modifies this
      ensures Inv(State()) && State() == Exec(old(State()), [RunNext] + body)
      ensures calling == old(calling) && now == old(now) && done == old(done) + [e] && todo == old(todo)[1..]
    {
      hide Inv, CallbackSteps;
      ghost var q := State();
      CallNextInv(q);
      ApplyInv(q, RunNext);
      assert ([RunNext] + body)[1..] == body;
      calls := calls + [heap[e.timer].sequence];
      done, todo := done + [e], todo[1..];
      PerformAll(body);
    }

    /** The loop that runs the callbacks of the batch. */
    method RunBatch(expired: seq<Entry>, script: seq<seq<Step>>)
      requires Inv(State()) && calling && done == [] && todo == expired
      requires forall k :: 0 <= k < |script| ==> CallbackSteps(script[k])
      modifies this
      ensures Inv(State()) && calling && done == expired && todo == [] && now == old(now)
      ensures State() == Exec(old(State()), Callbacks(|expired|, script))
      ensures calls == CallsToBe(old(State()))
    {
      hide Inv, Apply, CallbackSteps;
      ghost var q0 := State();
      var i := 0;
      while i < |expired|
        invariant 0 <= i <= |expired|
        invariant Inv(State()) && calling && done == expired[..i] && todo == expired[i..] && now == old(now)
        invariant State() == Exec(q0, Callbacks(i, script))
      {
        var body := if i < |script| then script[i] else [];
        NoSteps();
        ExecConcat(q0, Callbacks(i, script), [RunNext] + body);
        assert Callbacks(i + 1, script) == Callbacks(i, script) + ([RunNext] + body);
        RunCallback(expired[i], body);
        i := i + 1;
      }
      assert expired[..i] == expired;
      NoReset(i, script);
      BatchRunsInOrder(q0, Callbacks(i, script));
    }

    /** The timerfd is readable, or was when poll returned: run what is due. The k-th callback does script[k]. */
    method HandleRead(script: seq<seq<Step>>)
      requires Inv(State()) && !calling && forall k :: 0 <= k < |script| ==> CallbackSteps(script[k])
      modifies this
      ensures Inv(State()) && !calling
      ensures State() == Exec(old(State()),
              [CollectExpired] + Callbacks(|Collect(old(State())).todo|, script) + [Reset])
    {
      hide Inv, Apply, Collect, Exec, FinishReset;
      ghost var q0 := State();
      CollectIsStep(q0);
      var expired, time := BeginBatch();
      ExecConcat(q0, [CollectExpired], Callbacks(|expired|, script));
      RunBatch(expired, script);
      ExecSnoc(q0, [CollectExpired] + Callbacks(|expired|, script), Reset);
      ResetIsStep(State());
      ResetTimers(expired, time);
    }
  }

  /** n callbacks, each followed by what it does. */
  ghost function Callbacks(n: nat, script: seq<seq<Step>>): seq<Step> {
    if n == 0 then []
    else Callbacks(n - 1, script) + [RunNext] + (if n - 1 < |script| then script[n - 1] else [])
  }

  lemma {:induction false} NoReset(n: nat, script: seq<seq<Step>>)
    requires forall k :: 0 <= k < |script| ==> CallbackSteps(script[k])
    ensures Reset !in Callbacks(n, script)
  {
    if n > 0 {
      NoReset(n - 1, script);
    }
  }

  predicate CallbackSteps(steps: seq<Step>) {
    forall i :: 0 <= i < |steps| ==> CallbackStep(steps[i])
  }

  predicate CallbackStep(step: Step) {
    step.Create? || step.AddInLoop? || step.CancelInLoop? || step.Tick?
  }

  lemma KeepsCalling(q: Queue, step: Step)
    requires Inv(q) && CallbackStep(step)
    ensures var q' := Apply(q, step);
            q'.calling == q.calling && q'.now == q.now && q'.done == q.done && q'.todo == q.todo
  {
    hide Inv, InsertEntry, EraseEntry, Max;
  }

  lemma {:induction false} ExecConcat(q: Queue, a: seq<Step>, b: seq<Step>)
    requires Inv(q)
    ensures Exec(q, a + b) == Exec(Exec(q, a), b)
    decreases |a|
  {
    hide Inv, Apply;
    if a == [] {
      assert a + b == b;
    } else {
      assert (a + b)[1..] == a[1..] + b;
      ApplyInv(q, a[0]);
      ExecConcat(Apply(q, a[0]), a[1..], b);
    }
  }

  lemma ExecOne(q: Queue, step: Step)
    requires Inv(q)
    ensures Exec(q, [step]) == Apply(q, step)
  {
    hide Inv, Apply;
    ApplyInv(q, step);
    assert [step][1..] == [];
  }

  lemma ExecSnoc(q: Queue, steps: seq<Step>, step: Step)
    requires Inv(q)
    ensures Exec(q, steps + [step]) == Apply(Exec(q, steps), step)
  {
    hide Inv, Apply, Exec;
    ExecConcat(q, steps, [step]);
    ExecOne(Exec(q, steps), step);
  }

  /** The timer that reset is about to handle is in neither set, and will not be after its restart. */
  lemma DoneIsUnplaced(q: Queue)
    requires Inv(q) && q.calling && q.todo == [] && q.done != []
    ensures var addr := q.done[0].timer;
            addr in q.heap && NoEntry(addr, q.timers) && IdOf(q.heap, addr) !in q.active && |q.timers| == |q.active|
  {
    assert Batch(q) == q.done;
    SetsAgree(q);
    LeaveBatchNoEntry(q.heap, q.timers, q.active, q.queued, q.done);
    BatchCurrent(q, q.done[0]);
  }

  lemma NoSteps()
    ensures CallbackSteps([])
  {
  }

  lemma CollectIsStep(q: Queue)
    requires Inv(q) && !q.calling
    ensures Exec(q, [CollectExpired]) == Collect(q) && Collect(q).calling && Collect(q).done == []
  {
    hide Inv;
    ExecOne(q, CollectExpired);
  }

  lemma ResetIsStep(q: Queue)
    requires Inv(q) && q.calling && q.todo == []
    ensures Apply(q, Reset) == FinishReset(ResetAll(q)) && !Apply(q, Reset).calling
  {
    hide Inv, ResetAll, Max;
  }

  lemma ResetOneShape(q: Queue)
    requires Inv(q) && q.calling && q.todo == [] && q.done != []
    ensures Current(q.heap, q.done[0]) && Inv(ResetOne(q))
    ensures var q' := ResetOne(q);
            q'.calling && q'.todo == [] && q'.done == q.done[1..] && q'.now == q.now && ResetAll(q) == ResetAll(q')
  {
    hide Inv, InsertEntry;
    ResetOneInv(q);
  }

  lemma CollectLive(q: Queue)
    requires Inv(q) && !q.calling
    ensures forall e :: e in Collect(q).todo ==> e.timer in q.heap
  {
    CollectSplits(q);
    EntriesCurrent(q);
  }

  lemma IdsSnoc(heap: Heap, s: seq<Entry>, i: nat)
    requires i < |s| && s[i].timer in heap
    ensures Ids(heap, s[..i + 1]) == Ids(heap, s[..i]) + {TimerId(s[i].timer, heap[s[i].timer].sequence)}
  {
    assert s[..i + 1] == s[..i] + [s[i]];
  }
}
