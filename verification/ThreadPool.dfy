/** The thread pool's monitor (muduo/base/ThreadPool.cc): one mutex, the conditions notEmpty and notFull, a
    bounded queue.

    A critical section, from taking the lock to releasing it or waiting, is one step. A thread that waits leaves
    its condition by a signal or spuriously, and must then take the lock again and repeat its test. Any number of
    workers and producers interleave; a worker may itself produce while it runs a task. */
module ThreadPools {

  import opened Common

  type Task = nat
  type ThreadId = nat

  datatype Pool = Pool(
    workers: set<ThreadId>,
    maxQueueSize: nat,              // 0: unbounded
    running: bool,
    queue: seq<Task>,
    committed: set<ThreadId>,       // workers past their test of running_, not yet in take()
    emptyWaiters: set<ThreadId>,    // in notEmpty_.wait(), not signalled
    emptyWoken: set<ThreadId>,      // woken from it, before taking the lock again
    fullWaiters: set<ThreadId>,     // in notFull_.wait(), not signalled
    fullWoken: set<ThreadId>,
    holds: map<ThreadId, Task>,     // the task with which a producer last went to wait
    pushed: seq<Task>,              // all tasks queued, in lock order
    taken: seq<Task>)               // all tasks taken by workers

  /** `wakes` is the waiter that a notify wakes, when there is one. */
  datatype Step =
    | TestRunning(w: ThreadId)      // the head of runInThread's loop, running_ being set
    | Take(w: ThreadId, wakes: ThreadId)
    | TakeAgain(w: ThreadId, wakes: ThreadId)
    | Run(p: ThreadId, task: Task, wakes: ThreadId)
    | RunAgain(p: ThreadId, wakes: ThreadId)
    | SpuriousEmpty(w: ThreadId)
    | SpuriousFull(p: ThreadId)
    | Stop

  function Init(workers: set<ThreadId>, maxQueueSize: nat): Pool {
    Pool(workers, maxQueueSize, true, [], {}, {}, {}, {}, {}, map[], [], [])
  }

  predicate IsFull(s: Pool) {
    s.maxQueueSize > 0 && |s.queue| >= s.maxQueueSize
  }

  /** The thread is between its test of running_ and take(), or waits. */
  predicate Blocked(s: Pool, t: ThreadId) {
    t in s.committed || t in s.emptyWaiters || t in s.emptyWoken || t in s.fullWaiters || t in s.fullWoken
  }

  function NotifyEmpty(s: Pool, wakes: ThreadId): Pool {
    if wakes in s.emptyWaiters then s.(emptyWaiters := s.emptyWaiters - {wakes}, emptyWoken := s.emptyWoken + {wakes})
      else s
  }

  function NotifyFull(s: Pool, wakes: ThreadId): Pool {
    if wakes in s.fullWaiters then s.(fullWaiters := s.fullWaiters - {wakes}, fullWoken := s.fullWoken + {wakes}) else s
  }

  /** take() with the lock held. */
  function TakeLocked(s: Pool, w: ThreadId, wakes: ThreadId): Pool {
    if s.queue == [] && s.running then s.(emptyWaiters := s.emptyWaiters + {w})
    else if s.queue != [] then
      var s1 := s.(queue := s.queue[1..], taken := s.taken + [s.queue[0]]);
      if s.maxQueueSize > 0 then NotifyFull(s1, wakes) else s1
    else s
  }

  /** run() with the lock held. */
  function RunLocked(s: Pool, p: ThreadId, task: Task, wakes: ThreadId): Pool {
    if IsFull(s) && s.running then s.(fullWaiters := s.fullWaiters + {p}, holds := s.holds[p := task])
    else if !s.running then s
    else NotifyEmpty(s.(queue := s.queue + [task], pushed := s.pushed + [task]), wakes)
  }

  /** A notify wakes some waiter if there is one. */
  predicate Enabled(s: Pool, step: Step) {
    match step
    case TestRunning(w) => s.running && w in s.workers && !Blocked(s, w)
    case Take(w, wakes) => w in s.committed && (s.fullWaiters != {} ==> wakes in s.fullWaiters)
    case TakeAgain(w, wakes) => w in s.emptyWoken && (s.fullWaiters != {} ==> wakes in s.fullWaiters)
    case Run(p, _, wakes) => !Blocked(s, p) && (s.emptyWaiters != {} ==> wakes in s.emptyWaiters)
    case RunAgain(p, wakes) => p in s.fullWoken && p in s.holds && (s.emptyWaiters != {} ==> wakes in s.emptyWaiters)
    case SpuriousEmpty(w) => w in s.emptyWaiters
    case SpuriousFull(p) => p in s.fullWaiters
    case Stop => true
  }

  function Apply(s: Pool, step: Step): Pool {
    if !Enabled(s, step) then s
    else match step
      case TestRunning(w) => s.(committed := s.committed + {w})
      case Take(w, wakes) => TakeLocked(s.(committed := s.committed - {w}), w, wakes)
      case TakeAgain(w, wakes) => TakeLocked(s.(emptyWoken := s.emptyWoken - {w}), w, wakes)
      case Run(p, task, wakes) => RunLocked(s, p, task, wakes)
      case RunAgain(p, wakes) => RunLocked(s.(fullWoken := s.fullWoken - {p}), p, s.holds[p], wakes)
      case SpuriousEmpty(w) => NotifyEmpty(s, w)
      case SpuriousFull(p) => NotifyFull(s, p)
      case Stop =>
        s.(running := false, emptyWaiters := {}, emptyWoken := s.emptyWoken + s.emptyWaiters,
           fullWaiters := {}, fullWoken := s.fullWoken + s.fullWaiters)
  }

  function Exec(s: Pool, steps: seq<Step>): Pool
    decreases |steps|
  {
    if steps == [] then s else Exec(Apply(s, steps[0]), steps[1..])
  }

  // ----- The monitor invariant -----

  /** A thread waits in one place at a time; only workers wait for tasks; a waiting producer holds a task. */
  predicate Apart(s: Pool) {
    && s.emptyWaiters !! s.emptyWoken && s.fullWaiters !! s.fullWoken
    && (s.emptyWaiters + s.emptyWoken) !! (s.fullWaiters + s.fullWoken)
    && s.emptyWaiters + s.emptyWoken <= s.workers
    && s.fullWaiters + s.fullWoken <= s.holds.Keys
    && s.committed <= s.workers && s.committed !! (s.emptyWaiters + s.emptyWoken + s.fullWaiters + s.fullWoken)
  }

  /** While a worker sleeps unsignalled, every queued task has a woken worker coming for it; while a producer sleeps
      unsignalled, every free slot has a woken producer coming for it. `taker` and `putter` count a woken thread
      that has just taken the lock. */
  predicate Covered(s: Pool, taker: nat, putter: nat) {
    && (s.emptyWaiters != {} ==> |s.queue| <= |s.emptyWoken| + taker)
    && (s.fullWaiters != {} ==> s.maxQueueSize > 0 && s.maxQueueSize - |s.queue| <= |s.fullWoken| + putter)
  }

  predicate Bounded(s: Pool) {
    && (s.maxQueueSize > 0 ==> |s.queue| <= s.maxQueueSize)
    && (!s.running ==> s.emptyWaiters == {} && s.fullWaiters == {})
    && s.taken + s.queue == s.pushed
  }

  predicate Inv(s: Pool) {
    Apart(s) && Covered(s, 0, 0) && Bounded(s)
  }

  lemma TakeWaitsInv(s: Pool, w: ThreadId)
    requires Apart(s) && Covered(s, 1, 0) && Bounded(s) && w in s.workers && !Blocked(s, w) && s.queue == [] &&
             s.running
    ensures Inv(s.(emptyWaiters := s.emptyWaiters + {w}))
  {
  }

  lemma TakeBounded(s: Pool)
    requires Bounded(s) && s.queue != []
    ensures Bounded(s.(queue := s.queue[1..], taken := s.taken + [s.queue[0]]))
  {
    assert s.queue == [s.queue[0]] + s.queue[1..];
    assert s.taken + s.queue == (s.taken + [s.queue[0]]) + s.queue[1..];
  }

  lemma NotifyFullInv(s: Pool, wakes: ThreadId)
    requires Apart(s) && Bounded(s) && (s.fullWaiters != {} ==> wakes in s.fullWaiters)
    requires (s.emptyWaiters != {} ==> |s.queue| <= |s.emptyWoken|)
    requires s.fullWaiters != {} ==> s.maxQueueSize > 0 && s.maxQueueSize - |s.queue| <= |s.fullWoken| + 1
    ensures Inv(if s.maxQueueSize > 0 then NotifyFull(s, wakes) else s)
  {
  }

  lemma TakeLockedInv(s: Pool, w: ThreadId, wakes: ThreadId)
    requires Apart(s) && Covered(s, 1, 0) && Bounded(s)
    requires w in s.workers && !Blocked(s, w) && (s.fullWaiters != {} ==> wakes in s.fullWaiters)
    ensures Inv(TakeLocked(s, w, wakes))
  {
    hide Bounded;
    if s.queue == [] && s.running {
      hide Inv, Apart, Covered, Blocked;
      TakeWaitsInv(s, w);
    } else if s.queue != [] {
      TakeBounded(s);
      hide Inv, NotifyFull, Blocked;
      NotifyFullInv(s.(queue := s.queue[1..], taken := s.taken + [s.queue[0]]), wakes);
    } else {
      StillCovered(s);
    }
  }

  lemma StillCovered(s: Pool)
    requires Covered(s, 1, 0) && Bounded(s) && !s.running
    ensures Covered(s, 0, 0)
  {
  }

  lemma RunWaitsInv(s: Pool, p: ThreadId, task: Task)
    requires Apart(s) && Covered(s, 0, 1) && Bounded(s) && !Blocked(s, p) && IsFull(s) && s.running
    ensures Inv(s.(fullWaiters := s.fullWaiters + {p}, holds := s.holds[p := task]))
  {
  }

  lemma PushBounded(s: Pool, task: Task)
    requires Bounded(s) && !IsFull(s)
    ensures Bounded(s.(queue := s.queue + [task], pushed := s.pushed + [task]))
  {
    assert s.taken + (s.queue + [task]) == (s.taken + s.queue) + [task];
  }

  lemma NotifyEmptyInv(s: Pool, wakes: ThreadId)
    requires Apart(s) && Bounded(s) && (s.emptyWaiters != {} ==> wakes in s.emptyWaiters)
    requires (s.emptyWaiters != {} ==> |s.queue| <= |s.emptyWoken| + 1)
    requires s.fullWaiters != {} ==> s.maxQueueSize > 0 && s.maxQueueSize - |s.queue| <= |s.fullWoken|
    ensures Inv(NotifyEmpty(s, wakes))
  {
  }

  lemma RunPushesInv(s: Pool, task: Task, wakes: ThreadId)
    requires Apart(s) && Covered(s, 0, 1) && Bounded(s) && !IsFull(s) && s.running
    requires s.emptyWaiters != {} ==> wakes in s.emptyWaiters
    ensures Inv(NotifyEmpty(s.(queue := s.queue + [task], pushed := s.pushed + [task]), wakes))
  {
    hide Inv, Bounded, NotifyEmpty;
    PushBounded(s, task);
    NotifyEmptyInv(s.(queue := s.queue + [task], pushed := s.pushed + [task]), wakes);
  }

  lemma RunLockedInv(s: Pool, p: ThreadId, task: Task, wakes: ThreadId)
    requires Apart(s) && Covered(s, 0, 1) && Bounded(s)
    requires !Blocked(s, p) && (s.emptyWaiters != {} ==> wakes in s.emptyWaiters)
    ensures Inv(RunLocked(s, p, task, wakes))
  {
    if IsFull(s) && s.running {
      hide Inv, Apart, Covered, Bounded, Blocked;
      RunWaitsInv(s, p, task);
    } else if s.running {
      hide Inv, Apart, Covered, Bounded, Blocked, NotifyEmpty;
      RunPushesInv(s, task, wakes);
    }
  }

  lemma LockAgain(s: Pool, t: ThreadId)
    requires Inv(s)
    ensures Apart(s) && Covered(s, 1, 0) && Covered(s, 0, 1) && Bounded(s)
    ensures t in s.emptyWoken ==>
              var s' := s.(emptyWoken := s.emptyWoken - {t});
                Apart(s') && Covered(s', 1, 0) && Bounded(s') && t in s.workers && !Blocked(s', t)
    ensures t in s.fullWoken ==>
              var s' := s.(fullWoken := s.fullWoken - {t});
                Apart(s') && Covered(s', 0, 1) && Bounded(s') && t in s.holds && !Blocked(s', t)
  {
  }

  lemma LockFirst(s: Pool, w: ThreadId)
    requires Inv(s) && w in s.committed
    ensures var s' := s.(committed := s.committed - {w});
            Apart(s') && Covered(s', 1, 0) && Bounded(s') && w in s.workers && !Blocked(s', w)
  {
  }

  lemma CommitInv(s: Pool, w: ThreadId)
    requires Inv(s) && w in s.workers && !Blocked(s, w)
    ensures Inv(s.(committed := s.committed + {w}))
  {
  }

  lemma WakeEmptyInv(s: Pool, t: ThreadId)
    requires Inv(s)
    ensures Inv(NotifyEmpty(s, t))
  {
  }

  lemma WakeFullInv(s: Pool, t: ThreadId)
    requires Inv(s)
    ensures Inv(NotifyFull(s, t))
  {
  }

  lemma StopInv(s: Pool)
    requires Inv(s)
    ensures Inv(Apply(s, Stop))
  {
  }

  lemma ApplyFixed(s: Pool, step: Step)
    ensures Apply(s, step).maxQueueSize == s.maxQueueSize && Apply(s, step).workers == s.workers
  {
  }

  lemma ApplyInv(s: Pool, step: Step)
    requires Inv(s)
    ensures Inv(Apply(s, step))
  {
    hide Inv, Apart, Covered, Bounded, Blocked, TakeLocked, RunLocked, NotifyEmpty, NotifyFull;
    if Enabled(s, step) {
      match step
      case TestRunning(w) => CommitInv(s, w);
      case Take(w, wakes) =>
        LockFirst(s, w);
        TakeLockedInv(s.(committed := s.committed - {w}), w, wakes);
      case TakeAgain(w, wakes) =>
        LockAgain(s, w);
        TakeLockedInv(s.(emptyWoken := s.emptyWoken - {w}), w, wakes);
      case Run(p, task, wakes) =>
        LockAgain(s, p);
        RunLockedInv(s, p, task, wakes);
      case RunAgain(p, wakes) =>
        LockAgain(s, p);
        RunLockedInv(s.(fullWoken := s.fullWoken - {p}), p, s.holds[p], wakes);
      case SpuriousEmpty(w) => WakeEmptyInv(s, w);
      case SpuriousFull(p) => WakeFullInv(s, p);
      case Stop => StopInv(s);
    }
  }

  lemma {:induction false} ExecInv(s: Pool, steps: seq<Step>)
    requires Inv(s)
    ensures Inv(Exec(s, steps)) && Exec(s, steps).maxQueueSize == s.maxQueueSize && Exec(s, steps).workers == s.workers
    decreases |steps|
  {
    hide Inv, Apply;
    if steps != [] {
      ApplyInv(s, steps[0]);
      ApplyFixed(s, steps[0]);
      ExecInv(Apply(s, steps[0]), steps[1..]);
    }
  }

  // ----- What every run keeps -----

  lemma InitInv(workers: set<ThreadId>, maxQueueSize: nat)
    ensures Inv(Init(workers, maxQueueSize))
  {
  }

  /** The queue never exceeds its bound, and tasks leave it in the order they entered, each at most once. */
  lemma BoundedFifo(workers: set<ThreadId>, maxQueueSize: nat, steps: seq<Step>)
    ensures var s := Exec(Init(workers, maxQueueSize), steps);
            (maxQueueSize > 0 ==> |s.queue| <= maxQueueSize) && s.taken <= s.pushed && s.pushed == s.taken + s.queue
  {
    hide Exec, Apart, Covered;
    InitInv(workers, maxQueueSize);
    ExecInv(Init(workers, maxQueueSize), steps);
  }

  /** No task stays queued while all workers sleep unsignalled. While some worker sleeps unsignalled, every queued task
      has a woken worker coming for it; while some producer does, every free slot has a woken producer coming for it. */
  lemma NobodyIsForgotten(workers: set<ThreadId>, maxQueueSize: nat, steps: seq<Step>)
    ensures var s := Exec(Init(workers, maxQueueSize), steps);
            (workers != {} && workers <= s.emptyWaiters ==> s.queue == []) &&
            (s.emptyWaiters != {} ==> |s.queue| <= |s.emptyWoken|) &&
            (s.fullWaiters != {} ==> maxQueueSize > 0 && maxQueueSize - |s.queue| <= |s.fullWoken|)
  {
    hide Exec, Bounded;
    InitInv(workers, maxQueueSize);
    ExecInv(Init(workers, maxQueueSize), steps);
    var s := Exec(Init(workers, maxQueueSize), steps);
    if s.workers != {} && s.workers <= s.emptyWaiters {
      assert s.emptyWoken == {};
    }
  }

  /** The task that the step hands to run(), and the worker's turn in take(). */
  function Offered(s: Pool, step: Step): Option<Task> {
    if !Enabled(s, step) then None
    else
      match step
      case Run(_, task, _) => Some(task)
      case RunAgain(p, _) => Some(s.holds[p])
      case _ => None
  }

  predicate TakesTurn(s: Pool, step: Step) {
    Enabled(s, step) && (step.Take? || step.TakeAgain?)
  }

  /** While the pool runs, a task offered is queued at the end if there is room, and its producer waits with it if there
      is none; a worker takes the first task, and waits if there is none. After stop() no task is queued, but the rest
      is still taken. Nothing else moves a task. */
  lemma TasksExactly(s: Pool, step: Step)
    requires Inv(s)
    ensures var s', offered := Apply(s, step), Offered(s, step);
            var room := s.maxQueueSize == 0 || |s.queue| < s.maxQueueSize;
            && s'.queue == (if TakesTurn(s, step) && s.queue != [] then s.queue[1..]
                            else if offered.Some? && s.running && room then s.queue + [offered.value] else s.queue)
            && s'.taken == (if TakesTurn(s, step) && s.queue != [] then s.taken + [s.queue[0]] else s.taken)
            && s'.pushed == (if offered.Some? && s.running && room then s.pushed + [offered.value] else s.pushed)
            && s'.holds == (if offered.Some? && s.running && !room then s.holds[step.p := offered.value] else s.holds)
            && (offered.Some? ==> (step.p in s'.fullWaiters <==> s.running && !room))
            && (TakesTurn(s, step) ==> (step.w in s'.emptyWaiters <==> s.running && s.queue == []))
  {
    hide Covered, Bounded;
  }

  lemma {:induction false} StoppedStays(s: Pool, steps: seq<Step>)
    requires Inv(s) && !s.running
    ensures Inv(Exec(s, steps)) && !Exec(s, steps).running && Exec(s, steps).pushed == s.pushed
    decreases |steps|
  {
    if steps != [] {
      ApplyInv(s, steps[0]);
      assert !Apply(s, steps[0]).running && Apply(s, steps[0]).pushed == s.pushed;
      hide Inv, Apply;
      StoppedStays(Apply(s, steps[0]), steps[1..]);
    }
  }

  /** After stop() nobody remains in a wait, ever again, and nothing more is queued. */
  lemma NobodyWaitsAfterStop(s: Pool, steps: seq<Step>)
    requires Inv(s)
    ensures var s' := Exec(s, [Stop] + steps); s'.emptyWaiters == {} && s'.fullWaiters == {} && s'.pushed == s.pushed
  {
    assert ([Stop] + steps)[1..] == steps;
    ApplyInv(s, Stop);
    StoppedStays(Apply(s, Stop), steps);
  }

  // ----- How waiting threads leave a stopped pool -----

  function BlockedThreads(s: Pool): set<ThreadId> {
    s.emptyWaiters + s.emptyWoken + s.fullWaiters + s.fullWoken
  }

  /** Thread t gets the lock again after its wait. */
  predicate Resumes(s: Pool, t: ThreadId, step: Step) {
    (step.TakeAgain? && step.w == t && t in s.emptyWoken) || (step.RunAgain? && step.p == t && t in s.fullWoken)
  }

  /** Once the pool has stopped, a thread that waited leaves exactly by its own next step, which it can take at any
      time; and no thread starts to wait. */
  lemma LeavesExactly(s: Pool, step: Step, t: ThreadId)
    requires Inv(s) && !s.running
    ensures Resumes(s, t, step) ==> Enabled(s, step)
    ensures t in BlockedThreads(Apply(s, step)) <==> t in BlockedThreads(s) && !Resumes(s, t, step)
  {
    hide Covered;
  }

  function Resume(s: Pool, t: ThreadId): Step {
    if t in s.emptyWoken then TakeAgain(t, 0) else RunAgain(t, 0)
  }

  lemma OneLeaves(s: Pool, t: ThreadId)
    requires Inv(s) && !s.running && t in BlockedThreads(s)
    ensures var s' := Apply(s, Resume(s, t)); Inv(s') && !s'.running && BlockedThreads(s') == BlockedThreads(s) - {t}
  {
    var step := Resume(s, t);
    ApplyInv(s, step);
    StoppedStays(s, [step]);
    assert Exec(s, [step]) == Apply(s, step);
    assert Resumes(s, t, step);
    hide Apply, Inv;
    forall x
      ensures x in BlockedThreads(Apply(s, step)) <==> x in BlockedThreads(s) - {t}
    {
      LeavesExactly(s, step, x);
    }
  }

  /** So after stop() everybody who waits gets out, by as many steps as there are threads waiting; join() then only
      waits for the tasks at hand. */
  lemma {:induction false} EverybodyLeaves(s: Pool) returns (steps: seq<Step>)
    requires Inv(s) && !s.running
    ensures |steps| == |BlockedThreads(s)| && BlockedThreads(Exec(s, steps)) == {}
    decreases |BlockedThreads(s)|
  {
    hide Inv, Apply;
    if BlockedThreads(s) == {} {
      steps := [];
    } else {
      var t :| t in BlockedThreads(s);
      OneLeaves(s, t);
      var rest := EverybodyLeaves(Apply(s, Resume(s, t)));
      steps := [Resume(s, t)] + rest;
      assert steps[1..] == rest;
    }
  }

  // ----- Which tasks a stopped pool drops -----

  /** The workers past their test of running_ that have not taken a task since. */
  function Past(s: Pool): set<ThreadId> {
    s.committed + s.emptyWaiters + s.emptyWoken
  }

  function Min(a: nat, b: nat): nat {
    if a <= b then a else b
  }

  /** What a stopped pool will still take. */
  function Remaining(s: Pool): nat {
    Min(|Past(s)|, |s.queue|)
  }

  lemma TakeOne(s: Pool, w: ThreadId, wakes: ThreadId)
    requires !s.running
    ensures var s' := TakeLocked(s, w, wakes);
            Past(s') == Past(s) && |s'.queue| == (if s.queue == [] then 0 else |s.queue| - 1) &&
            |s'.taken| == |s.taken| + (if s.queue == [] then 0 else 1)
  {
  }

  lemma OneFewer(s: set<ThreadId>, t: ThreadId)
    requires t in s
    ensures |s - {t}| == |s| - 1
  {
  }

  /** A worker past its test takes a task, if there is one, and is no longer past it. */
  lemma WorkerTakes(s: Pool, s1: Pool, w: ThreadId, wakes: ThreadId)
    requires !s.running && !s1.running && w in Past(s) && Past(s1) == Past(s) - {w}
    requires s1.queue == s.queue && s1.taken == s.taken
    ensures var s' := TakeLocked(s1, w, wakes);
            Past(s') <= Past(s) && |s'.taken| + Remaining(s') == |s.taken| + Remaining(s)
  {
    hide TakeLocked, Past;
    OneFewer(Past(s), w);
    TakeOne(s1, w, wakes);
  }

  lemma OthersDoNotTake(s: Pool, step: Step)
    requires Inv(s) && !s.running && !step.Take? && !step.TakeAgain?
    ensures var s' := Apply(s, step); Past(s') == Past(s) && s'.taken == s.taken && s'.queue == s.queue
  {
    hide Covered;
  }

  lemma PastWithout(s: Pool, w: ThreadId)
    requires Inv(s)
    ensures w in s.committed ==> Past(s.(committed := s.committed - {w})) == Past(s) - {w}
    ensures w in s.emptyWoken ==> Past(s.(emptyWoken := s.emptyWoken - {w})) == Past(s) - {w}
  {
    hide Covered, Bounded;
  }

  lemma StoppedTakes(s: Pool, step: Step)
    requires Inv(s) && !s.running
    ensures var s' := Apply(s, step); Past(s') <= Past(s) && |s'.taken| + Remaining(s') == |s.taken| + Remaining(s)
  {
    hide Inv, Remaining, TakeLocked;
    if !step.Take? && !step.TakeAgain? {
      OthersDoNotTake(s, step);
      hide Apply, Past;
      SameRemaining(s, Apply(s, step));
    } else if Enabled(s, step) {
      PastWithout(s, step.w);
      var s1 := if step.Take? then s.(committed := s.committed - {step.w})
        else s.(emptyWoken := s.emptyWoken - {step.w});
      WorkerTakes(s, s1, step.w, step.wakes);
    }
  }

  lemma SameRemaining(s: Pool, s': Pool)
    requires Past(s') == Past(s) && s'.queue == s.queue
    ensures Remaining(s') == Remaining(s)
  {
  }

  lemma NeverRunsAgain(s: Pool, step: Step)
    requires !s.running
    ensures !Apply(s, step).running
  {
  }

  lemma {:induction false} StoppedRunTakes(s: Pool, steps: seq<Step>)
    requires Inv(s) && !s.running
    ensures |Exec(s, steps).taken| + Remaining(Exec(s, steps)) == |s.taken| + Remaining(s)
    decreases |steps|
  {
    hide Inv, Apply, Remaining, Past;
    if steps != [] {
      ApplyInv(s, steps[0]);
      StoppedTakes(s, steps[0]);
      NeverRunsAgain(s, steps[0]);
      StoppedRunTakes(Apply(s, steps[0]), steps[1..]);
    }
  }

  lemma StopEffect(s: Pool)
    requires Inv(s)
    ensures var s1 := Apply(s, Stop);
            Inv(s1) && !s1.running && Past(s1) == Past(s) && s1.taken == s.taken && s1.queue == s.queue &&
              s1.pushed == s.pushed
  {
    ApplyInv(s, Stop);
    hide Inv;
  }

  lemma InOrder(s: Pool)
    requires Inv(s)
    ensures s.taken + s.queue == s.pushed
  {
    hide Apart, Covered;
  }

  /** Whatever happens after stop(): once no worker is left past its test, exactly as many queued tasks have been taken,
      from the front, as there were such workers when stop() was called, and all others are dropped. */
  lemma StopDropsExactly(s: Pool, steps: seq<Step>)
    requires Inv(s) && Past(Exec(Apply(s, Stop), steps)) == {}
    ensures var k := Min(|Past(s)|, |s.queue|);
            var s' := Exec(Apply(s, Stop), steps);
            s'.taken == s.taken + s.queue[..k] && s'.queue == s.queue[k..]
  {
    var s1, k := Apply(s, Stop), Min(|Past(s)|, |s.queue|);
    hide Inv, Exec, Apply, Past;
    StopEffect(s);
    StoppedRunTakes(s1, steps);
    StoppedStays(s1, steps);
    InOrder(s);
    InOrder(Exec(s1, steps));
    SplitAt(Exec(s1, steps).taken, Exec(s1, steps).queue, s.taken, s.queue, k);
  }

  lemma SplitAt(a: seq<Task>, b: seq<Task>, c: seq<Task>, d: seq<Task>, k: nat)
    requires a + b == c + d && k <= |d| && |a| == |c| + k
    ensures a == c + d[..k] && b == d[k..]
  {
    assert a == (a + b)[..|a|] && b == (a + b)[|a|..];
    assert (c + d)[..|c| + k] == c + d[..k] && (c + d)[|c| + k..] == d[k..];
  }

  /** A task queued while the only worker is busy elsewhere, and dropped by stop(). */
  lemma DroppedAtStop(task: Task, steps: seq<Step>)
    ensures var s := Apply(Init({1}, 0), Run(2, task, 0));
            Inv(s) && s.queue == [task] && Past(s) == {} && Exec(Apply(s, Stop), steps).taken == []
  {
    var s := Apply(Init({1}, 0), Run(2, task, 0));
    InitInv({1}, 0);
    ApplyInv(Init({1}, 0), Run(2, task, 0));
    assert s.queue == [] + [task] == [task] && Past(s) == {} && s.taken == [];
    hide Inv, Apply, Exec, Past;
    StopEffect(s);
    StoppedRunTakes(Apply(s, Stop), steps);
  }
}
