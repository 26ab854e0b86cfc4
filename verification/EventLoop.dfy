/** The cross-thread queue of an event loop (muduo/net/EventLoop.cc): a vector of functors under a mutex, an
    eventfd to interrupt poll, and swap-and-run in the loop thread.

    Every step is one atomic action of one thread: a push under the lock, a write to the eventfd, a test of a
    flag, one functor. Any number of other threads interleave with the loop thread at any point. */
module EventLoops {

  type Functor = nat
  type ThreadId = nat

  /** Where the loop thread is. */
  datatype Pc =
    | NotLooping               // before loop(), or after it
    | TestQuit                 // while (!quit_)
    | Polling                  // blocked in poll
    | Handling(wake: bool)     // handling events; wake: the wakeup channel is among those still to handle
    | Swapping                 // callingPendingFunctors_ is set, the lock not yet taken
    | Calling                  // running the functors of the batch
    | Leaving                  // callingPendingFunctors_ is clear again, the batch is being destroyed

  datatype Loop = Loop(
    pc: Pc,
    pending: seq<Functor>,     // pendingFunctors_
    batch: seq<Functor>,       // what doPendingFunctors still has to run
    calling: bool,             // callingPendingFunctors_
    quit: bool,                // quit_
    eventfd: nat,              // the counter of wakeupFd_
    waking: set<ThreadId>,     // other threads between their push, or their quit_ = true, and wakeup()
    selfWaking: bool,          // the loop thread between its own push and wakeup()
    silent: bool,              // the loop thread has pushed without waking, since the last swap
    pushed: seq<Functor>,      // all functors, in the order in which the lock was taken
    ran: seq<Functor>)         // all functors run

  datatype Step =
    | Push(t: ThreadId, f: Functor)    // queueInLoop in another thread, under the lock
    | Quit(t: ThreadId)                // quit() in another thread
    | Wakeup(t: ThreadId)              // wakeup() in another thread
    | SelfPush(f: Functor)             // queueInLoop in the loop thread
    | SelfWakeup
    | SelfQuit                         // quit() in the loop thread
    | EnterLoop
    | TestQuitFlag
    | PollReturns(wake: bool)          // events or timeout
    | ReadEventfd                      // handleRead of the wakeup channel
    | EventsDone
    | SwapPending
    | RunFunctor
    | FunctorsDone
    | LoopBack

  const EVENTFD_MAX: nat := 0xFFFF_FFFF_FFFF_FFFE

  const INIT := Loop(NotLooping, [], [], false, false, 0, {}, false, false, [], [])

  /** A write adds one; at the maximum it fails and leaves the eventfd readable. */
  function WriteEventfd(n: nat): nat {
    if n < EVENTFD_MAX then n + 1 else n
  }

  /** Whether user code of the loop thread can run: outside loop(), in event handlers, in functors and in the
      destructors of functors. */
  predicate LoopThreadFree(s: Loop) {
    !s.selfWaking && (s.pc == NotLooping || s.pc.Handling? || s.pc == Calling || s.pc == Leaving)
  }

  predicate Enabled(s: Loop, step: Step) {
    match step
    case Push(t, _) => t !in s.waking
    case Quit(t) => t !in s.waking
    case Wakeup(t) => t in s.waking
    case SelfPush(_) => LoopThreadFree(s)
    case SelfWakeup => s.selfWaking
    case SelfQuit => LoopThreadFree(s)
    case EnterLoop => s.pc == NotLooping
    case TestQuitFlag => s.pc == TestQuit
    case PollReturns(wake) => s.pc == Polling && (wake ==> s.eventfd > 0)
    case ReadEventfd => s.pc == Handling(true)
    case EventsDone => s.pc == Handling(false)
    case SwapPending => s.pc == Swapping
    case RunFunctor => s.pc == Calling && !s.selfWaking && s.batch != []
    case FunctorsDone => s.pc == Calling && !s.selfWaking && s.batch == []
    case LoopBack => s.pc == Leaving
  }

  function Apply(s: Loop, step: Step): Loop
  {
    if !Enabled(s, step) then s
    else match step
      case Push(t, f) => s.(pending := s.pending + [f], pushed := s.pushed + [f], waking := s.waking + {t})
      case Quit(t) => s.(quit := true, waking := s.waking + {t})
      case Wakeup(t) => s.(eventfd := WriteEventfd(s.eventfd), waking := s.waking - {t})
      case SelfPush(f) =>
        s.(pending := s.pending + [f], pushed := s.pushed + [f], selfWaking := s.calling,
           silent := s.silent || (!s.calling && !s.pc.Handling?))
      case SelfWakeup => s.(eventfd := WriteEventfd(s.eventfd), selfWaking := false)
      case SelfQuit => s.(quit := true)
      case EnterLoop => s.(pc := TestQuit, quit := false)
      case TestQuitFlag => s.(pc := if s.quit then NotLooping else Polling)
      case PollReturns(wake) => s.(pc := Handling(wake))
      case ReadEventfd => s.(pc := Handling(false), eventfd := 0)
      case EventsDone => s.(pc := Swapping, calling := true)
      case SwapPending => s.(pc := Calling, batch := s.pending, pending := [], silent := false)
      case RunFunctor => s.(ran := s.ran + [s.batch[0]], batch := s.batch[1..])
      case FunctorsDone => s.(pc := Leaving, calling := false)
      case LoopBack => s.(pc := TestQuit)
  }

  function Exec(s: Loop, steps: seq<Step>): Loop
    decreases |steps|
  {
    if steps == [] then s else Exec(Apply(s, steps[0]), steps[1..])
  }

  // ----- No lost wakeup -----

  /** poll will return, or a thread is about to make it return. */
  predicate Awakened(s: Loop) {
    s.eventfd > 0 || s.waking != {}
  }

  predicate Flags(s: Loop) {
    && (s.calling <==> s.pc == Swapping || s.pc == Calling)
    && (s.selfWaking ==> s.pc == Calling)
    && (s.batch != [] ==> s.pc == Calling)
  }

  predicate Woken(s: Loop) {
    && (s.pending != [] && !s.pc.Handling? && s.pc != Swapping ==> Awakened(s) || s.selfWaking || s.silent)
    && (s.quit && s.pc == Polling ==> Awakened(s))
  }

  predicate Ordered(s: Loop) {
    s.ran + s.batch + s.pending == s.pushed
  }

  predicate Inv(s: Loop) {
    Flags(s) && Woken(s) && Ordered(s)
  }

  lemma ApplyFlags(s: Loop, step: Step)
    requires Flags(s)
    ensures Flags(Apply(s, step))
  {
  }

  lemma ApplyWoken(s: Loop, step: Step)
    requires Flags(s) && Woken(s)
    ensures Woken(Apply(s, step))
  {
    var s' := Apply(s, step);
    match step
    case Push(t, f) => if Enabled(s, step) { assert t in s'.waking; }
    case Quit(t) => if Enabled(s, step) { assert t in s'.waking; }
    case _ =>
  }

  lemma ApplyOrdered(s: Loop, step: Step)
    requires Flags(s) && Ordered(s)
    ensures Ordered(Apply(s, step))
  {
    if step.RunFunctor? && Enabled(s, step) {
      assert s.batch == [s.batch[0]] + s.batch[1..];
    }
  }

  lemma ApplyInv(s: Loop, step: Step)
    requires Inv(s)
    ensures Inv(Apply(s, step))
  {
    hide Flags, Woken, Ordered, Apply;
    ApplyFlags(s, step);
    ApplyWoken(s, step);
    ApplyOrdered(s, step);
  }

  lemma {:induction false} ExecInv(s: Loop, steps: seq<Step>)
    requires Inv(s)
    ensures Inv(Exec(s, steps))
    decreases |steps|
  {
    hide Inv, Apply;
    if steps != [] {
      ApplyInv(s, steps[0]);
      ExecInv(Apply(s, steps[0]), steps[1..]);
    }
  }

  /** The loop thread pushes only where the loop will see it: while handling events or running functors. */
  predicate NeverSilent(s: Loop, steps: seq<Step>)
    decreases |steps|
  {
    steps == [] ||
    ((steps[0].SelfPush? ==> s.pc.Handling? || s.pc == Calling) && NeverSilent(Apply(s, steps[0]), steps[1..]))
  }

  lemma {:induction false} NeverSilentRun(s: Loop, steps: seq<Step>)
    requires Inv(s) && !s.silent && NeverSilent(s, steps)
    ensures !Exec(s, steps).silent
    decreases |steps|
  {
    hide Inv;
    if steps != [] {
      ApplyInv(s, steps[0]);
      assert !Apply(s, steps[0]).silent by { StaysLoud(s, steps[0]); }
      hide Apply;
      NeverSilentRun(Apply(s, steps[0]), steps[1..]);
    }
  }

  lemma StaysLoud(s: Loop, step: Step)
    requires Inv(s) && !s.silent && (step.SelfPush? ==> s.pc.Handling? || s.pc == Calling)
    ensures !Apply(s, step).silent
  {
  }

  /** No lost wakeup: whenever the loop is blocked in poll while functors are pending, or after quit, the eventfd is
      readable or another thread is about to make it so. */
  lemma NoLostWakeup(steps: seq<Step>)
    ensures var s := Exec(INIT, steps);
            (s.pc == Polling && s.quit ==> Awakened(s)) &&
            (s.pc == Polling && s.pending != [] ==> Awakened(s) || s.silent) &&
            (NeverSilent(INIT, steps) ==> !s.silent)
  {
    ExecInv(INIT, steps);
    if NeverSilent(INIT, steps) {
      NeverSilentRun(INIT, steps);
    }
  }

  // ----- When a wakeup is missing -----

  /** What the loop thread itself does after queueing f, up to the next poll, or to the batch that f is in. */
  function OwnSteps(s: Loop, f: Functor): seq<Step> {
    match s.pc
    case NotLooping => [SelfPush(f)] + [EnterLoop, TestQuitFlag]
    case Leaving => [SelfPush(f)] + [LoopBack, TestQuitFlag]
    case Handling(wake) => [SelfPush(f)] + (if wake then [ReadEventfd] else []) + [EventsDone, SwapPending]
    case Calling => [SelfPush(f), SelfWakeup] +
      (Repeat(RunFunctor, |s.batch|) + [FunctorsDone] + [LoopBack, TestQuitFlag])
    case _ => []
  }

  function Repeat(step: Step, n: nat): seq<Step> {
    if n == 0 then [] else [step] + Repeat(step, n - 1)
  }

  /** Blocked in poll with f pending and nobody to wake the loop. */
  predicate Stalled(s: Loop, f: Functor) {
    s.pc == Polling && f in s.pending && !Awakened(s)
  }

  /** A functor queued by the loop thread stalls at the next poll exactly if it is queued outside event handling and
      functors, that is before loop() or from the destructor of a functor, with nobody waking the loop, and no quit
      that would end it. */
  lemma SelfPushStallsExactly(s: Loop, f: Functor)
    requires Inv(s) && LoopThreadFree(s)
    ensures Stalled(Exec(s, OwnSteps(s, f)), f) <==>
              !Awakened(s) && (s.pc == NotLooping || (s.pc == Leaving && !s.quit))
  {
    match s.pc
    case NotLooping => StallBeforeLoop(s, f);
    case Leaving => StallFromDestructor(s, f);
    case Handling(_) => NoStallInHandler(s, f);
    case Calling => NoStallInFunctor(s, f);
  }

  lemma StallBeforeLoop(s: Loop, f: Functor)
    requires Inv(s) && LoopThreadFree(s) && s.pc == NotLooping
    ensures Stalled(Exec(s, OwnSteps(s, f)), f) <==> !Awakened(s)
  {
    var s1 := s.(pending := s.pending + [f], pushed := s.pushed + [f], silent := true);
    assert Apply(s, SelfPush(f)) == s1;
    var s2 := s1.(pc := TestQuit, quit := false);
    assert Apply(s1, EnterLoop) == s2;
    var s3 := s2.(pc := Polling);
    assert Apply(s2, TestQuitFlag) == s3;
    hide Apply, Inv, Exec;
    ExecThree(s, SelfPush(f), EnterLoop, TestQuitFlag);
    assert f in s3.pending;
  }

  lemma StallFromDestructor(s: Loop, f: Functor)
    requires Inv(s) && LoopThreadFree(s) && s.pc == Leaving
    ensures Stalled(Exec(s, OwnSteps(s, f)), f) <==> !Awakened(s) && !s.quit
  {
    assert !s.calling;
    hide Inv;
    var s1 := s.(pending := s.pending + [f], pushed := s.pushed + [f], silent := true);
    assert Apply(s, SelfPush(f)) == s1;
    var s2 := s1.(pc := TestQuit);
    assert Apply(s1, LoopBack) == s2;
    var s3 := s2.(pc := if s.quit then NotLooping else Polling);
    assert Apply(s2, TestQuitFlag) == s3;
    hide Apply, Inv, Exec;
    ExecThree(s, SelfPush(f), LoopBack, TestQuitFlag);
    assert f in s3.pending;
  }

  lemma NoStallInHandler(s: Loop, f: Functor)
    requires Inv(s) && LoopThreadFree(s) && s.pc.Handling?
    ensures var s' := Exec(s, OwnSteps(s, f)); s'.pc == Calling && f in s'.batch
  {
    var s1 := s.(pending := s.pending + [f], pushed := s.pushed + [f]);
    assert Apply(s, SelfPush(f)) == s1;
    assert f in s1.pending;
    hide Apply, Inv;
    var rest := (if s.pc.wake then [ReadEventfd] else []) + [EventsDone, SwapPending];
    assert OwnSteps(s, f) == [SelfPush(f)] + rest && ([SelfPush(f)] + rest)[1..] == rest;
    HandlerEnds(s1);
  }

  /** When the handlers are done, all that is pending becomes the batch. */
  lemma HandlerEnds(s: Loop)
    requires s.pc.Handling?
    ensures var s' := Exec(s, (if s.pc.wake then [ReadEventfd] else []) + [EventsDone, SwapPending]);
            s'.pc == Calling && s'.batch == s.pending
  {
    var s1 := s.(pc := Handling(false), eventfd := if s.pc.wake then 0 else s.eventfd);
    assert s.pc.wake ==> Apply(s, ReadEventfd) == s1;
    var s2 := s1.(pc := Swapping, calling := true);
    assert Apply(s1, EventsDone) == s2;
    var s3 := Apply(s2, SwapPending);
    assert s3.pc == Calling && s3.batch == s.pending;
    hide Apply;
    ExecTwo(s1, EventsDone, SwapPending);
    if s.pc.wake {
      assert ([ReadEventfd] + [EventsDone, SwapPending])[1..] == [EventsDone, SwapPending];
    } else {
      assert [] + [EventsDone, SwapPending] == [EventsDone, SwapPending];
    }
  }

  lemma NoStallInFunctor(s: Loop, f: Functor)
    requires Inv(s) && LoopThreadFree(s) && s.pc == Calling
    ensures Exec(s, OwnSteps(s, f)).eventfd > 0
  {
    PushAndWake(s, f);
    hide Apply, Inv, Exec;
    var rest := Repeat(RunFunctor, |s.batch|) + [FunctorsDone] + [LoopBack, TestQuitFlag];
    RepeatOnly(RunFunctor, |s.batch|);
    ExecConcat(s, [SelfPush(f), SelfWakeup], rest);
    KeepsEventfd(Exec(s, [SelfPush(f), SelfWakeup]), rest);
  }

  lemma PushAndWake(s: Loop, f: Functor)
    requires Inv(s) && LoopThreadFree(s) && s.pc == Calling
    ensures Exec(s, [SelfPush(f), SelfWakeup]).eventfd > 0
  {
    var s1 := s.(pending := s.pending + [f], pushed := s.pushed + [f], selfWaking := true);
    assert Apply(s, SelfPush(f)) == s1;
    assert Apply(s1, SelfWakeup).eventfd > 0;
    hide Apply, Inv;
    ExecTwo(s, SelfPush(f), SelfWakeup);
  }

  lemma {:induction false} RepeatOnly(step: Step, n: nat)
    ensures forall i :: 0 <= i < |Repeat(step, n)| ==> Repeat(step, n)[i] == step
  {
    if n > 0 {
      RepeatOnly(step, n - 1);
    }
  }

  /** Only reading the eventfd clears it. */
  lemma {:induction false} KeepsEventfd(s: Loop, steps: seq<Step>)
    requires forall i :: 0 <= i < |steps| ==> !steps[i].ReadEventfd?
    ensures Exec(s, steps).eventfd >= s.eventfd
    decreases |steps|
  {
    if steps != [] {
      assert Apply(s, steps[0]).eventfd >= s.eventfd;
      hide Apply;
      KeepsEventfd(Apply(s, steps[0]), steps[1..]);
    }
  }

  lemma ExecThree(s: Loop, a: Step, b: Step, c: Step)
    ensures Exec(s, [a] + [b, c]) == Apply(Apply(Apply(s, a), b), c)
  {
    hide Apply;
    assert ([a] + [b, c])[1..] == [b, c];
    ExecTwo(Apply(s, a), b, c);
  }

  /** The first kind of stall, from the start. */
  lemma PushBeforeLoopStalls(f: Functor)
    ensures Stalled(Exec(INIT, [SelfPush(f)] + [EnterLoop, TestQuitFlag]), f)
  {
    StallBeforeLoop(INIT, f);
  }

  /** One round of the loop in which a functor of thread 1 runs. */
  const ONE_ROUND: seq<Step> :=
    [Push(1, 5), Wakeup(1), EnterLoop, TestQuitFlag] +
      ([PollReturns(true), ReadEventfd, EventsDone, SwapPending] + [RunFunctor, FunctorsDone])

  lemma OneRound()
    ensures var s := Exec(INIT, ONE_ROUND);
            Inv(s) && s.pc == Leaving && s.ran == [5] && s.pending == [] && !s.quit && !Awakened(s) && LoopThreadFree(s)
  {
    hide Apply, Exec, Inv;
    var s1 := INIT.(pc := Polling, pending := [5], pushed := [5], eventfd := 1);
    FirstHalf(s1);
    var a, b := [PollReturns(true), ReadEventfd, EventsDone, SwapPending], [RunFunctor, FunctorsDone];
    SecondHalf(s1);
    ExecConcat(s1, a, b);
    ExecConcat(INIT, [Push(1, 5), Wakeup(1), EnterLoop, TestQuitFlag], a + b);
    InitInv();
    ExecInv(INIT, ONE_ROUND);
  }

  lemma InitInv()
    ensures Inv(INIT)
  {
  }

  lemma SecondHalf(s: Loop)
    requires s == INIT.(pc := Polling, pending := [5], pushed := [5], eventfd := 1)
    ensures Exec(Exec(s, [PollReturns(true), ReadEventfd, EventsDone, SwapPending]), [RunFunctor, FunctorsDone])
         == s.(pc := Leaving, pending := [], eventfd := 0, ran := [5])
  {
    hide Apply, Exec;
    var s' := SwapIn(s);
    RunsFive(s');
  }

  lemma RunsFive(s: Loop)
    requires s.pc == Calling && !s.selfWaking && s.batch == [5] && s.ran == []
    ensures Exec(s, [RunFunctor, FunctorsDone]) == s.(pc := Leaving, batch := [], ran := [5], calling := false)
  {
    var s1 := s.(batch := [], ran := [5]);
    assert [] + [5] == [5] && [5][1..] == [];
    assert Apply(s, RunFunctor) == s1;
    assert Apply(s1, FunctorsDone) == s1.(pc := Leaving, calling := false);
    hide Apply;
    ExecTwo(s, RunFunctor, FunctorsDone);
  }

  lemma FirstHalf(s: Loop)
    requires s == INIT.(pc := Polling, pending := [5], pushed := [5], eventfd := 1)
    ensures Exec(INIT, [Push(1, 5), Wakeup(1), EnterLoop, TestQuitFlag]) == s
  {
    var s1 := INIT.(pending := [5], pushed := [5], waking := {1});
    assert Apply(INIT, Push(1, 5)) == s1;
    var s2 := s1.(eventfd := 1, waking := {});
    assert Apply(s1, Wakeup(1)) == s2;
    var s3 := s2.(pc := TestQuit);
    assert Apply(s2, EnterLoop) == s3;
    assert Apply(s3, TestQuitFlag) == s;
    hide Apply;
    ExecFour(INIT, Push(1, 5), Wakeup(1), EnterLoop, TestQuitFlag);
  }

  /** The second kind, from the start: a functor has run, and its destructor queues another one. */
  lemma PushFromDestructorStalls(f: Functor)
    ensures Stalled(Exec(INIT, ONE_ROUND + ([SelfPush(f)] + [LoopBack, TestQuitFlag])), f)
  {
    hide Apply, Inv;
    OneRound();
    StallFromDestructor(Exec(INIT, ONE_ROUND), f);
    ExecConcat(INIT, ONE_ROUND, [SelfPush(f)] + [LoopBack, TestQuitFlag]);
  }

  // ----- When quit() is honoured -----

  predicate NoFlagTest(steps: seq<Step>) {
    forall i :: 0 <= i < |steps| ==> !steps[i].TestQuitFlag? && !steps[i].Quit? && !steps[i].SelfQuit?
  }

  /** Only entering loop() clears the flag. */
  lemma QuitStays(s: Loop, step: Step)
    requires s.quit && !(step == EnterLoop && s.pc == NotLooping)
    ensures Apply(s, step).quit
  {
  }

  lemma {:induction false} InsideLoop(s: Loop, steps: seq<Step>)
    requires s.pc != NotLooping && NoFlagTest(steps)
    ensures var s' := Exec(s, steps); s'.pc != NotLooping && s'.quit == s.quit
    decreases |steps|
  {
    if steps != [] {
      var s1 := Apply(s, steps[0]);
      assert s1.pc != NotLooping && s1.quit == s.quit;
      hide Apply;
      InsideLoop(s1, steps[1..]);
    }
  }

  lemma {:induction false} OutsideLoop(s: Loop, steps: seq<Step>)
    requires s.pc == NotLooping && NoFlagTest(steps)
    ensures var s' := Exec(s, steps); s'.pc == NotLooping || !s'.quit
    decreases |steps|
  {
    if steps != [] {
      var s1 := Apply(s, steps[0]);
      assert s1.pc == NotLooping || (s1.pc == TestQuit && !s1.quit);
      hide Apply;
      if s1.pc == NotLooping {
        OutsideLoop(s1, steps[1..]);
      } else {
        InsideLoop(s1, steps[1..]);
      }
    }
  }

  /** After a quit(), whatever happens until the loop next tests the flag: it goes on, and the quit is lost, exactly if
      the loop had not been entered when quit() was called. */
  lemma QuitLostExactly(s: Loop, steps: seq<Step>)
    requires s.quit && NoFlagTest(steps) && Exec(s, steps).pc == TestQuit
    ensures Apply(Exec(s, steps), TestQuitFlag).pc == Polling <==> s.pc == NotLooping
  {
    if s.pc == NotLooping {
      OutsideLoop(s, steps);
    } else {
      InsideLoop(s, steps);
    }
  }

  /** A quit before loop(), from the start. */
  lemma QuitBeforeLoopIsLost()
    ensures var s := Apply(Apply(Apply(Apply(INIT, Quit(1)), Wakeup(1)), EnterLoop), TestQuitFlag);
            s.pc == Polling && !s.quit
  {
  }

  /** An awakened loop can get all pending functors run, by its own steps and those of the threads about to wake it. */
  lemma PendingCanRun(s: Loop) returns (steps: seq<Step>)
    requires Inv(s) && s.pc == Polling && Awakened(s)
    ensures Exec(s, steps).ran == s.pushed
  {
    hide Apply;
    var s1, wake := MakeReadable(s);
    var s2 := SwapIn(s1);
    var c := RunAll(s2);
    var b := [PollReturns(true), ReadEventfd, EventsDone, SwapPending];
    ExecConcat(s1, b, c);
    ExecConcat(s, wake, b + c);
    steps := wake + (b + c);
  }

  lemma MakeReadable(s: Loop) returns (s': Loop, steps: seq<Step>)
    requires Inv(s) && s.pc == Polling && Awakened(s)
    ensures s' == Exec(s, steps) && s' == s.(eventfd := s'.eventfd, waking := s'.waking) && s'.eventfd > 0
  {
    if s.eventfd > 0 {
      s', steps := s, [];
    } else {
      var t :| t in s.waking;
      s', steps := Apply(s, Wakeup(t)), [Wakeup(t)];
      assert s' == s.(eventfd := 1, waking := s.waking - {t});
      assert steps[1..] == [];
    }
  }

  lemma SwapIn(s: Loop) returns (s': Loop)
    requires s.pc == Polling && s.eventfd > 0 && !s.selfWaking
    ensures s' == Exec(s, [PollReturns(true), ReadEventfd, EventsDone, SwapPending])
    ensures s' == s.(pc := Calling, calling := true, eventfd := 0, batch := s.pending, pending := [], silent := false)
  {
    var s1 := Apply(s, PollReturns(true));
    assert s1 == s.(pc := Handling(true));
    var s2 := Apply(s1, ReadEventfd);
    assert s2 == s1.(pc := Handling(false), eventfd := 0);
    var s3 := Apply(s2, EventsDone);
    assert s3 == s2.(pc := Swapping, calling := true);
    s' := Apply(s3, SwapPending);
    assert s' == s3.(pc := Calling, batch := s3.pending, pending := [], silent := false);
    hide Apply;
    ExecFour(s, PollReturns(true), ReadEventfd, EventsDone, SwapPending);
  }

  lemma ExecFour(s: Loop, a: Step, b: Step, c: Step, d: Step)
    ensures Exec(s, [a, b, c, d]) == Apply(Apply(Apply(Apply(s, a), b), c), d)
  {
    hide Apply;
    ExecConcat(s, [a, b], [c, d]);
    assert [a, b] + [c, d] == [a, b, c, d];
    ExecTwo(s, a, b);
    ExecTwo(Apply(Apply(s, a), b), c, d);
  }

  lemma ExecTwo(s: Loop, a: Step, b: Step)
    ensures Exec(s, [a, b]) == Apply(Apply(s, a), b)
  {
    hide Apply;
    assert [a, b][1..] == [b] && [b][1..] == [];
    assert Exec(Apply(s, a), [b]) == Apply(Apply(s, a), b);
  }

  lemma {:induction false} RunAll(s: Loop) returns (steps: seq<Step>)
    requires s.pc == Calling && !s.selfWaking
    ensures Exec(s, steps).ran == s.ran + s.batch
    decreases |s.batch|
  {
    if s.batch == [] {
      steps := [];
    } else {
      var s1 := Apply(s, RunFunctor);
      var rest := RunAll(s1);
      steps := [RunFunctor] + rest;
      assert steps[1..] == rest;
    }
  }

  lemma {:induction false} ExecConcat(s: Loop, a: seq<Step>, b: seq<Step>)
    ensures Exec(s, a + b) == Exec(Exec(s, a), b)
    decreases |a|
  {
    hide Apply;
    if a == [] {
      assert a + b == b;
    } else {
      assert (a + b)[1..] == a[1..] + b;
      ExecConcat(Apply(s, a[0]), a[1..], b);
    }
  }

  // ----- Order and multiplicity -----

  /** The functors queued along a run, in the order in which the lock was taken. */
  function QueuedAlong(s: Loop, steps: seq<Step>): seq<Functor>
    decreases |steps|
  {
    if steps == [] then [] else Queued(s, steps[0]) + QueuedAlong(Apply(s, steps[0]), steps[1..])
  }

  function Queued(s: Loop, step: Step): seq<Functor> {
    if Enabled(s, step) && (step.Push? || step.SelfPush?) then [step.f] else []
  }

  lemma {:induction false} PushedExactly(s: Loop, steps: seq<Step>)
    ensures Exec(s, steps).pushed == s.pushed + QueuedAlong(s, steps)
    decreases |steps|
  {
    if steps == [] {
    } else {
      PushedStep(s, steps[0]);
      hide Apply, Queued;
      PushedExactly(Apply(s, steps[0]), steps[1..]);
      Associate(s.pushed, Queued(s, steps[0]), QueuedAlong(Apply(s, steps[0]), steps[1..]));
    }
  }

  lemma PushedStep(s: Loop, step: Step)
    ensures Apply(s, step).pushed == s.pushed + Queued(s, step)
  {
  }

  lemma Associate(x: seq<Functor>, y: seq<Functor>, z: seq<Functor>)
    ensures x + y + z == x + (y + z)
  {
  }

  /** Every functor queued has run, is in the batch or is pending, in the order of the queueing. */
  lemma RunsWhatWasQueued(steps: seq<Step>)
    ensures var s := Exec(INIT, steps); s.ran + s.batch + s.pending == QueuedAlong(INIT, steps)
  {
    ExecInv(INIT, steps);
    PushedExactly(INIT, steps);
    hide Flags, Woken;
    assert [] + QueuedAlong(INIT, steps) == QueuedAlong(INIT, steps);
  }

  /** Functors run in the order in which their pushes took the lock, each at most once, and none is dropped: what
      has run is a prefix of what was pushed, and the rest is in the batch and the vector, in that order. */
  lemma RunInLockOrder(steps: seq<Step>)
    ensures var s := Exec(INIT, steps); s.ran <= s.pushed && s.pushed == s.ran + s.batch + s.pending
  {
    ExecInv(INIT, steps);
  }
}
