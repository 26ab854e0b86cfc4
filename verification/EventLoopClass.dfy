/** The event loop as an object (muduo/net/EventLoop.cc). Its methods perform the steps of EventLoops, one after the
    other; a functor is represented by what it queues when it runs. */
module EventLoopObjects {

  import opened EventLoops

  datatype Caller = LoopThread | Other(t: ThreadId)

  class EventLoop {
    var pendingFunctors: seq<Functor>
    var callingPendingFunctors: bool
    var quit: bool
    var wakeupFd: nat              // the counter of the eventfd
    ghost var pc: Pc
    ghost var batch: seq<Functor>
    ghost var waking: set<ThreadId>
    ghost var selfWaking: bool
    ghost var silent: bool
    ghost var pushed: seq<Functor>
    ghost var ran: seq<Functor>

    ghost function View(): Loop
      reads this
    {
      Loop(pc, pendingFunctors, batch, callingPendingFunctors, quit, wakeupFd, waking, selfWaking, silent, pushed, ran)
    }

    /** The loop thread runs functors, and whatever is pending has been announced. */
    ghost predicate Busy()
      reads this
    {
      pc == Calling && callingPendingFunctors && !selfWaking && (pendingFunctors != [] ==> wakeupFd > 0)
    }

    constructor ()
      ensures View() == INIT
    {
      pendingFunctors, callingPendingFunctors, quit, wakeupFd := [], false, false, 0;
      pc, batch, waking, selfWaking, silent, pushed, ran := NotLooping, [], {}, false, false, [], [];
    }

    method Wakeup(caller: Caller)
      requires if caller.Other? then caller.t in waking else selfWaking
      modifies this
      ensures View() == Apply(old(View()), if caller.Other? then EventLoops.Wakeup(caller.t) else SelfWakeup)
      ensures wakeupFd > 0
    {
      wakeupFd := WriteEventfd(wakeupFd);
      if caller.Other? {
        waking := waking - {caller.t};
      } else {
        selfWaking := false;
      }
    }

    /** The loop thread wakes itself only while it runs functors; anybody else always does. */
    method QueueInLoop(cb: Functor, caller: Caller)
      requires Inv(View()) && if caller.Other? then caller.t !in waking else LoopThreadFree(View())
      modifies this
      ensures Inv(View()) && pushed == old(pushed) + [cb] && pendingFunctors == old(pendingFunctors) + [cb]
      ensures pc == old(pc) && batch == old(batch) && ran == old(ran) && waking == old(waking)
      ensures selfWaking == (caller.Other? && old(selfWaking))
      ensures callingPendingFunctors == old(callingPendingFunctors)
      ensures caller.Other? || callingPendingFunctors ==> wakeupFd > 0
      ensures wakeupFd >= old(wakeupFd)
    {
      hide Inv;
      ghost var step := if caller.Other? then Push(caller.t, cb) else SelfPush(cb);
      ApplyInv(View(), step);
      ghost var next := Apply(View(), step);
      pendingFunctors := pendingFunctors + [cb];
      pushed := pushed + [cb];
      if caller.Other? {
        waking := waking + {caller.t};
      } else {
        selfWaking := callingPendingFunctors;
        silent := silent || (!callingPendingFunctors && !pc.Handling?);
      }
      assert View() == next;
      if caller.Other? || callingPendingFunctors {
        ApplyInv(View(), if caller.Other? then EventLoops.Wakeup(caller.t) else SelfWakeup);
        Wakeup(caller);
      }
    }

    /** Quitting from another thread makes poll return. */
    method QuitLoop(caller: Caller)
      requires Inv(View()) && if caller.Other? then caller.t !in waking else LoopThreadFree(View())
      modifies this
      ensures Inv(View()) && quit && pendingFunctors == old(pendingFunctors) && (caller.Other? ==> wakeupFd > 0)
    {
      ApplyInv(View(), if caller.Other? then Quit(caller.t) else SelfQuit);
      quit := true;
      if caller.Other? {
        waking := waking + {caller.t};
        ApplyInv(View(), EventLoops.Wakeup(caller.t));
        Wakeup(caller);
      }
    }

    method HandleRead()
      requires Inv(View()) && pc == Handling(true)
      modifies this
      ensures Inv(View()) && View() == Apply(old(View()), ReadEventfd)
      ensures wakeupFd == 0 && pendingFunctors == old(pendingFunctors)
    {
      ApplyInv(View(), ReadEventfd);
      wakeupFd := 0;
      pc := Handling(false);
    }

    /** The pending functors are swapped out under the lock. */
    method TakePending() returns (functors: seq<Functor>)
      requires Inv(View()) && pc == Handling(false)
      modifies this
      ensures Inv(View()) && pc == Calling && callingPendingFunctors && !selfWaking
      ensures functors == old(pendingFunctors) && batch == functors && ran == old(ran) && pendingFunctors == [] &&
              waking == old(waking)
    {
      assert !selfWaking;
      hide Inv;
      ApplyInv(View(), EventsDone);
      callingPendingFunctors := true;
      pc := Swapping;
      ApplyInv(View(), SwapPending);
      functors := pendingFunctors;
      pendingFunctors := [];
      batch, pc, silent := functors, Calling, false;
    }

    method CallFunctor(f: Functor, effect: Functor -> seq<Arrival>)
      requires Inv(View()) && Busy() && batch != [] && batch[0] == f && Possible(effect(f), waking)
      modifies this
      ensures Inv(View()) && Busy() && waking == old(waking)
      ensures batch == old(batch)[1..] && ran == old(ran) + [f] &&
              pendingFunctors == old(pendingFunctors) + Functors(effect(f))
    {
      ApplyInv(View(), RunFunctor);
      hide Inv;
      batch := batch[1..];
      ran := ran + [f];
      QueueAll(effect(f));
    }

    method LeaveFunctors()
      requires Inv(View()) && pc == Calling && !selfWaking && batch == []
      modifies this`pc, this`callingPendingFunctors
      ensures Inv(View()) && pc == Leaving
    {
      ApplyInv(View(), FunctorsDone);
      callingPendingFunctors := false;
      pc := Leaving;
    }

    /** Swap and run: exactly what was pending runs, in order; what the functors and other threads queue meanwhile
        stays pending, and then the next poll returns at once. */
    method DoPendingFunctors(effect: Functor -> seq<Arrival>)
      requires Inv(View()) && pc == Handling(false) && forall f :: Possible(effect(f), waking)
      modifies this
      ensures Inv(View()) && pc == Leaving && ran == old(ran) + old(pendingFunctors)
      ensures pendingFunctors == Effects(effect, old(pendingFunctors))
      ensures pendingFunctors != [] ==> wakeupFd > 0
    {
      hide Inv, Possible;
      var functors := TakePending();
      assert functors[..0] == [] && functors[0..] == functors;
      for i := 0 to |functors|
        invariant Inv(View()) && Busy() && waking == old(waking)
        invariant batch == functors[i..] && ran == old(ran) + functors[..i]
        invariant pendingFunctors == Effects(effect, functors[..i])
      {
        hide Effects;
        assert functors[i..][0] == functors[i] && functors[i..][1..] == functors[i + 1..];
        assert functors[..i + 1] == functors[..i] + [functors[i]];
        EffectsSnoc(effect, functors[..i], functors[i]);
        CallFunctor(functors[i], effect);
      }
      assert functors[..|functors|] == functors;
      LeaveFunctors();
    }

    /** What is queued while one functor runs, by it and by other threads. */
    method QueueAll(cbs: seq<Arrival>)
      requires Inv(View()) && Busy() && Possible(cbs, waking)
      modifies this
      ensures Inv(View()) && Busy() && waking == old(waking)
      ensures batch == old(batch) && ran == old(ran) && pendingFunctors == old(pendingFunctors) + Functors(cbs)
    {
      hide Inv;
      for k := 0 to |cbs|
        invariant Inv(View()) && Busy() && waking == old(waking)
        invariant batch == old(batch) && ran == old(ran) && pendingFunctors == old(pendingFunctors) + Functors(cbs[..k])
      {
        assert cbs[..k + 1] == cbs[..k] + [cbs[k]];
        FunctorsSnoc(cbs[..k], cbs[k]);
        QueueInLoop(cbs[k].cb, cbs[k].caller);
      }
      assert cbs[..|cbs|] == cbs;
    }
  }

  /** A functor queued by some thread while functors run. */
  datatype Arrival = Arrival(cb: Functor, caller: Caller)

  /** A thread in the middle of another call cannot queue. */
  predicate Possible(cbs: seq<Arrival>, waking: set<ThreadId>) {
    forall i :: 0 <= i < |cbs| ==> cbs[i].caller.Other? ==> cbs[i].caller.t !in waking
  }

  function Functors(cbs: seq<Arrival>): seq<Functor> {
    if cbs == [] then [] else Functors(cbs[..|cbs| - 1]) + [cbs[|cbs| - 1].cb]
  }

  lemma FunctorsSnoc(cbs: seq<Arrival>, a: Arrival)
    ensures Functors(cbs + [a]) == Functors(cbs) + [a.cb]
  {
    assert (cbs + [a])[..|cbs|] == cbs;
  }

  /** All that is queued while the functors run. */
  function Effects(effect: Functor -> seq<Arrival>, functors: seq<Functor>): seq<Functor> {
    if functors == [] then []
    else Effects(effect, functors[..|functors| - 1]) + Functors(effect(functors[|functors| - 1]))
  }

  lemma EffectsSnoc(effect: Functor -> seq<Arrival>, functors: seq<Functor>, f: Functor)
    ensures Effects(effect, functors + [f]) == Effects(effect, functors) + Functors(effect(f))
  {
    assert (functors + [f])[..|functors|] == functors;
  }
}
