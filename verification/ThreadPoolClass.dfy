/** The thread pool as an object (muduo/base/ThreadPool.cc). A method is one critical section: it ends by leaving the
    monitor or by going to wait; a woken thread calls it again, as the loop around the wait does. */
module ThreadPoolObjects {

  import opened ThreadPools

  class ThreadPool {
    const threads: set<ThreadId>
    const maxQueueSize: nat
    var running: bool
    var queue: seq<Task>

    // The threads inside take() and run().
    ghost var committed: set<ThreadId>
    var emptyWaiters: set<ThreadId>
    var emptyWoken: set<ThreadId>
    var fullWaiters: set<ThreadId>
    var fullWoken: set<ThreadId>
    ghost var holds: map<ThreadId, Task>
    ghost var pushed: seq<Task>
    ghost var taken: seq<Task>

    ghost function View(): Pool
      reads this
    {
      Pool(threads, maxQueueSize, running, queue, committed, emptyWaiters, emptyWoken, fullWaiters, fullWoken, holds,
        pushed, taken)
    }

    constructor (threads: set<ThreadId>, maxQueueSize: nat)
      ensures View() == Init(threads, maxQueueSize) && Inv(View())
    {
      this.threads, this.maxQueueSize := threads, maxQueueSize;
      running, queue, emptyWaiters, emptyWoken, fullWaiters, fullWoken := true, [], {}, {}, {}, {};
      committed, holds, pushed, taken := {}, map[], [], [];
    }

    predicate Full()
      reads this
    {
      maxQueueSize > 0 && |queue| >= maxQueueSize
    }

    /** notify: some waiter, if there is one, is woken; `wakes` says which. */
    method NotifyNotEmpty(wakes: ThreadId)
      modifies this`emptyWaiters, this`emptyWoken
      ensures View() == NotifyEmpty(old(View()), wakes)
    {
      if wakes in emptyWaiters {
        emptyWaiters, emptyWoken := emptyWaiters - {wakes}, emptyWoken + {wakes};
      }
    }

    method NotifyNotFull(wakes: ThreadId)
      modifies this`fullWaiters, this`fullWoken
      ensures View() == NotifyFull(old(View()), wakes)
    {
      if wakes in fullWaiters {
        fullWaiters, fullWoken := fullWaiters - {wakes}, fullWoken + {wakes};
      }
    }

    /** run in thread p, from its start or from its wake-up. */
    method Run(p: ThreadId, task: Task, again: bool, wakes: ThreadId) returns (waits: bool)
      requires Inv(View()) && Enabled(View(), if again then RunAgain(p, wakes) else ThreadPools.Run(p, task, wakes))
      requires again ==> p in holds && holds[p] == task
      modifies this
      ensures Inv(View()) && View() ==
              Apply(old(View()), if again then RunAgain(p, wakes) else ThreadPools.Run(p, task, wakes))
      ensures waits <==> old(Full()) && old(running)
      ensures !waits && running ==> pushed == old(pushed) + [task] && !(maxQueueSize > 0 && |queue| > maxQueueSize)
    {
      hide Inv;
      ApplyInv(View(), if again then RunAgain(p, wakes) else ThreadPools.Run(p, task, wakes));
      if again {
        fullWoken := fullWoken - {p};
      }
      waits := Full() && running;
      if waits {
        fullWaiters := fullWaiters + {p};
        holds := holds[p := task];
        return;
      }
      if !running {
        return;
      }
      assert !Full();
      queue := queue + [task];
      pushed := pushed + [task];
      NotifyNotEmpty(wakes);
    }

    /** The head of the loop of runInThread: whether worker w goes for another task. */
    method GoesOn(w: ThreadId) returns (again: bool)
      requires Inv(View()) && w in threads && !Blocked(View(), w)
      modifies this`committed
      ensures Inv(View()) && View() == Apply(old(View()), TestRunning(w))
      ensures again <==> running && w in Past(View())
    {
      ApplyInv(View(), TestRunning(w));
      hide Inv;
      again := running;
      if again {
        committed := committed + {w};
      }
    }

    /** take in worker w. Without a task to return, the pool has stopped. */
    method Take(w: ThreadId, again: bool, wakes: ThreadId) returns (waits: bool, task: seq<Task>)
      requires Inv(View()) && Enabled(View(), if again then TakeAgain(w, wakes) else ThreadPools.Take(w, wakes))
      modifies this
      ensures Inv(View()) && View() ==
              Apply(old(View()), if again then TakeAgain(w, wakes) else ThreadPools.Take(w, wakes))
      ensures waits <==> old(queue) == [] && old(running)
      ensures !waits ==> taken == old(taken) + task && old(queue) == task + queue && (task == [] <==> old(queue) == [])
      ensures |task| <= 1
    {
      hide Inv;
      ApplyInv(View(), if again then TakeAgain(w, wakes) else ThreadPools.Take(w, wakes));
      if again {
        emptyWoken := emptyWoken - {w};
      } else {
        committed := committed - {w};
      }
      hide Enabled, Blocked;
      waits, task := TakeOrWait(w, wakes);
    }

    method TakeOrWait(w: ThreadId, wakes: ThreadId) returns (waits: bool, task: seq<Task>)
      modifies this
      ensures View() == TakeLocked(old(View()), w, wakes)
      ensures waits <==> old(queue) == [] && old(running)
      ensures !waits ==> taken == old(taken) + task && old(queue) == task + queue && (task == [] <==> old(queue) == [])
      ensures |task| <= 1
    {
      task := [];
      waits := queue == [] && running;
      if waits {
        emptyWaiters := emptyWaiters + {w};
        return;
      }
      if queue != [] {
        task := [queue[0]];
        taken := taken + task;
        queue := queue[1..];
        if maxQueueSize > 0 {
          NotifyNotFull(wakes);
        }
      }
    }

    method StopPool()
      requires Inv(View())
      modifies this
      ensures Inv(View()) && View() == Apply(old(View()), Stop)
      ensures emptyWaiters == {} && fullWaiters == {} && emptyWoken >= old(emptyWaiters) &&
              fullWoken >= old(fullWaiters)
    {
      hide Inv;
      ApplyInv(View(), Stop);
      running := false;
      emptyWoken, emptyWaiters := emptyWoken + emptyWaiters, {};
      fullWoken, fullWaiters := fullWoken + fullWaiters, {};
    }
  }
}
