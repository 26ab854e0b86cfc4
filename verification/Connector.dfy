/** The connector's retry state machine (muduo/net/Connector.cc, muduo/net/Connector.h).

    Sockets are numbered in the order of their creation. System calls report through the `Attempt` and `SocketEvent`
    arguments of the steps. `failed` records an assertion of the source that did not hold. */
module Connectors {

  import opened Common

  type Sock = nat

  datatype State = Disconnected | Connecting | Connected

  /** connect(2) by the case of the switch that its errno selects. */
  datatype Attempt = InProgress | Retryable | Fatal

  datatype Functor = RunStart | RunStop | RunResetChannel

  const INIT_RETRY_DELAY_MS: nat := 500
  const MAX_RETRY_DELAY_MS: nat := 30_000

  datatype Conn = Conn(
    state: State,
    connect: bool,
    channel: Option<Sock>,     // channel_ and its descriptor
    watching: bool,            // the channel is in the loop, waiting for writability
    retryDelayMs: nat,
    started: bool,
    queue: seq<Functor>,       // this connector's functors in the loop's queue
    timers: nat,               // retry timers that have not fired
    created: nat,              // sockets created
    closed: seq<Sock>,         // sockets closed, in order
    handed: seq<Sock>,         // sockets given to newConnectionCallback_
    waits: seq<nat>,           // delays of the retries since start or restart
    failed: bool)

  datatype Step =
    | Start(inLoop: bool, attempt: Attempt)
    | Stop
    | RunQueued(attempt: Attempt)
    | TimerFires(attempt: Attempt)
    | SocketReady(error: bool, writable: bool, soError: bool, selfConnect: bool)
    | Restart(attempt: Attempt)

  const INIT := Conn(Disconnected, false, None, false, INIT_RETRY_DELAY_MS, false, [], 0, 0, [], [], [], false)

  function Min(a: nat, b: nat): nat {
    if a <= b then a else b
  }

  // ----- The member functions -----

  function Retry(s: Conn, sock: Sock): Conn {
    var s1 := s.(closed := s.closed + [sock], state := Disconnected);
    if s.connect then
      s1.(timers := s.timers + 1, waits := s.waits + [s.retryDelayMs],
        retryDelayMs := Min(s.retryDelayMs * 2, MAX_RETRY_DELAY_MS))
    else s1
  }

  function StartConnecting(s: Conn, sock: Sock): Conn {
    s.(state := Connecting, channel := Some(sock), watching := true, failed := s.failed || s.channel.Some?)
  }

  function Connect(s: Conn, attempt: Attempt): Conn {
    var sock := s.created;
    var s1 := s.(created := s.created + 1);
    match attempt
    case InProgress => StartConnecting(s1, sock)
    case Retryable => Retry(s1, sock)
    case Fatal => s1.(closed := s1.closed + [sock])
  }

  function StartInLoop(s: Conn, attempt: Attempt): Conn {
    var s1 := s.(failed := s.failed || s.state != Disconnected);
    if s.connect then Connect(s1, attempt) else s1
  }

  /** The channel leaves the loop now; the object is destroyed later, as we may be inside its handleEvent. */
  function RemoveAndResetChannel(s: Conn): Conn {
    s.(watching := false, queue := s.queue + [RunResetChannel], failed := s.failed || s.channel.None?)
  }

  function Fd(s: Conn): Sock {
    if s.channel.Some? then s.channel.value else 0
  }

  function StopInLoop(s: Conn): Conn {
    if s.state == Connecting then Retry(RemoveAndResetChannel(s.(state := Disconnected)), Fd(s)) else s
  }

  function HandleError(s: Conn): Conn {
    if s.state == Connecting then Retry(RemoveAndResetChannel(s), Fd(s)) else s
  }

  function HandleWrite(s: Conn, soError: bool, selfConnect: bool): Conn {
    if s.state == Connecting then
      var s1 := RemoveAndResetChannel(s);
      if soError || selfConnect then Retry(s1, Fd(s))
      else
        var s2 := s1.(state := Connected);
        if s.connect then s2.(handed := s2.handed + [Fd(s)]) else s2.(closed := s2.closed + [Fd(s)])
    else s.(failed := s.failed || s.state != Disconnected)
  }

  /** Channel::handleEvent calls the error callback before the write callback. */
  function HandleEvent(s: Conn, error: bool, writable: bool, soError: bool, selfConnect: bool): Conn {
    var s1 := if error then HandleError(s) else s;
    if writable then HandleWrite(s1, soError, selfConnect) else s1
  }

  // ----- Runs: one start(), then anything -----

  /** The loop runs a queued reset of the channel before it makes another attempt. */
  predicate ResetDone(s: Conn) {
    RunResetChannel !in s.queue
  }

  predicate Enabled(s: Conn, step: Step) {
    match step
    case Start(_, _) => !s.started
    case Stop => s.started
    case RunQueued(_) => s.queue != []
    case TimerFires(_) => s.timers > 0 && ResetDone(s)
    case SocketReady(_, _, _, _) => s.watching
    case Restart(_) => s.state == Connected && ResetDone(s)
  }

  function Apply(s: Conn, step: Step): Conn {
    if !Enabled(s, step) then s
    else match step
      case Start(inLoop, attempt) =>
        var s1 := s.(started := true, connect := true);
        if inLoop then StartInLoop(s1, attempt) else s1.(queue := s1.queue + [RunStart])
      case Stop => s.(connect := false, queue := s.queue + [RunStop])
      case RunQueued(attempt) =>
        var s1 := s.(queue := s.queue[1..]);
        (match s.queue[0]
         case RunStart => StartInLoop(s1, attempt)
         case RunStop => StopInLoop(s1)
         case RunResetChannel => s1.(channel := None))
      case TimerFires(attempt) => StartInLoop(s.(timers := s.timers - 1), attempt)
      case SocketReady(error, writable, soError, selfConnect) => HandleEvent(s, error, writable, soError, selfConnect)
      case Restart(attempt) =>
        StartInLoop(s.(state := Disconnected, retryDelayMs := INIT_RETRY_DELAY_MS, connect := true, waits := []),
          attempt)
  }

  function Exec(s: Conn, steps: seq<Step>): Conn
    decreases |steps|
  {
    if steps == [] then s else Exec(Apply(s, steps[0]), steps[1..])
  }

  // ----- The invariant -----

  function Count(queue: seq<Functor>, f: Functor): nat {
    if queue == [] then 0 else (if queue[0] == f then 1 else 0) + Count(queue[1..], f)
  }

  /** Connection attempts in progress or to come: queued, timed, under way or succeeded. */
  function Attempts(s: Conn): nat {
    Count(s.queue, RunStart) + s.timers + (if s.state == Disconnected then 0 else 1)
  }

  /** The channel is in the loop exactly while connecting; afterwards it waits for its reset. */
  predicate ChannelTracked(s: Conn) {
    && (s.state == Connecting <==> s.watching)
    && (s.watching ==> s.channel.Some? && Count(s.queue, RunResetChannel) == 0)
    && (!s.watching ==> Count(s.queue, RunResetChannel) == (if s.channel.Some? then 1 else 0))
  }

  /** Every socket created is in exactly one place: the connecting channel, closed, or handed over. */
  predicate Accounted(created: nat, connecting: Option<Sock>, closed: seq<Sock>, handed: seq<Sock>) {
    && NoDup(closed) && NoDup(handed)
    && (forall x :: x in closed ==> x < created && x !in handed && connecting != Some(x))
    && (forall x :: x in handed ==> x < created && connecting != Some(x))
    && (connecting.Some? ==> connecting.value < created)
    && (forall x :: 0 <= x < created ==> x in closed || x in handed || connecting == Some(x))
  }

  function ConnectingSock(s: Conn): Option<Sock> {
    if s.watching then s.channel else None
  }

  /** min(500 * 2^k, 30000) */
  function Backoff(k: nat): nat {
    if k == 0 then INIT_RETRY_DELAY_MS else Min(2 * Backoff(k - 1), MAX_RETRY_DELAY_MS)
  }

  predicate BacksOff(waits: seq<nat>, delay: nat) {
    && delay == Backoff(|waits|)
    && (forall k :: 0 <= k < |waits| ==> waits[k] == Backoff(k))
  }

  predicate Inv(s: Conn) {
    && !s.failed
    && ChannelTracked(s)
    && Attempts(s) <= 1
    && (!s.started ==> s.timers == 0 && s.queue == [] && s.state == Disconnected && s.channel == None)
    && (Count(s.queue, RunStart) > 0 ==> s.channel == None)
    && Accounted(s.created, ConnectingSock(s), s.closed, s.handed)
    && BacksOff(s.waits, s.retryDelayMs)
  }

  lemma {:induction false} CountAppend(queue: seq<Functor>, f: Functor, g: Functor)
    ensures Count(queue + [g], f) == Count(queue, f) + (if f == g then 1 else 0)
  {
    if queue == [] {
    } else {
      assert (queue + [g])[1..] == queue[1..] + [g];
      CountAppend(queue[1..], f, g);
    }
  }

  lemma {:induction false} CountZero(queue: seq<Functor>, f: Functor)
    ensures Count(queue, f) == 0 <==> f !in queue
  {
    if queue != [] {
      assert queue == [queue[0]] + queue[1..];
      CountZero(queue[1..], f);
    }
  }

  lemma CreateAccounted(created: nat, closed: seq<Sock>, handed: seq<Sock>)
    requires Accounted(created, None, closed, handed)
    ensures Accounted(created + 1, Some(created), closed, handed)
  {
  }

  lemma CloseAccounted(created: nat, sock: Sock, closed: seq<Sock>, handed: seq<Sock>)
    requires Accounted(created, Some(sock), closed, handed)
    ensures Accounted(created, None, closed + [sock], handed) && Accounted(created, None, closed, handed + [sock])
  {
  }

  lemma RetryBacksOff(waits: seq<nat>, delay: nat)
    requires BacksOff(waits, delay)
    ensures BacksOff(waits + [delay], Min(delay * 2, MAX_RETRY_DELAY_MS))
  {
  }

  function Pow2(k: nat): nat {
    if k == 0 then 1 else 2 * Pow2(k - 1)
  }

  /** The delay doubles from 500 milliseconds up to the maximum. */
  lemma {:induction false} BackoffValue(k: nat)
    ensures Backoff(k) == Min(500 * Pow2(k), 30_000)
  {
    if k > 0 {
      BackoffValue(k - 1);
    }
  }

  /** About to make an attempt, with nothing else going on. */
  predicate Ready(s: Conn) {
    && !s.failed && s.started && s.state == Disconnected && !s.watching && s.channel == None && s.timers == 0
    && Count(s.queue, RunStart) == 0 && Count(s.queue, RunResetChannel) == 0
    && Accounted(s.created, None, s.closed, s.handed)
    && BacksOff(s.waits, s.retryDelayMs)
  }

  lemma StartInLoopInv(s: Conn, attempt: Attempt)
    requires Ready(s)
    ensures Inv(StartInLoop(s, attempt))
  {
    hide Accounted, BacksOff, Min;
    if s.connect {
      CreateAccounted(s.created, s.closed, s.handed);
      CloseAccounted(s.created + 1, s.created, s.closed, s.handed);
      RetryBacksOff(s.waits, s.retryDelayMs);
    }
  }

  /** The connecting channel leaves the loop and its socket is in hand. */
  predicate SocketInHand(s: Conn, sock: Sock) {
    && !s.failed && s.started && !s.watching && s.channel.Some? && s.timers == 0
    && Count(s.queue, RunStart) == 0 && Count(s.queue, RunResetChannel) == 1
    && Accounted(s.created, Some(sock), s.closed, s.handed)
    && BacksOff(s.waits, s.retryDelayMs)
  }

  lemma RemoveChannelInHand(s: Conn)
    requires Inv(s) && s.state == Connecting
    ensures SocketInHand(RemoveAndResetChannel(s), Fd(s)) &&
            SocketInHand(RemoveAndResetChannel(s.(state := Disconnected)), Fd(s))
  {
    hide Accounted, BacksOff;
    CountAppend(s.queue, RunStart, RunResetChannel);
    CountAppend(s.queue, RunResetChannel, RunResetChannel);
  }

  lemma RetryInv(s: Conn, sock: Sock)
    requires SocketInHand(s, sock)
    ensures Inv(Retry(s, sock)) && Retry(s, sock).state == Disconnected
  {
    hide Accounted, BacksOff, Min;
    CloseAccounted(s.created, sock, s.closed, s.handed);
    RetryBacksOff(s.waits, s.retryDelayMs);
  }

  lemma StopInLoopInv(s: Conn)
    requires Inv(s)
    ensures Inv(StopInLoop(s))
  {
    hide Inv, RemoveAndResetChannel, Retry, SocketInHand;
    if s.state == Connecting {
      RemoveChannelInHand(s);
      RetryInv(RemoveAndResetChannel(s.(state := Disconnected)), Fd(s));
    }
  }

  lemma HandleErrorInv(s: Conn)
    requires Inv(s) && s.watching
    ensures Inv(HandleError(s)) && HandleError(s).state == Disconnected
  {
    assert s.state == Connecting;
    hide Inv, RemoveAndResetChannel, Retry, SocketInHand;
    RemoveChannelInHand(s);
    RetryInv(RemoveAndResetChannel(s), Fd(s));
  }

  lemma HandleWriteInv(s: Conn, soError: bool, selfConnect: bool)
    requires Inv(s) && s.state != Connected
    ensures Inv(HandleWrite(s, soError, selfConnect))
  {
    if s.state == Connecting {
      var s1 := RemoveAndResetChannel(s);
      RemoveChannelInHand(s);
      if soError || selfConnect {
        hide Inv, RemoveAndResetChannel, Retry, SocketInHand;
        RetryInv(s1, Fd(s));
      } else {
        hide Accounted, BacksOff;
        CloseAccounted(s1.created, Fd(s), s1.closed, s1.handed);
      }
    }
  }

  lemma HandleEventInv(s: Conn, error: bool, writable: bool, soError: bool, selfConnect: bool)
    requires Inv(s) && s.watching
    ensures Inv(HandleEvent(s, error, writable, soError, selfConnect))
  {
    assert s.state == Connecting;
    hide Inv, HandleError, HandleWrite;
    if error {
      HandleErrorInv(s);
    }
    if writable {
      HandleWriteInv(if error then HandleError(s) else s, soError, selfConnect);
    }
  }

  lemma RunQueuedInv(s: Conn, attempt: Attempt)
    requires Inv(s) && s.queue != []
    ensures Inv(Apply(s, RunQueued(attempt)))
  {
    var s1 := s.(queue := s.queue[1..]);
    hide Accounted, BacksOff;
    match s.queue[0]
    case RunStart =>
      assert Ready(s1);
      hide Inv, StartInLoop, Ready;
      StartInLoopInv(s1, attempt);
    case RunStop =>
      assert Inv(s1);
      hide Inv, StopInLoop;
      StopInLoopInv(s1);
    case RunResetChannel =>
  }

  lemma ApplyInv(s: Conn, step: Step)
    requires Inv(s)
    ensures Inv(Apply(s, step))
  {
    if Enabled(s, step) {
      CountZero(s.queue, RunResetChannel);
      match step
      case Start(inLoop, attempt) =>
        hide Accounted, BacksOff;
        var s1 := s.(started := true, connect := true);
        assert Ready(s1);
        CountAppend(s.queue, RunStart, RunStart);
        CountAppend(s.queue, RunResetChannel, RunStart);
        StartInLoopInv(s1, attempt);
      case Stop =>
        hide Accounted, BacksOff;
        CountAppend(s.queue, RunStart, RunStop);
        CountAppend(s.queue, RunResetChannel, RunStop);
      case RunQueued(attempt) =>
        hide Inv, Apply;
        RunQueuedInv(s, attempt);
      case TimerFires(attempt) =>
        hide Accounted, BacksOff;
        StartInLoopInv(s.(timers := s.timers - 1), attempt);
      case SocketReady(error, writable, soError, selfConnect) =>
        hide Inv, HandleEvent;
        HandleEventInv(s, error, writable, soError, selfConnect);
      case Restart(attempt) =>
        hide Accounted;
        StartInLoopInv(s.(state := Disconnected, retryDelayMs := INIT_RETRY_DELAY_MS, connect := true, waits := []),
          attempt);
    }
  }

  lemma {:induction false} ExecInv(s: Conn, steps: seq<Step>)
    requires Inv(s)
    ensures Inv(Exec(s, steps))
    decreases |steps|
  {
    hide Inv, Apply;
    if steps != [] {
      ApplyInv(s, steps[0]);
      ExecInv(Apply(s, steps[0]), steps[1..]);
    }
  }

  // ----- What every run keeps -----

  /** In every run no assertion of the source fails, every socket created is in exactly one place, closed or handed
      over at most once, at most one attempt is queued, timed, under way or connected, and the k-th retry since start or
      restart waits min(500 * 2^k, 30000) milliseconds. */
  lemma EveryRun(steps: seq<Step>)
    ensures var s := Exec(INIT, steps);
            !s.failed && Attempts(s) <= 1 &&
            Accounted(s.created, ConnectingSock(s), s.closed, s.handed) &&
            (forall k :: 0 <= k < |s.waits| ==> s.waits[k] == Min(500 * Pow2(k), 30_000))
  {
    assert Inv(INIT);
    ExecInv(INIT, steps);
    hide Accounted;
    var s := Exec(INIT, steps);
    forall k | 0 <= k < |s.waits|
      ensures s.waits[k] == Min(500 * Pow2(k), 30_000)
    {
      BackoffValue(k);
    }
  }

  // ----- Stopping -----

  /** The connection is not wanted any more: an attempt under way has its stop queued. */
  predicate Stopped(s: Conn) {
    s.started && !s.connect && (s.state == Connecting ==> RunStop in s.queue)
  }

  lemma StopWanted(s: Conn)
    requires Inv(s) && s.started
    ensures Stopped(Apply(s, Stop))
  {
    hide Inv;
  }

  /** No socket is created or handed over, and no timer set. */
  predicate NothingNew(s: Conn, s': Conn) {
    s'.created == s.created && s'.handed == s.handed && s'.timers <= s.timers
  }

  lemma StoppedStep(s: Conn, step: Step)
    requires Inv(s) && Stopped(s) && !step.Restart?
    ensures Stopped(Apply(s, step)) && NothingNew(s, Apply(s, step))
  {
    hide Inv;
    if Enabled(s, step) {
      match step
      case RunQueued(_) => assert s.queue == [s.queue[0]] + s.queue[1..];
      case _ =>
    }
  }

  /** After stop(), and until the client restarts a lost connection, whatever happens: no socket is created or handed
      over and no retry timer set; and when the queue is empty no attempt is under way. */
  lemma {:induction false} StopIsFinal(s: Conn, steps: seq<Step>)
    requires Inv(s) && Stopped(s) && forall i :: 0 <= i < |steps| ==> !steps[i].Restart?
    ensures var s' := Exec(s, steps);
            Inv(s') && Stopped(s') && NothingNew(s, s') && (s'.queue == [] ==> ConnectingSock(s') == None)
    decreases |steps|
  {
    if steps == [] {
      if s.queue == [] {
        NoSocketUnlessConnecting(s);
      }
    } else {
      StoppedStep(s, steps[0]);
      ApplyInv(s, steps[0]);
      hide Inv, Apply, Stopped;
      StopIsFinal(Apply(s, steps[0]), steps[1..]);
    }
  }

  lemma NoSocketUnlessConnecting(s: Conn)
    requires Inv(s) && s.state != Connecting
    ensures ConnectingSock(s) == None
  {
    hide Accounted, BacksOff;
  }

  /** A pending reset of the channel is what an attempt must not overtake: the assertion in connecting() holds exactly
      when none is queued. */
  lemma AttemptNeedsReset(s: Conn)
    requires Inv(s) && s.started && s.state == Disconnected && s.connect
    ensures StartInLoop(s, InProgress).failed <==> RunResetChannel in s.queue
  {
    CountZero(s.queue, RunResetChannel);
  }

  /** A timer that fires after a failed attempt, in the same round of event handling, does overtake it. */
  lemma ImmediateRetryFails()
    ensures var s := Apply(Apply(INIT, Start(true, InProgress)), SocketReady(true, false, true, false));
            s.timers == 1 && StartInLoop(s.(timers := 0), InProgress).failed
  {
  }
}

/** The Connector object, method by method. What the source asserts is required, and shown to hold in every run. */
module ConnectorObjects {
  import opened Common
  import opened S = Connectors

  class Connector {
    var state: State
    var connect: bool
    var channel: Option<Sock>
    var watching: bool
    var retryDelayMs: nat
    var queue: seq<Functor>
    var timers: nat
    var created: nat
    ghost var started: bool
    ghost var closed: seq<Sock>
    ghost var handed: seq<Sock>
    ghost var waits: seq<nat>

    ghost function View(): Conn
      reads this
    {
      Conn(state, connect, channel, watching, retryDelayMs, started, queue, timers, created, closed, handed, waits,
        false)
    }

    constructor ()
      ensures View() == INIT && Inv(View())
    {
      state, connect, channel, watching, retryDelayMs := Disconnected, false, None, false, INIT_RETRY_DELAY_MS;
      queue, timers, created := [], 0, 0;
      started, closed, handed, waits := false, [], [], [];
    }

    method Close(sock: Sock)
      modifies this`closed
      ensures closed == old(closed) + [sock]
    {
      closed := closed + [sock];
    }

    /** The socket is closed; if the connection is still wanted, one timer more is set, which waits
        min(500 * 2^k, 30000) milliseconds as the k-th retry, and the delay is ready for the next one. */
    method RetryLater(sock: Sock)
      modifies this
      ensures View() == S.Retry(old(View()), sock)
      ensures closed == old(closed) + [sock] && state == Disconnected
      ensures timers == old(timers) + (if connect then 1 else 0) && |waits| == |old(waits)| + (if connect then 1 else 0)
      ensures old(BacksOff(waits, retryDelayMs)) ==>
                BacksOff(waits, retryDelayMs) &&
                  (connect ==> waits == old(waits) + [Min(500 * Pow2(|old(waits)|), 30_000)])
    {
      if BacksOff(waits, retryDelayMs) {
        RetryBacksOff(waits, retryDelayMs);
        BackoffValue(|waits|);
      }
      hide BacksOff;
      Close(sock);
      state := Disconnected;
      if connect {
        timers := timers + 1;
        waits := waits + [retryDelayMs];
        retryDelayMs := if retryDelayMs * 2 <= MAX_RETRY_DELAY_MS then retryDelayMs * 2 else MAX_RETRY_DELAY_MS;
      }
    }

    method BeginConnecting(sock: Sock)
      requires channel.None?
      modifies this
      ensures View() == S.StartConnecting(old(View()), sock)
    {
      state := Connecting;
      channel := Some(sock);
      watching := true;
    }

    method ConnectOnce(attempt: Attempt)
      requires attempt.InProgress? ==> channel.None?
      modifies this
      ensures View() == S.Connect(old(View()), attempt)
    {
      var sock := created;
      created := created + 1;
      match attempt
      case InProgress => BeginConnecting(sock);
      case Retryable => RetryLater(sock);
      case Fatal => Close(sock);
    }

    method RunStartInLoop(attempt: Attempt)
      requires state == Disconnected && channel.None?
      modifies this
      ensures View() == S.StartInLoop(old(View()), attempt)
    {
      if connect {
        ConnectOnce(attempt);
      }
    }

    method RemoveAndReset() returns (sock: Sock)
      requires channel.Some?
      modifies this
      ensures View() == S.RemoveAndResetChannel(old(View())) && sock == Fd(old(View()))
    {
      watching := false;
      sock := channel.value;
      queue := queue + [RunResetChannel];
    }

    method RunStopInLoop()
      requires Inv(View())
      modifies this
      ensures Inv(View()) && View() == S.StopInLoop(old(View()))
    {
      StopInLoopInv(View());
      if state == Connecting {
        state := Disconnected;
        var sock := RemoveAndReset();
        RetryLater(sock);
      }
    }

    /** The socket is handed over if it is sound and still wanted, and closed otherwise; a retry timer is set if and
        only if it is not sound and the connection is still wanted. */
    method OnWritable(soError: bool, selfConnect: bool)
      requires Inv(View()) && state != Connected
      modifies this
      ensures Inv(View()) && View() == S.HandleWrite(old(View()), soError, selfConnect)
      ensures connect == old(connect)
      ensures old(state) == Connecting && old(channel).Some? ==>
                var sock, sound := old(channel).value, !soError && !selfConnect;
                && handed == (if sound && connect then old(handed) + [sock] else old(handed))
                && closed == (if sound && connect then old(closed) else old(closed) + [sock])
                && timers == old(timers) + (if !sound && connect then 1 else 0)
                && state == (if sound then Connected else Disconnected) && !watching
    {
      HandleWriteInv(View(), soError, selfConnect);
      if state == Connecting {
        var sock := RemoveAndReset();
        if soError {
          RetryLater(sock);
        } else if selfConnect {
          RetryLater(sock);
        } else {
          state := Connected;
          if connect {
            handed := handed + [sock];
          } else {
            Close(sock);
          }
        }
      } else {
        assert state == Disconnected;
      }
    }

    method OnError()
      requires Inv(View()) && watching
      modifies this
      ensures Inv(View()) && View() == S.HandleError(old(View())) && state == Disconnected
      ensures old(channel).Some? && closed == old(closed) + [old(channel).value] && handed == old(handed)
      ensures timers == old(timers) + (if connect then 1 else 0) && connect == old(connect) && !watching
    {
      HandleErrorInv(View());
      if state == Connecting {
        var sock := RemoveAndReset();
        RetryLater(sock);
      }
    }

    method CallStart(inLoop: bool, attempt: Attempt)
      requires Inv(View()) && Enabled(View(), Start(inLoop, attempt))
      modifies this
      ensures Inv(View()) && View() == S.Apply(old(View()), Start(inLoop, attempt))
    {
      hide Inv;
      ApplyInv(View(), Start(inLoop, attempt));
      CanAttempt(View(), Start(inLoop, attempt));
      started := true;
      connect := true;
      if inLoop {
        RunStartInLoop(attempt);
      } else {
        queue := queue + [RunStart];
      }
    }

    method FireTimer(attempt: Attempt)
      requires Inv(View()) && Enabled(View(), TimerFires(attempt))
      modifies this
      ensures Inv(View()) && View() == S.Apply(old(View()), TimerFires(attempt))
    {
      hide Inv;
      ApplyInv(View(), TimerFires(attempt));
      CanAttempt(View(), TimerFires(attempt));
      timers := timers - 1;
      RunStartInLoop(attempt);
    }

    method CallRestart(attempt: Attempt)
      requires Inv(View()) && Enabled(View(), Restart(attempt))
      modifies this
      ensures Inv(View()) && View() == S.Apply(old(View()), Restart(attempt))
    {
      hide Inv;
      ApplyInv(View(), Restart(attempt));
      CanAttempt(View(), Restart(attempt));
      state := Disconnected;
      retryDelayMs := INIT_RETRY_DELAY_MS;
      connect := true;
      waits := [];
      RunStartInLoop(attempt);
    }

    method CallStop()
      requires Inv(View()) && Enabled(View(), Stop)
      modifies this
      ensures Inv(View()) && View() == S.Apply(old(View()), Stop)
    {
      hide Inv;
      ApplyInv(View(), Stop);
      connect := false;
      queue := queue + [RunStop];
    }

    /** The functor at the head of the loop's queue. */
    method RunFunctor(attempt: Attempt)
      requires Inv(View()) && queue != []
      modifies this
      ensures Inv(View()) && View() == S.Apply(old(View()), RunQueued(attempt))
    {
      hide Inv;
      RunQueuedInv(View(), attempt);
      PopInv(View());
      var f := queue[0];
      queue := queue[1..];
      if f == RunStart {
        RunStartInLoop(attempt);
      } else if f == RunStop {
        RunStopInLoop();
      } else {
        channel := None;
      }
    }

    method HandleSocket(error: bool, writable: bool, soError: bool, selfConnect: bool)
      requires Inv(View()) && watching
      modifies this
      ensures Inv(View()) && View() == S.HandleEvent(old(View()), error, writable, soError, selfConnect)
    {
      NotConnected(View());
      hide Inv, HandleError, HandleWrite;
      if error {
        OnError();
      }
      if writable {
        OnWritable(soError, selfConnect);
      }
    }

    /** What the loop does with this connector: its functors, its timer, its channel and the calls of its client. */
    method Perform(step: Step)
      requires Inv(View()) && Enabled(View(), step)
      modifies this
      ensures Inv(View()) && View() == S.Apply(old(View()), step)
    {
      hide Inv, StartInLoop, StopInLoop, HandleEvent;
      match step
      case Start(inLoop, attempt) => CallStart(inLoop, attempt);
      case Stop => CallStop();
      case RunQueued(attempt) => RunFunctor(attempt);
      case TimerFires(attempt) => FireTimer(attempt);
      case SocketReady(error, writable, soError, selfConnect) => HandleSocket(error, writable, soError, selfConnect);
      case Restart(attempt) => CallRestart(attempt);
    }
  }

  /** What an attempt relies on. */
  lemma CanAttempt(s: Conn, step: Step)
    requires Inv(s) && Enabled(s, step)
    ensures step.Start? || step.TimerFires? ==> s.state == Disconnected && s.channel.None?
    ensures step.Restart? ==> s.channel.None?
  {
    hide Accounted, BacksOff;
    CountZero(s.queue, RunResetChannel);
  }

  lemma NotConnected(s: Conn)
    requires Inv(s) && s.watching
    ensures s.state != Connected
  {
    hide Accounted, BacksOff;
  }

  lemma PopInv(s: Conn)
    requires Inv(s) && s.queue != []
    ensures s.queue[0] == RunStop ==> Inv(s.(queue := s.queue[1..]))
    ensures s.queue[0] == RunStart ==> s.state == Disconnected && s.channel.None?
  {
    hide Accounted, BacksOff;
  }
}
