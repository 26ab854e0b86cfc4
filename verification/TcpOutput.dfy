/** The output path of a connection (muduo/net/TcpConnection.cc): direct write, overflow into the output buffer, write
    interest, deferred half-close. Here are the steps as functions on values and what holds in every run; the class that
    performs them is in TcpConnection.dfy.

    The results of write(2) are arbitrary. Threads other than the loop thread act only by testing and setting the state
    and by queueing functors, which the loop runs in order. */
module TcpOutput {

  import opened ConnStates
  import opened Buffers

  type Message = seq<Byte>

  datatype WriteResult = Wrote(n: nat) | WouldBlock | BrokenPipe | ConnReset | OtherError

  /** What became of a message given to sendInLoop. */
  datatype Fate = Kept | Faulted | TooLate

  datatype Entry = Entry(message: Message, fate: Fate)

  datatype Functor = SendFunctor(message: Message) | ShutdownFunctor | ForceCloseFunctor

  datatype Conn = Conn(
    state: ConnState,
    writing: bool,             // the channel asks for writable events
    output: seq<Byte>,         // the readable bytes of outputBuffer_
    queue: seq<Functor>,       // functors of this connection that the loop has yet to run
    sent: seq<Byte>,           // what the socket has accepted
    halfClosed: bool,          // shutdownWrite has been called
    accepted: seq<Message>,    // messages that send did not ignore
    log: seq<Entry>,           // messages that reached sendInLoop
    completes: nat,            // write-complete callbacks queued
    marks: seq<nat>,           // high-water callbacks queued, with the size reported
    highWaterMark: nat)

  const HIGH_WATER_MARK: nat := 64 * 1024 * 1024

  const INIT := Conn(Connecting, false, [], [], [], false, [], [], 0, [], HIGH_WATER_MARK)

  // ----- The operations of the loop thread -----

  predicate Fault(r: WriteResult) {
    r.BrokenPipe? || r.ConnReset?
  }

  /** What write(2) can return for len bytes; after shutdownWrite only a broken pipe or a pending reset, unless there is
      nothing to write. */
  predicate Possible(r: WriteResult, len: nat, halfClosed: bool) {
    (r.Wrote? ==> r.n <= len) && (halfClosed && len > 0 ==> Fault(r))
  }

  /** Keep what the socket did not take, and ask for writable events. */
  function Enqueue(c: Conn, rest: seq<Byte>): Conn {
    if rest == [] then c
    else
      var total := |c.output| + |rest|;
      c.(output := c.output + rest, writing := true,
         marks := if total >= c.highWaterMark && |c.output| < c.highWaterMark then c.marks + [total] else c.marks)
  }

  function Logged(c: Conn, message: Message, fate: Fate): Conn {
    c.(log := c.log + [Entry(message, fate)])
  }

  /** A direct write, tried when nothing is pending. */
  function Direct(c: Conn, message: Message, r: WriteResult): Conn
    requires r.Wrote? ==> r.n <= |message|
  {
    c.(sent := c.sent + message[..Taken(r)], completes := c.completes + (if r == Wrote(|message|) then 1 else 0))
  }

  function Taken(r: WriteResult): nat {
    if r.Wrote? then r.n else 0
  }

  /** What was not written is kept, unless the connection is broken. */
  function KeepRest(c: Conn, message: Message, nwrote: nat, fault: bool): Conn
    requires nwrote <= |message|
  {
    Logged(if fault then c else Enqueue(c, message[nwrote..]), message, if fault then Faulted else Kept)
  }

  function SendInLoop(c: Conn, message: Message, r: WriteResult): Conn
    requires Possible(r, |message|, c.halfClosed)
  {
    if c.state == Disconnected then Logged(c, message, TooLate)
    else if c.writing || c.output != [] then KeepRest(c, message, 0, false)
    else KeepRest(Direct(c, message, r), message, Taken(r), Fault(r))
  }

  function ShutdownInLoop(c: Conn): Conn {
    if c.writing then c else c.(halfClosed := true)
  }

  function HandleWrite(c: Conn, r: WriteResult): Conn
    requires Possible(r, |c.output|, c.halfClosed)
  {
    if !c.writing || !r.Wrote? || r.n == 0 then c
    else
      var c' := c.(sent := c.sent + c.output[..r.n], output := c.output[r.n..]);
      if c'.output != [] then c'
      else
        var done := c'.(writing := false, completes := c.completes + 1);
        if done.state == Disconnecting then ShutdownInLoop(done) else done
  }

  function HandleClose(c: Conn): Conn
    requires c.state == Connected || c.state == Disconnecting
  {
    c.(state := Disconnected, writing := false)
  }

  function ForceCloseInLoop(c: Conn): Conn {
    if c.state == Connected || c.state == Disconnecting then HandleClose(c) else c
  }

  // ----- Steps -----

  datatype Step =
    | Establish
    | Send(message: Message, r: WriteResult)    // in the loop thread
    | PostSend(message: Message)                // in another thread
    | Shutdown                                  // in the loop thread
    | PostShutdown                              // in another thread
    | ForceClose                                // in any thread
    | Writable(r: WriteResult)
    | Hangup                                    // the peer closed, or a zero read
    | RunFunctor(r: WriteResult)

  predicate Enabled(c: Conn, step: Step) {
    match step
    case Establish => c.state == Connecting
    case Send(m, r) => c.state == Connected && Possible(r, |m|, c.halfClosed)
    case PostSend(_) => c.state == Connected
    case Shutdown => c.state == Connected
    case PostShutdown => c.state == Connected
    case ForceClose => c.state == Connected || c.state == Disconnecting
    case Writable(r) => Possible(r, |c.output|, c.halfClosed)
    case Hangup => c.state == Connected || c.state == Disconnecting
    case RunFunctor(r) =>
      c.queue != [] && (c.queue[0].SendFunctor? ==> Possible(r, |c.queue[0].message|, c.halfClosed))
  }

  function RunHead(c: Conn, r: WriteResult): Conn
    requires Enabled(c, RunFunctor(r))
  {
    var c' := c.(queue := c.queue[1..]);
    match c.queue[0]
    case SendFunctor(m) => SendInLoop(c', m, r)
    case ShutdownFunctor => ShutdownInLoop(c')
    case ForceCloseFunctor => ForceCloseInLoop(c')
  }

  function Apply(c: Conn, step: Step): Conn {
    if !Enabled(c, step) then c
    else match step
      case Establish => c.(state := Connected)
      case Send(m, r) => SendInLoop(c.(accepted := c.accepted + [m]), m, r)
      case PostSend(m) => c.(accepted := c.accepted + [m], queue := c.queue + [SendFunctor(m)])
      case Shutdown => ShutdownInLoop(c.(state := Disconnecting))
      case PostShutdown => c.(state := Disconnecting, queue := c.queue + [ShutdownFunctor])
      case ForceClose => c.(state := Disconnecting, queue := c.queue + [ForceCloseFunctor])
      case Writable(r) => HandleWrite(c, r)
      case Hangup => HandleClose(c)
      case RunFunctor(r) => RunHead(c, r)
  }

  function Exec(c: Conn, steps: seq<Step>): Conn
    decreases |steps|
  {
    if steps == [] then c else Exec(Apply(c, steps[0]), steps[1..])
  }

  // ----- What every step keeps -----

  /** The bytes of the messages not discarded, in order. */
  function KeptBytes(log: seq<Entry>): seq<Byte> {
    if log == [] then []
    else KeptBytes(log[..|log| - 1]) + (if log[|log| - 1].fate == Kept then log[|log| - 1].message else [])
  }

  /** The messages that still wait in the queue. */
  function Waiting(queue: seq<Functor>): seq<Message> {
    if queue == [] then []
    else (if queue[0].SendFunctor? then [queue[0].message] else []) + Waiting(queue[1..])
  }

  function Messages(log: seq<Entry>): (m: seq<Message>)
    ensures |m| == |log|
  {
    if log == [] then [] else Messages(log[..|log| - 1]) + [log[|log| - 1].message]
  }

  /** Bytes on the socket, then bytes in the buffer, are the messages not discarded. */
  predicate Conserved(sent: seq<Byte>, output: seq<Byte>, log: seq<Entry>) {
    sent + output == KeptBytes(log)
  }

  /** Every accepted message has been through sendInLoop once or still waits for it. */
  predicate Accounted(accepted: seq<Message>, log: seq<Entry>, queue: seq<Functor>) {
    multiset(accepted) == multiset(Messages(log)) + multiset(Waiting(queue))
  }

  /** Write interest tells whether bytes are pending, until the connection is closed. */
  predicate Interest(state: ConnState, writing: bool, output: seq<Byte>) {
    if state == Disconnected then !writing else writing <==> output != []
  }

  predicate Quiet(c: Conn) {
    && (c.state == Connecting ==> c.output == [] && c.queue == [] && !c.halfClosed)
    && (c.halfClosed ==> (c.state == Disconnecting && c.output == []) || c.state == Disconnected)
  }

  /** Requests to close are queued only after the state says so. */
  predicate Closing(state: ConnState, queue: seq<Functor>) {
    forall i :: 0 <= i < |queue| && !queue[i].SendFunctor? ==> state == Disconnecting || state == Disconnected
  }

  predicate Inv(c: Conn) {
    && Conserved(c.sent, c.output, c.log)
    && Accounted(c.accepted, c.log, c.queue)
    && Interest(c.state, c.writing, c.output)
    && Quiet(c)
    && Closing(c.state, c.queue)
  }

  lemma KeptSnoc(log: seq<Entry>, e: Entry)
    ensures KeptBytes(log + [e]) == KeptBytes(log) + (if e.fate == Kept then e.message else [])
    ensures Messages(log + [e]) == Messages(log) + [e.message]
  {
    assert (log + [e])[..|log|] == log;
  }

  lemma {:induction false} WaitingSnoc(queue: seq<Functor>, f: Functor)
    ensures Waiting(queue + [f]) == Waiting(queue) + (if f.SendFunctor? then [f.message] else [])
  {
    if queue != [] {
      assert (queue + [f])[1..] == queue[1..] + [f];
      WaitingSnoc(queue[1..], f);
    } else {
      assert (queue + [f])[1..] == [];
    }
  }

  /** A message is discarded only whole, and only because the connection was closed or the socket was broken when a
      direct write was tried with nothing pending. Otherwise, whatever the socket takes, the message follows all that
      was sent or pending. */
  lemma DiscardedOnlyWhole(c: Conn, m: Message, r: WriteResult)
    requires Possible(r, |m|, c.halfClosed) && Interest(c.state, c.writing, c.output)
    ensures var c' := SendInLoop(c, m, r);
            |c'.log| == |c.log| + 1 &&
            var e := c'.log[|c.log|];
            c'.log == c.log + [e] && e.message == m && c'.queue == c.queue && c'.accepted == c.accepted &&
            (e.fate == Kept ==> c'.sent + c'.output == c.sent + c.output + m) &&
            (e.fate != Kept ==> c'.sent == c.sent && c'.output == c.output) &&
            (e.fate == TooLate <==> c.state == Disconnected) &&
            (e.fate == Faulted <==> c.state != Disconnected && c.output == [] && Fault(r))
  {
    if r.Wrote? {
      assert m == m[..r.n] + m[r.n..];
    }
  }

  lemma SendConserves(c: Conn, m: Message, r: WriteResult)
    requires Possible(r, |m|, c.halfClosed) && Conserved(c.sent, c.output, c.log) &&
             Interest(c.state, c.writing, c.output)
    ensures var c' := SendInLoop(c, m, r); Conserved(c'.sent, c'.output, c'.log)
  {
    hide SendInLoop, KeptBytes, Possible, Interest;
    DiscardedOnlyWhole(c, m, r);
    KeptSnoc(c.log, SendInLoop(c, m, r).log[|c.log|]);
  }

  lemma SendKeepsInterest(c: Conn, m: Message, r: WriteResult)
    requires Possible(r, |m|, c.halfClosed) && Interest(c.state, c.writing, c.output) && Quiet(c) &&
             c.state != Connecting
    ensures var c' := SendInLoop(c, m, r); Interest(c'.state, c'.writing, c'.output) && Quiet(c') && c'.state == c.state
  {
  }

  lemma WriteConserves(c: Conn, r: WriteResult)
    requires Possible(r, |c.output|, c.halfClosed) && Conserved(c.sent, c.output, c.log)
    ensures var c' := HandleWrite(c, r); Conserved(c'.sent, c'.output, c'.log)
  {
    hide KeptBytes;
    if r.Wrote? {
      assert c.output == c.output[..r.n] + c.output[r.n..];
    }
  }

  lemma WriteKeepsInterest(c: Conn, r: WriteResult)
    requires Possible(r, |c.output|, c.halfClosed) && Interest(c.state, c.writing, c.output) && Quiet(c)
    ensures var c' := HandleWrite(c, r); Interest(c'.state, c'.writing, c'.output) && Quiet(c')
  {
  }

  lemma SendAccounts(c: Conn, m: Message, r: WriteResult, before: seq<Message>)
    requires Possible(r, |m|, c.halfClosed) && Interest(c.state, c.writing, c.output)
    requires Accounted(before, c.log, c.queue)
    ensures var c' := SendInLoop(c, m, r); Accounted(before + [m], c'.log, c'.queue)
  {
    hide SendInLoop, Waiting, Messages, Possible, Interest;
    DiscardedOnlyWhole(c, m, r);
    KeptSnoc(c.log, SendInLoop(c, m, r).log[|c.log|]);
  }

  /** The message at the head of the queue moves to the log. */
  lemma SendAccountsQueued(c: Conn, r: WriteResult)
    requires c.queue != [] && c.queue[0].SendFunctor? && Possible(r, |c.queue[0].message|, c.halfClosed)
    requires Interest(c.state, c.writing, c.output) && Accounted(c.accepted, c.log, c.queue)
    ensures var c' := SendInLoop(c.(queue := c.queue[1..]), c.queue[0].message, r);
            Accounted(c.accepted, c'.log, c'.queue)
  {
    hide SendInLoop, Messages, Possible, Interest;
    assert Waiting(c.queue) == [c.queue[0].message] + Waiting(c.queue[1..]);
    hide Waiting;
    var c0 := c.(queue := c.queue[1..]);
    DiscardedOnlyWhole(c0, c.queue[0].message, r);
    KeptSnoc(c.log, SendInLoop(c0, c.queue[0].message, r).log[|c.log|]);
  }

  lemma RunSendInv(c: Conn, r: WriteResult)
    requires Inv(c) && c.queue != [] && c.queue[0].SendFunctor? && Possible(r, |c.queue[0].message|, c.halfClosed)
    ensures Inv(SendInLoop(c.(queue := c.queue[1..]), c.queue[0].message, r))
  {
    hide Conserved, Accounted, SendInLoop;
    var c0, m := c.(queue := c.queue[1..]), c.queue[0].message;
    SendConserves(c0, m, r);
    SendKeepsInterest(c0, m, r);
    SendAccountsQueued(c, r);
    DiscardedOnlyWhole(c0, m, r);
    hide Interest, Quiet, Possible;
  }

  lemma PopInv(c: Conn)
    requires Inv(c) && c.queue != [] && !c.queue[0].SendFunctor?
    ensures Inv(c.(queue := c.queue[1..]))
  {
    hide Conserved, Messages, Interest;
    assert Waiting(c.queue) == Waiting(c.queue[1..]);
    hide Waiting;
  }

  lemma CloseInv(c: Conn)
    requires Inv(c) && (c.state == Disconnecting || c.state == Disconnected)
    ensures Inv(ShutdownInLoop(c)) && Inv(ForceCloseInLoop(c))
  {
    hide Conserved, Accounted;
  }

  lemma ClosingHead(c: Conn)
    requires Inv(c) && c.queue != []
    ensures !c.queue[0].SendFunctor? ==> c.state == Disconnecting || c.state == Disconnected
  {
    hide Conserved, Accounted, Interest, Quiet;
  }

  lemma RunInv(c: Conn, r: WriteResult)
    requires Inv(c) && Enabled(c, RunFunctor(r))
    ensures Inv(RunHead(c, r))
  {
    ClosingHead(c);
    hide Inv, SendInLoop, ShutdownInLoop, ForceCloseInLoop;
    if c.queue[0].SendFunctor? {
      RunSendInv(c, r);
    } else {
      PopInv(c);
      CloseInv(c.(queue := c.queue[1..]));
    }
  }

  lemma SendInv(c: Conn, m: Message, r: WriteResult)
    requires Inv(c) && c.state == Connected && Possible(r, |m|, c.halfClosed)
    ensures Inv(SendInLoop(c.(accepted := c.accepted + [m]), m, r))
  {
    hide Conserved, Accounted, SendInLoop;
    var c0 := c.(accepted := c.accepted + [m]);
    SendConserves(c0, m, r);
    SendKeepsInterest(c0, m, r);
    SendAccounts(c0, m, r, c.accepted);
    DiscardedOnlyWhole(c0, m, r);
    hide Interest, Quiet, Possible;
  }

  lemma PostInv(c: Conn, f: Functor)
    requires Inv(c) && c.state != Connecting && c.state != Disconnected
    ensures f.SendFunctor? ==> Inv(c.(accepted := c.accepted + [f.message], queue := c.queue + [f]))
    ensures !f.SendFunctor? ==> Inv(c.(state := Disconnecting, queue := c.queue + [f]))
  {
    hide Conserved, Messages, Waiting;
    WaitingSnoc(c.queue, f);
  }

  lemma WriteInv(c: Conn, r: WriteResult)
    requires Inv(c) && Possible(r, |c.output|, c.halfClosed)
    ensures Inv(HandleWrite(c, r))
  {
    hide Conserved, Accounted;
    WriteConserves(c, r);
    WriteKeepsInterest(c, r);
  }

  lemma StateInv(c: Conn)
    requires Inv(c)
    ensures c.state == Connecting ==> Inv(c.(state := Connected))
    ensures c.state == Connected ==> Inv(ShutdownInLoop(c.(state := Disconnecting)))
    ensures c.state == Connected || c.state == Disconnecting ==> Inv(HandleClose(c))
  {
    hide Conserved, Accounted;
  }

  lemma ApplyInv(c: Conn, step: Step)
    requires Inv(c)
    ensures Inv(Apply(c, step))
  {
    hide Inv, SendInLoop, HandleWrite, RunHead, ShutdownInLoop, HandleClose;
    if Enabled(c, step) {
      match step
      case Send(m, r) => SendInv(c, m, r);
      case PostSend(m) => PostInv(c, SendFunctor(m));
      case PostShutdown => PostInv(c, ShutdownFunctor);
      case ForceClose => PostInv(c, ForceCloseFunctor);
      case Writable(r) => WriteInv(c, r);
      case RunFunctor(r) => RunInv(c, r);
      case _ => StateInv(c);
    }
  }

  lemma {:induction false} ExecInv(c: Conn, steps: seq<Step>)
    requires Inv(c)
    ensures Inv(Exec(c, steps))
    decreases |steps|
  {
    hide Inv, Apply;
    if steps != [] {
      ApplyInv(c, steps[0]);
      ExecInv(Apply(c, steps[0]), steps[1..]);
    }
  }

  // ----- Every run -----

  /** Whatever the writes return and however threads interleave: the socket has got a prefix of the messages not
      discarded, in order, and the buffer holds exactly the rest; write interest is on exactly while it holds
      something, until the connection is closed. */
  lemma EveryRun(steps: seq<Step>)
    ensures var c := Exec(INIT, steps);
            c.sent + c.output == KeptBytes(c.log) &&
            multiset(c.accepted) == multiset(Messages(c.log)) + multiset(Waiting(c.queue)) &&
            (c.state != Disconnected ==> (c.writing <==> c.output != [])) &&
            (c.halfClosed && c.state != Disconnected ==> c.output == [] && c.sent == KeptBytes(c.log))
  {
    ExecInv(INIT, steps);
  }

  /** Half-closing finds bytes pending exactly if a queued shutdown runs after the connection was closed with bytes
      pending. */
  lemma HalfCloseIsClean(c: Conn, step: Step)
    requires Inv(c) && !c.halfClosed && Apply(c, step).halfClosed
    ensures var c' := Apply(c, step);
            (c'.output == [] <==> !(c.state == Disconnected && c.output != [])) &&
            (c'.output == [] ==> c'.sent == KeptBytes(c'.log))
  {
    ApplyInv(c, step);
    HalfCloseOutput(c, step);
    hide KeptBytes, Accounted, Apply, Interest, Quiet, Closing;
  }

  lemma HalfCloseOutput(c: Conn, step: Step)
    requires Inv(c) && !c.halfClosed && Apply(c, step).halfClosed
    ensures Apply(c, step).output == [] <==> !(c.state == Disconnected && c.output != [])
  {
    hide Conserved, Accounted, SendInLoop;
    match step
    case Send(m, r) =>
      if Enabled(c, step) {
        SendNeverHalfCloses(c.(accepted := c.accepted + [m]), m, r);
      }
    case RunFunctor(r) =>
      if Enabled(c, step) && c.queue[0].SendFunctor? {
        SendNeverHalfCloses(c.(queue := c.queue[1..]), c.queue[0].message, r);
      }
    case _ =>
  }

  lemma SendNeverHalfCloses(c: Conn, m: Message, r: WriteResult)
    requires Possible(r, |m|, c.halfClosed)
    ensures SendInLoop(c, m, r).halfClosed == c.halfClosed
  {
  }

  /** The socket accepts nothing after the half-close: every message that still waits then is lost. */
  lemma {:induction false} NothingAfterHalfClose(c: Conn, steps: seq<Step>)
    requires Inv(c) && c.halfClosed
    ensures var c' := Exec(c, steps);
            c'.halfClosed && c'.sent == c.sent && c'.output == c.output && KeptBytes(c'.log) == KeptBytes(c.log)
    decreases |steps|
  {
    if steps != [] {
      ApplyInv(c, steps[0]);
      StepAfterHalfClose(c, steps[0]);
      NothingAfterHalfClose(Apply(c, steps[0]), steps[1..]);
    }
  }

  lemma StepAfterHalfClose(c: Conn, step: Step)
    requires Inv(c) && c.halfClosed
    ensures var c' := Apply(c, step);
            c'.halfClosed && c'.sent == c.sent && c'.output == c.output && KeptBytes(c'.log) == KeptBytes(c.log)
  {
    hide Conserved, Accounted;
    if step.RunFunctor? && Enabled(c, step) && c.queue[0].SendFunctor? {
      SendAfterHalfClose(c.(queue := c.queue[1..]), c.queue[0].message, step.r);
      hide SendInLoop, KeptBytes, Quiet, Closing, Interest;
    } else {
      hide KeptBytes;
    }
  }

  lemma SendAfterHalfClose(c: Conn, m: Message, r: WriteResult)
    requires Possible(r, |m|, c.halfClosed) && Interest(c.state, c.writing, c.output) && Quiet(c) && c.halfClosed
    ensures var c' := SendInLoop(c, m, r);
            c'.halfClosed && c'.sent == c.sent && c'.output == c.output && KeptBytes(c'.log) == KeptBytes(c.log)
  {
    hide KeptBytes;
    KeptSnoc(c.log, SendInLoop(c, m, r).log[|c.log|]);
  }

  // ----- Graceful shutdown -----

  /** Whether send and shutdown are called in the loop thread only. */
  predicate InLoopThread(steps: seq<Step>) {
    forall i :: 0 <= i < |steps| ==> !steps[i].PostSend? && !steps[i].PostShutdown?
  }

  predicate Graceful(c: Conn) {
    && c.accepted == Messages(c.log)
    && (forall i :: 0 <= i < |c.queue| ==> c.queue[i].ForceCloseFunctor?)
    && (c.halfClosed ==> c.output == [])
  }

  lemma GracefulStep(c: Conn, step: Step)
    requires Inv(c) && Graceful(c) && !step.PostSend? && !step.PostShutdown?
    ensures Graceful(Apply(c, step))
  {
    hide Conserved, Accounted;
    if step.Send? && Enabled(c, step) {
      hide SendInLoop;
      var c0 := c.(accepted := c.accepted + [step.message]);
      DiscardedOnlyWhole(c0, step.message, step.r);
      SendKeepsInterest(c0, step.message, step.r);
      hide Messages, Interest;
      KeptSnoc(c.log, Apply(c, step).log[|c.log|]);
    } else {
      hide Messages;
    }
  }

  lemma {:induction false} GracefulRun(c: Conn, steps: seq<Step>)
    requires Inv(c) && Graceful(c) && InLoopThread(steps)
    ensures Graceful(Exec(c, steps))
    decreases |steps|
  {
    hide Inv, Apply, Graceful;
    if steps != [] {
      ApplyInv(c, steps[0]);
      GracefulStep(c, steps[0]);
      GracefulRun(Apply(c, steps[0]), steps[1..]);
    }
  }

  /** With send and shutdown called in the loop thread, when the half-close has happened every message ever accepted
      is on the socket, whole and in order, except those discarded by a fault or after the close. */
  lemma GracefulShutdown(steps: seq<Step>)
    requires InLoopThread(steps)
    ensures var c := Exec(INIT, steps);
            c.accepted == Messages(c.log) && (c.halfClosed ==> c.output == [] && c.sent == KeptBytes(c.log))
  {
    ExecInv(INIT, steps);
    GracefulRun(INIT, steps);
  }

  /** After the half-close nothing is accepted any more; the messages waiting at that moment reach sendInLoop in order
      and are discarded there. */
  lemma WaitingStep(c: Conn, step: Step)
    requires Inv(c) && c.halfClosed
    ensures var c' := Apply(c, step);
            c'.accepted == c.accepted && c.log <= c'.log && Discarded(c'.log[|c.log|..]) &&
            Messages(c'.log[|c.log|..]) + Waiting(c'.queue) == Waiting(c.queue)
  {
    hide Conserved, Accounted, KeptBytes;
    var c' := Apply(c, step);
    assert c.log[|c.log|..] == [];
    if Enabled(c, step) {
      match step
      case RunFunctor(r) =>
        var f := c.queue[0];
        assert Waiting(c.queue) == (if f.SendFunctor? then [f.message] else []) + Waiting(c.queue[1..]);
        if f.SendFunctor? {
          SendDiscards(c.(queue := c.queue[1..]), f.message, r);
        }
      case ForceClose =>
        WaitingSnoc(c.queue, ForceCloseFunctor);
      case _ =>
    }
  }

  predicate Discarded(entries: seq<Entry>) {
    forall i :: 0 <= i < |entries| ==> entries[i].fate != Kept || entries[i].message == []
  }

  lemma SendDiscards(c: Conn, m: Message, r: WriteResult)
    requires Possible(r, |m|, c.halfClosed) && Interest(c.state, c.writing, c.output) && Quiet(c) && c.halfClosed
    ensures var c' := SendInLoop(c, m, r);
            c'.accepted == c.accepted && c'.queue == c.queue && c.log <= c'.log &&
            Discarded(c'.log[|c.log|..]) && Messages(c'.log[|c.log|..]) == [m]
  {
    hide SendInLoop, Possible, Interest, Quiet, KeptBytes;
    DiscardedOnlyWhole(c, m, r);
    SendAfterHalfClose(c, m, r);
    var c' := SendInLoop(c, m, r);
    var e := c'.log[|c.log|];
    assert e.fate == Kept ==> |m| == 0 by {
      assert e.fate == Kept ==> |c.sent + c.output + m| == |c.sent + c.output|;
    }
    assert c'.log[|c.log|..] == [e] && [e][..0] == [];
  }

  lemma {:induction false} MessagesConcat(a: seq<Entry>, b: seq<Entry>)
    ensures Messages(a + b) == Messages(a) + Messages(b)
  {
    if b == [] {
      assert a + b == a;
    } else {
      var n := |b| - 1;
      assert (a + b)[..|a| + n] == a + b[..n];
      MessagesConcat(a, b[..n]);
    }
  }

  lemma {:induction false} WaitingRun(c: Conn, steps: seq<Step>)
    requires Inv(c) && c.halfClosed
    ensures var c' := Exec(c, steps);
            c'.accepted == c.accepted && c.log <= c'.log && Discarded(c'.log[|c.log|..]) &&
            Messages(c'.log[|c.log|..]) + Waiting(c'.queue) == Waiting(c.queue)
    decreases |steps|
  {
    hide Inv, Apply, Discarded, Waiting;
    if steps == [] {
      assert c.log[|c.log|..] == [] && Discarded([]) by { NothingDiscarded(); }
    } else {
      hide Messages;
      var d := Apply(c, steps[0]);
      ApplyInv(c, steps[0]);
      StepAfterHalfClose(c, steps[0]);
      WaitingStep(c, steps[0]);
      WaitingRun(d, steps[1..]);
      JoinRuns(c.log, d.log, Exec(c, steps).log, Waiting(c.queue), Waiting(d.queue), Waiting(Exec(c, steps).queue));
    }
  }

  lemma NothingDiscarded()
    ensures Discarded([])
  {
  }

  lemma JoinRuns(a: seq<Entry>, b: seq<Entry>, c: seq<Entry>, wa: seq<Message>, wb: seq<Message>, wc: seq<Message>)
    requires a <= b && b <= c && Discarded(b[|a|..]) && Discarded(c[|b|..])
    requires Messages(b[|a|..]) + wb == wa && Messages(c[|b|..]) + wc == wb
    ensures Discarded(c[|a|..]) && Messages(c[|a|..]) + wc == wa
  {
    hide Messages;
    assert c[|a|..] == b[|a|..] + c[|b|..];
    MessagesConcat(b[|a|..], c[|b|..]);
  }

  /** Which messages a shutdown loses, whoever calls it: when the half-close happens, all accepted messages have been
      through sendInLoop exactly if none waits in the queue; and whatever happens afterwards, exactly the messages that
      wait at that moment are discarded, in order, while the socket gets nothing more. */
  lemma ExactlyTheWaitingAreLost(c: Conn, step: Step, steps: seq<Step>)
    requires Inv(c) && !c.halfClosed && Apply(c, step).halfClosed
    ensures var h := Apply(c, step);
            var c' := Exec(h, steps);
            (multiset(h.accepted) == multiset(Messages(h.log)) <==> Waiting(h.queue) == []) &&
            c'.sent == h.sent && c'.accepted == h.accepted && h.log <= c'.log && Discarded(c'.log[|h.log|..]) &&
            Messages(c'.log[|h.log|..]) + Waiting(c'.queue) == Waiting(h.queue)
  {
    var h := Apply(c, step);
    ApplyInv(c, step);
    assert Accounted(h.accepted, h.log, h.queue);
    NoneWaiting(h.accepted, h.log, h.queue);
    hide Apply, Exec;
    NothingAfterHalfClose(h, steps);
    WaitingRun(h, steps);
  }

  lemma NoneWaiting(accepted: seq<Message>, log: seq<Entry>, queue: seq<Functor>)
    requires Accounted(accepted, log, queue)
    ensures multiset(accepted) == multiset(Messages(log)) <==> Waiting(queue) == []
  {
    hide Messages;
    var w := Waiting(queue);
    hide Waiting;
    if w != [] {
      assert w[0] in multiset(w);
      assert multiset(accepted)[w[0]] == multiset(Messages(log))[w[0]] + multiset(w)[w[0]];
    }
  }

  /** A connection that has been given one message, of which the socket has not taken anything. */
  function Stuck(a: Message): Conn {
    INIT.(state := Connected, writing := true, output := a, accepted := [a], log := [Entry(a, Kept)],
          marks := if |a| >= HIGH_WATER_MARK then [|a|] else [])
  }

  lemma GetsStuck(a: Message, steps: seq<Step>)
    requires a != []
    ensures Exec(INIT, [Establish, Send(a, WouldBlock)] + steps) == Exec(Stuck(a), steps)
  {
    var c := INIT.(state := Connected);
    assert [] + a == a && [] + [a] == [a];
    assert Apply(c, Send(a, WouldBlock)) == Stuck(a);
    assert Apply(INIT, Establish) == c;
    hide Apply, Stuck;
    var all := [Establish, Send(a, WouldBlock)] + steps;
    assert all[1..][0] == Send(a, WouldBlock) && all[1..][1..] == steps;
  }

  /** From another thread a message can be lost: a writable event between the calls and the queued functors drains the
      buffer, half-closes because the state says so, and the message still queued is lost. */
  lemma PostedMessageIsLost(a: Message, b: Message)
    requires a != [] && b != []
    ensures var c := Exec(INIT, [Establish, Send(a, WouldBlock)] +
            [PostSend(b), PostShutdown, Writable(Wrote(|a|)), RunFunctor(BrokenPipe)]);
            c.halfClosed && c.accepted == [a, b] && c.sent == a && c.output == []
  {
    var s := [PostSend(b), PostShutdown, Writable(Wrote(|a|)), RunFunctor(BrokenPipe)];
    GetsStuck(a, s);
    var c2 := Stuck(a).(accepted := [a, b], state := Disconnecting, queue := [SendFunctor(b), ShutdownFunctor]);
    PostBoth(a, b);
    var c4 := c2.(sent := a, output := [], writing := false, completes := 1, halfClosed := true);
    DrainsAndCloses(c2, a);
    var c5 := Apply(c4, RunFunctor(BrokenPipe));
    FaultedSend(c4, b);
    hide Apply, Stuck;
    calc {
      Exec(Stuck(a), s);
      Exec(Apply(Stuck(a), PostSend(b)), s[1..]);
      Exec(c2, s[1..][1..]);
      Exec(c4, s[1..][1..][1..]);
      Exec(c5, s[1..][1..][1..][1..]);
    }
  }

  lemma DrainsAndCloses(c: Conn, a: Message)
    requires a != [] && c.state == Disconnecting && c.writing && c.output == a && c.sent == [] && !c.halfClosed &&
             c.completes == 0
    ensures Apply(c, Writable(Wrote(|a|))) ==
            c.(sent := a, output := [], writing := false, completes := 1, halfClosed := true)
  {
    assert [] + a[..|a|] == a && a[|a|..] == [];
    assert HandleWrite(c, Wrote(|a|)) ==
           c.(sent := a, output := [], writing := false, completes := 1, halfClosed := true);
  }

  lemma FaultedSend(c: Conn, b: Message)
    requires b != [] && c.state == Disconnecting && !c.writing && c.output == [] && c.halfClosed
    requires c.queue != [] && c.queue[0] == SendFunctor(b)
    ensures var c' := Apply(c, RunFunctor(BrokenPipe));
            c'.halfClosed && c'.accepted == c.accepted && c'.sent == c.sent && c'.output == []
  {
  }

  lemma PostBoth(a: Message, b: Message)
    ensures Apply(Apply(Stuck(a), PostSend(b)), PostShutdown)
         == Stuck(a).(accepted := [a, b], state := Disconnecting, queue := [SendFunctor(b), ShutdownFunctor])
  {
    var c := Apply(Stuck(a), PostSend(b));
    assert [] + [SendFunctor(b)] == [SendFunctor(b)] && [a] + [b] == [a, b];
    assert c == Stuck(a).(accepted := [a, b], queue := [SendFunctor(b)]);
    assert [SendFunctor(b)] + [ShutdownFunctor] == [SendFunctor(b), ShutdownFunctor];
  }

  /** A shutdown queued before the peer hangs up closes the socket over the bytes that were pending. */
  lemma HalfClosedWithBytesPending(a: Message)
    requires a != []
    ensures var c := Exec(INIT, [Establish, Send(a, WouldBlock)] + [PostShutdown, Hangup, RunFunctor(WouldBlock)]);
            c.halfClosed && c.output == a && c.sent == []
  {
    var s := [PostShutdown, Hangup, RunFunctor(WouldBlock)];
    GetsStuck(a, s);
    var c1 := Stuck(a).(state := Disconnecting, queue := [ShutdownFunctor]);
    var c2 := c1.(state := Disconnected, writing := false);
    var c3 := c2.(queue := [], halfClosed := true);
    assert [] + [ShutdownFunctor] == [ShutdownFunctor] && [ShutdownFunctor][1..] == [];
    assert Apply(Stuck(a), PostShutdown) == c1;
    assert Apply(c1, Hangup) == c2;
    assert Apply(c2, RunFunctor(WouldBlock)) == c3;
    assert c3.output == a && c3.sent == [];
    hide Apply, Stuck;
    calc {
      Exec(Stuck(a), s);
      Exec(c1, s[1..]);
      Exec(c2, s[1..][1..]);
      Exec(c3, s[1..][1..][1..]);
    }
  }

  // ----- Callbacks -----

  /** The high-water callback is queued, with the number of bytes pending, exactly when a step takes it to the mark. */
  lemma HighWaterMarkCrossed(c: Conn, step: Step)
    requires Inv(c)
    ensures var c' := Apply(c, step);
            c'.marks == if |c.output| < c.highWaterMark <= |c'.output| then c.marks + [|c'.output|] else c.marks
  {
    hide Inv, SendInLoop;
    match step
    case Send(m, r) =>
      if Enabled(c, step) {
        InterestOfInv(c);
        SendMarks(c.(accepted := c.accepted + [m]), m, r);
      }
    case RunFunctor(r) =>
      if Enabled(c, step) && c.queue[0].SendFunctor? {
        InterestOfInv(c);
        SendMarks(c.(queue := c.queue[1..]), c.queue[0].message, r);
      }
    case _ =>
  }

  lemma InterestOfInv(c: Conn)
    requires Inv(c)
    ensures Interest(c.state, c.writing, c.output)
  {
    hide Conserved, Accounted, Interest, Quiet, Closing;
  }

  lemma SendMarks(c: Conn, m: Message, r: WriteResult)
    requires Possible(r, |m|, c.halfClosed) && Interest(c.state, c.writing, c.output)
    ensures var c' := SendInLoop(c, m, r);
            c'.marks == if |c.output| < c.highWaterMark <= |c'.output| then c.marks + [|c'.output|] else c.marks
  {
  }

  /** The write-complete callback is queued only with nothing pending, and whenever pending bytes have all gone. */
  lemma WriteCompleteMeansDrained(c: Conn, step: Step)
    requires Inv(c)
    ensures var c' := Apply(c, step);
            (c'.completes > c.completes ==> c'.output == [] && !c'.writing) &&
            (c.output != [] && c'.output == [] ==> c'.completes == c.completes + 1)
  {
    hide Conserved, Accounted;
  }
}
