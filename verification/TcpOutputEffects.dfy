/** What each step of the output path does, exactly: which calls of write(2) are made and with what, what goes to the
    socket and what stays pending, when the socket is half-closed, and how the state and the queue go on. Nothing is
    said in terms of the handlers. */
module TcpOutputEffects {

  import opened Common
  import opened ConnStates
  import opened Buffers
  import opened TcpOutput

  /** The message that the step hands to sendInLoop. */
  function Handed(c: Conn, step: Step): Option<Message> {
    if !Enabled(c, step) then None
    else
      match step
      case Send(m, _) => Some(m)
      case RunFunctor(_) => if c.queue[0].SendFunctor? then Some(c.queue[0].message) else None
      case _ => None
  }

  /** The result of the call of write(2), if the step makes one, and how many bytes it took. */
  function Result(step: Step): WriteResult {
    match step
    case Send(_, r) => r
    case Writable(r) => r
    case RunFunctor(r) => r
    case _ => WouldBlock
  }

  function Returned(step: Step): nat {
    if Result(step).Wrote? then Result(step).n else 0
  }

  /** What the step offers to write(2), if it calls it: the pending bytes, on a writable event that the channel asked
      for; a message, on an open connection with nothing pending. */
  function Offered(c: Conn, step: Step): (bytes: Option<seq<Byte>>)
    ensures bytes.Some? ==> Returned(step) <= |bytes.value|
  {
    if Enabled(c, step) && step.Writable? then if c.writing then Some(c.output) else None
    else if c.state != Disconnected && c.output == [] then Handed(c, step)
    else None
  }

  /** What the socket takes in the step. */
  function Written(c: Conn, step: Step): seq<Byte> {
    if Offered(c, step).None? then [] else Offered(c, step).value[..Returned(step)]
  }

  /** A broken pipe or a reset, met by a direct write, discards the message. */
  predicate Breaks(c: Conn, step: Step) {
    Offered(c, step).Some? && !step.Writable? && (Result(step).BrokenPipe? || Result(step).ConnReset?)
  }

  /** What is pending after the step. */
  function Pending(c: Conn, step: Step): seq<Byte> {
    if Offered(c, step).Some? then if Breaks(c, step) then [] else Offered(c, step).value[Returned(step)..]
    else if c.state != Disconnected && Handed(c, step).Some? then c.output + Handed(c, step).value
    else c.output
  }

  /** The step takes all that it offers. */
  predicate WritesAll(c: Conn, step: Step) {
    Offered(c, step).Some? && Result(step) == Wrote(|Offered(c, step).value|)
  }

  /** shutdownInLoop is called by shutdown itself or as a functor. */
  predicate ShutsDown(c: Conn, step: Step) {
    Enabled(c, step) && (step == Shutdown || (step.RunFunctor? && c.queue[0] == ShutdownFunctor))
  }

  /** The socket is half-closed by a shutdown without write interest, or by the write that takes the last pending byte
      of a connection that is shutting down. */
  predicate HalfCloses(c: Conn, step: Step) {
    (ShutsDown(c, step) && !c.writing) || (step.Writable? && WritesAll(c, step) && c.state == Disconnecting)
  }

  predicate Closes(c: Conn, step: Step) {
    && Enabled(c, step) && (c.state == Connected || c.state == Disconnecting)
    && (step == Hangup || (step.RunFunctor? && c.queue[0] == ForceCloseFunctor))
  }

  function StateAfter(c: Conn, step: Step): ConnState {
    if !Enabled(c, step) then c.state
    else if step == Establish then Connected
    else if step == Shutdown || step == PostShutdown || step == ForceClose then Disconnecting
    else if Closes(c, step) then Disconnected
    else c.state
  }

  /** The functors after the step: one that runs leaves from the front, a request from another thread goes to the
      end. */
  function QueueAfter(c: Conn, step: Step): seq<Functor> {
    if !Enabled(c, step) then c.queue
    else
      match step
      case RunFunctor(_) => c.queue[1..]
      case PostSend(m) => c.queue + [SendFunctor(m)]
      case PostShutdown => c.queue + [ShutdownFunctor]
      case ForceClose => c.queue + [ForceCloseFunctor]
      case _ => c.queue
  }

  /** The messages taken from callers so far. */
  function AcceptedAfter(c: Conn, step: Step): seq<Message> {
    if Enabled(c, step) && (step.Send? || step.PostSend?) then c.accepted + [step.message] else c.accepted
  }

  function LogAfter(c: Conn, step: Step): seq<Entry> {
    match Handed(c, step)
    case Some(m) =>
      c.log + [Entry(m, if c.state == Disconnected then TooLate else if Breaks(c, step) then Faulted else Kept)]
    case None => c.log
  }

  predicate Becomes(c: Conn, step: Step, d: Conn) {
    && d.sent == (if Offered(c, step).Some? then c.sent + Written(c, step) else c.sent)
    && d.output == Pending(c, step)
    && (d.halfClosed <==> c.halfClosed || HalfCloses(c, step))
    && d.completes == (if WritesAll(c, step) then c.completes + 1 else c.completes)
    && d.state == StateAfter(c, step)
    && d.queue == QueueAfter(c, step)
    && d.accepted == AcceptedAfter(c, step)
    && d.log == LogAfter(c, step)
  }

  /** What sendInLoop does with a message. */
  lemma MessageExactly(c: Conn, m: Message, r: WriteResult)
    requires Possible(r, |m|, c.halfClosed) && Interest(c.state, c.writing, c.output)
    ensures var d := SendInLoop(c, m, r);
            var k := if r.Wrote? then r.n else 0;
            var direct := c.state != Disconnected && c.output == [];
            var fault := direct && (r.BrokenPipe? || r.ConnReset?);
            && d.sent == (if direct then c.sent + m[..k] else c.sent)
            && d.output == (if c.state == Disconnected || fault then c.output
                            else if direct then m[k..] else c.output + m)
            && d.completes == (if direct && r == Wrote(|m|) then c.completes + 1 else c.completes)
            && d.halfClosed == c.halfClosed && d.state == c.state && d.queue == c.queue && d.accepted == c.accepted
            && d.log == c.log + [Entry(m, if c.state == Disconnected then TooLate else if fault then Faulted else Kept)]
  {
    assert [] + m == m && c.output + [] == c.output;
  }

  /** A step that hands a message to sendInLoop; c0 is what sendInLoop finds. */
  lemma HandedExactly(c: Conn, step: Step, c0: Conn)
    requires Handed(c, step).Some? && Interest(c.state, c.writing, c.output)
    requires c0 == c.(queue := c0.queue, accepted := c0.accepted)
    requires c0.queue == QueueAfter(c, step) && c0.accepted == AcceptedAfter(c, step)
    requires Possible(Result(step), |Handed(c, step).value|, c.halfClosed)
    ensures Becomes(c, step, SendInLoop(c0, Handed(c, step).value, Result(step)))
  {
    var m, r := Handed(c, step).value, Result(step);
    MessageExactly(c0, m, r);
    assert Offered(c, step) == (if c.state != Disconnected && c.output == [] then Some(m) else None);
    assert !HalfCloses(c, step) && StateAfter(c, step) == c.state;
    hide SendInLoop, Interest, Handed, Offered, HalfCloses, StateAfter, QueueAfter, AcceptedAfter, Possible;
  }

  lemma SendExactly(c: Conn, m: Message, r: WriteResult)
    requires Inv(c) && Enabled(c, Send(m, r))
    ensures Becomes(c, Send(m, r), Apply(c, Send(m, r)))
  {
    InterestOfInv(c);
    hide Inv, SendInLoop, Interest, Becomes;
    HandedExactly(c, Send(m, r), c.(accepted := c.accepted + [m]));
  }

  lemma RunSendExactly(c: Conn, r: WriteResult)
    requires Inv(c) && Enabled(c, RunFunctor(r)) && c.queue[0].SendFunctor?
    ensures Becomes(c, RunFunctor(r), Apply(c, RunFunctor(r)))
  {
    InterestOfInv(c);
    hide Inv, SendInLoop, Interest, Becomes;
    HandedExactly(c, RunFunctor(r), c.(queue := c.queue[1..]));
  }

  /** What handleWrite does with what the call of write(2) returned. */
  lemma DrainExactly(c: Conn, r: WriteResult)
    requires Possible(r, |c.output|, c.halfClosed) && c.writing && c.output != []
    ensures var d := HandleWrite(c, r);
            var k := if r.Wrote? then r.n else 0;
            && d.sent == c.sent + c.output[..k] && d.output == c.output[k..]
            && d.completes == (if k == |c.output| then c.completes + 1 else c.completes)
            && (d.halfClosed <==> c.halfClosed || (k == |c.output| && c.state == Disconnecting))
            && d.state == c.state && d.queue == c.queue && d.accepted == c.accepted && d.log == c.log
  {
    assert c.sent + c.output[..0] == c.sent && c.output[0..] == c.output;
  }

  /** A writable event that the channel asked for. */
  lemma PendingExactly(c: Conn, r: WriteResult)
    requires Enabled(c, Writable(r)) && c.writing && c.output != []
    ensures Becomes(c, Writable(r), HandleWrite(c, r))
  {
    var step := Writable(r);
    DrainExactly(c, r);
    assert !ShutsDown(c, step) && StateAfter(c, step) == c.state && Offered(c, step) == Some(c.output);
    assert QueueAfter(c, step) == c.queue && AcceptedAfter(c, step) == c.accepted && LogAfter(c, step) == c.log;
    assert !Breaks(c, step) && (r.Wrote? && r.n == |c.output| <==> WritesAll(c, step));
    hide HandleWrite, Handed, Offered, Breaks, WritesAll, ShutsDown, StateAfter, QueueAfter, AcceptedAfter, LogAfter;
  }

  lemma OtherExactly(c: Conn, step: Step)
    requires !Enabled(c, step) || (Handed(c, step).None? && (step.Writable? ==> !c.writing))
    ensures Becomes(c, step, Apply(c, step))
  {
  }

  lemma WritableExactly(c: Conn, r: WriteResult)
    requires Inv(c) && Enabled(c, Writable(r))
    ensures Becomes(c, Writable(r), Apply(c, Writable(r)))
  {
    InterestOfInv(c);
    hide Inv, Becomes, HandleWrite;
    if c.writing {
      PendingExactly(c, r);
    } else {
      OtherExactly(c, Writable(r));
    }
  }

  /** What any step does, in every state that a run can reach. */
  lemma StepExactly(c: Conn, step: Step)
    requires Inv(c)
    ensures Becomes(c, step, Apply(c, step))
  {
    hide Inv, Becomes, Apply;
    match step
    case Send(m, r) =>
      if Enabled(c, step) {
        SendExactly(c, m, r);
      } else {
        OtherExactly(c, step);
      }
    case Writable(r) =>
      if Enabled(c, step) {
        WritableExactly(c, r);
      } else {
        OtherExactly(c, step);
      }
    case RunFunctor(r) =>
      if Enabled(c, step) && c.queue[0].SendFunctor? {
        RunSendExactly(c, r);
      } else {
        OtherExactly(c, step);
      }
    case _ => OtherExactly(c, step);
  }

  // ----- Runs -----

  /** What the calls of write(2) took along a run. */
  function WrittenAlong(c: Conn, steps: seq<Step>): seq<Byte>
    decreases |steps|
  {
    if steps == [] then [] else Written(c, steps[0]) + WrittenAlong(Apply(c, steps[0]), steps[1..])
  }

  /** The sum of what they returned. */
  function ReturnedAlong(c: Conn, steps: seq<Step>): nat
    decreases |steps|
  {
    if steps == [] then 0
    else (if Offered(c, steps[0]).Some? then Returned(steps[0]) else 0) + ReturnedAlong(Apply(c, steps[0]), steps[1..])
  }

  lemma SentExactly(c: Conn, step: Step)
    requires Inv(c)
    ensures Apply(c, step).sent == c.sent + Written(c, step)
    ensures |Written(c, step)| == if Offered(c, step).Some? then Returned(step) else 0
  {
    StepExactly(c, step);
    hide Inv, Apply, Offered, Pending, HalfCloses, LogAfter, StateAfter, QueueAfter, AcceptedAfter, WritesAll;
  }

  /** Along every run the socket holds what the calls of write(2) took, in order, and as much as they returned. */
  lemma {:induction false} WritesExactly(c: Conn, steps: seq<Step>)
    requires Inv(c)
    ensures Exec(c, steps).sent == c.sent + WrittenAlong(c, steps)
    ensures |Exec(c, steps).sent| == |c.sent| + ReturnedAlong(c, steps)
    decreases |steps|
  {
    if steps == [] {
    } else {
      SentExactly(c, steps[0]);
      ApplyInv(c, steps[0]);
      hide Inv, Apply, Written, Offered, Returned;
      var d := Apply(c, steps[0]);
      WritesExactly(d, steps[1..]);
      Associate(c.sent, Written(c, steps[0]), WrittenAlong(d, steps[1..]));
    }
  }

  lemma Associate(x: seq<Byte>, y: seq<Byte>, z: seq<Byte>)
    ensures x + y + z == x + (y + z)
  {
  }

  /** A shutdown in the loop thread half-closes at once if nothing is pending, and otherwise leaves it to the write that
      takes the last pending byte. */
  lemma ShutdownExactly(c: Conn, r: WriteResult)
    requires Inv(c) && c.state == Connected && Possible(r, |c.output|, false)
    ensures var d := Apply(c, Shutdown);
            && d.state == Disconnecting && (d.halfClosed <==> c.output == [])
            && (c.output != [] ==> (Apply(d, Writable(r)).halfClosed <==> r == Wrote(|c.output|)))
  {
    StepExactly(c, Shutdown);
    ApplyInv(c, Shutdown);
    StepExactly(Apply(c, Shutdown), Writable(r));
    InterestOfInv(c);
    InterestOfInv(Apply(c, Shutdown));
    assert Quiet(c);
    hide Inv, Apply;
  }
}
