/** A connection as an object (muduo/net/TcpConnection.cc): its methods perform the steps of TcpOutput on the output
    buffer, so what holds of every run there holds of every sequence of calls here. */
module TcpConnections {

  import opened ConnStates
  import opened Buffers
  import opened TcpOutput
  import TcpOutputEffects

  class TcpConnection {
    var state: ConnState
    var writing: bool
    const outputBuffer: Buffer
    var functors: seq<Functor>
    var highWaterMark: nat

    // The socket: its answers come as parameters, what it has taken is recorded.
    ghost var sent: seq<Byte>
    ghost var halfClosed: bool

    // What the connection has done for its user.
    ghost var accepted: seq<Message>
    ghost var log: seq<Entry>
    ghost var completes: nat
    ghost var marks: seq<nat>

    ghost function View(): Conn
      requires outputBuffer.Valid()
      reads this, outputBuffer
    {
      Conn(state, writing, outputBuffer.Readable(), functors, sent, halfClosed, accepted, log, completes, marks,
        highWaterMark)
    }

    constructor ()
      ensures outputBuffer.Valid() && fresh(outputBuffer) && View() == INIT
    {
      state, writing, functors, highWaterMark := Connecting, false, [], HIGH_WATER_MARK;
      sent, halfClosed, accepted, log, completes, marks := [], false, [], [], 0, [];
      outputBuffer := new Buffer(1024);
    }

    method ConnectEstablished()
      requires outputBuffer.Valid() && state == Connecting
      modifies this
      ensures outputBuffer.Valid() && View() == old(View()).(state := Connected)
    {
      state := Connected;
    }

    method SendInLoop(message: Message, r: WriteResult)
      requires outputBuffer.Valid() && Possible(r, |message|, halfClosed)
      modifies this, outputBuffer
      ensures outputBuffer.Valid() && View() == TcpOutput.SendInLoop(old(View()), message, r)
      ensures var direct := old(state) != Disconnected && !old(writing) && old(outputBuffer.Readable()) == [];
              sent == if direct && r.Wrote? then old(sent) + message[..r.n] else old(sent)
    {
      assert sent + message[..0] == sent;
      if state == Disconnected {
        log := log + [Entry(message, TooLate)];
        return;
      }
      hide Direct, TcpOutput.KeepRest;
      var nwrote, faultError := 0, false;
      if !writing && outputBuffer.ReadableBytes() == 0 {
        nwrote, faultError := TryDirectly(message, r);
      }
      KeepRest(message, nwrote, faultError);
    }

    /** The second part: what is left over is kept, unless the connection is broken. */
    method KeepRest(message: Message, nwrote: nat, faultError: bool)
      requires outputBuffer.Valid() && nwrote <= |message|
      modifies this`writing, this`marks, this`log, outputBuffer
      ensures outputBuffer.Valid() && View() == TcpOutput.KeepRest(old(View()), message, nwrote, faultError)
    {
      var remaining := |message| - nwrote;
      if !faultError && remaining > 0 {
        Overflow(message[nwrote..]);
      }
      log := log + [Entry(message, if faultError then Faulted else Kept)];
    }

    /** The first part of sendInLoop: with nothing pending, try writing directly. */
    method TryDirectly(message: Message, r: WriteResult) returns (nwrote: nat, faultError: bool)
      requires outputBuffer.Valid() && (r.Wrote? ==> r.n <= |message|)
      modifies this`sent, this`completes
      ensures nwrote == Taken(r) && nwrote <= |message| && faultError == Fault(r)
      ensures View() == Direct(old(View()), message, r)
    {
      nwrote, faultError := 0, false;
      assert message[..0] == [] && sent + [] == sent;
      if r.Wrote? {
        nwrote := r.n;
        sent := sent + message[..nwrote];
        if nwrote == |message| {
          completes := completes + 1;
        }
      } else if !r.WouldBlock? {
        if r.BrokenPipe? || r.ConnReset? {
          faultError := true;
        }
      }
    }

    /** The last part of sendInLoop: what the socket did not take goes to the buffer. */
    method Overflow(rest: seq<Byte>)
      requires outputBuffer.Valid() && rest != []
      modifies this`writing, this`marks, outputBuffer
      ensures outputBuffer.Valid() && View() == Enqueue(old(View()), rest)
    {
      var oldLen := outputBuffer.ReadableBytes();
      if oldLen + |rest| >= highWaterMark && oldLen < highWaterMark {
        marks := marks + [oldLen + |rest|];
      }
      outputBuffer.Append(rest);
      if !writing {
        writing := true;
      }
    }

    method Send(message: Message, inLoopThread: bool, r: WriteResult)
      requires outputBuffer.Valid() && (inLoopThread ==> Possible(r, |message|, halfClosed))
      modifies this, outputBuffer
      ensures outputBuffer.Valid()
      ensures View() == Apply(old(View()), if inLoopThread then TcpOutput.Send(message, r) else PostSend(message))
    {
      if state == Connected {
        accepted := accepted + [message];
        if inLoopThread {
          SendInLoop(message, r);
        } else {
          functors := functors + [SendFunctor(message)];
        }
      }
    }

    method ShutdownInLoop()
      requires outputBuffer.Valid()
      modifies this`halfClosed
      ensures View() == TcpOutput.ShutdownInLoop(old(View()))
      ensures halfClosed <==> old(halfClosed) || !writing
    {
      if !writing {
        halfClosed := true;
      }
    }

    method Shutdown(inLoopThread: bool)
      requires outputBuffer.Valid()
      modifies this
      ensures View() == Apply(old(View()), if inLoopThread then TcpOutput.Shutdown else PostShutdown)
    {
      if state == Connected {
        state := Disconnecting;
        if inLoopThread {
          ShutdownInLoop();
        } else {
          functors := functors + [ShutdownFunctor];
        }
      }
    }

    method ForceClose()
      requires outputBuffer.Valid()
      modifies this
      ensures View() == Apply(old(View()), TcpOutput.ForceClose)
    {
      if state == Connected || state == Disconnecting {
        state := Disconnecting;
        functors := functors + [ForceCloseFunctor];
      }
    }

    method HandleClose()
      requires outputBuffer.Valid() && (state == Connected || state == Disconnecting)
      modifies this
      ensures View() == TcpOutput.HandleClose(old(View()))
    {
      state := Disconnected;
      writing := false;
    }

    method ForceCloseInLoop()
      requires outputBuffer.Valid()
      modifies this
      ensures View() == TcpOutput.ForceCloseInLoop(old(View()))
    {
      if state == Connected || state == Disconnecting {
        HandleClose();
      }
    }

    /** With write interest, what the socket took leaves the front of the buffer; when the buffer is empty the interest
        goes, and a connection that is shutting down is half-closed. */
    method HandleWrite(r: WriteResult)
      requires outputBuffer.Valid() && Possible(r, outputBuffer.ReadableBytes(), halfClosed)
      modifies this, outputBuffer
      ensures outputBuffer.Valid() && View() == TcpOutput.HandleWrite(old(View()), r)
      ensures !old(writing) ==> View() == old(View())
      ensures old(writing) && old(outputBuffer.Readable()) != [] ==>
                var k := if r.Wrote? then r.n else 0;
                && sent == old(sent) + old(outputBuffer.Readable())[..k]
                && outputBuffer.Readable() == old(outputBuffer.Readable())[k..]
                && (writing <==> outputBuffer.Readable() != [])
                && (halfClosed <==> old(halfClosed) || (outputBuffer.Readable() == [] && state == Disconnecting))
    {
      if writing && outputBuffer.ReadableBytes() > 0 {
        TcpOutputEffects.DrainExactly(View(), r);
      }
      if writing {
        if r.Wrote? && r.n > 0 {
          sent := sent + outputBuffer.Readable()[..r.n];
          outputBuffer.Retrieve(r.n);
          if outputBuffer.ReadableBytes() == 0 {
            writing := false;
            completes := completes + 1;
            if state == Disconnecting {
              ShutdownInLoop();
            }
          }
        }
      }
    }

    /** The loop runs the functor at the head of its queue. */
    method RunFunctor(r: WriteResult)
      requires outputBuffer.Valid() && Enabled(View(), TcpOutput.RunFunctor(r))
      modifies this, outputBuffer
      ensures outputBuffer.Valid() && View() == RunHead(old(View()), r)
    {
      var f := functors[0];
      functors := functors[1..];
      match f
      case SendFunctor(message) => SendInLoop(message, r);
      case ShutdownFunctor => ShutdownInLoop();
      case ForceCloseFunctor => ForceCloseInLoop();
    }

    method Perform(step: Step)
      requires outputBuffer.Valid() && Enabled(View(), step)
      modifies this, outputBuffer
      ensures outputBuffer.Valid() && View() == Apply(old(View()), step)
    {
      match step
      case Establish => ConnectEstablished();
      case Send(m, r) => Send(m, true, r);
      case PostSend(m) => Send(m, false, WouldBlock);
      case Shutdown => Shutdown(true);
      case PostShutdown => Shutdown(false);
      case ForceClose => ForceClose();
      case Writable(r) => HandleWrite(r);
      case Hangup => HandleClose();
      case RunFunctor(r) => RunFunctor(r);
    }
  }

  /** Any run of a new connection: what the socket has and what the buffer holds are the messages not discarded. */
  method PerformAll(steps: seq<Step>) returns (conn: TcpConnection)
    requires Runnable(INIT, steps)
    ensures fresh(conn) && fresh(conn.outputBuffer) && conn.outputBuffer.Valid()
    ensures conn.View() == Exec(INIT, steps)
    ensures conn.sent + conn.outputBuffer.Readable() == KeptBytes(conn.log)
    ensures conn.state != Disconnected ==> (conn.writing <==> conn.outputBuffer.Readable() != [])
    ensures |conn.sent| == TcpOutputEffects.ReturnedAlong(INIT, steps)
  {
    conn := new TcpConnection();
    var i := 0;
    while i < |steps|
      invariant 0 <= i <= |steps|
      invariant fresh(conn) && fresh(conn.outputBuffer) && conn.outputBuffer.Valid()
      invariant Exec(conn.View(), steps[i..]) == Exec(INIT, steps) && Runnable(conn.View(), steps[i..])
    {
      hide Apply, Enabled;
      assert steps[i..][0] == steps[i] && steps[i..][1..] == steps[i + 1..];
      conn.Perform(steps[i]);
      i := i + 1;
    }
    EveryRun(steps);
    TcpOutputEffects.WritesExactly(INIT, steps);
  }

  /** Every step of the run can happen when its turn comes. */
  ghost predicate Runnable(c: Conn, steps: seq<Step>)
    decreases |steps|
  {
    steps != [] ==> Enabled(c, steps[0]) && Runnable(Apply(c, steps[0]), steps[1..])
  }
}
