/** The server, its connections and their loops as one object (muduo/net/TcpServer.cc, muduo/net/TcpConnection.cc).
    Its methods perform the steps of TcpServers and contain the assertions of the source, which are proved. */
module TcpServerObjects {

  import opened ConnStates
  import opened TcpServers
  import opened TcpServerInvariant
  import TcpServerEffects

  class TcpServer {
    var connections: set<ConnId>         // connections_, by name
    var nextConnId: ConnId
    var conns: map<ConnId, Conn>         // the connection objects
    var loops: seq<Loop>

    ghost function View(): Server
      reads this
    {
      Server(conns, connections, nextConnId, loops, false)
    }

    constructor (nloops: nat)
      requires nloops >= 1
      ensures View() == Start(nloops) && Inv(View())
    {
      connections, nextConnId, conns := {}, 1, map[];
      loops := seq(nloops, _ => Loop(Polling, [], [], []));
      StartInv(nloops);
      new;
      assert View() == Start(nloops);
    }

    method QueueInLoop(l: LoopId, f: Functor)
      requires l < |loops|
      modifies this`loops
      ensures View() == Push(old(View()), l, f)
    {
      loops := loops[l := loops[l].(queue := loops[l].queue + [f])];
    }

    method ConnectEstablished(id: ConnId)
      requires id in conns && conns[id].state == Connecting
      modifies this`conns
      ensures View() == TcpServers.ConnectEstablished(old(View()), id)
    {
      var c := conns[id];
      conns := conns[id := c.(state := Connected, channel := Update(c.channel.(wantsRead := true)),
        log := c.log + [Up])];
    }

    method NewConnection(ioLoop: LoopId)
      requires Inv(View()) && ioLoop < |loops|
      modifies this
      ensures View() == TcpServers.NewConnection(old(View()), ioLoop) && Inv(View())
      ensures old(nextConnId) !in old(conns) && old(nextConnId) in connections
    {
      AcceptInv(View(), ioLoop);
      FreshId(View());
      hide Inv;
      var id := nextConnId;
      nextConnId := nextConnId + 1;
      conns := conns[id := NewConn(ioLoop)];
      connections := connections + {id};
      if ioLoop == 0 {
        ConnectEstablished(id);
      } else {
        QueueInLoop(ioLoop, Establish(id));
      }
    }

    /** Exactly one name goes, and the destruction of its connection is the last functor of the I/O loop; nothing else
        changes. */
    method RemoveConnectionInLoop(id: ConnId)
      requires id in conns && conns[id].loop < |loops| && id in connections
      modifies this`connections, this`conns, this`loops
      ensures View() == TcpServers.RemoveConnectionInLoop(old(View()), id)
      ensures id !in connections && connections + {id} == old(connections) && |connections| == |old(connections)| - 1
      ensures |loops| == |old(loops)| && id in conns && conns[id].loop < |loops|
      ensures Todo(loops[conns[id].loop]) == Todo(old(loops)[conns[id].loop]) + [Destroy(id)]
      ensures forall k :: 0 <= k < |loops| && k != conns[id].loop ==> loops[k] == old(loops)[k]
      ensures conns[id].log == old(conns)[id].log + [Erased] && conns - {id} == old(conns) - {id}
    {
      connections := connections - {id};
      var c := conns[id];
      conns := conns[id := c.(log := c.log + [Erased])];
      QueueInLoop(c.loop, Destroy(id));
    }

    method RemoveConnection(id: ConnId, here: LoopId)
      requires id in conns && conns[id].loop < |loops| && (here == 0 ==> id in connections)
      modifies this`connections, this`conns, this`loops
      ensures View() == if here == 0 then TcpServers.RemoveConnectionInLoop(old(View()), id)
              else Push(old(View()), 0, Remove(id))
    {
      if here == 0 {
        RemoveConnectionInLoop(id);
      } else {
        QueueInLoop(0, Remove(id));
      }
    }

    /** handleClose of a connection that is up: its assertion, and that of the removal, hold. */
    method HandleClose(id: ConnId)
      requires Inv(View()) && Known(View(), id) && IsUp(conns[id])
      modifies this
      ensures View() == TcpServers.HandleClose(old(View()), id) && Inv(View()) && Known(View(), id) &&
              conns[id].state == Disconnected
      ensures TcpServerEffects.IsClosed(old(conns)[id], conns[id]) && conns == old(conns)[id := conns[id]]
    {
      UpExactly(View(), id);
      CloseInv(View(), id);
      StageOf(View(), id);
      CloseFailsExactly(View(), id);
      TcpServerEffects.CloseTakesDown(View(), id);
      hide Inv, Coherent, Update;
      var c := conns[id];
      assert c.state == Connected || c.state == Disconnecting;
      NamedWhileUp(View(), id);
      conns := conns[id := c.(state := Disconnected,
        channel := Update(c.channel.(wantsRead := false, wantsWrite := false)),
                              log := c.log + [Down], atClose := c.channel, after := [])];
      RemoveConnection(id, c.loop);
    }

    /** startReadInLoop and stopReadInLoop. */
    method SwitchReadingInLoop(id: ConnId, on: bool)
      requires Inv(View()) && id in conns && 1 <= |conns[id].log| < 4
      modifies this`conns
      ensures View() == Changed(old(View()), id, TcpServers.SwitchReading(old(conns)[id], on)) && Inv(View())
      ensures conns[id].reading == conns[id].channel.wantsRead == on
    {
      SwitchInv(View(), id, on);
      hide Inv, Update;
      var c := conns[id];
      if on {
        if !c.reading || !c.channel.wantsRead {
          c := c.(channel := Update(c.channel.(wantsRead := true)));
          c := c.(reading := true);
        }
      } else {
        if c.reading || c.channel.wantsRead {
          c := c.(channel := Update(c.channel.(wantsRead := false)));
          c := c.(reading := false);
        }
      }
      conns := conns[id := if c.state == Disconnected then c.(after := c.after + [on]) else c];
    }

    /** startRead and stopRead: at once in the loop thread, queued with the bare pointer from another one. */
    method SwitchReading(id: ConnId, on: bool, inLoopThread: bool)
      requires Inv(View()) && Enabled(View(), if inLoopThread then CallRead(id, on) else PostRead(id, on))
      modifies this
      ensures View() == Apply(old(View()), if inLoopThread then CallRead(id, on) else PostRead(id, on)) && Inv(View())
    {
      ApplyInv(View(), if inLoopThread then CallRead(id, on) else PostRead(id, on));
      UpExactly(View(), id);
      hide Inv, TcpServers.SwitchReading;
      if inLoopThread {
        SwitchReadingInLoop(id, on);
      } else {
        QueueInLoop(conns[id].loop, SwitchRead(id, on));
      }
    }

    method ForceClose(id: ConnId)
      requires Inv(View()) && Known(View(), id)
      modifies this
      ensures View() == Apply(old(View()), CallForceClose(id)) && Inv(View())
      ensures IsUp(old(conns)[id]) ==>
                conns[id].state == Disconnecting && |loops| == |old(loops)| && conns[id].loop < |loops| &&
                Todo(loops[conns[id].loop]) == Todo(old(loops)[conns[id].loop]) + [TcpServers.ForceClose(id)]
    {
      ApplyInv(View(), CallForceClose(id));
      hide Inv;
      var c := conns[id];
      if c.state == Connected || c.state == Disconnecting {
        conns := conns[id := c.(state := Disconnecting)];
        QueueInLoop(c.loop, TcpServers.ForceClose(id));
      }
    }

    /** The channel callbacks of one active connection, in the order of the source: a connection that is up goes down
        on a hang-up without input and on the end of input, and what was read is handed to the user. */
    method HandleEvent(l: LoopId, n: int)
      requires Inv(View()) && Enabled(View(), Dispatch(l, n)) && !Trouble(View(), Dispatch(l, n))
      modifies this
      ensures View() == Apply(old(View()), Dispatch(l, n)) && Inv(View())
      ensures var e := old(loops)[l].active[0];
              e.id in conns && TcpServerEffects.Handled(old(conns)[e.id], e.ev, n, conns[e.id]) &&
              conns == old(conns)[e.id := conns[e.id]]
    {
      TakenInv(View(), l);
      ApplyInv(View(), Dispatch(l, n));
      FailsExactly(View(), Dispatch(l, n));
      var id, ev := loops[l].active[0].id, loops[l].active[0].ev;
      UpExactly(View(), id);
      hide Inv;
      loops := loops[l := loops[l].(active := loops[l].active[1..])];
      assert View() == Taken(old(View()), l);
      HandleEventWithGuard(id, ev, n);
    }

    method HandleEventWithGuard(id: ConnId, ev: Revents, n: int)
      requires Inv(View()) && Known(View(), id) && |conns[id].log| >= 1 && !DispatchFails(conns[id], ev, n)
      requires IsUp(conns[id]) || conns[id].state == Disconnected
      modifies this
      ensures View() == TcpServers.HandleEvent(old(View()), id, ev, n)
      ensures id in conns && TcpServerEffects.Handled(old(conns)[id], ev, n, conns[id]) &&
              conns == old(conns)[id := conns[id]]
    {
      TcpServerEffects.EventsExactly(View(), id, ev, n);
      hide Inv, TcpServers.HandleClose;
      if ev.hup && !ev.pollin {
        HandleClose(id);
      }
      if ev.pollin || ev.pri || ev.rdhup {
        if n > 0 {
          var c := conns[id];
          conns := conns[id := if c.state == Disconnected then c.(late := c.late + 1)
            else c.(delivered := c.delivered + 1)];
        } else if n == 0 {
          HandleClose(id);
        }
      }
    }

    /** The functor at the head of the batch of loop l. */
    method RunFunctor(l: LoopId)
      requires Inv(View()) && Enabled(View(), TcpServers.RunFunctor(l)) && !Trouble(View(), TcpServers.RunFunctor(l))
      modifies this
      ensures View() == Apply(old(View()), TcpServers.RunFunctor(l)) && Inv(View())
      ensures var f := old(loops)[l].batch[0];
              f.id in conns && TcpServerEffects.Ran(old(conns)[f.id], f, conns[f.id]) &&
              conns == old(conns)[f.id := conns[f.id]]
    {
      RunInv(View(), l);
      TcpServerEffects.RunExactly(View(), l);
      HeadStage(View(), l);
      var f := loops[l].batch[0];
      if !Token(f) {
        RunLooseInv(View(), l);
        LooseHead(View(), l);
      }
      hide Inv, TcpServers.HandleClose, TcpServers.SwitchReading, Update;
      hide TcpServerEffects.Ran, TcpServerEffects.IsClosed;
      loops := loops[l := loops[l].(batch := loops[l].batch[1..])];
      assert View() == Popped(old(View()), l);
      match f
      case Establish(id) =>
        assert conns[id].state == Connecting;
        ConnectEstablished(id);
      case Remove(id) =>
        assert id in connections;
        RemoveConnectionInLoop(id);
      case Destroy(id) =>
        ConnectDestroyed(id);
      case ForceClose(id) =>
        if conns[id].state == Connected || conns[id].state == Disconnecting {
          HandleClose(id);
        }
      case Raw(_) =>
      case SwitchRead(id, on) =>
        SwitchReadingInLoop(id, on);
    }

    method ConnectDestroyed(id: ConnId)
      requires Known(View(), id) && conns[id].state == Disconnected
      requires !Asks(conns[id].channel) && conns[id].channel.inPoller && !Waits(loops[conns[id].loop], id)
      modifies this`conns
      ensures View() == TcpServers.ConnectDestroyed(old(View()), id)
    {
      var c := conns[id];
      if c.state == Connected {
        c := Closed(c);
      }
      assert !Asks(c.channel) && c.channel.inPoller;
      conns := conns[id := c.(channel := NEW_CHANNEL, log := c.log + [Destroyed])];
    }
  }

  lemma NamedWhileUp(s: Server, id: ConnId)
    requires Inv(s) && Known(s, id) && IsUp(s.conns[id])
    ensures id in s.names
  {
    hide Inv, ChannelFits;
    StageOf(s, id);
  }

  /** What the functor about to run relies on. */
  lemma HeadStage(s: Server, l: LoopId)
    requires Inv(s) && Enabled(s, RunFunctor(l))
    ensures var f := s.loops[l].batch[0];
            var c := s.conns[f.id];
            (f.Establish? ==> c.state == Connecting) &&
            (f.Remove? ==> f.id in s.names) &&
            (f.Destroy? ==> c.state == Disconnected && (Asks(c.channel) <==> LastOn(c.after)) && c.channel.inPoller &&
                            !Waits(Popped(s, l).loops[c.loop], f.id))
  {
    var f := s.loops[l].batch[0];
    assert LoopOk(l, s.loops[l], s.conns);
    HeadIsExpected(l, s.loops[l], s.conns);
    StageOf(s, f.id);
  }
}
