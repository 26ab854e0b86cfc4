/** What holds in every run of a server and its connections, however the loops interleave. */
module TcpServerRuns {

  import opened ConnStates
  import opened TcpServers
  import opened TcpServerInvariant

  // ----- Failing -----

  /** Whether some step of the run fails. */
  predicate MeetsTrouble(s: Server, steps: seq<Step>)
    decreases |steps|
  {
    steps != [] && (Trouble(s, steps[0]) || MeetsTrouble(Apply(s, steps[0]), steps[1..]))
  }

  lemma {:induction false} FailedStays(s: Server, steps: seq<Step>)
    requires s.failed
    ensures Exec(s, steps) == s
    decreases |steps|
  {
    if steps != [] {
      FailedStays(s, steps[1..]);
    }
  }

  /** A run fails exactly if one of its steps does. */
  lemma {:induction false} RunFailsExactly(s: Server, steps: seq<Step>)
    requires Inv(s) && !s.failed
    ensures Exec(s, steps).failed <==> MeetsTrouble(s, steps)
    decreases |steps|
  {
    if steps != [] {
      FailsExactly(s, steps[0]);
      ApplyInv(s, steps[0]);
      var s' := Apply(s, steps[0]);
      hide Inv, Apply, Trouble;
      if s'.failed {
        FailedStays(s', steps[1..]);
      } else {
        RunFailsExactly(s', steps[1..]);
      }
    }
  }

  // ----- The life of a connection -----

  /** In every interleaving of loops and callers each connection passes established, closed, erased, destroyed in this
      order, each at most once. Its name is known exactly until it is erased; its channel is in the poller from the
      first milestone to the last. While it is up the kernel watches its descriptor exactly if the channel asks for
      something; after the close the channel asks for something exactly if reading was switched on last, and the kernel
      watches the descriptor exactly in the cases of Rearmed. */
  lemma EveryRun(nloops: nat, steps: seq<Step>, id: ConnId)
    requires nloops >= 1
    ensures var s := Exec(Start(nloops), steps);
            (s.failed <==> MeetsTrouble(Start(nloops), steps)) && (id in s.names ==> id in s.conns) &&
            (id in s.conns ==>
               var c := s.conns[id];
               c.log <= [Up, Down, Erased, Destroyed] &&
               (id in s.names <==> Erased !in c.log) &&
               (c.channel.inPoller <==> Up in c.log && Destroyed !in c.log) &&
               (Asks(c.channel) ==> Up in c.log) &&
               (Up in c.log && Down !in c.log ==> (c.channel.added <==> Asks(c.channel))) &&
               (Down in c.log && Destroyed !in c.log ==>
                  (Asks(c.channel) <==> LastOn(c.after)) && (c.channel.added <==> Rearmed(c.atClose, c.after))) &&
               (c.state == Disconnected <==> Down in c.log))
  {
    var s := Exec(Start(nloops), steps);
    StartInv(nloops);
    RunFailsExactly(Start(nloops), steps);
    ExecInv(Start(nloops), steps);
    hide LoopOk, Exec;
    if id in s.conns {
      assert Coherent(s.conns[id], id in s.names, |s.loops|);
      PrefixOfLife(s.conns[id].log);
      hide Rearmed;
    }
  }

  lemma PrefixOfLife(log: seq<Milestone>)
    requires |log| <= 4 && log == LIFE[..|log|]
    ensures log <= LIFE
    ensures Up in log <==> |log| >= 1
    ensures Down in log <==> |log| >= 2
    ensures Erased in log <==> |log| >= 3
    ensures Destroyed in log <==> |log| >= 4
  {
    assert forall i :: 0 <= i < |log| ==> log[i] == LIFE[i];
    assert |log| >= 1 ==> log[0] == Up;
    assert |log| >= 2 ==> log[1] == Down;
    assert |log| >= 3 ==> log[2] == Erased;
    assert |log| >= 4 ==> log[3] == Destroyed;
  }

  // ----- Runs without trouble -----

  /** The steps from which no trouble comes: no events that close twice, no functor that switches reading of a
      connection closed before it ran, and no close of a connection whose channel asks for nothing. */
  predicate Careful(s: Server, step: Step) {
    Enabled(s, step) ==>
      match step
      case Dispatch(l, n) =>
        var e := s.loops[l].active[0];
        !ClosesTwice(e.ev, n) && (Closes(e.ev, n) ==> Asks(s.conns[e.id].channel))
      case RunFunctor(l) =>
        var f := s.loops[l].batch[0];
        (f.SwitchRead? ==> IsUp(s.conns[f.id])) &&
          (f.ForceClose? && IsUp(s.conns[f.id]) ==> Asks(s.conns[f.id].channel))
      case _ => true
  }

  predicate CarefulRun(s: Server, steps: seq<Step>)
    decreases |steps|
  {
    steps != [] ==> Careful(s, steps[0]) && CarefulRun(Apply(s, steps[0]), steps[1..])
  }

  /** The connection, if closed, asked for something then and has been left alone since. */
  predicate Quiet(c: Conn) {
    |c.log| >= 2 ==> c.after == [] && Asks(c.atClose)
  }

  predicate ActiveUp(active: seq<Ready>, conns: map<ConnId, Conn>) {
    forall i :: 0 <= i < |active| ==> active[i].id in conns && |conns[active[i].id].log| == 1
  }

  predicate Calm(s: Server) {
    && (forall id :: id in s.conns ==> Quiet(s.conns[id]))
    && (forall l :: 0 <= l < |s.loops| ==> ActiveUp(s.loops[l].active, s.conns))
  }

  /** One connection changes and stays quiet; if it is not up, it is not among the active ones. */
  lemma CalmAfter(s: Server, s': Server, id: ConnId)
    requires Calm(s) && |s'.loops| == |s.loops|
    requires forall x :: x != id ==> (x in s'.conns <==> x in s.conns) && (x in s.conns ==> s'.conns[x] == s.conns[x])
    requires id in s.conns ==> id in s'.conns
    requires id in s'.conns ==> Quiet(s'.conns[id])
    requires forall l :: 0 <= l < |s.loops| ==>
               forall e :: e in s'.loops[l].active ==>
                 e in s.loops[l].active && (e.id == id && id in s'.conns ==> |s'.conns[id].log| == 1)
    ensures Calm(s')
  {
    hide Quiet;
    forall x | x in s'.conns
      ensures Quiet(s'.conns[x])
    {
    }
    forall l | 0 <= l < |s'.loops|
      ensures ActiveUp(s'.loops[l].active, s'.conns)
    {
      assert ActiveUp(s.loops[l].active, s.conns);
      forall i | 0 <= i < |s'.loops[l].active|
        ensures s'.loops[l].active[i].id in s'.conns && |s'.conns[s'.loops[l].active[i].id].log| == 1
      {
        var e := s'.loops[l].active[i];
        assert e in s.loops[l].active;
        var j :| 0 <= j < |s.loops[l].active| && s.loops[l].active[j] == e;
      }
    }
  }

  /** What handleClose changes. */
  lemma CloseChanges(s: Server, id: ConnId)
    requires Inv(s) && !s.failed && Known(s, id) && IsUp(s.conns[id])
    ensures var s' := HandleClose(s, id);
            !s'.failed && |s'.loops| == |s.loops| && s'.conns.Keys == s.conns.Keys &&
            (forall x :: x in s.conns && x != id ==> s'.conns[x] == s.conns[x]) &&
            (forall l :: 0 <= l < |s.loops| ==> s'.loops[l].active == s.loops[l].active) &&
            s'.conns[id].after == [] && s'.conns[id].atClose == s.conns[id].channel
  {
    hide LoopOk, ChannelFits, Update;
    UpExactly(s, id);
    assert Coherent(s.conns[id], id in s.names, |s.loops|);
  }

  lemma CalmClose(s: Server, id: ConnId)
    requires Inv(s) && !s.failed && Calm(s) && Known(s, id) && IsUp(s.conns[id]) && Asks(s.conns[id].channel)
    requires forall l :: 0 <= l < |s.loops| ==> !Waits(s.loops[l], id)
    ensures Calm(HandleClose(s, id)) && !HandleClose(s, id).failed
  {
    CloseChanges(s, id);
    NobodyWaits(s, id);
    hide Inv, HandleClose, Calm;
    CalmAfter(s, HandleClose(s, id), id);
  }

  lemma NobodyWaits(s: Server, id: ConnId)
    requires forall l :: 0 <= l < |s.loops| ==> !Waits(s.loops[l], id)
    ensures forall l :: 0 <= l < |s.loops| ==> forall e :: e in s.loops[l].active ==> e.id != id
  {
  }

  /** In a calm state the kernel watches no closed connection. */
  lemma CalmPoll(s: Server, l: LoopId, ready: seq<Ready>)
    requires Inv(s) && Calm(s) && Enabled(s, Poll(l, ready))
    ensures Calm(WithLoop(s, l, s.loops[l].(phase := Handling, active := ready)))
  {
    hide LoopOk;
    forall i | 0 <= i < |ready|
      ensures |s.conns[ready[i].id].log| == 1
    {
      var c := s.conns[ready[i].id];
      assert Coherent(c, ready[i].id in s.names, |s.loops|);
      assert Quiet(c);
    }
    hide AllCoherent, Quiet, Reportable;
  }

  lemma CalmTaken(s: Server, l: LoopId)
    requires Inv(s) && Calm(s) && l < |s.loops| && s.loops[l].active != []
    ensures Calm(Taken(s, l)) && IsUp(s.conns[s.loops[l].active[0].id])
    ensures forall k :: 0 <= k < |s.loops| ==> !Waits(Taken(s, l).loops[k], s.loops[l].active[0].id)
  {
    var e := s.loops[l].active[0];
    TakenInv(s, l);
    UpExactly(s, e.id);
    assert ActiveUp(s.loops[l].active, s.conns);
    hide AllCoherent, TokensAt, LooseAt, Quiet;
    forall k | 0 <= k < |s.loops|
      ensures !Waits(Taken(s, l).loops[k], e.id)
    {
      assert LoopOk(k, s.loops[k], s.conns);
      NotTwice(k, s.loops[k], s.conns, l, e);
    }
    TailUp(s.loops[l].active, s.conns);
  }

  lemma TailUp(active: seq<Ready>, conns: map<ConnId, Conn>)
    requires ActiveUp(active, conns) && active != []
    ensures ActiveUp(active[1..], conns)
  {
  }

  lemma NotTwice(k: LoopId, loop: Loop, conns: map<ConnId, Conn>, l: LoopId, e: Ready)
    requires ActiveAt(k, loop, conns) && e.id in conns && conns[e.id].loop == l
    requires k == l ==> loop.active != [] && loop.active[0] == e
    ensures !Waits(if k == l then loop.(active := loop.active[1..]) else loop, e.id)
  {
  }

  lemma CalmDispatch(s: Server, id: ConnId, ev: Revents, n: int)
    requires Inv(s) && !s.failed && Calm(s) && Known(s, id) && IsUp(s.conns[id]) && !ClosesTwice(ev, n)
    requires Closes(ev, n) ==> Asks(s.conns[id].channel)
    requires forall l :: 0 <= l < |s.loops| ==> !Waits(s.loops[l], id)
    ensures Calm(HandleEvent(s, id, ev, n))
  {
    if Closes(ev, n) {
      CalmClose(s, id);
      CloseChanges(s, id);
    }
    hide Inv, HandleClose;
    if ReadEvents(ev) && n > 0 {
      var s1 := if ev.hup && !ev.pollin then HandleClose(s, id) else s;
      CalmDeliver(s1, id);
      hide Deliver;
    }
  }

  lemma CalmDeliver(s: Server, id: ConnId)
    requires Calm(s) && id in s.conns
    ensures Calm(Deliver(s, id))
  {
    var s' := Deliver(s, id);
    assert Quiet(s.conns[id]);
    assert forall l :: 0 <= l < |s.loops| ==> ActiveUp(s.loops[l].active, s.conns);
    hide Quiet;
    assert Quiet(s'.conns[id]) by { QuietSame(s.conns[id], s'.conns[id]); }
  }

  lemma QuietSame(c: Conn, d: Conn)
    requires Quiet(c) && d.log == c.log && d.after == c.after && d.atClose == c.atClose
    ensures Quiet(d)
  {
  }

  lemma CalmRunFunctor(s: Server, l: LoopId)
    requires Inv(s) && !s.failed && Calm(s) && Enabled(s, RunFunctor(l)) && Careful(s, RunFunctor(l))
    ensures var s' := Run(Popped(s, l), s.loops[l].batch[0]); !s'.failed ==> Calm(s')
  {
    var f := s.loops[l].batch[0];
    CalmPopped(s, l);
    FunctorStage(s, l);
    UpExactly(s, f.id);
    match f
    case ForceClose(id) =>
      if IsUp(s.conns[id]) {
        RunLooseInv(s, l);
        hide Inv, HandleClose, Calm;
        CalmClose(Popped(s, l), id);
      }
    case Raw(_) =>
    case _ =>
      var s' := Run(Popped(s, l), f);
      hide Inv, Calm;
      if !s'.failed {
        RunQuiet(s, l);
        NobodyWaits(Popped(s, l), f.id);
        CalmAfter(Popped(s, l), s', f.id);
      }
  }

  lemma CalmPopped(s: Server, l: LoopId)
    requires Calm(s) && l < |s.loops| && s.loops[l].batch != []
    ensures Calm(Popped(s, l))
  {
    hide Quiet, ActiveUp;
  }

  /** While a loop runs functors, and before a connection is up, it is not among the active ones. */
  lemma FunctorStage(s: Server, l: LoopId)
    requires Inv(s) && Calm(s) && Enabled(s, RunFunctor(l))
    ensures var f := s.loops[l].batch[0];
            forall k :: 0 <= k < |s.loops| ==> !Waits(Popped(s, l).loops[k], f.id)
    ensures var f := s.loops[l].batch[0];
            (f.Establish? ==> |s.conns[f.id].log| == 0) && (f.Remove? ==> |s.conns[f.id].log| == 2) &&
            (f.Destroy? ==> |s.conns[f.id].log| == 3)
  {
    var f := s.loops[l].batch[0];
    hide AllCoherent, Quiet;
    assert LoopOk(l, s.loops[l], s.conns);
    HeadIsExpected(l, s.loops[l], s.conns);
    forall k | 0 <= k < |s.loops|
      ensures !Waits(Popped(s, l).loops[k], f.id)
    {
      assert LoopOk(k, s.loops[k], s.conns);
      assert ActiveUp(s.loops[k].active, s.conns);
      hide TokensAt, LooseAt, Expected;
    }
  }

  /** The functors that change one connection leave it quiet. */
  lemma RunQuiet(s: Server, l: LoopId)
    requires Inv(s) && !s.failed && Calm(s) && Enabled(s, RunFunctor(l)) && Careful(s, RunFunctor(l))
    requires var f := s.loops[l].batch[0]; f.Establish? || f.Remove? || f.Destroy? || f.SwitchRead?
    ensures var f := s.loops[l].batch[0];
            var s' := Run(Popped(s, l), f);
            !s'.failed ==>
              |s'.loops| == |s.loops| && f.id in s'.conns && Quiet(s'.conns[f.id]) &&
              (forall x :: x != f.id ==>
                (x in s'.conns <==> x in s.conns) && (x in s.conns ==> s'.conns[x] == s.conns[x])) &&
              (forall k :: 0 <= k < |s.loops| ==> s'.loops[k].active == s.loops[k].active)
  {
    var f := s.loops[l].batch[0];
    FunctorStage(s, l);
    UpExactly(s, f.id);
    assert Quiet(s.conns[f.id]);
    hide Inv, Update;
  }

  lemma CalmCall(s: Server, step: Step)
    requires Inv(s) && !s.failed && Calm(s) && Enabled(s, step)
    requires !step.Poll? && !step.Dispatch? && !step.RunFunctor? && !step.Accept?
    ensures Calm(Act(s, step))
  {
    var s' := Act(s, step);
    var id := match step
      case CallForceClose(x) => x case CallShutdown(x, _) => x case CallSend(x) => x
      case CallRead(x, _) => x case PostRead(x, _) => x case WriteInterest(x, _) => x case _ => 0;
    if id in s.conns {
      UpExactly(s, id);
      assert Quiet(s.conns[id]);
    }
    ActiveMeansUp(s, id);
    hide Inv, Update, Calm;
    CalmAfter(s, s', id);
  }

  lemma ActiveMeansUp(s: Server, id: ConnId)
    requires Calm(s)
    ensures forall l :: 0 <= l < |s.loops| ==> forall e :: e in s.loops[l].active ==>
            e.id in s.conns && |s.conns[e.id].log| == 1
  {
    hide Quiet;
    forall l | 0 <= l < |s.loops|
      ensures forall e :: e in s.loops[l].active ==> e.id in s.conns && |s.conns[e.id].log| == 1
    {
      assert ActiveUp(s.loops[l].active, s.conns);
    }
  }

  lemma CalmAccept(s: Server, io: LoopId)
    requires Inv(s) && Calm(s) && io < |s.loops|
    ensures Calm(NewConnection(s, io))
  {
    ActiveMeansUp(s, s.nextId);
    FreshId(s);
    hide Inv, Update, Calm;
    CalmAfter(s, NewConnection(s, io), s.nextId);
  }

  /** Careful steps do not fail, and keep the calm. */
  lemma CalmStep(s: Server, step: Step)
    requires Inv(s) && !s.failed && Calm(s) && Careful(s, step)
    ensures Calm(Apply(s, step)) && !Apply(s, step).failed
  {
    hide Inv, Calm, HandleEvent, Run, NewConnection;
    if Enabled(s, step) {
      NoTrouble(s, step);
      FailsExactly(s, step);
      hide Trouble, Careful;
      match step
      case Accept(io) => CalmAccept(s, io);
      case Poll(l, ready) => CalmPoll(s, l, ready);
      case Dispatch(l, n) =>
        CalmTaken(s, l);
        TakenInv(s, l);
        assert Careful(s, step);
        CarefulDispatch(s, l, n);
        CalmDispatch(Taken(s, l), s.loops[l].active[0].id, s.loops[l].active[0].ev, n);
      case RunFunctor(l) => CalmRunFunctor(s, l);
      case _ => CalmCall(s, step);
    }
  }

  lemma CarefulDispatch(s: Server, l: LoopId, n: int)
    requires Enabled(s, Dispatch(l, n)) && Careful(s, Dispatch(l, n))
    ensures var e := s.loops[l].active[0];
            !ClosesTwice(e.ev, n) && (Closes(e.ev, n) ==> Asks(s.conns[e.id].channel))
  {
  }

  lemma NoTrouble(s: Server, step: Step)
    requires Inv(s) && Calm(s) && Careful(s, step)
    ensures !Trouble(s, step)
  {
    if Enabled(s, step) {
      match step
      case Dispatch(l, n) =>
        assert ActiveUp(s.loops[l].active, s.conns);
        UpExactly(s, s.loops[l].active[0].id);
        hide Inv;
      case RunFunctor(l) =>
        var f := s.loops[l].batch[0];
        FunctorStage(s, l);
        assert Quiet(s.conns[f.id]);
        hide Inv;
      case _ =>
    }
  }

  lemma {:induction false} CalmExec(s: Server, steps: seq<Step>)
    requires Inv(s) && !s.failed && Calm(s) && CarefulRun(s, steps)
    ensures Inv(Exec(s, steps)) && Calm(Exec(s, steps)) && !Exec(s, steps).failed
    decreases |steps|
  {
    hide Inv, Calm, Apply, Careful;
    if steps != [] {
      CalmStep(s, steps[0]);
      ApplyInv(s, steps[0]);
      CalmExec(Apply(s, steps[0]), steps[1..]);
    }
  }

  /** In every careful run no assertion of the source fails, a channel asks for events only while its connection is up,
      the kernel watches no closed connection, and only connections that are up wait for their events. */
  lemma EveryCarefulRun(nloops: nat, steps: seq<Step>, id: ConnId)
    requires nloops >= 1 && CarefulRun(Start(nloops), steps)
    ensures var s := Exec(Start(nloops), steps);
            !s.failed &&
            (id in s.conns && (Asks(s.conns[id].channel) || s.conns[id].channel.added) ==> s.conns[id].log == [Up]) &&
            (forall l, i :: 0 <= l < |s.loops| && 0 <= i < |s.loops[l].active| ==>
               s.loops[l].active[i].id in s.conns && s.conns[s.loops[l].active[i].id].log == [Up])
  {
    var s := Exec(Start(nloops), steps);
    StartInv(nloops);
    assert Calm(Start(nloops));
    CalmExec(Start(nloops), steps);
    hide Exec, CarefulRun;
    if id in s.conns {
      StageOf(s, id);
      assert Quiet(s.conns[id]);
      UpExactly(s, id);
    }
    forall l, i | 0 <= l < |s.loops| && 0 <= i < |s.loops[l].active|
      ensures s.loops[l].active[i].id in s.conns && s.conns[s.loops[l].active[i].id].log == [Up]
    {
      assert ActiveUp(s.loops[l].active, s.conns);
      UpExactly(s, s.loops[l].active[i].id);
    }
  }

  // ----- Later states -----

  predicate Grown(before: map<ConnId, Conn>, after: map<ConnId, Conn>) {
    forall id :: id in before ==> id in after && before[id].log <= after[id].log && before[id].loop == after[id].loop
  }

  /** One connection changes, and its milestones grow. */
  lemma GrownOne(before: map<ConnId, Conn>, after: map<ConnId, Conn>, id: ConnId, more: seq<Milestone>)
    requires id in before && id in after && after[id].log == before[id].log + more && after[id].loop == before[id].loop
    requires forall x :: x in before && x != id ==> x in after && after[x] == before[x]
    ensures Grown(before, after)
  {
  }

  lemma CloseGrows(s: Server, id: ConnId)
    requires Known(s, id)
    ensures var s' := HandleClose(s, id); Grown(s.conns, s'.conns) && |s'.loops| == |s.loops|
  {
    hide Update, Grown;
    var c, s' := s.conns[id], HandleClose(s, id);
    var more := if s'.conns[id].log == c.log then [] else if s'.conns[id].log == c.log + [Down] then [Down]
      else [Down] + [Erased];
    assert c.log + [] == c.log && (c.log + [Down]) + [Erased] == c.log + ([Down] + [Erased]);
    GrownOne(s.conns, s'.conns, id, more);
  }

  lemma RunGrows(s: Server, f: Functor)
    requires Known(s, f.id)
    ensures Grown(s.conns, Run(s, f).conns)
  {
    hide Update, Grown;
    var s' := Run(s, f);
    match f
    case ForceClose(id) =>
      CloseGrows(s, id);
      hide HandleClose;
      GrownOne(s.conns, s.conns, id, []);
    case Destroy(id) =>
      DestroyGrows(s, id);
      hide ConnectDestroyed;
    case _ =>
      var log := s.conns[f.id].log;
      assert log + [] == log;
      GrownOne(s.conns, s'.conns, f.id, if s'.conns[f.id].log == log then [] else if f.Establish? then [Up]
        else [Erased]);
  }

  lemma DestroyGrows(s: Server, id: ConnId)
    requires Known(s, id)
    ensures Grown(s.conns, ConnectDestroyed(s, id).conns)
  {
    hide Update, Grown;
    var c, s' := s.conns[id], ConnectDestroyed(s, id);
    assert c.log + [] == c.log && (c.log + [Down]) + [Destroyed] == c.log + ([Down] + [Destroyed]);
    GrownOne(s.conns, s'.conns, id, if s'.failed && !s.failed then [] else if s'.conns[id].log == c.log then []
                                    else if c.state == Connected then [Down] + [Destroyed] else [Destroyed]);
  }

  lemma DispatchGrows(s: Server, id: ConnId, ev: Revents, n: int)
    requires Known(s, id)
    ensures Grown(s.conns, HandleEvent(s, id, ev, n).conns)
  {
    CloseGrows(s, id);
    var s' := if ev.hup && !ev.pollin then HandleClose(s, id) else s;
    assert Grown(s.conns, s.conns);
    ReadGrows(s', id, n);
    hide HandleClose, HandleRead;
    GrownTwice(s.conns, s'.conns, HandleRead(s', id, n).conns);
    hide Grown;
  }

  lemma ReadGrows(s: Server, id: ConnId, n: int)
    requires Known(s, id)
    ensures Grown(s.conns, HandleRead(s, id, n).conns)
  {
    CloseGrows(s, id);
    DeliverGrows(s, id);
    hide HandleClose, Deliver;
  }

  lemma GrownTwice(a: map<ConnId, Conn>, b: map<ConnId, Conn>, c: map<ConnId, Conn>)
    requires Grown(a, b) && Grown(b, c)
    ensures Grown(a, c)
  {
  }

  lemma DeliverGrows(s: Server, id: ConnId)
    requires id in s.conns
    ensures Grown(s.conns, Deliver(s, id).conns)
  {
  }

  lemma SwitchGrows(s: Server, id: ConnId, on: bool)
    requires id in s.conns
    ensures Grown(s.conns, Changed(s, id, SwitchReading(s.conns[id], on)).conns)
    ensures Grown(s.conns, Changed(s, id, SwitchWriting(s.conns[id], on)).conns)
  {
    hide Update;
  }

  lemma ApplyGrows(s: Server, step: Step)
    requires Inv(s)
    ensures Grown(s.conns, Apply(s, step).conns)
  {
    hide Inv, Run, HandleEvent, SwitchReading, SwitchWriting;
    if !s.failed && Enabled(s, step) {
      match step
      case CallRead(id, on) => SwitchGrows(s, id, on);
      case WriteInterest(id, on) => SwitchGrows(s, id, on);
      case Accept(io) => FreshId(s); hide Established;
      case Dispatch(l, n) => DispatchGrows(Taken(s, l), s.loops[l].active[0].id, s.loops[l].active[0].ev, n);
      case RunFunctor(l) => RunGrows(Popped(s, l), s.loops[l].batch[0]);
      case _ =>
    }
  }

  /** Milestones are never taken back, whatever happens later. */
  lemma {:induction false} MilestonesStay(s: Server, steps: seq<Step>)
    requires Inv(s)
    ensures Grown(s.conns, Exec(s, steps).conns)
    decreases |steps|
  {
    hide Inv, Apply;
    if steps != [] {
      ApplyGrows(s, steps[0]);
      ApplyInv(s, steps[0]);
      MilestonesStay(Apply(s, steps[0]), steps[1..]);
    }
  }

  // ----- Messages -----

  /** The numbers of messages given to the user are as before. */
  predicate SameMessages(before: map<ConnId, Conn>, after: map<ConnId, Conn>) {
    forall id :: id in before ==>
      id in after && after[id].delivered == before[id].delivered && after[id].late == before[id].late
  }

  lemma CloseIsSilent(s: Server, id: ConnId)
    requires Known(s, id)
    ensures SameMessages(s.conns, HandleClose(s, id).conns)
  {
    hide Update;
  }

  lemma RunIsSilent(s: Server, f: Functor)
    requires Known(s, f.id)
    ensures SameMessages(s.conns, Run(s, f).conns)
  {
    hide Update;
    if f.ForceClose? {
      CloseIsSilent(s, f.id);
      hide HandleClose;
    }
  }

  lemma OthersAreSilent(s: Server, step: Step)
    requires Inv(s) && !step.Dispatch?
    ensures SameMessages(s.conns, Apply(s, step).conns)
  {
    hide LoopOk, Coherent, Run, Update;
    if !s.failed && Enabled(s, step) && step.RunFunctor? {
      RunIsSilent(Popped(s, step.l), s.loops[step.l].batch[0]);
    }
  }

  /** What the user gets from the events of a connection. */
  lemma DispatchDelivers(s: Server, id: ConnId, ev: Revents, n: int)
    requires Inv(s) && !s.failed && Known(s, id) && |s.conns[id].log| >= 1 && !DispatchFails(s.conns[id], ev, n)
    ensures var s' := HandleEvent(s, id, ev, n);
            var late := ReadEvents(ev) && n > 0 && (s.conns[id].state == Disconnected || ReadsAfterClose(ev));
            id in s'.conns && SameMessages(s.conns - {id}, s'.conns) &&
            s'.conns[id].late == s.conns[id].late + (if late then 1 else 0) &&
            (s'.conns[id].delivered != s.conns[id].delivered ==>
              IsUp(s.conns[id]) && s'.conns[id].log == s.conns[id].log)
  {
    CloseIsSilent(s, id);
    CloseFailsExactly(s, id);
    UpExactly(s, id);
    hide Inv, HandleClose;
  }

  /** Whether this step hands a message of connection id to the user after its down callback: reading was switched on
      after the close, or a hang-up without input comes with priority data or a peer shutdown, and there is still
      something to read. */
  predicate DeliversLate(s: Server, step: Step, id: ConnId) {
    && !s.failed && step.Dispatch? && Enabled(s, step) && !Trouble(s, step)
    && var e := s.loops[step.l].active[0];
    && e.id == id && ReadEvents(e.ev) && step.n > 0 && (s.conns[id].state == Disconnected || ReadsAfterClose(e.ev))
  }

  /** The user gets messages of a connection only between its up and its down callback, with exactly these
      exceptions. */
  lemma MessagesBetweenUpAndDown(s: Server, step: Step, id: ConnId)
    requires Inv(s) && id in s.conns
    ensures var s' := Apply(s, step);
            id in s'.conns &&
            (s'.conns[id].delivered != s.conns[id].delivered ==> s.conns[id].log == [Up] == s'.conns[id].log) &&
            s'.conns[id].late == s.conns[id].late + (if DeliversLate(s, step, id) then 1 else 0)
  {
    if !step.Dispatch? {
      OthersAreSilent(s, step);
      hide Inv, Apply;
    } else if !s.failed && Enabled(s, step) && !Trouble(s, step) {
      var e := s.loops[step.l].active[0];
      TakenInv(s, step.l);
      UpExactly(s, e.id);
      FailsExactly(s, step);
      hide Inv, HandleEvent, ReadsAfterClose, ReadEvents;
      DispatchDelivers(Taken(s, step.l), e.id, e.ev, step.n);
    } else if !s.failed && Enabled(s, step) {
      FailsExactly(s, step);
      hide Inv, HandleEvent;
    }
  }

  /** Whether some step of the run delivers a message of the connection late. */
  predicate MeetsLateMessage(s: Server, steps: seq<Step>, id: ConnId)
    decreases |steps|
  {
    steps != [] &&
    ((id in s.conns && DeliversLate(s, steps[0], id)) || MeetsLateMessage(Apply(s, steps[0]), steps[1..], id))
  }

  /** Along any run, a message has come late exactly if one of these steps occurred. */
  lemma {:induction false} LateMessagesExactly(s: Server, steps: seq<Step>, id: ConnId)
    requires Inv(s)
    ensures var s' := Exec(s, steps);
            id in s'.conns ==>
              (s'.conns[id].late > Late(s, id) <==> MeetsLateMessage(s, steps, id)) && s'.conns[id].late >= Late(s, id)
    decreases |steps|
  {
    if steps != [] {
      ApplyInv(s, steps[0]);
      if id in s.conns {
        MessagesBetweenUpAndDown(s, steps[0], id);
      } else {
        NewcomersHaveNone(s, steps[0], id);
      }
      hide Inv, Apply, DeliversLate;
      LateMessagesExactly(Apply(s, steps[0]), steps[1..], id);
    }
  }

  function Late(s: Server, id: ConnId): nat {
    if id in s.conns then s.conns[id].late else 0
  }

  lemma NewcomersHaveNone(s: Server, step: Step, id: ConnId)
    requires Inv(s) && id !in s.conns
    ensures Late(Apply(s, step), id) == 0
  {
    hide LoopOk, Coherent, Run, HandleEvent, Update;
    if !s.failed && Enabled(s, step) {
      match step
      case Dispatch(l, n) => DispatchNobodyNew(Taken(s, l), s.loops[l].active[0].id, s.loops[l].active[0].ev, n, id);
      case RunFunctor(l) => RunNobodyNew(Popped(s, l), s.loops[l].batch[0], id);
      case _ =>
    }
  }

  lemma CloseNobodyNew(s: Server, id: ConnId, x: ConnId)
    requires Known(s, id) && x !in s.conns
    ensures x !in HandleClose(s, id).conns
  {
  }

  lemma RunNobodyNew(s: Server, f: Functor, x: ConnId)
    requires Known(s, f.id) && x !in s.conns
    ensures x !in Run(s, f).conns
  {
    hide Update;
    if f.ForceClose? {
      CloseNobodyNew(s, f.id, x);
      hide HandleClose;
    }
  }

  lemma DispatchNobodyNew(s: Server, id: ConnId, ev: Revents, n: int, x: ConnId)
    requires Known(s, id) && x !in s.conns
    ensures x !in HandleEvent(s, id, ev, n).conns
  {
    CloseGrows(s, id);
    CloseNobodyNew(s, id, x);
    CloseNobodyNew(HandleClose(s, id), id, x);
    hide HandleClose;
  }

  // ----- Functors and objects -----

  predicate Queued(s: Server, f: Functor) {
    exists l :: 0 <= l < |s.loops| && f in Todo(s.loops[l])
  }

  lemma QueuedToken(s: Server, f: Functor, l: LoopId)
    requires Inv(s) && Token(f) && l < |s.loops| && Expected(l, f, s.conns) == 1
    ensures Queued(s, f)
  {
    hide AllCoherent, Expected;
    assert LoopOk(l, s.loops[l], s.conns);
    assert multiset(Todo(s.loops[l]))[f] == 1;
    assert f in multiset(Todo(s.loops[l]));
  }

  /** A connection that no name and no functor holds any more can be deleted: it is disconnected and its channel has
      left the poller, as the destructors assert. */
  lemma ReadyToDelete(s: Server, id: ConnId)
    requires Inv(s) && id in s.conns && id !in s.names && !Queued(s, Destroy(id))
    ensures s.conns[id].log == LIFE && s.conns[id].state == Disconnected && s.conns[id].channel == NEW_CHANNEL
  {
    var c := s.conns[id];
    assert Coherent(c, false, |s.loops|);
    if |c.log| == 3 {
      QueuedToken(s, Destroy(id), c.loop);
    }
    hide LoopOk, Queued;
  }

  /** When the queues are empty, every connection is up or has been through its whole life: no close is left half
      done. */
  lemma Settled(s: Server, id: ConnId)
    requires Inv(s) && id in s.conns && forall l :: 0 <= l < |s.loops| ==> Todo(s.loops[l]) == []
    ensures s.conns[id].log == [Up] || s.conns[id].log == LIFE
  {
    var c := s.conns[id];
    assert Coherent(c, id in s.names, |s.loops|);
    assert forall f :: !Queued(s, f);
    if |c.log| == 0 {
      QueuedToken(s, Establish(id), c.loop);
    } else if |c.log| == 2 {
      QueuedToken(s, Remove(id), 0);
    } else if |c.log| == 3 {
      QueuedToken(s, Destroy(id), c.loop);
    }
    hide LoopOk, Queued;
  }

  /** A functor bound to a bare pointer never outlives its connection: it runs before the connection is destroyed. */
  lemma BarePointersAreSafe(s: Server, f: Functor)
    requires Inv(s) && Bare(f) && Queued(s, f)
    ensures f.id in s.conns && Destroyed !in s.conns[f.id].log
    ensures forall l, i, j :: 0 <= l < |s.loops| && 0 <= i < j < |Todo(s.loops[l])| && Todo(s.loops[l])[j] == f ==>
              Todo(s.loops[l])[i] != Destroy(f.id)
  {
    hide ActiveAt, TokensAt;
    var l :| 0 <= l < |s.loops| && f in Todo(s.loops[l]);
    var todo := Todo(s.loops[l]);
    var j :| 0 <= j < |todo| && todo[j] == f;
    assert LooseOk(l, todo, s.conns, j);
    assert Coherent(s.conns[f.id], f.id in s.names, |s.loops|);
    PrefixOfLife(s.conns[f.id].log);
    forall l, i, j | 0 <= l < |s.loops| && 0 <= i < j < |Todo(s.loops[l])| && Todo(s.loops[l])[j] == f
      ensures Todo(s.loops[l])[i] != Destroy(f.id)
    {
      assert LoopOk(l, s.loops[l], s.conns);
      assert LooseOk(l, Todo(s.loops[l]), s.conns, j);
      assert Todo(s.loops[l])[i] in Todo(s.loops[l])[..j];
    }
  }

  /** Events and functors find their connection, which has been up and not been destroyed or, for tokens, is at the
      stage they expect: a loop can always go on with what it has. */
  lemma LoopCanGoOn(s: Server, l: LoopId, n: int)
    requires Inv(s) && l < |s.loops|
    ensures s.loops[l].phase == Handling && s.loops[l].active != [] ==>
              Enabled(s, Dispatch(l, n)) && 1 <= |s.conns[s.loops[l].active[0].id].log| < 4
    ensures s.loops[l].phase == Calling && s.loops[l].batch != [] ==> Enabled(s, RunFunctor(l))
  {
    var loop := s.loops[l];
    assert LoopOk(l, loop, s.conns);
    if loop.active != [] {
      TakenInv(s, l);
    }
    if loop.batch != [] {
      HeadIsExpected(l, loop, s.conns);
      assert loop.batch[0].id in s.conns;
      UpExactly(s, loop.batch[0].id);
    }
  }

  /** When a loop polls, the events of a closed connection can make it fail exactly if the kernel still watches the
      descriptor. */
  lemma ClosedCanFailExactly(s: Server, l: LoopId, id: ConnId)
    requires Inv(s) && !s.failed && l < |s.loops| && s.loops[l].phase == Polling
    requires id in s.conns && s.conns[id].loop == l && s.conns[id].state == Disconnected &&
             Destroyed !in s.conns[id].log
    ensures (exists ev, n :: Exec(s, [Poll(l, [Ready(id, ev)])] + ([Dispatch(l, n)] + [])).failed) <==>
              Rearmed(s.conns[id].atClose, s.conns[id].after)
  {
    StageOf(s, id);
    PrefixOfLife(s.conns[id].log);
    assert s.conns[id].channel.added <==> Rearmed(s.conns[id].atClose, s.conns[id].after);
    hide Rearmed, ChannelFits;
    if s.conns[id].channel.added {
      WatchedFails(s, l, id);
    } else {
      forall ev, n
        ensures !Exec(s, [Poll(l, [Ready(id, ev)])] + ([Dispatch(l, n)] + [])).failed
      {
        UnwatchedIsSilent(s, l, id, ev, n);
      }
    }
  }

  lemma WatchedFails(s: Server, l: LoopId, id: ConnId)
    requires Inv(s) && !s.failed && l < |s.loops| && s.loops[l].phase == Polling
    requires id in s.conns && s.conns[id].loop == l && s.conns[id].state == Disconnected && s.conns[id].channel.added
    ensures Exec(s, [Poll(l, [Ready(id, HANGUP)])] + ([Dispatch(l, 0)] + [])).failed
  {
    var s1 := Apply(s, Poll(l, [Ready(id, HANGUP)]));
    assert s1 == WithLoop(s, l, s.loops[l].(phase := Handling, active := [Ready(id, HANGUP)]));
    ApplyInv(s, Poll(l, [Ready(id, HANGUP)]));
    hide Inv;
    assert Trouble(s1, Dispatch(l, 0));
    FailsExactly(s1, Dispatch(l, 0));
    hide Apply;
    ExecFirst(s, Poll(l, [Ready(id, HANGUP)]), [Dispatch(l, 0)] + []);
    ExecFirst(s1, Dispatch(l, 0), []);
  }

  lemma UnwatchedIsSilent(s: Server, l: LoopId, id: ConnId, ev: Revents, n: int)
    requires !s.failed && l < |s.loops| && s.loops[l].phase == Polling && id in s.conns && !s.conns[id].channel.added
    ensures Exec(s, [Poll(l, [Ready(id, ev)])] + ([Dispatch(l, n)] + [])) == s
  {
    assert [Ready(id, ev)][0].id == id;
    assert Apply(s, Poll(l, [Ready(id, ev)])) == s;
    assert Apply(s, Dispatch(l, n)) == s;
    hide Apply;
    ExecFirst(s, Poll(l, [Ready(id, ev)]), [Dispatch(l, n)] + []);
    ExecFirst(s, Dispatch(l, n), []);
  }

  // ----- Runs with trouble -----

  lemma ExecFirst(s: Server, step: Step, rest: seq<Step>)
    ensures Exec(s, [step] + rest) == Exec(Apply(s, step), rest)
  {
    hide Apply;
    assert ([step] + rest)[1..] == rest;
  }

  /** A server with one loop and one connection. */
  function Solo(loop: Loop, c: Conn): Server {
    Server(map[1 := c], if |c.log| < 3 then {1} else {}, 2, [loop], false)
  }

  const UP_CONN := Conn(0, Connected, true, Channel(true, false, true, true), [Up], 0, 0, NEW_CHANNEL, [])

  const IDLE := Loop(Polling, [], [], [])

  lemma AcceptedConnection(rest: seq<Step>)
    ensures Exec(Start(1), [Poll(0, [])] + ([Accept(0)] + rest)) == Exec(Solo(IDLE.(phase := Handling), UP_CONN), rest)
  {
    var s1 := Server(map[], {}, 1, [IDLE.(phase := Handling)], false);
    assert Start(1).loops == [IDLE];
    assert Apply(Start(1), Poll(0, [])) == s1;
    assert [] + [Up] == [Up];
    assert Established(NewConn(0)) == UP_CONN;
    assert NewConnection(s1, 0) == Solo(IDLE.(phase := Handling), UP_CONN);
    assert Apply(s1, Accept(0)) == Solo(IDLE.(phase := Handling), UP_CONN);
    hide Apply;
    ExecFirst(Start(1), Poll(0, []), [Accept(0)] + rest);
    ExecFirst(s1, Accept(0), rest);
  }

  lemma NextRound(c: Conn, rest: seq<Step>)
    ensures Exec(Solo(IDLE.(phase := Handling), c), [SwapFunctors(0)] + ([FunctorsDone(0)] + rest)) ==
            Exec(Solo(IDLE, c), rest)
  {
    var s, s1 := Solo(IDLE.(phase := Handling), c), Solo(IDLE.(phase := Calling), c);
    assert Apply(s, SwapFunctors(0)) == s1;
    assert Apply(s1, FunctorsDone(0)) == Solo(IDLE, c);
    hide Apply, Solo;
    ExecFirst(s, SwapFunctors(0), [FunctorsDone(0)] + rest);
    ExecFirst(s1, FunctorsDone(0), rest);
  }

  const HANGUP := Revents(false, false, false, true, false, false, false)
  const HANGUP_AND_SHUTDOWN := HANGUP.(rdhup := true)

  /** A connection is accepted and then reported with a hang-up and a peer shutdown; n is what the read returns. */
  function HangupRun(n: int): seq<Step> {
    [Poll(0, [])] + ([Accept(0)] + ([SwapFunctors(0)] + ([FunctorsDone(0)] +
    ([Poll(0, [Ready(1, HANGUP_AND_SHUTDOWN)])] + ([Dispatch(0, n)] + [])))))
  }

  lemma AfterHangup(n: int)
    ensures var s := Solo(IDLE.(phase := Handling, active := [Ready(1, HANGUP_AND_SHUTDOWN)]), UP_CONN);
            Exec(Start(1), HangupRun(n)) == Apply(s, Dispatch(0, n))
  {
    var report := Poll(0, [Ready(1, HANGUP_AND_SHUTDOWN)]);
    var s := Solo(IDLE.(phase := Handling, active := [Ready(1, HANGUP_AND_SHUTDOWN)]), UP_CONN);
    assert Apply(Solo(IDLE, UP_CONN), report) == s;
    hide Apply, Solo;
    var last := [Dispatch(0, n)] + [];
    AcceptedConnection([SwapFunctors(0)] + ([FunctorsDone(0)] + ([report] + last)));
    NextRound(UP_CONN, [report] + last);
    ExecFirst(Solo(IDLE, UP_CONN), report, last);
    ExecFirst(s, Dispatch(0, n), []);
  }

  lemma ClosedOnce(loop: Loop)
    ensures var s := HandleClose(Solo(loop, UP_CONN), 1);
            s == Solo(loop.(queue := loop.queue + [Destroy(1)]),
              UP_CONN.(state := Disconnected, log := [Up, Down, Erased],
                      channel := Channel(false, false, false, true), atClose := UP_CONN.channel))
  {
    assert [Up] + [Down] == [Up, Down] && [Up, Down] + [Erased] == [Up, Down, Erased];
    var c := UP_CONN.(state := Disconnected, log := [Up, Down], channel := Channel(false, false, false, true),
      atClose := UP_CONN.channel);
    assert Closed(UP_CONN) == c;
    var s1 := Changed(Solo(loop, UP_CONN), 1, c);
    assert s1.names - {1} == {};
    assert RemoveConnectionInLoop(s1, 1) == HandleClose(Solo(loop, UP_CONN), 1);
  }

  /** The hang-up that closes a connection twice. */
  lemma ClosedTwice()
    ensures Exec(Start(1), HangupRun(0)).failed
  {
    AfterHangup(0);
    hide Exec, HangupRun;
    var loop := IDLE.(phase := Handling, active := [Ready(1, HANGUP_AND_SHUTDOWN)]);
    ClosedOnce(loop.(active := loop.active[1..]));
    assert Taken(Solo(loop, UP_CONN), 0) == Solo(loop.(active := loop.active[1..]), UP_CONN);
    hide HandleClose;
    assert HandleEvent(Solo(loop.(active := loop.active[1..]), UP_CONN), 1, HANGUP_AND_SHUTDOWN, 0).failed by {
      ClosedFails(HandleClose(Solo(loop.(active := loop.active[1..]), UP_CONN), 1));
    }
  }

  lemma ClosedFails(s: Server)
    requires Known(s, 1) && s.conns[1].state == Disconnected
    ensures HandleClose(s, 1) == Fail(s)
  {
  }

  /** And with something left to read, a message comes after the down callback. */
  lemma MessageAfterDown()
    ensures var s := Exec(Start(1), HangupRun(5)); 1 in s.conns && s.conns[1].late == 1
  {
    AfterHangup(5);
    hide Exec, HangupRun;
    var loop := IDLE.(phase := Handling, active := [Ready(1, HANGUP_AND_SHUTDOWN)]);
    ClosedOnce(loop.(active := loop.active[1..]));
    assert Taken(Solo(loop, UP_CONN), 0) == Solo(loop.(active := loop.active[1..]), UP_CONN);
    hide HandleClose;
  }

  // startRead is posted, a hang-up closes the connection first, and then the functor switches reading on.

  const CLOSED_CONN :=
    UP_CONN.(state := Disconnected, log := [Up, Down, Erased], channel := Channel(false, false, false, true),
      atClose := UP_CONN.channel)

  const RESTARTED_CONN := CLOSED_CONN.(channel := Channel(true, false, true, true), after := [true])

  function LateStartRun(): seq<Step> {
    [Poll(0, [])] + ([Accept(0)] + ([SwapFunctors(0)] + ([FunctorsDone(0)] + ([PostRead(1, true)] +
    ([Poll(0, [Ready(1, HANGUP)])] +
      ([Dispatch(0, 0)] + ([SwapFunctors(0)] + ([RunFunctor(0)] + ([RunFunctor(0)] + [])))))))))
  }

  lemma LateStartClosed(rest: seq<Step>)
    ensures Exec(Solo(IDLE, UP_CONN), [PostRead(1, true)] + ([Poll(0, [Ready(1, HANGUP)])] + ([Dispatch(0, 0)] + rest)))
         == Exec(Solo(Loop(Handling, [], [], [SwitchRead(1, true), Destroy(1)]), CLOSED_CONN), rest)
  {
    var f := SwitchRead(1, true);
    var s1 := Solo(IDLE.(queue := [f]), UP_CONN);
    assert [] + [f] == [f];
    assert Apply(Solo(IDLE, UP_CONN), PostRead(1, true)) == s1;
    var s2 := Solo(Loop(Handling, [Ready(1, HANGUP)], [], [f]), UP_CONN);
    assert Apply(s1, Poll(0, [Ready(1, HANGUP)])) == s2;
    var s3 := Solo(Loop(Handling, [], [], [f, Destroy(1)]), CLOSED_CONN);
    HangupCloses(Loop(Handling, [Ready(1, HANGUP)], [], [f]));
    assert [f] + [Destroy(1)] == [f, Destroy(1)];
    hide Apply, Solo;
    ExecFirst(Solo(IDLE, UP_CONN), PostRead(1, true), [Poll(0, [Ready(1, HANGUP)])] + ([Dispatch(0, 0)] + rest));
    ExecFirst(s1, Poll(0, [Ready(1, HANGUP)]), [Dispatch(0, 0)] + rest);
    ExecFirst(s2, Dispatch(0, 0), rest);
  }

  lemma HangupCloses(loop: Loop)
    requires loop.phase == Handling && loop.active == [Ready(1, HANGUP)]
    ensures Apply(Solo(loop, UP_CONN), Dispatch(0, 0)) ==
            Solo(loop.(active := [], queue := loop.queue + [Destroy(1)]), CLOSED_CONN)
  {
    ClosedOnce(loop.(active := []));
    assert loop.active[1..] == [];
    assert Taken(Solo(loop, UP_CONN), 0) == Solo(loop.(active := []), UP_CONN);
    hide HandleClose;
  }

  /** Destroying the connection then fails the assertion that its channel asks for nothing. */
  lemma DestroyedWhileReading()
    ensures Exec(Start(1), LateStartRun()).failed
  {
    hide Exec, Solo;
    var run := [SwapFunctors(0)] + ([RunFunctor(0)] + ([RunFunctor(0)] + []));
    var late := [PostRead(1, true)] + ([Poll(0, [Ready(1, HANGUP)])] + ([Dispatch(0, 0)] + run));
    AcceptedConnection([SwapFunctors(0)] + ([FunctorsDone(0)] + late));
    NextRound(UP_CONN, late);
    LateStartClosed(run);
    LateStartDestroyed();
  }

  lemma LateStartDestroyed()
    ensures Exec(Solo(Loop(Handling, [], [], [SwitchRead(1, true), Destroy(1)]), CLOSED_CONN),
                 [SwapFunctors(0)] + ([RunFunctor(0)] + ([RunFunctor(0)] + []))).failed
  {
    var f := SwitchRead(1, true);
    var last := [RunFunctor(0)] + [];
    var s3 := Solo(Loop(Handling, [], [], [f, Destroy(1)]), CLOSED_CONN);
    var s4 := Solo(Loop(Calling, [], [f, Destroy(1)], []), CLOSED_CONN);
    assert Apply(s3, SwapFunctors(0)) == s4;
    var s5 := Solo(Loop(Calling, [], [Destroy(1)], []), RESTARTED_CONN);
    LateStartRuns(s4, s5);
    DestroyFails(s5);
    hide Apply, Solo;
    ExecFirst(s3, SwapFunctors(0), [RunFunctor(0)] + last);
    ExecFirst(s4, RunFunctor(0), last);
    ExecFirst(s5, RunFunctor(0), []);
  }

  lemma DestroyFails(s: Server)
    requires s == Solo(Loop(Calling, [], [Destroy(1)], []), RESTARTED_CONN)
    ensures Apply(s, RunFunctor(0)).failed
  {
  }

  lemma LateStartRuns(s4: Server, s5: Server)
    requires s4 == Solo(Loop(Calling, [], [SwitchRead(1, true), Destroy(1)], []), CLOSED_CONN)
    requires s5 == Solo(Loop(Calling, [], [Destroy(1)], []), RESTARTED_CONN)
    ensures Apply(s4, RunFunctor(0)) == s5
  {
    assert [SwitchRead(1, true), Destroy(1)][1..] == [Destroy(1)] && [] + [true] == [true];
    assert SwitchReading(CLOSED_CONN, true) == RESTARTED_CONN;
    assert Popped(s4, 0) == Solo(Loop(Calling, [], [Destroy(1)], []), CLOSED_CONN);
    assert Run(Popped(s4, 0), SwitchRead(1, true)) == s5;
  }

  // Reading is switched off, the connection is closed by force, and the kernel then reports a hang-up of the peer.

  const PAUSED_CONN := UP_CONN.(reading := false, channel := Channel(false, false, false, true))

  const REARMED_CONN :=
    PAUSED_CONN.(state := Disconnected, log := [Up, Down, Erased], channel := Channel(false, false, true, true),
                 atClose := PAUSED_CONN.channel)

  function PausedCloseRun(): seq<Step> {
    [Poll(0, [])] + ([Accept(0)] +
      ([CallRead(1, false)] + ([CallForceClose(1)] + ([SwapFunctors(0)] + ([RunFunctor(0)] +
    ([FunctorsDone(0)] + ([Poll(0, [Ready(1, HANGUP)])] + ([Dispatch(0, 0)] + []))))))))
  }

  lemma PausedThenClosed(rest: seq<Step>)
    ensures Exec(Solo(IDLE.(phase := Handling), UP_CONN),
                 [CallRead(1, false)] + ([CallForceClose(1)] + ([SwapFunctors(0)] + ([RunFunctor(0)] + rest))))
         == Exec(Solo(Loop(Calling, [], [], [Destroy(1)]), REARMED_CONN), rest)
  {
    var s0 := Solo(IDLE.(phase := Handling), UP_CONN);
    var s1 := Solo(IDLE.(phase := Handling), PAUSED_CONN);
    assert SwitchReading(UP_CONN, false) == PAUSED_CONN;
    assert Apply(s0, CallRead(1, false)) == s1;
    var d := PAUSED_CONN.(state := Disconnecting);
    var s2 := Solo(Loop(Handling, [], [], [ForceClose(1)]), d);
    assert [] + [ForceClose(1)] == [ForceClose(1)];
    assert Apply(s1, CallForceClose(1)) == s2;
    var s3 := Solo(Loop(Calling, [], [ForceClose(1)], []), d);
    assert Apply(s2, SwapFunctors(0)) == s3;
    ForcedClose(s3, d);
    hide Apply, Solo;
    ExecFirst(s0, CallRead(1, false), [CallForceClose(1)] + ([SwapFunctors(0)] + ([RunFunctor(0)] + rest)));
    ExecFirst(s1, CallForceClose(1), [SwapFunctors(0)] + ([RunFunctor(0)] + rest));
    ExecFirst(s2, SwapFunctors(0), [RunFunctor(0)] + rest);
    ExecFirst(s3, RunFunctor(0), rest);
  }

  lemma ForcedClose(s: Server, d: Conn)
    requires d == PAUSED_CONN.(state := Disconnecting) && s == Solo(Loop(Calling, [], [ForceClose(1)], []), d)
    ensures Apply(s, RunFunctor(0)) == Solo(Loop(Calling, [], [], [Destroy(1)]), REARMED_CONN)
  {
    assert [ForceClose(1)][1..] == [] && [] + [Destroy(1)] == [Destroy(1)];
    assert [Up] + [Down] == [Up, Down] && [Up, Down] + [Erased] == [Up, Down, Erased];
    var s1 := Solo(Loop(Calling, [], [], []), d);
    assert Popped(s, 0) == s1;
    assert Closed(d) == REARMED_CONN.(log := [Up, Down]);
    var s2 := Changed(s1, 1, REARMED_CONN.(log := [Up, Down]));
    assert s2.names - {1} == {};
    assert RemoveConnectionInLoop(s2, 1) == Solo(Loop(Calling, [], [], [Destroy(1)]), REARMED_CONN);
    assert HandleClose(s1, 1) == RemoveConnectionInLoop(s2, 1);
  }

  /** Handling it fails the assertion that the connection is up. */
  lemma HangupAfterClose()
    ensures Exec(Start(1), PausedCloseRun()).failed
  {
    var report := Poll(0, [Ready(1, HANGUP)]);
    var last := [Dispatch(0, 0)] + [];
    var run := [FunctorsDone(0)] + ([report] + last);
    AcceptedConnection([CallRead(1, false)] + ([CallForceClose(1)] + ([SwapFunctors(0)] + ([RunFunctor(0)] + run))));
    PausedThenClosed(run);
    var s4 := Solo(Loop(Calling, [], [], [Destroy(1)]), REARMED_CONN);
    var s5 := Solo(Loop(Polling, [], [], [Destroy(1)]), REARMED_CONN);
    assert Apply(s4, FunctorsDone(0)) == s5;
    var s6 := Solo(Loop(Handling, [Ready(1, HANGUP)], [], [Destroy(1)]), REARMED_CONN);
    assert Apply(s5, report) == s6;
    ClosedFails(Taken(s6, 0));
    assert Apply(s6, Dispatch(0, 0)).failed;
    hide Apply, Solo;
    ExecFirst(s4, FunctorsDone(0), [report] + last);
    ExecFirst(s5, report, last);
    ExecFirst(s6, Dispatch(0, 0), []);
  }
}
