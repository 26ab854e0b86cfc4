/** What each step of a server does to a connection, to the queues of functors and to the channels, exactly. The events
    of a report are spelt out, and nothing is said in terms of the handlers. */
module TcpServerEffects {

  import opened Common
  import opened ConnStates
  import opened TcpServers
  import opened TcpServerInvariant

  /** The events that call the close callback, and those that call the read callback. */
  predicate HangsUp(ev: Revents) {
    ev.hup && !ev.pollin
  }

  predicate HasInput(ev: Revents) {
    ev.pollin || ev.pri || ev.rdhup
  }

  /** The step is taken, and no assertion stops it. */
  predicate Happens(s: Server, step: Step) {
    !s.failed && Enabled(s, step) && !Trouble(s, step)
  }

  /** The report that the step handles, if it is one of this connection. */
  function Report(s: Server, step: Step, id: ConnId): Option<Revents> {
    if Happens(s, step) && step.Dispatch? && s.loops[step.l].active[0].id == id
    then Some(s.loops[step.l].active[0].ev) else None
  }

  /** The functor that the step runs, if it is one of this connection. */
  function Task(s: Server, step: Step, id: ConnId): Option<Functor> {
    if Happens(s, step) && step.RunFunctor? && s.loops[step.l].batch[0].id == id
    then Some(s.loops[step.l].batch[0]) else None
  }

  /** A connection that is up goes down on a hang-up without input, on the end of input, and when a forced close
      runs; nothing else takes it down. */
  predicate GoesDown(s: Server, step: Step, id: ConnId)
    requires id in s.conns
  {
    s.conns[id].log == [Up] &&
    match (Report(s, step, id), Task(s, step, id))
    case (Some(ev), _) => HangsUp(ev) || (HasInput(ev) && step.n == 0)
    case (_, Some(f)) => f.ForceClose?
    case _ => false
  }

  /** The milestones that the step adds. */
  function Gains(s: Server, step: Step, id: ConnId): seq<Milestone>
    requires id in s.conns
  {
    if GoesDown(s, step, id) then if s.conns[id].loop == 0 then [Down, Erased] else [Down]
    else
      match Task(s, step, id)
      case Some(Establish(_)) => [Up]
      case Some(Remove(_)) => [Erased]
      case Some(Destroy(_)) => [Destroyed]
      case _ => []
  }

  /** A message is handed to the user while the connection is up. */
  predicate Delivers(s: Server, step: Step, id: ConnId)
    requires id in s.conns
  {
    match Report(s, step, id)
    case Some(ev) => s.conns[id].log == [Up] && HasInput(ev) && !HangsUp(ev) && step.n > 0
    case None => false
  }

  /** A message is handed to the user when the connection is down already, or goes down before the read. */
  predicate DeliversAfter(s: Server, step: Step, id: ConnId)
    requires id in s.conns
  {
    match Report(s, step, id)
    case Some(ev) => HasInput(ev) && step.n > 0 && (|s.conns[id].log| >= 2 || HangsUp(ev))
    case None => false
  }

  /** What startRead or stopRead asks for, if the step carries one of them out. */
  function Switch(s: Server, step: Step, id: ConnId): Option<bool> {
    if Happens(s, step) && step.CallRead? && step.id == id then Some(step.on)
    else
      match Task(s, step, id)
      case Some(SwitchRead(_, on)) => Some(on)
      case _ => None
  }

  predicate BeginsToClose(s: Server, step: Step, id: ConnId) {
    Happens(s, step) && (step == CallForceClose(id) || (step.CallShutdown? && step.id == id))
  }

  predicate SwitchesWriting(s: Server, step: Step, id: ConnId) {
    Happens(s, step) && step.WriteInterest? && step.id == id
  }

  function AddIf(n: nat, b: bool): nat {
    if b then n + 1 else n
  }

  /** The fields of a connection after the step. */
  predicate Becomes(s: Server, step: Step, id: ConnId, d: Conn)
    requires id in s.conns
  {
    var c, gains := s.conns[id], Gains(s, step, id);
    var gone := Down in gains || Destroyed in gains;
    && d.loop == c.loop
    && d.log == c.log + gains
    && d.delivered == AddIf(c.delivered, Delivers(s, step, id))
    && d.late == AddIf(c.late, DeliversAfter(s, step, id))
    && d.reading == Switch(s, step, id).UnwrapOr(c.reading)
    && d.channel.wantsRead == Switch(s, step, id).UnwrapOr(Up in gains || (c.channel.wantsRead && !gone))
    && d.channel.wantsWrite ==
      (if SwitchesWriting(s, step, id) then step.on else c.channel.wantsWrite && !gone)
    && (d.state == Connected <==>
        Up in gains || (c.state == Connected && !(Down in gains) && !BeginsToClose(s, step, id)))
  }

  /** The fields that closing sets, and those it leaves. */
  predicate IsClosed(c: Conn, d: Conn) {
    && d.loop == c.loop && d.state == Disconnected && d.reading == c.reading
    && d.log == c.log + (if c.loop == 0 then [Down, Erased] else [Down])
    && !d.channel.wantsRead && !d.channel.wantsWrite
    && d.delivered == c.delivered && d.late == c.late
  }

  lemma CloseTakesDown(s: Server, id: ConnId)
    requires Known(s, id) && !HandleClose(s, id).failed && !s.failed
    ensures var s' := HandleClose(s, id);
            id in s'.conns && IsClosed(s.conns[id], s'.conns[id]) && s'.conns == s.conns[id := s'.conns[id]]
  {
    var c := s.conns[id];
    assert Closed(c).log + [Erased] == c.log + [Down, Erased];
  }

  predicate EndsIt(c: Conn, ev: Revents, n: int) {
    c.log == [Up] && (HangsUp(ev) || (HasInput(ev) && n == 0))
  }

  /** The fields of a connection after its events were handled. */
  predicate Handled(c: Conn, ev: Revents, n: int, d: Conn) {
    && d.loop == c.loop && d.reading == c.reading
    && d.delivered == AddIf(c.delivered, c.log == [Up] && HasInput(ev) && !HangsUp(ev) && n > 0)
    && d.late == AddIf(c.late, HasInput(ev) && n > 0 && (|c.log| >= 2 || HangsUp(ev)))
    && if EndsIt(c, ev, n)
    then
      && d.log == c.log + (if c.loop == 0 then [Down, Erased] else [Down])
      && d.state == Disconnected && !d.channel.wantsRead && !d.channel.wantsWrite
    else d.log == c.log && d.state == c.state && d.channel == c.channel
  }

  lemma EventsExactly(s: Server, id: ConnId, ev: Revents, n: int)
    requires Inv(s) && !s.failed && Known(s, id) && |s.conns[id].log| >= 1 && !DispatchFails(s.conns[id], ev, n)
    ensures var s' := HandleEvent(s, id, ev, n);
            id in s'.conns && Handled(s.conns[id], ev, n, s'.conns[id]) && s'.conns == s.conns[id := s'.conns[id]]
  {
    UpExactly(s, id);
    CloseFailsExactly(s, id);
    hide Inv, HandleClose;
    if !HandleClose(s, id).failed {
      CloseTakesDown(s, id);
    }
  }

  lemma HandledBecomes(s: Server, step: Step, id: ConnId, d: Conn)
    requires Report(s, step, id).Some? && id in s.conns && Handled(s.conns[id], Report(s, step, id).value, step.n, d)
    ensures Becomes(s, step, id, d)
  {
    assert Task(s, step, id).None?;
    hide Happens;
    assert s.conns[id].log + [] == s.conns[id].log;
  }

  /** The connection whose report is handled. */
  lemma DispatchExactly(s: Server, step: Step, id: ConnId)
    requires Inv(s) && Report(s, step, id).Some?
    ensures id in s.conns && id in Apply(s, step).conns && Becomes(s, step, id, Apply(s, step).conns[id])
  {
    var t, e := Taken(s, step.l), s.loops[step.l].active[0];
    TakenInv(s, step.l);
    FailsExactly(s, step);
    hide Inv, HandleEvent, DispatchFails;
    EventsExactly(t, id, e.ev, step.n);
    assert Apply(s, step) == HandleEvent(t, id, e.ev, step.n);
    hide Apply, Happens, Handled, Becomes;
    HandledBecomes(s, step, id, Apply(s, step).conns[id]);
  }

  /** How far the connection has come whose functor is next. */
  lemma HeadStage(s: Server, l: LoopId)
    requires Inv(s) && Enabled(s, RunFunctor(l))
    ensures var f := s.loops[l].batch[0];
            var c := s.conns[f.id];
            && (f.Establish? ==> |c.log| == 0) && (f.Remove? ==> |c.log| == 2)
            && (f.Destroy? ==> |c.log| == 3 && c.state == Disconnected)
            && (|c.log| == 1 <==> IsUp(c)) && (|c.log| == 1 ==> c.log == [Up])
  {
    var f := s.loops[l].batch[0];
    UpExactly(s, f.id);
    assert LoopOk(l, s.loops[l], s.conns);
    HeadIsExpected(l, s.loops[l], s.conns);
    hide Inv, LoopOk;
  }

  /** The fields of a connection after one of its functors ran. */
  predicate Ran(c: Conn, f: Functor, d: Conn) {
    && d.loop == c.loop && d.delivered == c.delivered && d.late == c.late
    && d.reading == (if f.SwitchRead? then f.on else c.reading)
    && match f
    case Establish(_) =>
      && d.log == c.log + [Up] && d.state == Connected
      && d.channel.wantsRead && d.channel.wantsWrite == c.channel.wantsWrite
    case Remove(_) => d.log == c.log + [Erased] && d.state == c.state && d.channel == c.channel
    case Destroy(_) =>
      d.log == c.log + [Destroyed] && d.state == c.state && !d.channel.wantsRead && !d.channel.wantsWrite
    case ForceClose(_) => if c.log == [Up] then IsClosed(c, d) else d == c
    case Raw(_) => d == c
    case SwitchRead(_, on) =>
      d.log == c.log && d.state == c.state && d.channel.wantsRead == on && d.channel.wantsWrite == c.channel.wantsWrite
  }

  lemma RunExactly(s: Server, l: LoopId)
    requires Inv(s) && !s.failed && Enabled(s, RunFunctor(l)) && !Trouble(s, RunFunctor(l))
    ensures var f := s.loops[l].batch[0];
            var s' := Run(Popped(s, l), f);
            f.id in s'.conns && Ran(s.conns[f.id], f, s'.conns[f.id]) && s'.conns == s.conns[f.id := s'.conns[f.id]]
  {
    var f := s.loops[l].batch[0];
    HeadStage(s, l);
    RunInv(s, l);
    hide Inv, HandleClose;
    if f.ForceClose? && IsUp(s.conns[f.id]) {
      CloseTakesDown(Popped(s, l), f.id);
    }
  }

  lemma RanBecomes(s: Server, step: Step, id: ConnId, d: Conn)
    requires Task(s, step, id).Some? && id in s.conns && Ran(s.conns[id], Task(s, step, id).value, d)
    requires s.conns[id].log == [Up] ==> IsUp(s.conns[id])
    ensures Becomes(s, step, id, d)
  {
    assert Report(s, step, id).None?;
    hide Happens;
    assert s.conns[id].log + [] == s.conns[id].log;
  }

  /** The connection whose functor runs. */
  lemma TaskExactly(s: Server, step: Step, id: ConnId)
    requires Inv(s) && Task(s, step, id).Some?
    ensures id in s.conns && id in Apply(s, step).conns && Becomes(s, step, id, Apply(s, step).conns[id])
  {
    FailsExactly(s, step);
    HeadStage(s, step.l);
    RunExactly(s, step.l);
    hide Inv, Run;
    assert Apply(s, step) == Run(Popped(s, step.l), s.loops[step.l].batch[0]);
    hide Apply, Happens, Ran, Becomes;
    RanBecomes(s, step, id, Apply(s, step).conns[id]);
  }

  /** A call about the connection itself. */
  predicate Concerns(step: Step, id: ConnId) {
    match step
    case CallForceClose(x) => x == id
    case CallShutdown(x, _) => x == id
    case CallRead(x, _) => x == id
    case WriteInterest(x, _) => x == id
    case _ => false
  }

  lemma CallExactly(s: Server, step: Step, id: ConnId)
    requires Inv(s) && Happens(s, step) && Concerns(step, id)
    ensures id in Apply(s, step).conns && Becomes(s, step, id, Apply(s, step).conns[id])
  {
    FailsExactly(s, step);
    hide Inv, Update;
    assert s.conns[id].log + [] == s.conns[id].log;
  }

  /** The connections that the step does not handle stay as they are. */
  lemma Untouched(s: Server, step: Step, id: ConnId)
    requires Inv(s) && id in s.conns && Report(s, step, id).None? && Task(s, step, id).None?
    requires Happens(s, step) ==> !Concerns(step, id)
    ensures id in Apply(s, step).conns && Apply(s, step).conns[id] == s.conns[id]
  {
    assert id < s.nextId;
    hide Update, LoopOk, Coherent;
    if Happens(s, step) {
      match step
      case Dispatch(l, n) =>
        TakenInv(s, l);
        hide Inv, HandleEvent;
        EventsExactly(Taken(s, l), s.loops[l].active[0].id, s.loops[l].active[0].ev, n);
      case RunFunctor(l) =>
        hide Inv, Run;
        RunExactly(s, l);
      case _ =>
    } else if !s.failed {
      FailsExactly(s, step);
      hide Inv, Act;
    }
  }

  lemma NothingHappens(s: Server, step: Step, id: ConnId)
    requires id in s.conns && Report(s, step, id).None? && Task(s, step, id).None?
    requires Happens(s, step) ==> !Concerns(step, id)
    ensures Becomes(s, step, id, s.conns[id])
  {
    hide Trouble, Enabled;
    assert s.conns[id].log + [] == s.conns[id].log;
  }

  /** What any step does to any connection, in every state that a run can reach. */
  lemma ConnectionExactly(s: Server, step: Step, id: ConnId)
    requires Inv(s) && id in s.conns
    ensures id in Apply(s, step).conns && Becomes(s, step, id, Apply(s, step).conns[id])
  {
    hide Inv, Apply, Becomes;
    if Report(s, step, id).Some? {
      DispatchExactly(s, step, id);
    } else if Task(s, step, id).Some? {
      TaskExactly(s, step, id);
    } else if Happens(s, step) && Concerns(step, id) {
      CallExactly(s, step, id);
    } else {
      Untouched(s, step, id);
      NothingHappens(s, step, id);
    }
  }

  /** A connection goes down in exactly the steps that say so. In particular, when its report is handled without
      failing, it goes down if and only if it was up and the report is a hang-up without input, or input, priority data
      or a peer shutdown of which the read returns nothing. */
  lemma DownExactly(s: Server, step: Step, id: ConnId)
    requires Inv(s) && id in s.conns
    ensures id in Apply(s, step).conns
    ensures Down !in s.conns[id].log && Down in Apply(s, step).conns[id].log <==> GoesDown(s, step, id)
    ensures match Report(s, step, id)
            case Some(ev) =>
              GoesDown(s, step, id) <==>
              s.conns[id].log == [Up] &&
              ((ev.hup && !ev.pollin) || ((ev.pollin || ev.pri || ev.rdhup) && step.n == 0))
            case None => GoesDown(s, step, id) <==> s.conns[id].log == [Up] && Task(s, step, id) == Some(ForceClose(id))
  {
    ConnectionExactly(s, step, id);
    hide Inv, Apply, Happens;
  }

  // ----- New connections -----

  /** A new connection gets the next number, its name is entered, and it is up at once exactly if it belongs to the
      base loop; no other step makes a connection. */
  lemma AcceptExactly(s: Server, step: Step, id: ConnId)
    requires Inv(s) && id !in s.conns
    ensures var s' := Apply(s, step);
            && (id in s'.conns <==> Happens(s, step) && step.Accept? && id == s.nextId)
            && (id in s'.conns ==>
                  var c := s'.conns[id];
                  && id in s'.names && c.loop == step.io && c.log == (if step.io == 0 then [Up] else [])
                  && c.delivered == 0 && c.late == 0 && c.reading && c.channel.wantsRead == (step.io == 0))
  {
    hide LoopOk, Coherent;
    if Happens(s, step) {
      FailsExactly(s, step);
      match step
      case Dispatch(l, n) =>
        TakenInv(s, l);
        hide Inv, HandleEvent;
        EventsExactly(Taken(s, l), s.loops[l].active[0].id, s.loops[l].active[0].ev, n);
      case RunFunctor(l) =>
        hide Inv, Run;
        RunExactly(s, l);
      case _ =>
    } else if !s.failed {
      FailsExactly(s, step);
      hide Inv, Act;
    }
  }

  // ----- The queues -----

  /** What closing leaves for loop l: removal in the base loop, or destruction if the connection belongs to it. */
  function AfterClose(c: Conn, id: ConnId, l: LoopId): seq<Functor> {
    if l != 0 then [] else if c.loop == 0 then [Destroy(id)] else [Remove(id)]
  }

  /** The functors that a step puts into the queue of loop l. */
  function Posted(s: Server, step: Step, l: LoopId): seq<Functor> {
    if !Happens(s, step) then []
    else
      match step
      case Accept(io) => if io != 0 && l == io then [Establish(s.nextId)] else []
      case Dispatch(k, _) =>
        var id := s.loops[k].active[0].id;
        if GoesDown(s, step, id) then AfterClose(s.conns[id], id, l) else []
      case RunFunctor(k) =>
        var id := s.loops[k].batch[0].id;
        if s.loops[k].batch[0].Remove? && l == s.conns[id].loop then [Destroy(id)]
        else if GoesDown(s, step, id) then AfterClose(s.conns[id], id, l)
        else []
      case CallForceClose(id) => if l == s.conns[id].loop then [ForceClose(id)] else []
      case CallShutdown(id, posted) => if posted && l == s.conns[id].loop then [Raw(id)] else []
      case CallSend(id) => if l == s.conns[id].loop then [Raw(id)] else []
      case PostRead(id, on) => if l == s.conns[id].loop then [SwitchRead(id, on)] else []
      case _ => []
  }

  /** A loop with more functors in its queue. */
  function Posting(loop: Loop, more: seq<Functor>): Loop {
    loop.(queue := loop.queue + more)
  }

  /** How the loop itself goes on: it takes the reports of the poller, handles them one by one, takes the whole queue,
      runs the functors one by one, and polls again. */
  function Advanced(s: Server, step: Step, l: LoopId): Loop
    requires l < |s.loops|
  {
    var loop := s.loops[l];
    if !Happens(s, step) then loop
    else
      match step
      case Poll(k, ready) => if k == l then loop.(phase := Handling, active := ready) else loop
      case Dispatch(k, _) => if k == l then loop.(active := loop.active[1..]) else loop
      case SwapFunctors(k) => if k == l then loop.(phase := Calling, batch := loop.queue, queue := []) else loop
      case RunFunctor(k) => if k == l then loop.(batch := loop.batch[1..]) else loop
      case FunctorsDone(k) => if k == l then loop.(phase := Polling) else loop
      case _ => loop
  }

  predicate LoopBecomes(s: Server, step: Step, l: LoopId, loop: Loop)
    requires l < |s.loops|
  {
    loop == Posting(Advanced(s, step, l), Posted(s, step, l))
  }

  lemma PushPosts(s: Server, k: LoopId, f: Functor, l: LoopId)
    requires k < |s.loops| && l < |s.loops|
    ensures Push(s, k, f).loops[l] == Posting(s.loops[l], if l == k then [f] else [])
  {
  }

  lemma ClosePosts(s: Server, id: ConnId, l: LoopId)
    requires Known(s, id) && l < |s.loops| && !HandleClose(s, id).failed && !s.failed
    ensures var s' := HandleClose(s, id);
            |s'.loops| == |s.loops| && s'.loops[l] == Posting(s.loops[l], AfterClose(s.conns[id], id, l))
  {
    var t := s.(conns := s.conns[id := Closed(s.conns[id])]);
    PushPosts(t, 0, Remove(id), l);
    hide Posting, Update;
    if s.conns[id].loop == 0 {
      var d := t.conns[id];
      PushPosts(t.(names := t.names - {id}, conns := t.conns[id := d.(log := d.log + [Erased])]), 0, Destroy(id), l);
    }
    hide Push;
  }

  lemma NothingPosted(loop: Loop)
    ensures Posting(loop, []) == loop
  {
    assert loop.queue + [] == loop.queue;
  }

  lemma EventsPost(s: Server, id: ConnId, ev: Revents, n: int, l: LoopId)
    requires Inv(s) && !s.failed && Known(s, id) && !DispatchFails(s.conns[id], ev, n)
    requires |s.conns[id].log| >= 1 && l < |s.loops|
    ensures var s' := HandleEvent(s, id, ev, n);
            var more := if EndsIt(s.conns[id], ev, n) then AfterClose(s.conns[id], id, l) else [];
            |s'.loops| == |s.loops| && s'.loops[l] == Posting(s.loops[l], more)
  {
    UpExactly(s, id);
    CloseFailsExactly(s, id);
    NothingPosted(s.loops[l]);
    hide Inv, HandleClose, Posting;
    if !HandleClose(s, id).failed {
      ClosePosts(s, id, l);
    }
  }

  lemma DispatchPosts(s: Server, step: Step, l: LoopId)
    requires Inv(s) && Happens(s, step) && step.Dispatch? && l < |s.loops|
    ensures var s' := Apply(s, step); |s'.loops| == |s.loops| && LoopBecomes(s, step, l, s'.loops[l])
  {
    var t, e := Taken(s, step.l), s.loops[step.l].active[0];
    TakenInv(s, step.l);
    FailsExactly(s, step);
    hide Inv, HandleEvent, DispatchFails, Posting;
    EventsPost(t, e.id, e.ev, step.n, l);
    assert Apply(s, step) == HandleEvent(t, e.id, e.ev, step.n);
    hide Apply, Trouble, EndsIt;
    assert GoesDown(s, step, e.id) <==> EndsIt(s.conns[e.id], e.ev, step.n);
    hide GoesDown;
  }

  lemma RunPosts(s: Server, step: Step, l: LoopId)
    requires Inv(s) && Happens(s, step) && step.RunFunctor? && l < |s.loops|
    ensures var s' := Apply(s, step); |s'.loops| == |s.loops| && LoopBecomes(s, step, l, s'.loops[l])
  {
    var t, f := Popped(s, step.l), s.loops[step.l].batch[0];
    FailsExactly(s, step);
    HeadStage(s, step.l);
    NothingPosted(t.loops[l]);
    hide Inv, HandleClose, Posting, Update;
    if f.ForceClose? && IsUp(s.conns[f.id]) {
      ClosePosts(t, f.id, l);
    } else if f.Remove? {
      var d := t.conns[f.id];
      PushPosts(t.(names := t.names - {f.id}, conns := t.conns[f.id := d.(log := d.log + [Erased])]), d.loop,
                Destroy(f.id), l);
      hide Push;
    }
  }

  lemma AcceptPosts(s: Server, io: LoopId, l: LoopId)
    requires Inv(s) && Happens(s, Accept(io)) && l < |s.loops|
    ensures var s' := Apply(s, Accept(io)); |s'.loops| == |s.loops| && LoopBecomes(s, Accept(io), l, s'.loops[l])
  {
    var id := s.nextId;
    FailsExactly(s, Accept(io));
    NothingPosted(s.loops[l]);
    PushPosts(s.(nextId := id + 1, names := s.names + {id}, conns := s.conns[id := NewConn(io)]), io, Establish(id), l);
    hide Inv, Posting, Update;
  }

  /** Steps of the loop itself and calls. */
  lemma CallPosts(s: Server, step: Step, l: LoopId)
    requires Inv(s) && Happens(s, step) && !step.Dispatch? && !step.RunFunctor? && !step.Accept? && l < |s.loops|
    ensures var s' := Apply(s, step); |s'.loops| == |s.loops| && LoopBecomes(s, step, l, s'.loops[l])
  {
    NothingPosted(Advanced(s, step, l));
    hide Inv, Posting, SwitchReading, SwitchWriting, Trouble;
    match step
    case CallForceClose(id) => PushPosts(Disconnect(s, id), s.conns[id].loop, ForceClose(id), l);
    case CallShutdown(id, _) => PushPosts(Disconnect(s, id), s.conns[id].loop, Raw(id), l);
    case CallSend(id) => PushPosts(s, s.conns[id].loop, Raw(id), l);
    case PostRead(id, on) => PushPosts(s, s.conns[id].loop, SwitchRead(id, on), l);
    case _ =>
  }

  /** What any step does to any loop: the loop goes on by its own step only, and what is posted to it goes to the end of
      its queue. */
  lemma LoopExactly(s: Server, step: Step, l: LoopId)
    requires Inv(s) && l < |s.loops|
    ensures var s' := Apply(s, step); |s'.loops| == |s.loops| && LoopBecomes(s, step, l, s'.loops[l])
  {
    if Happens(s, step) {
      hide Inv, Apply, LoopBecomes;
      match step
      case Dispatch(_, _) => DispatchPosts(s, step, l);
      case RunFunctor(_) => RunPosts(s, step, l);
      case Accept(io) => AcceptPosts(s, io, l);
      case _ => CallPosts(s, step, l);
    } else {
      NothingPosted(s.loops[l]);
      if !s.failed {
        FailsExactly(s, step);
        hide Inv, Act;
      }
    }
  }

  lemma TodoPosting(loop: Loop, more: seq<Functor>)
    ensures Todo(Posting(loop, more)) == Todo(loop) + more
  {
    assert loop.batch + (loop.queue + more) == loop.batch + loop.queue + more;
  }

  lemma EmptyBatch(s: Server, l: LoopId)
    requires Inv(s) && l < |s.loops| && s.loops[l].phase != Calling
    ensures s.loops[l].batch == []
  {
    hide AllCoherent, TokensAt, LooseAt;
    assert LoopOk(l, s.loops[l], s.conns);
  }

  lemma AdvancedTodo(s: Server, step: Step, l: LoopId)
    requires Inv(s) && l < |s.loops|
    ensures Todo(Advanced(s, step, l)) ==
            if Happens(s, step) && step == RunFunctor(l) then Todo(s.loops[l])[1..] else Todo(s.loops[l])
  {
    if s.loops[l].phase != Calling {
      EmptyBatch(s, l);
    }
    hide Inv, Trouble;
  }

  /** So the functors of a loop run in the order in which they were posted, and none is lost or invented. */
  lemma FirstInFirstOut(s: Server, step: Step, l: LoopId)
    requires Inv(s) && l < |s.loops|
    ensures var s' := Apply(s, step);
            var left := if Happens(s, step) && step == RunFunctor(l) then Todo(s.loops[l])[1..] else Todo(s.loops[l]);
            l < |s'.loops| && Todo(s'.loops[l]) == left + Posted(s, step, l)
  {
    LoopExactly(s, step, l);
    AdvancedTodo(s, step, l);
    TodoPosting(Advanced(s, step, l), Posted(s, step, l));
    hide Inv, Apply, Posted, Advanced, Happens, Todo, Posting;
  }
}
