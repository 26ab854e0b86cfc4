/** The life of connections across event loops (muduo/net/TcpServer.cc, muduo/net/TcpConnection.cc,
    muduo/net/Channel.cc, muduo/net/EventLoop.cc). The base loop, number 0, accepts connections and keeps their names;
    each connection belongs to an I/O loop, possibly the base loop, that handles its events. Creation, establishment,
    close, erasure and destruction hop between the loops through one queue of functors per loop.

    A step is one event handler, one functor or one call from any thread: what different loops do interleaves in every
    order. An action that fails an assertion of the source sets `failed`. */
module TcpServers {

  import opened ConnStates

  type ConnId = nat
  type LoopId = nat

  /** What the user, the server and the poller see of a connection, in order. */
  datatype Milestone = Up | Down | Erased | Destroyed

  const LIFE: seq<Milestone> := [Up, Down, Erased, Destroyed]

  /** A connection's channel, as the epoll poller of its loop has it. */
  datatype Channel = Channel(
    wantsRead: bool,           // events_ has the read events
    wantsWrite: bool,          // events_ has the write event
    added: bool,               // the kernel watches the descriptor: the index is kAdded
    inPoller: bool)            // the poller knows the channel

  const NEW_CHANNEL := Channel(false, false, false, false)

  datatype Conn = Conn(
    loop: LoopId,
    state: ConnState,
    reading: bool,             // reading_
    channel: Channel,
    log: seq<Milestone>,
    delivered: nat,            // messages given to the user while the connection was up
    late: nat,                 // messages given to the user after it was down
    atClose: Channel,          // the channel when the connection was closed
    after: seq<bool>)          // the startRead (true) and stopRead (false) functors run since then

  datatype Functor =
    | Establish(id: ConnId)    // connectEstablished
    | Remove(id: ConnId)       // removeConnectionInLoop
    | Destroy(id: ConnId)      // connectDestroyed
    | ForceClose(id: ConnId)   // forceCloseInLoop, which keeps the connection alive
    | Raw(id: ConnId)          // sendInLoop or shutdownInLoop, bound to the bare pointer
    | SwitchRead(id: ConnId, on: bool)    // startReadInLoop or stopReadInLoop, likewise

  datatype Revents = Revents(pollin: bool, pri: bool, rdhup: bool, hup: bool, err: bool, nval: bool, pollout: bool)

  /** What the poller reports of a connection. */
  datatype Ready = Ready(id: ConnId, ev: Revents)

  datatype Phase = Polling | Handling | Calling

  datatype Loop = Loop(
    phase: Phase,
    active: seq<Ready>,        // the active channels still to handle
    batch: seq<Functor>,       // functors taken from the queue, still to run
    queue: seq<Functor>)       // pendingFunctors_

  datatype Server = Server(
    conns: map<ConnId, Conn>,  // every connection ever made
    names: set<ConnId>,        // connections_
    nextId: ConnId,
    loops: seq<Loop>,
    failed: bool)

  // ----- The channel -----

  predicate Asks(ch: Channel) {
    ch.wantsRead || ch.wantsWrite
  }

  /** Channel::update with EPollPoller::updateChannel: a descriptor that the kernel does not watch is added, whatever
      the channel asks for; one that it watches is modified, or deleted if the channel asks for nothing. */
  function Update(ch: Channel): Channel {
    ch.(added := !ch.added || Asks(ch), inPoller := true)
  }

  /** startReadInLoop and stopReadInLoop. */
  function SwitchReading(c: Conn, on: bool): Conn {
    var effective := if on then !c.reading || !c.channel.wantsRead else c.reading || c.channel.wantsRead;
    var d := if effective then c.(reading := on, channel := Update(c.channel.(wantsRead := on))) else c;
    if c.state == Disconnected then d.(after := c.after + [on]) else d
  }

  /** enableWriting and disableWriting, as the output path calls them. */
  function SwitchWriting(c: Conn, on: bool): Conn {
    c.(channel := Update(c.channel.(wantsWrite := on)))
  }

  /** The first half of handleClose, down to the connection callback. */
  function Closed(c: Conn): Conn {
    c.(state := Disconnected, channel := Update(c.channel.(wantsRead := false, wantsWrite := false)),
       log := c.log + [Down], atClose := c.channel, after := [])
  }

  // ----- Operations -----

  function Push(s: Server, l: LoopId, f: Functor): Server
    requires l < |s.loops|
  {
    s.(loops := s.loops[l := s.loops[l].(queue := s.loops[l].queue + [f])])
  }

  function Fail(s: Server): Server {
    s.(failed := true)
  }

  function Established(c: Conn): Conn {
    c.(state := Connected, channel := Update(c.channel.(wantsRead := true)), log := c.log + [Up])
  }

  function ConnectEstablished(s: Server, id: ConnId): Server
    requires id in s.conns
  {
    var c := s.conns[id];
    if c.state != Connecting then Fail(s) else s.(conns := s.conns[id := Established(c)])
  }

  function NewConn(io: LoopId): Conn {
    Conn(io, Connecting, true, NEW_CHANNEL, [], 0, 0, NEW_CHANNEL, [])
  }

  /** newConnection: the name is entered, then the I/O loop establishes the connection, at once if it is this loop. */
  function NewConnection(s: Server, io: LoopId): Server
    requires io < |s.loops|
  {
    var id := s.nextId;
    var s' := s.(nextId := id + 1, names := s.names + {id}, conns := s.conns[id := NewConn(io)]);
    if io == 0 then ConnectEstablished(s', id) else Push(s', io, Establish(id))
  }

  function RemoveConnectionInLoop(s: Server, id: ConnId): Server
    requires id in s.conns && s.conns[id].loop < |s.loops|
  {
    if id !in s.names then Fail(s)
    else
      var c := s.conns[id];
      Push(s.(names := s.names - {id}, conns := s.conns[id := c.(log := c.log + [Erased])]), c.loop, Destroy(id))
  }

  /** handleClose in the loop of the connection; the close callback runs removal in the base loop. */
  function HandleClose(s: Server, id: ConnId): Server
    requires id in s.conns && s.conns[id].loop < |s.loops|
  {
    var c := s.conns[id];
    if c.state != Connected && c.state != Disconnecting then Fail(s)
    else
      var s' := s.(conns := s.conns[id := Closed(c)]);
      if c.loop == 0 then RemoveConnectionInLoop(s', id) else Push(s', 0, Remove(id))
  }

  /** connectDestroyed: a connection still up is taken down first; then the channel leaves the poller, which it must
      be in, asking for nothing and not waiting among the active channels. */
  function ConnectDestroyed(s: Server, id: ConnId): Server
    requires id in s.conns && s.conns[id].loop < |s.loops|
  {
    var c := s.conns[id];
    var d := if c.state == Connected then Closed(c) else c;
    if Asks(d.channel) || !d.channel.inPoller ||
      (s.loops[c.loop].phase == Handling && Waits(s.loops[c.loop], id)) then Fail(s)
    else s.(conns := s.conns[id := d.(channel := NEW_CHANNEL, log := d.log + [Destroyed])])
  }

  /** Whether the connection is among the active ones. */
  predicate Waits(loop: Loop, id: ConnId) {
    exists i :: 0 <= i < |loop.active| && loop.active[i].id == id
  }

  function ForceCloseInLoop(s: Server, id: ConnId): Server
    requires id in s.conns && s.conns[id].loop < |s.loops|
  {
    var c := s.conns[id];
    if c.state == Connected || c.state == Disconnecting then HandleClose(s, id) else s
  }

  /** The message callback. */
  function Deliver(s: Server, id: ConnId): Server
    requires id in s.conns
  {
    var c := s.conns[id];
    s.(conns := s.conns[id := if c.state == Disconnected then c.(late := c.late + 1)
      else c.(delivered := c.delivered + 1)])
  }

  /** handleRead; n is what the read returns. */
  function HandleRead(s: Server, id: ConnId, n: int): Server
    requires id in s.conns && s.conns[id].loop < |s.loops|
  {
    if n > 0 then Deliver(s, id) else if n == 0 then HandleClose(s, id) else s
  }

  predicate ReadEvents(ev: Revents) {
    ev.pollin || ev.pri || ev.rdhup
  }

  /** Channel::handleEventWithGuard with the callbacks of a connection; a failed assertion ends it. The error and write
      callbacks do not touch the life of the connection. */
  function HandleEvent(s: Server, id: ConnId, ev: Revents, n: int): Server
    requires id in s.conns && s.conns[id].loop < |s.loops|
  {
    var s' := if ev.hup && !ev.pollin then HandleClose(s, id) else s;
    if !s'.failed && ReadEvents(ev) then HandleRead(s', id, n) else s'
  }

  /** The events for which the close callback is followed by a read. */
  predicate ReadsAfterClose(ev: Revents) {
    ev.hup && !ev.pollin && (ev.pri || ev.rdhup)
  }

  /** The events for which the close callback and a read of zero bytes both close. */
  predicate ClosesTwice(ev: Revents, n: int) {
    ReadsAfterClose(ev) && n == 0
  }

  /** The events for which handleClose is called. */
  predicate Closes(ev: Revents, n: int) {
    (ev.hup && !ev.pollin) || (ReadEvents(ev) && n == 0)
  }

  // ----- Steps -----

  datatype Step =
    | Accept(io: LoopId)                        // the listening socket is readable
    | Poll(l: LoopId, ready: seq<Ready>)
    | Dispatch(l: LoopId, n: int)               // the next active channel; n is what a read returns
    | SwapFunctors(l: LoopId)
    | RunFunctor(l: LoopId)
    | FunctorsDone(l: LoopId)
    | CallForceClose(id: ConnId)                // in any thread
    | CallShutdown(id: ConnId, posted: bool)    // shutdown, posted or in the loop thread
    | CallSend(id: ConnId)                      // send from another thread
    | CallRead(id: ConnId, on: bool)            // startRead or stopRead in the loop thread
    | PostRead(id: ConnId, on: bool)            // startRead or stopRead from another thread
    | WriteInterest(id: ConnId, on: bool)       // the output path begins or ends to wait for writability

  predicate IsUp(c: Conn) {
    c.state == Connected || c.state == Disconnecting
  }

  /** What epoll can report: hang-ups and errors always, other events only if asked for. */
  predicate Reportable(ch: Channel, ev: Revents) {
    ch.added && (ReadEvents(ev) ==> ch.wantsRead) && (ev.pollout ==> ch.wantsWrite)
  }

  predicate Known(s: Server, id: ConnId) {
    id in s.conns && s.conns[id].loop < |s.loops|
  }

  predicate Enabled(s: Server, step: Step) {
    match step
    case Accept(io) => io < |s.loops| && s.loops[0].phase == Handling
    case Poll(l, ready) =>
      && l < |s.loops| && s.loops[l].phase == Polling
      && (forall i :: 0 <= i < |ready| ==> ready[i].id in s.conns && s.conns[ready[i].id].loop == l &&
                                           Reportable(s.conns[ready[i].id].channel, ready[i].ev))
      && (forall i, j :: 0 <= i < j < |ready| ==> ready[i].id != ready[j].id)
    case Dispatch(l, _) =>
      l < |s.loops| && s.loops[l].phase == Handling && s.loops[l].active != [] && Known(s, s.loops[l].active[0].id)
    case SwapFunctors(l) => l < |s.loops| && s.loops[l].phase == Handling && s.loops[l].active == []
    case RunFunctor(l) =>
      l < |s.loops| && s.loops[l].phase == Calling && s.loops[l].batch != [] && Known(s, s.loops[l].batch[0].id)
    case FunctorsDone(l) => l < |s.loops| && s.loops[l].phase == Calling && s.loops[l].batch == []
    case CallForceClose(id) => Known(s, id) && IsUp(s.conns[id])
    case CallShutdown(id, _) => Known(s, id) && s.conns[id].state == Connected
    case CallSend(id) => Known(s, id) && s.conns[id].state == Connected
    case CallRead(id, _) => Known(s, id) && IsUp(s.conns[id]) && s.loops[s.conns[id].loop].phase != Polling
    case PostRead(id, _) => Known(s, id) && IsUp(s.conns[id])
    case WriteInterest(id, on) =>
      Known(s, id) && IsUp(s.conns[id]) && s.conns[id].channel.wantsWrite != on &&
        s.loops[s.conns[id].loop].phase != Polling
  }

  function WithLoop(s: Server, l: LoopId, loop: Loop): Server
    requires l < |s.loops|
  {
    s.(loops := s.loops[l := loop])
  }

  function Run(s: Server, f: Functor): Server
    requires f.id in s.conns && s.conns[f.id].loop < |s.loops|
  {
    match f
    case Establish(id) => ConnectEstablished(s, id)
    case Remove(id) => RemoveConnectionInLoop(s, id)
    case Destroy(id) => ConnectDestroyed(s, id)
    case ForceClose(id) => ForceCloseInLoop(s, id)
    case Raw(_) => s
    case SwitchRead(id, on) => Changed(s, id, SwitchReading(s.conns[id], on))
  }

  function Changed(s: Server, id: ConnId, c: Conn): Server {
    s.(conns := s.conns[id := c])
  }

  function Disconnect(s: Server, id: ConnId): Server
    requires id in s.conns
  {
    s.(conns := s.conns[id := s.conns[id].(state := Disconnecting)])
  }

  function Popped(s: Server, l: LoopId): Server
    requires l < |s.loops| && s.loops[l].batch != []
  {
    WithLoop(s, l, s.loops[l].(batch := s.loops[l].batch[1..]))
  }

  function Taken(s: Server, l: LoopId): Server
    requires l < |s.loops| && s.loops[l].active != []
  {
    WithLoop(s, l, s.loops[l].(active := s.loops[l].active[1..]))
  }

  function Act(s: Server, step: Step): Server
    requires Enabled(s, step)
  {
    match step
    case Accept(io) => NewConnection(s, io)
    case Poll(l, ready) => WithLoop(s, l, s.loops[l].(phase := Handling, active := ready))
    case Dispatch(l, n) => HandleEvent(Taken(s, l), s.loops[l].active[0].id, s.loops[l].active[0].ev, n)
    case SwapFunctors(l) => WithLoop(s, l, s.loops[l].(phase := Calling, batch := s.loops[l].queue, queue := []))
    case RunFunctor(l) => Run(Popped(s, l), s.loops[l].batch[0])
    case FunctorsDone(l) => WithLoop(s, l, s.loops[l].(phase := Polling))
    case CallForceClose(id) => Push(Disconnect(s, id), s.conns[id].loop, ForceClose(id))
    case CallShutdown(id, posted) =>
      if posted then Push(Disconnect(s, id), s.conns[id].loop, Raw(id)) else Disconnect(s, id)
    case CallSend(id) => Push(s, s.conns[id].loop, Raw(id))
    case CallRead(id, on) => Changed(s, id, SwitchReading(s.conns[id], on))
    case PostRead(id, on) => Push(s, s.conns[id].loop, SwitchRead(id, on))
    case WriteInterest(id, on) => Changed(s, id, SwitchWriting(s.conns[id], on))
  }

  /** A step that fails an assertion only sets the flag, and nothing happens after it. */
  function Apply(s: Server, step: Step): Server {
    if s.failed || !Enabled(s, step) then s
    else
      var s' := Act(s, step);
      if s'.failed then Fail(s) else s'
  }

  function Exec(s: Server, steps: seq<Step>): Server
    decreases |steps|
  {
    if steps == [] then s else Exec(Apply(s, steps[0]), steps[1..])
  }

  function Start(nloops: nat): Server {
    Server(map[], {}, 1, seq(nloops, _ => Loop(Polling, [], [], [])), false)
  }
}
