/** What every step of a server, its connections and its loops keeps: how far a connection has come decides what is
    queued for it, where, and what its channel is like. And exactly which steps fail an assertion of the source. */
module TcpServerInvariant {

  import opened ConnStates
  import opened TcpServers

  // ----- The invariant -----

  /** The functors that carry a connection to the next milestone. */
  predicate Token(f: Functor) {
    f.Establish? || f.Remove? || f.Destroy?
  }

  /** The functors of a loop in the order in which they will run. */
  function Todo(loop: Loop): seq<Functor> {
    loop.batch + loop.queue
  }

  /** How many times a token is queued in a loop, as told by how far the connection has come. */
  function Expected(l: LoopId, f: Functor, conns: map<ConnId, Conn>): nat {
    if f.id !in conns then 0
    else
      var c := conns[f.id];
      match f
      case Establish(_) => if |c.log| == 0 && l == c.loop then 1 else 0
      case Remove(_) => if |c.log| == 2 && l == 0 then 1 else 0
      case Destroy(_) => if |c.log| == 3 && l == c.loop then 1 else 0
      case _ => 0
  }

  /** Whether the last of these functors switched reading on. */
  predicate LastOn(after: seq<bool>) {
    after != [] && after[|after| - 1]
  }

  /** Whether the kernel watches the descriptor of a closed connection, given its channel at the close and the functors
      that have switched reading since: if there were none, exactly if the channel asked for nothing, since closing then
      adds the descriptor instead of deleting it; after a startRead, as the last functor says; after stopReads alone,
      unless the channel waited for writability only. */
  predicate Rearmed(atClose: Channel, after: seq<bool>) {
    if after == [] then !Asks(atClose)
    else if true in after then LastOn(after)
    else atClose.wantsRead || !atClose.wantsWrite
  }

  /** The channel at each stage of the life of its connection. */
  predicate ChannelFits(c: Conn) {
    var ch := c.channel;
    if |c.log| == 0 then ch == NEW_CHANNEL && c.reading && c.after == []
    else if |c.log| == 1 then ch.inPoller && c.reading == ch.wantsRead && ch.added == Asks(ch) && c.after == []
    else if |c.log| < 4 then
      && ch.inPoller && !ch.wantsWrite && ch.wantsRead == LastOn(c.after)
      && c.reading == (if c.after == [] then c.atClose.wantsRead else LastOn(c.after))
      && ch.added == Rearmed(c.atClose, c.after)
    else ch == NEW_CHANNEL
  }

  /** The number of milestones passed fixes the rest: the name is known until the third, and the channel is in the
      poller from the first to the fourth. */
  predicate Coherent(c: Conn, named: bool, nloops: nat) {
    && c.loop < nloops && |c.log| <= 4 && c.log == LIFE[..|c.log|]
    && (|c.log| == 2 ==> c.loop != 0)
    && (named <==> |c.log| < 3)
    && (c.state == Connecting <==> |c.log| == 0)
    && (c.state == Disconnected <==> |c.log| >= 2)
    && ChannelFits(c)
  }

  predicate AllCoherent(conns: map<ConnId, Conn>, names: set<ConnId>, nextId: ConnId, nloops: nat) {
    && (forall id :: id in conns ==> id < nextId && Coherent(conns[id], id in names, nloops))
    && (forall id :: id in names ==> id in conns)
  }

  /** The tokens queued are the expected ones, f0 apart, which is short by d. */
  ghost predicate TokensBut(l: LoopId, todo: seq<Functor>, conns: map<ConnId, Conn>, f0: Functor, d: int) {
    forall f :: Token(f) ==> multiset(todo)[f] + (if f == f0 then d else 0) == Expected(l, f, conns)
  }

  ghost predicate TokensAt(l: LoopId, todo: seq<Functor>, conns: map<ConnId, Conn>) {
    forall f :: Token(f) ==> multiset(todo)[f] == Expected(l, f, conns)
  }

  /** The functors bound to the bare pointer of their connection. */
  predicate Bare(f: Functor) {
    f.Raw? || f.SwitchRead?
  }

  predicate NoBare(todo: seq<Functor>, id: ConnId) {
    forall f :: f in todo && Bare(f) ==> f.id != id
  }

  /** Any other functor is for a connection of this loop that was up; one with a bare pointer comes before the
      destruction of the connection. */
  predicate LooseOk(l: LoopId, todo: seq<Functor>, conns: map<ConnId, Conn>, j: nat)
    requires j < |todo|
  {
    var id := todo[j].id;
    && id in conns && conns[id].loop == l && |conns[id].log| >= 1
    && (Bare(todo[j]) ==> |conns[id].log| < 4 && Destroy(id) !in todo[..j])
  }

  predicate LooseAt(l: LoopId, todo: seq<Functor>, conns: map<ConnId, Conn>) {
    forall j :: 0 <= j < |todo| && !Token(todo[j]) ==> LooseOk(l, todo, conns, j)
  }

  /** Only connections that have been up and not been destroyed wait for their events, only while events are handled,
      and none of them twice. */
  predicate ActiveAt(l: LoopId, loop: Loop, conns: map<ConnId, Conn>) {
    && (loop.active != [] ==> loop.phase == Handling)
    && (loop.batch != [] ==> loop.phase == Calling)
    && (forall i :: 0 <= i < |loop.active| ==> ActiveOk(l, loop.active[i].id, conns))
    && (forall i, j :: 0 <= i < j < |loop.active| ==> loop.active[i].id != loop.active[j].id)
  }

  predicate ActiveOk(l: LoopId, id: ConnId, conns: map<ConnId, Conn>) {
    id in conns && conns[id].loop == l && 1 <= |conns[id].log| < 4
  }

  ghost predicate LoopOk(l: LoopId, loop: Loop, conns: map<ConnId, Conn>) {
    ActiveAt(l, loop, conns) && TokensAt(l, Todo(loop), conns) && LooseAt(l, Todo(loop), conns)
  }

  ghost predicate Inv(s: Server) {
    && |s.loops| >= 1
    && AllCoherent(s.conns, s.names, s.nextId, |s.loops|)
    && forall l :: 0 <= l < |s.loops| ==> LoopOk(l, s.loops[l], s.conns)
  }

  // ----- One loop: tokens -----

  lemma TokensPush(l: LoopId, todo: seq<Functor>, conns: map<ConnId, Conn>, f: Functor)
    requires Token(f) && TokensBut(l, todo, conns, f, 1)
    ensures TokensAt(l, todo + [f], conns)
  {
    hide Expected;
  }

  lemma TokensPushLoose(l: LoopId, todo: seq<Functor>, conns: map<ConnId, Conn>, f: Functor)
    requires !Token(f) && TokensAt(l, todo, conns)
    ensures TokensAt(l, todo + [f], conns)
  {
    hide Expected;
  }

  lemma TokensPop(l: LoopId, todo: seq<Functor>, conns: map<ConnId, Conn>)
    requires todo != [] && TokensAt(l, todo, conns)
    ensures if Token(todo[0]) then TokensBut(l, todo[1..], conns, todo[0], 1) else TokensAt(l, todo[1..], conns)
  {
    hide Expected;
    assert todo == [todo[0]] + todo[1..];
  }

  /** The connection of f0 moves on, by which f0 becomes expected, or no longer so, in this loop. */
  lemma TokensAdvance(l: LoopId, todo: seq<Functor>, conns: map<ConnId, Conn>, c: Conn, f0: Functor, d: int, d': int)
    requires TokensBut(l, todo, conns, f0, d)
    requires forall f :: Token(f) && f.id == f0.id ==>
               Expected(l, f, conns[f0.id := c]) - Expected(l, f, conns) == if f == f0 then d' - d else 0
    ensures TokensBut(l, todo, conns[f0.id := c], f0, d')
  {
    forall f | Token(f)
      ensures multiset(todo)[f] + (if f == f0 then d' else 0) == Expected(l, f, conns[f0.id := c])
    {
      if f.id != f0.id {
        assert Expected(l, f, conns[f0.id := c]) == Expected(l, f, conns);
      }
    }
  }

  // ----- One loop: the other functors, and the active channels -----

  lemma LoosePush(l: LoopId, todo: seq<Functor>, conns: map<ConnId, Conn>, f: Functor)
    requires LooseAt(l, todo, conns)
    requires !Token(f) ==> f.id in conns && conns[f.id].loop == l && 1 <= |conns[f.id].log| < 4
    requires !Token(f) ==> Destroy(f.id) !in todo
    ensures LooseAt(l, todo + [f], conns)
  {
    var todo' := todo + [f];
    forall j | 0 <= j < |todo'| && !Token(todo'[j])
      ensures LooseOk(l, todo', conns, j)
    {
      assert todo'[..j] == todo[..j];
      if j < |todo| {
        assert LooseOk(l, todo, conns, j);
      }
    }
  }

  lemma LoosePop(l: LoopId, todo: seq<Functor>, conns: map<ConnId, Conn>)
    requires LooseAt(l, todo, conns) && todo != []
    ensures LooseAt(l, todo[1..], conns)
    ensures todo[0].Destroy? ==> NoBare(todo[1..], todo[0].id)
  {
    var todo' := todo[1..];
    forall j | 0 <= j < |todo'| && !Token(todo'[j])
      ensures todo[0].Destroy? && Bare(todo'[j]) ==> todo'[j].id != todo[0].id
      ensures LooseOk(l, todo', conns, j)
    {
      assert LooseOk(l, todo, conns, j + 1);
      assert todo[0] in todo[..j + 1];
      assert forall f :: f in todo'[..j] ==> f in todo[..j + 1];
    }
  }

  lemma LooseAdvance(l: LoopId, todo: seq<Functor>, conns: map<ConnId, Conn>, id: ConnId, c: Conn)
    requires LooseAt(l, todo, conns)
    requires id in conns ==> c.loop == conns[id].loop && |conns[id].log| <= |c.log|
    requires |c.log| >= 4 ==> NoBare(todo, id)
    ensures LooseAt(l, todo, conns[id := c])
  {
    forall j | 0 <= j < |todo| && !Token(todo[j])
      ensures LooseOk(l, todo, conns[id := c], j)
    {
      assert LooseOk(l, todo, conns, j);
    }
  }

  lemma ActiveAdvance(l: LoopId, loop: Loop, conns: map<ConnId, Conn>, id: ConnId, c: Conn)
    requires ActiveAt(l, loop, conns)
    requires id in conns ==> c.loop == conns[id].loop && |conns[id].log| <= |c.log|
    requires |c.log| < 4 || !Waits(loop, id)
    ensures ActiveAt(l, loop, conns[id := c])
  {
    forall i | 0 <= i < |loop.active|
      ensures ActiveOk(l, loop.active[i].id, conns[id := c])
    {
      assert ActiveOk(l, loop.active[i].id, conns);
    }
  }

  // ----- One loop: the moves of a connection -----

  /** A loop that neither gains nor loses a functor. */
  lemma Bystander(l: LoopId, loop: Loop, conns: map<ConnId, Conn>, id: ConnId, c: Conn)
    requires LoopOk(l, loop, conns)
    requires id in conns ==> c.loop == conns[id].loop && |conns[id].log| <= |c.log|
    requires Expected(l, Establish(id), conns[id := c]) == Expected(l, Establish(id), conns)
    requires Expected(l, Remove(id), conns[id := c]) == Expected(l, Remove(id), conns)
    requires Expected(l, Destroy(id), conns[id := c]) == Expected(l, Destroy(id), conns)
    requires |c.log| >= 4 ==> NoBare(Todo(loop), id) && !Waits(loop, id)
    ensures LoopOk(l, loop, conns[id := c])
  {
    ActiveAdvance(l, loop, conns, id, c);
    LooseAdvance(l, Todo(loop), conns, id, c);
    assert TokensBut(l, Todo(loop), conns, Establish(id), 0) by { hide Expected, LooseAt, ActiveAt; }
    hide LooseAt, ActiveAt, Todo;
    TokensAdvance(l, Todo(loop), conns, c, Establish(id), 0, 0);
  }

  /** A loop that gains the token of the milestone that comes next. */
  lemma Receiver(l: LoopId, loop: Loop, conns: map<ConnId, Conn>, f: Functor, c: Conn)
    requires LoopOk(l, loop, conns) && Token(f)
    requires f.id in conns ==> c.loop == conns[f.id].loop && |conns[f.id].log| <= |c.log|
    requires forall g :: Token(g) && g.id == f.id ==>
               Expected(l, g, conns[f.id := c]) - Expected(l, g, conns) == if g == f then 1 else 0
    requires |c.log| < 4
    ensures LoopOk(l, loop.(queue := loop.queue + [f]), conns[f.id := c])
  {
    var todo := Todo(loop);
    var loop', conns' := loop.(queue := loop.queue + [f]), conns[f.id := c];
    assert Todo(loop') == todo + [f];
    hide Todo;
    assert ActiveAt(l, loop', conns') by {
      hide TokensAt, LooseAt, Expected;
      ActiveAdvance(l, loop, conns, f.id, c);
    }
    assert LooseAt(l, todo + [f], conns') by {
      hide TokensAt, ActiveAt, Expected, LooseAt;
      LooseAdvance(l, todo, conns, f.id, c);
      LoosePush(l, todo, conns', f);
    }
    assert TokensAt(l, todo + [f], conns') by {
      hide ActiveAt, LooseAt;
      assert TokensBut(l, todo, conns, f, 0) by { hide Expected; }
      hide TokensAt, TokensBut;
      TokensAdvance(l, todo, conns, c, f, 0, 1);
      TokensPush(l, todo, conns', f);
    }
    hide TokensAt, ActiveAt, LooseAt, Expected;
  }

  /** A loop that runs the token at the head of its batch. */
  lemma Runner(l: LoopId, loop: Loop, conns: map<ConnId, Conn>, c: Conn)
    requires LoopOk(l, loop, conns) && loop.batch != [] && Token(loop.batch[0]) && loop.batch[0].id in conns
    requires c.loop == conns[loop.batch[0].id].loop && |conns[loop.batch[0].id].log| <= |c.log|
    requires forall g :: Token(g) && g.id == loop.batch[0].id ==>
               Expected(l, g, conns[loop.batch[0].id := c]) - Expected(l, g, conns) ==
                 if g == loop.batch[0] then -1 else 0
    requires |c.log| >= 4 ==> loop.batch[0].Destroy?
    ensures LoopOk(l, loop.(batch := loop.batch[1..]), conns[loop.batch[0].id := c])
  {
    var f, todo := loop.batch[0], Todo(loop);
    var loop' := loop.(batch := loop.batch[1..]);
    assert todo[0] == f && Todo(loop') == todo[1..];
    assert loop.active == [];
    ActiveAdvance(l, loop, conns, f.id, c);
    assert ActiveAt(l, loop', conns[f.id := c]);
    LoosePop(l, todo, conns);
    LooseAdvance(l, todo[1..], conns, f.id, c);
    TokensPop(l, todo, conns);
    TokensAdvance(l, todo[1..], conns, c, f, 1, 0);
    hide LooseAt, ActiveAt, Expected, Todo;
    assert TokensAt(l, todo[1..], conns[f.id := c]);
  }

  // ----- All loops: the operations -----

  lemma NextMilestone(c: Conn, m: Milestone)
    requires |c.log| < 4 && c.log == LIFE[..|c.log|] && m == LIFE[|c.log|]
    ensures c.log + [m] == LIFE[..|c.log| + 1]
  {
  }

  /** One connection changes and keeps to its stage; the others and the names of the others stay. */
  lemma OneChanges(conns: map<ConnId, Conn>, names: set<ConnId>, nextId: ConnId, nloops: nat,
                   id: ConnId, c: Conn, names': set<ConnId>, nextId': ConnId)
    requires AllCoherent(conns, names, nextId, nloops) && Coherent(c, id in names', nloops)
    requires id < nextId' && nextId <= nextId' && forall x :: x != id ==> (x in names' <==> x in names)
    ensures AllCoherent(conns[id := c], names', nextId', nloops)
  {
    hide Coherent;
  }

  lemma NotActive(s: Server, id: ConnId, l: LoopId)
    requires Inv(s) && Known(s, id) && l < |s.loops| && s.loops[s.conns[id].loop].active == []
    ensures !Waits(s.loops[l], id)
  {
    hide AllCoherent, TokensAt, LooseAt;
    assert LoopOk(l, s.loops[l], s.conns);
  }

  lemma FreshId(s: Server)
    requires Inv(s)
    ensures s.nextId !in s.conns
  {
    hide LoopOk, Coherent;
  }

  lemma AcceptInv(s: Server, io: LoopId)
    requires Inv(s) && io < |s.loops|
    ensures Inv(NewConnection(s, io)) && NewConnection(s, io).failed == s.failed
  {
    var id := s.nextId;
    var s' := NewConnection(s, io);
    assert id !in s.conns;
    var c := if io == 0 then Established(NewConn(io)) else NewConn(io);
    assert [] + [Up] == [Up] == LIFE[..1];
    assert s'.conns == s.conns[id := c];
    OneChanges(s.conns, s.names, s.nextId, |s.loops|, id, c, s'.names, s'.nextId);
    forall l | 0 <= l < |s'.loops|
      ensures LoopOk(l, s'.loops[l], s'.conns)
    {
      hide AllCoherent;
      assert LoopOk(l, s.loops[l], s.conns);
      hide LoopOk;
      if l == io && io != 0 {
        Receiver(l, s.loops[l], s.conns, Establish(id), c);
      } else {
        Bystander(l, s.loops[l], s.conns, id, c);
      }
    }
  }

  /** Closing leaves the kernel watching exactly if the channel asked for nothing. */
  lemma ClosedCoherent(c: Conn, nloops: nat)
    requires Coherent(c, true, nloops) && |c.log| == 1
    ensures var d := Closed(c);
            |d.log| == 2 && d.loop == c.loop && (c.loop != 0 ==> Coherent(d, true, nloops)) &&
            (c.loop == 0 ==> Coherent(d.(log := d.log + [Erased]), false, nloops))
  {
    NextMilestone(c, Down);
    NextMilestone(Closed(c), Erased);
  }

  lemma CloseInv(s: Server, id: ConnId)
    requires Inv(s) && Known(s, id) && |s.conns[id].log| == 1
    ensures Inv(HandleClose(s, id)) && HandleClose(s, id).failed == s.failed
  {
    var c, s' := s.conns[id], HandleClose(s, id);
    assert Coherent(c, id in s.names, |s.loops|);
    ClosedCoherent(c, |s.loops|);
    hide ChannelFits, Update;
    var d := Closed(c);
    var c' := if c.loop == 0 then d.(log := d.log + [Erased]) else d;
    assert s'.conns == s.conns[id := c'];
    OneChanges(s.conns, s.names, s.nextId, |s.loops|, id, c', s'.names, s'.nextId);
    var f := if c.loop == 0 then Destroy(id) else Remove(id);
    assert s'.loops == s.loops[0 := s.loops[0].(queue := s.loops[0].queue + [f])];
    hide HandleClose;
    forall l | 0 <= l < |s'.loops|
      ensures LoopOk(l, s'.loops[l], s'.conns)
    {
      hide AllCoherent, Coherent;
      assert LoopOk(l, s.loops[l], s.conns);
      hide LoopOk;
      CloseLoop(l, s.loops[l], s.conns, id, c');
    }
  }

  lemma CloseLoop(l: LoopId, loop: Loop, conns: map<ConnId, Conn>, id: ConnId, c: Conn)
    requires LoopOk(l, loop, conns) && id in conns && |conns[id].log| == 1
    requires c.loop == conns[id].loop && |c.log| == if c.loop == 0 then 3 else 2
    ensures var f := if c.loop == 0 then Destroy(id) else Remove(id);
            LoopOk(l, if l == 0 then loop.(queue := loop.queue + [f]) else loop, conns[id := c])
  {
    hide LoopOk;
    if l == 0 {
      Receiver(0, loop, conns, if c.loop == 0 then Destroy(id) else Remove(id), c);
    } else {
      Bystander(l, loop, conns, id, c);
    }
  }

  lemma HeadIsExpected(l: LoopId, loop: Loop, conns: map<ConnId, Conn>)
    requires LoopOk(l, loop, conns) && loop.batch != []
    ensures if Token(loop.batch[0]) then Expected(l, loop.batch[0], conns) >= 1 else LooseOk(l, Todo(loop), conns, 0)
    ensures loop.batch[0] == Todo(loop)[0] && loop.active == []
  {
    hide Expected;
    var f := loop.batch[0];
    assert Todo(loop)[0] == f;
    assert f in multiset(Todo(loop));
  }

  /** The functor of kind `kind` at the head of the batch of loop l. */
  predicate Heads(s: Server, l: LoopId, f: Functor) {
    l < |s.loops| && s.loops[l].batch != [] && s.loops[l].batch[0] == f && Known(s, f.id)
  }

  lemma RunEstablishInv(s: Server, l: LoopId, id: ConnId)
    requires Inv(s) && Heads(s, l, Establish(id))
    ensures var s' := ConnectEstablished(Popped(s, l), id); Inv(s') && s'.failed == s.failed
  {
    var s' := ConnectEstablished(Popped(s, l), id);
    var c := s.conns[id];
    assert LoopOk(l, s.loops[l], s.conns);
    HeadIsExpected(l, s.loops[l], s.conns);
    assert Coherent(c, id in s.names, |s.loops|);
    NextMilestone(c, Up);
    var c' := Established(c);
    assert s'.conns == s.conns[id := c'];
    OneChanges(s.conns, s.names, s.nextId, |s.loops|, id, c', s'.names, s'.nextId);
    forall k | 0 <= k < |s'.loops|
      ensures LoopOk(k, s'.loops[k], s'.conns)
    {
      hide AllCoherent, Coherent;
      assert LoopOk(k, s.loops[k], s.conns);
      hide LoopOk;
      if k == l {
        Runner(l, s.loops[l], s.conns, c');
      } else {
        Bystander(k, s.loops[k], s.conns, id, c');
      }
    }
  }

  lemma RunRemoveInv(s: Server, l: LoopId, id: ConnId)
    requires Inv(s) && Heads(s, l, Remove(id))
    ensures var s' := RemoveConnectionInLoop(Popped(s, l), id); Inv(s') && s'.failed == s.failed
  {
    var s' := RemoveConnectionInLoop(Popped(s, l), id);
    var c := s.conns[id];
    assert LoopOk(l, s.loops[l], s.conns);
    HeadIsExpected(l, s.loops[l], s.conns);
    assert Coherent(c, id in s.names, |s.loops|);
    NextMilestone(c, Erased);
    var c' := c.(log := c.log + [Erased]);
    assert s'.conns == s.conns[id := c'];
    OneChanges(s.conns, s.names, s.nextId, |s.loops|, id, c', s'.names, s'.nextId);
    hide Coherent;
    forall k | 0 <= k < |s'.loops|
      ensures LoopOk(k, s'.loops[k], s'.conns)
    {
      hide AllCoherent;
      assert LoopOk(k, s.loops[k], s.conns);
      hide LoopOk;
      RemoveLoop(k, s.loops[k], s.conns, id, c', k == l);
    }
  }

  lemma RemoveLoop(k: LoopId, loop: Loop, conns: map<ConnId, Conn>, id: ConnId, c: Conn, runs: bool)
    requires LoopOk(k, loop, conns) && id in conns && |conns[id].log| == 2 && conns[id].loop != 0
    requires c.loop == conns[id].loop && |c.log| == 3 && (runs <==> k == 0)
    requires runs ==> loop.batch != [] && loop.batch[0] == Remove(id)
    ensures LoopOk(k, if runs then loop.(batch := loop.batch[1..])
                      else if k == c.loop then loop.(queue := loop.queue + [Destroy(id)]) else loop, conns[id := c])
  {
    hide LoopOk;
    if runs {
      Runner(k, loop, conns, c);
    } else if k == c.loop {
      Receiver(k, loop, conns, Destroy(id), c);
    } else {
      Bystander(k, loop, conns, id, c);
    }
  }

  /** Destruction fails exactly if the last functor that switched reading after the close switched it on; otherwise the
      invariant is kept. */
  lemma DestroyFailsExactly(s: Server, l: LoopId, id: ConnId)
    requires Inv(s) && !s.failed && Heads(s, l, Destroy(id))
    ensures var s' := ConnectDestroyed(Popped(s, l), id);
            (s'.failed <==> LastOn(s.conns[id].after)) && (!s'.failed ==> Inv(s'))
  {
    var s' := ConnectDestroyed(Popped(s, l), id);
    var c := s.conns[id];
    assert LoopOk(l, s.loops[l], s.conns);
    HeadIsExpected(l, s.loops[l], s.conns);
    assert Coherent(c, id in s.names, |s.loops|);
    assert !Waits(Popped(s, l).loops[l], id);
    if !LastOn(c.after) {
      NextMilestone(c, Destroyed);
      var c' := c.(channel := NEW_CHANNEL, log := c.log + [Destroyed]);
      assert s'.conns == s.conns[id := c'];
      OneChanges(s.conns, s.names, s.nextId, |s.loops|, id, c', s'.names, s'.nextId);
      forall k | 0 <= k < |s'.loops|
        ensures LoopOk(k, s'.loops[k], s'.conns)
      {
        hide AllCoherent, Coherent;
        DestroyLoop(s, l, id, c', k);
        hide LoopOk;
      }
    }
  }

  lemma DestroyLoop(s: Server, l: LoopId, id: ConnId, c: Conn, k: LoopId)
    requires Inv(s) && Heads(s, l, Destroy(id)) && k < |s.loops| && s.conns[id].loop == l
    requires c.loop == l && |s.conns[id].log| == 3 && |c.log| == 4
    ensures LoopOk(k, Popped(s, l).loops[k], s.conns[id := c])
  {
    hide AllCoherent, Coherent;
    assert LoopOk(l, s.loops[l], s.conns);
    assert LoopOk(k, s.loops[k], s.conns);
    HeadIsExpected(l, s.loops[l], s.conns);
    NotActive(s, id, k);
    if k == l {
      hide LoopOk;
      Runner(l, s.loops[l], s.conns, c);
    } else {
      BareElsewhere(k, s.loops[k], s.conns, id);
      hide LoopOk;
      Bystander(k, s.loops[k], s.conns, id, c);
    }
  }

  lemma BareElsewhere(l: LoopId, loop: Loop, conns: map<ConnId, Conn>, id: ConnId)
    requires LoopOk(l, loop, conns) && id in conns && conns[id].loop != l
    ensures NoBare(Todo(loop), id)
  {
    hide ActiveAt, TokensAt;
  }

  lemma RunLooseInv(s: Server, l: LoopId)
    requires Inv(s) && l < |s.loops| && s.loops[l].batch != [] && !Token(s.loops[l].batch[0])
    ensures Inv(Popped(s, l))
  {
    var loop, s' := s.loops[l], Popped(s, l);
    hide AllCoherent;
    assert LoopOk(l, loop, s.conns);
    assert Todo(s'.loops[l]) == Todo(loop)[1..] && Todo(loop)[0] == loop.batch[0];
    TokensPop(l, Todo(loop), s.conns);
    LoosePop(l, Todo(loop), s.conns);
    hide TokensAt, LooseAt, Todo;
    assert LoopOk(l, s'.loops[l], s'.conns);
    hide LoopOk;
  }

  /** The connection of a functor that is not a token has been up, and if the pointer is bare it is not destroyed. */
  lemma LooseHead(s: Server, l: LoopId)
    requires Inv(s) && l < |s.loops| && s.loops[l].batch != [] && !Token(s.loops[l].batch[0])
    ensures var f := s.loops[l].batch[0];
            Known(s, f.id) && s.conns[f.id].loop == l && |s.conns[f.id].log| >= 1 &&
              (Bare(f) ==> |s.conns[f.id].log| < 4)
  {
    hide AllCoherent;
    assert LoopOk(l, s.loops[l], s.conns);
    HeadIsExpected(l, s.loops[l], s.conns);
  }

  lemma StageOf(s: Server, id: ConnId)
    requires Inv(s) && id in s.conns
    ensures Coherent(s.conns[id], id in s.names, |s.loops|)
  {
    hide LoopOk, Coherent;
  }

  lemma UpExactly(s: Server, id: ConnId)
    requires Inv(s) && id in s.conns
    ensures IsUp(s.conns[id]) <==> |s.conns[id].log| == 1
    ensures s.conns[id].state == Disconnected <==> |s.conns[id].log| >= 2
    ensures |s.conns[id].log| == 1 ==> s.conns[id].log == [Up]
    ensures s.conns[id].loop < |s.loops|
  {
    hide Inv, ChannelFits;
    StageOf(s, id);
  }

  // ----- Changes within a stage -----

  /** A change that does not concern the milestones concerns no loop. */
  lemma SameStage(l: LoopId, loop: Loop, conns: map<ConnId, Conn>, id: ConnId, c: Conn)
    requires LoopOk(l, loop, conns) && id in conns && c.loop == conns[id].loop && c.log == conns[id].log
    ensures LoopOk(l, loop, conns[id := c])
  {
    hide TokensAt;
    if |c.log| >= 4 {
      NoBareLeft(l, Todo(loop), conns, id);
      assert !Waits(loop, id);
    }
    hide LoopOk;
    Bystander(l, loop, conns, id, c);
  }

  lemma NoBareLeft(l: LoopId, todo: seq<Functor>, conns: map<ConnId, Conn>, id: ConnId)
    requires LooseAt(l, todo, conns) && id in conns && |conns[id].log| >= 4
    ensures NoBare(todo, id)
  {
  }

  lemma ChangedInv(s: Server, id: ConnId, c: Conn)
    requires Inv(s) && id in s.conns && c.loop == s.conns[id].loop && c.log == s.conns[id].log
    requires Coherent(c, id in s.names, |s.loops|)
    ensures Inv(Changed(s, id, c))
  {
    hide Coherent, LoopOk;
    StageOf(s, id);
    OneChanges(s.conns, s.names, s.nextId, |s.loops|, id, c, s.names, s.nextId);
    forall l | 0 <= l < |s.loops|
      ensures LoopOk(l, s.loops[l], s.conns[id := c])
    {
      hide AllCoherent;
      SameStage(l, s.loops[l], s.conns, id, c);
    }
  }

  /** Switching reading on or off, before or after the close. */
  lemma SwitchCoherent(c: Conn, on: bool, named: bool, nloops: nat)
    requires Coherent(c, named, nloops) && 1 <= |c.log| < 4
    ensures var d := SwitchReading(c, on); Coherent(d, named, nloops) && d.loop == c.loop && d.log == c.log
  {
  }

  lemma SwitchInv(s: Server, id: ConnId, on: bool)
    requires Inv(s) && id in s.conns && 1 <= |s.conns[id].log| < 4
    ensures Inv(Changed(s, id, SwitchReading(s.conns[id], on)))
  {
    hide Inv, Coherent, SwitchReading;
    StageOf(s, id);
    SwitchCoherent(s.conns[id], on, id in s.names, |s.loops|);
    ChangedInv(s, id, SwitchReading(s.conns[id], on));
  }

  lemma WriteInterestInv(s: Server, id: ConnId, on: bool)
    requires Inv(s) && id in s.conns && IsUp(s.conns[id]) && s.conns[id].channel.wantsWrite != on
    ensures Inv(Changed(s, id, SwitchWriting(s.conns[id], on)))
  {
    hide Inv;
    StageOf(s, id);
    ChangedInv(s, id, SwitchWriting(s.conns[id], on));
  }

  lemma DisconnectInv(s: Server, id: ConnId)
    requires Inv(s) && id in s.conns && IsUp(s.conns[id])
    ensures Inv(Disconnect(s, id))
  {
    hide Inv;
    StageOf(s, id);
    ChangedInv(s, id, s.conns[id].(state := Disconnecting));
  }

  lemma DeliverInv(s: Server, id: ConnId)
    requires Inv(s) && id in s.conns
    ensures Inv(Deliver(s, id))
  {
    hide Inv;
    StageOf(s, id);
    ChangedInv(s, id, Deliver(s, id).conns[id]);
  }

  lemma RunInv(s: Server, l: LoopId)
    requires Inv(s) && !s.failed && Enabled(s, RunFunctor(l))
    ensures var f := s.loops[l].batch[0];
            var s' := Run(Popped(s, l), f);
            (s'.failed <==> f.Destroy? && LastOn(s.conns[f.id].after)) && (!s'.failed ==> Inv(s'))
  {
    hide Inv, ConnectEstablished, RemoveConnectionInLoop, ConnectDestroyed, HandleClose, SwitchReading;
    match s.loops[l].batch[0]
    case Establish(id) => RunEstablishInv(s, l, id);
    case Remove(id) => RunRemoveInv(s, l, id);
    case Destroy(id) => DestroyFailsExactly(s, l, id);
    case ForceClose(id) =>
      RunLooseInv(s, l);
      UpExactly(Popped(s, l), id);
      if IsUp(s.conns[id]) {
        CloseInv(Popped(s, l), id);
      }
    case Raw(_) => RunLooseInv(s, l);
    case SwitchRead(id, on) =>
      LooseHead(s, l);
      RunLooseInv(s, l);
      SwitchInv(Popped(s, l), id, on);
  }

  // ----- Events -----

  /** The next active channel belongs to a connection of this loop that has been up and not been destroyed. */
  lemma TakenInv(s: Server, l: LoopId)
    requires Inv(s) && l < |s.loops| && s.loops[l].active != []
    ensures Inv(Taken(s, l))
    ensures var id := s.loops[l].active[0].id; Known(s, id) && s.conns[id].loop == l && 1 <= |s.conns[id].log| < 4
  {
    var loop, s' := s.loops[l], Taken(s, l);
    hide AllCoherent, TokensAt, LooseAt;
    assert LoopOk(l, loop, s.conns);
    assert ActiveOk(l, loop.active[0].id, s.conns);
    assert Todo(s'.loops[l]) == Todo(loop);
    assert ActiveAt(l, s'.loops[l], s'.conns);
    hide ActiveAt;
  }

  /** handleClose fails exactly for a connection that is not up. */
  lemma CloseFailsExactly(s: Server, id: ConnId)
    requires Inv(s) && !s.failed && Known(s, id)
    ensures var s' := HandleClose(s, id);
            (s'.failed <==> !IsUp(s.conns[id])) && Inv(s') && Known(s', id) &&
              (!s'.failed ==> s'.conns[id].state == Disconnected)
  {
    UpExactly(s, id);
    if IsUp(s.conns[id]) {
      CloseInv(s, id);
    }
  }

  /** Whether handling these events fails: they close twice, or they close a connection that is closed already. */
  predicate DispatchFails(c: Conn, ev: Revents, n: int) {
    ClosesTwice(ev, n) || (c.state == Disconnected && Closes(ev, n))
  }

  /** Handling events fails, on the assertion of handleClose, exactly for a hang-up without input that comes with
      priority data or a peer shutdown, when the read then finds the end of input, and for events that close a
      connection that is closed already. Otherwise the invariant is kept. */
  lemma DispatchFailsExactly(s: Server, id: ConnId, ev: Revents, n: int)
    requires Inv(s) && !s.failed && Known(s, id) && |s.conns[id].log| >= 1
    ensures var s' := HandleEvent(s, id, ev, n); (s'.failed <==> DispatchFails(s.conns[id], ev, n)) && Inv(s')
  {
    hide Inv, HandleClose, HandleRead;
    UpExactly(s, id);
    CloseFailsExactly(s, id);
    var s' := HandleClose(s, id);
    ReadFailsExactly(s, id, n);
    if !s'.failed {
      ReadFailsExactly(s', id, n);
    }
  }

  lemma ReadFailsExactly(s: Server, id: ConnId, n: int)
    requires Inv(s) && !s.failed && Known(s, id)
    ensures var s' := HandleRead(s, id, n); (s'.failed <==> n == 0 && !IsUp(s.conns[id])) && Inv(s')
  {
    hide Inv, HandleClose;
    CloseFailsExactly(s, id);
    DeliverInv(s, id);
  }

  lemma PollInv(s: Server, l: LoopId, ready: seq<Ready>)
    requires Inv(s) && Enabled(s, Poll(l, ready))
    ensures Inv(WithLoop(s, l, s.loops[l].(phase := Handling, active := ready)))
  {
    var loop := s.loops[l];
    var loop' := loop.(phase := Handling, active := ready);
    assert LoopOk(l, loop, s.conns);
    forall i | 0 <= i < |ready|
      ensures ActiveOk(l, ready[i].id, s.conns)
    {
      assert Coherent(s.conns[ready[i].id], ready[i].id in s.names, |s.loops|);
    }
    hide AllCoherent, TokensAt, LooseAt, ActiveOk;
    assert Todo(loop') == Todo(loop);
    assert LoopOk(l, loop', s.conns);
    hide LoopOk;
  }

  lemma SwapInv(s: Server, l: LoopId)
    requires Inv(s) && l < |s.loops| && s.loops[l].phase == Handling && s.loops[l].active == []
    ensures Inv(WithLoop(s, l, s.loops[l].(phase := Calling, batch := s.loops[l].queue, queue := [])))
  {
    var loop := s.loops[l];
    var loop' := loop.(phase := Calling, batch := loop.queue, queue := []);
    hide AllCoherent, TokensAt, LooseAt;
    assert LoopOk(l, loop, s.conns);
    assert Todo(loop') == Todo(loop);
    assert LoopOk(l, loop', s.conns);
    hide LoopOk;
  }

  lemma DoneInv(s: Server, l: LoopId)
    requires Inv(s) && l < |s.loops| && s.loops[l].phase == Calling && s.loops[l].batch == []
    ensures Inv(WithLoop(s, l, s.loops[l].(phase := Polling)))
  {
    var loop := s.loops[l];
    var loop' := loop.(phase := Polling);
    hide AllCoherent, TokensAt, LooseAt;
    assert LoopOk(l, loop, s.conns);
    assert Todo(loop') == Todo(loop);
    assert LoopOk(l, loop', s.conns);
    hide LoopOk;
  }

  // ----- Calls from any thread -----

  lemma PushLooseInv(s: Server, f: Functor)
    requires Inv(s) && !Token(f) && Known(s, f.id) && |s.conns[f.id].log| == 1
    ensures Inv(Push(s, s.conns[f.id].loop, f))
  {
    var l := s.conns[f.id].loop;
    var loop := s.loops[l];
    var loop' := loop.(queue := loop.queue + [f]);
    hide AllCoherent;
    assert LoopOk(l, loop, s.conns);
    assert Todo(loop') == Todo(loop) + [f];
    NoDestroyYet(l, Todo(loop), s.conns, f.id);
    LoosePush(l, Todo(loop), s.conns, f);
    TokensPushLoose(l, Todo(loop), s.conns, f);
    hide TokensAt, LooseAt, Todo;
    assert ActiveAt(l, loop', s.conns);
    assert LoopOk(l, loop', s.conns);
    hide LoopOk;
  }

  lemma NoDestroyYet(l: LoopId, todo: seq<Functor>, conns: map<ConnId, Conn>, id: ConnId)
    requires TokensAt(l, todo, conns) && id in conns && |conns[id].log| != 3
    ensures Destroy(id) !in todo
  {
    assert multiset(todo)[Destroy(id)] == Expected(l, Destroy(id), conns) == 0;
    assert Destroy(id) !in multiset(todo);
  }

  lemma CallInv(s: Server, id: ConnId, f: Functor)
    requires Inv(s) && Known(s, id) && IsUp(s.conns[id]) && !Token(f) && f.id == id
    ensures Inv(Disconnect(s, id)) && Inv(Push(Disconnect(s, id), s.conns[id].loop, f)) &&
            Inv(Push(s, s.conns[id].loop, f))
  {
    hide Inv;
    DisconnectInv(s, id);
    UpExactly(s, id);
    PushLooseInv(Disconnect(s, id), f);
    PushLooseInv(s, f);
  }

  // ----- Steps and runs -----

  /** Whether this step fails an assertion of the source. */
  predicate Trouble(s: Server, step: Step) {
    Enabled(s, step) &&
    match step
    case Dispatch(l, n) => DispatchFails(s.conns[s.loops[l].active[0].id], s.loops[l].active[0].ev, n)
    case RunFunctor(l) => s.loops[l].batch[0].Destroy? && LastOn(s.conns[s.loops[l].batch[0].id].after)
    case _ => false
  }

  lemma ActInv(s: Server, step: Step)
    requires Inv(s) && !s.failed && Enabled(s, step)
    ensures var s' := Act(s, step); (s'.failed <==> Trouble(s, step)) && (!s'.failed ==> Inv(s'))
  {
    hide Inv, Run, HandleEvent, NewConnection, DispatchFails, SwitchReading, SwitchWriting;
    match step
    case Accept(io) => AcceptInv(s, io);
    case Poll(l, ready) => PollInv(s, l, ready);
    case Dispatch(l, n) =>
      TakenInv(s, l);
      DispatchFailsExactly(Taken(s, l), s.loops[l].active[0].id, s.loops[l].active[0].ev, n);
    case SwapFunctors(l) => SwapInv(s, l);
    case RunFunctor(l) => RunInv(s, l);
    case FunctorsDone(l) => DoneInv(s, l);
    case CallForceClose(id) => CallInv(s, id, ForceClose(id));
    case CallShutdown(id, _) => CallInv(s, id, Raw(id));
    case CallSend(id) => CallInv(s, id, Raw(id));
    case CallRead(id, on) => UpExactly(s, id); SwitchInv(s, id, on);
    case PostRead(id, on) => CallInv(s, id, SwitchRead(id, on));
    case WriteInterest(id, on) => WriteInterestInv(s, id, on);
  }

  /** A step fails exactly if it is a dispatch that closes a connection twice or again, or the destruction of a
      connection for which reading was switched on after its close and not off again. */
  lemma FailsExactly(s: Server, step: Step)
    requires Inv(s) && !s.failed
    ensures Apply(s, step).failed <==> Trouble(s, step)
  {
    hide Inv, Act;
    if Enabled(s, step) {
      ActInv(s, step);
    }
  }

  lemma FailInv(s: Server)
    requires Inv(s)
    ensures Inv(Fail(s))
  {
    hide LoopOk, AllCoherent;
  }

  /** Every step keeps the invariant; no assumption is made. */
  lemma ApplyInv(s: Server, step: Step)
    requires Inv(s)
    ensures Inv(Apply(s, step))
  {
    hide Inv, Act, Trouble;
    if !s.failed && Enabled(s, step) {
      ActInv(s, step);
      FailInv(s);
    }
  }

  lemma {:induction false} ExecInv(s: Server, steps: seq<Step>)
    requires Inv(s)
    ensures Inv(Exec(s, steps))
    decreases |steps|
  {
    hide Inv, Apply;
    if steps != [] {
      ApplyInv(s, steps[0]);
      ExecInv(Apply(s, steps[0]), steps[1..]);
    }
  }

  lemma StartInv(nloops: nat)
    requires nloops >= 1
    ensures Inv(Start(nloops))
  {
    forall l | 0 <= l < nloops
      ensures LoopOk(l, Start(nloops).loops[l], Start(nloops).conns)
    {
      assert Todo(Start(nloops).loops[l]) == [];
    }
  }
}
