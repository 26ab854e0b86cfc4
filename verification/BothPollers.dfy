/** The two pollers (muduo/net/poller/EPollPoller.cc, muduo/net/poller/PollPoller.cc) do the same: after any sequence of
    changes and removals they watch the same descriptors for the same events. */
module BothPollers {

  import opened Pollers

  /** What a channel in the poller asks for, and whether its only update so far asked for nothing. */
  datatype Ask = Ask(events: Events, bare: bool)

  type Asks = map<int, Ask>

  datatype Op = ChangeAt(fd: nat, change: InterestChange) | RemoveAt(fd: nat)

  /** The channel of an unknown descriptor is new. A removal finds the channel asking for nothing, after it has asked
      for something. */
  predicate Allowed(asks: Asks, op: Op) {
    match op
    case ChangeAt(_, _) => true
    case RemoveAt(fd) => fd in asks && asks[fd].events == NONE_EVENT && !asks[fd].bare
  }

  function Next(asks: Asks, op: Op): Asks {
    match op
    case ChangeAt(fd, change) =>
      var events := Masked(if fd in asks then asks[fd].events else NONE_EVENT, change);
      asks[fd := Ask(events, fd !in asks && events == NONE_EVENT)]
    case RemoveAt(fd) => asks - {fd}
  }

  predicate AllAllowed(asks: Asks, ops: seq<Op>)
    decreases |ops|
  {
    ops != [] ==> Allowed(asks, ops[0]) && AllAllowed(Next(asks, ops[0]), ops[1..])
  }

  function After(asks: Asks, ops: seq<Op>): Asks
    decreases |ops|
  {
    if ops == [] then asks else After(Next(asks, ops[0]), ops[1..])
  }

  /** The descriptors for which something is asked. */
  function Wanted(asks: Asks): map<int, Events> {
    map fd | fd in asks && asks[fd].events != NONE_EVENT :: asks[fd].events
  }

  /** The channels ask for what they should. */
  predicate Agree(asked: map<int, Events>, asks: Asks) {
    asked.Keys == asks.Keys && forall fd :: fd in asks ==> asked[fd] == asks[fd].events && asks[fd].events < 8
  }

  lemma AgreeNext(asked: map<int, Events>, asks: Asks, op: Op)
    requires Agree(asked, asks)
    ensures op.ChangeAt? ==>
              var events := Masked(if op.fd in asked then asked[op.fd] else NONE_EVENT, op.change);
              Agree(asked[op.fd := events], Next(asks, op))
    ensures op.RemoveAt? ==> Agree(asked - {op.fd}, Next(asks, op))
  {
    if op.ChangeAt? {
      MaskBits(if op.fd in asked then asked[op.fd] else NONE_EVENT, op.change);
    }
  }

  // ----- epoll -----

  ghost predicate EPollModels(e: EPollPoller, asks: Asks)
    reads e, e.channels.Values
  {
    e.Valid() && Agree(e.Asked(), asks)
  }

  /** What the kernel watches depends only on what the channels ask for. */
  lemma EPollInterest(e: EPollPoller, asks: Asks)
    requires EPollModels(e, asks)
    ensures e.Interest() == Wanted(asks)
  {
    var index, asked, kernel := e.Index(), e.Asked(), e.Watched();
    forall fd
      ensures fd in e.Interest() <==> fd in Wanted(asks)
      ensures fd in e.Interest() ==> e.Interest()[fd] == Wanted(asks)[fd]
    {
      KernelEntry(index, asked, kernel, {}, fd);
      assert fd in index <==> fd in asks;
      if fd in asks {
        Unregistered(index, asked, kernel, fd);
      }
      hide Registered;
    }
  }

  lemma Unregistered(index: map<int, int>, asked: map<int, Events>, kernel: map<int, Events>, fd: int)
    requires Registered(index, asked, kernel, {}) && fd in index && fd in asked
    ensures fd !in kernel ==> asked[fd] == NONE_EVENT
  {
  }

  lemma EPollTracks(e: EPollPoller, fd: int)
    requires e.Valid() && fd in e.channels
    ensures e.channels[fd].fd == fd && e.channels[fd].index != NEW && e.Tracks(e.channels[fd])
  {
    assert e.Index()[fd] == e.channels[fd].index;
    KernelEntry(e.Index(), e.Asked(), e.Watched(), {}, fd);
    hide Registered;
  }

  method EPollChange(e: EPollPoller, fd: nat, change: InterestChange, ghost asks: Asks)
    requires EPollModels(e, asks)
    modifies e, e.channels.Values
    ensures EPollModels(e, Next(asks, ChangeAt(fd, change))) && fresh(e.channels.Values - old(e.channels.Values))
  {
    AgreeNext(e.Asked(), asks, ChangeAt(fd, change));
    var ch: Channel;
    if fd in e.channels {
      ch := e.channels[fd];
      EPollTracks(e, fd);
      assert e.Asked()[fd] == ch.events < 8;
    } else {
      ch := new Channel(fd);
    }
    hide Registered, Agree, Masked, Next;
    ch.Change(change, e);
  }

  method EPollRemove(e: EPollPoller, fd: nat, ghost asks: Asks)
    requires EPollModels(e, asks) && Allowed(asks, RemoveAt(fd))
    modifies e, e.channels.Values
    ensures EPollModels(e, Next(asks, RemoveAt(fd))) && fresh(e.channels.Values - old(e.channels.Values))
  {
    AgreeNext(e.Asked(), asks, RemoveAt(fd));
    assert fd in e.Asked() && e.Asked()[fd] == NONE_EVENT;
    EPollTracks(e, fd);
    hide Registered, Agree, Next;
    e.RemoveChannel(e.channels[fd]);
  }

  // ----- poll -----

  predicate BareAgree(bare: set<int>, asks: Asks) {
    forall fd :: fd in asks ==> (fd in bare <==> asks[fd].bare)
  }

  ghost predicate PollModels(p: PollPoller, asks: Asks)
    reads p, p.channels.Values
  {
    p.Valid() && Agree(p.Asked(), asks) && BareAgree(p.bare, asks)
  }

  lemma PollInterest(p: PollPoller, asks: Asks)
    requires PollModels(p, asks)
    ensures p.Interest() == Wanted(asks)
  {
    var index, asked := p.Index(), p.Asked();
    forall fd
      ensures fd in p.Interest() <==> fd in Wanted(asks)
      ensures fd in p.Interest() ==> p.Interest()[fd] == Wanted(asks)[fd]
    {
      assert fd in index <==> fd in asks;
      if fd in asks {
        SlotOf(p.pollfds, index, asked, p.bare, fd);
      }
      hide Faithful, Matched;
    }
  }

  lemma SlotOf(slots: seq<PollFd>, index: map<int, int>, asked: map<int, Events>, bare: set<int>, fd: int)
    requires Matched(slots, index) && Faithful(slots, index, asked, bare, -1) && fd in index && fd in asked
    ensures slots[index[fd]].events == asked[fd] && (Watching(slots[index[fd]]) <==> asked[fd] != NONE_EVENT)
  {
  }

  lemma PollTracks(p: PollPoller, fd: int)
    requires p.Valid() && fd in p.channels
    ensures p.channels[fd].fd == fd && p.channels[fd].index >= 0 && p.Tracks(p.channels[fd])
  {
    assert p.Index()[fd] == p.channels[fd].index;
    IndexInRange(p.pollfds, p.Index(), fd);
  }

  /** The channel of a descriptor: the one in the poller, or a new one. */
  method PollChannel(p: PollPoller, fd: nat, ghost asks: Asks) returns (ch: Channel)
    requires PollModels(p, asks)
    ensures p.Tracks(ch) && ch.PlainMask() && ch.fd == fd && (ch.index < 0 <==> fd !in asks)
    ensures ch.events == if fd in asks then asks[fd].events else NONE_EVENT
    ensures if fd in asks then ch in p.channels.Values else fresh(ch)
  {
    assert fd in p.Asked() <==> fd in p.channels;
    if fd in p.channels {
      ch := p.channels[fd];
      PollTracks(p, fd);
      assert p.Asked()[fd] == ch.events < 8;
    } else {
      ch := new Channel(fd);
    }
  }

  method PollChange(p: PollPoller, fd: nat, change: InterestChange, ghost asks: Asks)
    requires PollModels(p, asks)
    modifies p, p.channels.Values
    ensures PollModels(p, Next(asks, ChangeAt(fd, change))) && fresh(p.channels.Values - old(p.channels.Values))
  {
    hide Matched, Faithful, Masked, Next, BareAgree, InterestOf;
    AgreeNext(p.Asked(), asks, ChangeAt(fd, change));
    BareNext(p.bare, asks, fd, change);
    assert fd in p.Asked() <==> fd in asks;
    assert fd in asks ==> p.Asked()[fd] == asks[fd].events;
    hide Agree;
    var ch := PollChannel(p, fd, asks);
    ch.ChangeInPoll(change, p);
  }

  lemma BareNext(bare: set<int>, asks: Asks, fd: nat, change: InterestChange)
    requires BareAgree(bare, asks)
    ensures var events := Masked(if fd in asks then asks[fd].events else NONE_EVENT, change);
            BareAgree(if fd !in asks && events == NONE_EVENT then bare + {fd} else bare - {fd},
                      Next(asks, ChangeAt(fd, change)))
    ensures BareAgree(bare, Next(asks, RemoveAt(fd)))
  {
    hide Masked;
  }

  method PollRemove(p: PollPoller, fd: nat, ghost asks: Asks)
    requires PollModels(p, asks) && Allowed(asks, RemoveAt(fd))
    modifies p, p.channels.Values
    ensures PollModels(p, Next(asks, RemoveAt(fd))) && fresh(p.channels.Values - old(p.channels.Values))
  {
    AgreeNext(p.Asked(), asks, RemoveAt(fd));
    assert fd in p.Asked() && p.Asked()[fd] == NONE_EVENT && fd !in p.bare;
    PollTracks(p, fd);
    BareNext(p.bare, asks, fd, DisableAll);
    hide Matched, Faithful, Agree, Next, BareAgree, InterestOf;
    p.RemoveChannel(p.channels[fd]);
  }

  // ----- Both -----

  method BothStep(e: EPollPoller, p: PollPoller, op: Op, ghost asks: Asks)
    requires EPollModels(e, asks) && PollModels(p, asks) && Allowed(asks, op)
    requires e.channels.Values !! p.channels.Values
    modifies e, p, e.channels.Values, p.channels.Values
    ensures EPollModels(e, Next(asks, op)) && PollModels(p, Next(asks, op))
    ensures fresh(e.channels.Values - old(e.channels.Values)) && fresh(p.channels.Values - old(p.channels.Values))
    ensures e.channels.Values !! p.channels.Values
  {
    hide Next, Registered, Agree, BareAgree, Matched, Faithful;
    match op
    case ChangeAt(fd, change) =>
      EPollChange(e, fd, change, asks);
      PollChange(p, fd, change, asks);
    case RemoveAt(fd) =>
      EPollRemove(e, fd, asks);
      PollRemove(p, fd, asks);
  }

  /** The same changes and removals, each poller with its own channels: at the end both watch the same. */
  method Compare(ops: seq<Op>) returns (e: EPollPoller, p: PollPoller)
    requires AllAllowed(map[], ops)
    ensures fresh(e) && fresh(p) && e.Valid() && p.Valid()
    ensures e.Interest() == p.Interest() == Wanted(After(map[], ops))
  {
    e := new EPollPoller();
    p := new PollPoller();
    ghost var asks: Asks := map[];
    assert EPollModels(e, asks) && PollModels(p, asks);
    hide Allowed, Next, EPollModels, PollModels;
    for i := 0 to |ops|
      invariant fresh(e) && fresh(p) && fresh(e.channels.Values) && fresh(p.channels.Values)
      invariant e.channels.Values !! p.channels.Values
      invariant EPollModels(e, asks) && PollModels(p, asks)
      invariant AllAllowed(asks, ops[i..]) && After(asks, ops[i..]) == After(map[], ops)
    {
      assert ops[i..][0] == ops[i] && ops[i..][1..] == ops[i + 1..];
      BothStep(e, p, ops[i], asks);
      asks := Next(asks, ops[i]);
    }
    ModelsAreValid(e, p, asks);
    EPollInterest(e, asks);
    PollInterest(p, asks);
  }

  lemma ModelsAreValid(e: EPollPoller, p: PollPoller, asks: Asks)
    requires EPollModels(e, asks) && PollModels(p, asks)
    ensures e.Valid() && p.Valid()
  {
  }
}
