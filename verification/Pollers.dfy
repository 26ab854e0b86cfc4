/** The two pollers (muduo/net/poller/EPollPoller.cc, muduo/net/poller/PollPoller.cc) and the part of a channel that
    they maintain (muduo/net/Channel.h). Both implement the same thing: a map from descriptors to the events that
    their channels ask for. */
module Pollers {

  /** A mask of poll events. Bits 0 and 1 are POLLIN and POLLPRI, the read events; bit 2 is POLLOUT. */
  type Events = nat

  const NONE_EVENT: Events := 0

  predicate Reads(events: Events) {
    events % 4 != 0
  }

  predicate Writes(events: Events) {
    (events / 4) % 2 == 1
  }

  /** The interest map after a channel has asked for `events`. */
  function Watch(interest: map<int, Events>, fd: int, events: Events): map<int, Events> {
    if events == NONE_EVENT then interest - {fd} else interest[fd := events]
  }

  class Channel {
    const fd: nat
    var events: Events
    var revents: Events
    var index: int

    constructor (fd: nat)
      ensures this.fd == fd && events == NONE_EVENT && index == -1
    {
      this.fd := fd;
      events, revents, index := NONE_EVENT, NONE_EVENT, -1;
    }

    predicate IsNoneEvent()
      reads this
    {
      events == NONE_EVENT
    }

    predicate IsReading()
      reads this
    {
      Reads(events)
    }

    predicate IsWriting()
      reads this
    {
      Writes(events)
    }

    /** Only the bits of the two constants are ever set. */
    ghost predicate PlainMask()
      reads this
    {
      events < 8
    }

    /** enableReading and its companions: change the mask, then tell the poller. */
    method Change(change: InterestChange, poller: EPollPoller)
      requires PlainMask() && poller.Valid() && poller.Tracks(this)
      modifies poller, this`events, this`index
      ensures poller.Valid() && poller.Tracks(this)
      ensures index == if old(index) == ADDED && IsNoneEvent() then DELETED else ADDED
      ensures PlainMask() && events == Masked(old(events), change)
      ensures IsReading() <==> Switched(old(IsReading()), change, EnableReading, DisableReading)
      ensures IsWriting() <==> Switched(old(IsWriting()), change, EnableWriting, DisableWriting)
      ensures IsNoneEvent() <==> !IsReading() && !IsWriting()
      ensures BitsSwitched(old(events), change, events)
      ensures poller.Interest() == Watch(old(poller.Interest()), fd, events)
      ensures poller.channels == old(poller.channels)[fd := this] && poller.Asked() == old(poller.Asked())[fd := events]
    {
      MaskBits(events, change);
      poller.BeforeChange(this, Masked(events, change));
      hide Masked, BitsSwitched;
      poller.UpdateChannel(this);
    }

    /** The same with the other poller. */
    method ChangeInPoll(change: InterestChange, poller: PollPoller)
      requires PlainMask() && poller.Valid() && poller.Tracks(this)
      modifies poller, this`events, this`index
      ensures poller.Valid() && poller.Tracks(this) && index >= 0
      ensures PlainMask() && events == Masked(old(events), change)
      ensures IsReading() <==> Switched(old(IsReading()), change, EnableReading, DisableReading)
      ensures IsWriting() <==> Switched(old(IsWriting()), change, EnableWriting, DisableWriting)
      ensures IsNoneEvent() <==> !IsReading() && !IsWriting()
      ensures BitsSwitched(old(events), change, events)
      ensures poller.Interest() == Watch(old(poller.Interest()), fd, events)
      ensures poller.channels == old(poller.channels)[fd := this] && poller.Asked() == old(poller.Asked())[fd := events]
      ensures poller.bare == if old(index) < 0 && IsNoneEvent() then old(poller.bare) + {fd}
                             else old(poller.bare) - {fd}
    {
      hide InterestOf;
      MaskBits(events, change);
      poller.BeforeChange(this, Masked(events, change));
      hide Masked, BitsSwitched;
      poller.UpdateChannel(this);
    }
  }

  /** Or-ing and and-ing with the read mask 3 and the write mask 4. */
  function Masked(events: Events, change: InterestChange): Events {
    match change
    case EnableReading => events - events % 4 + 3
    case DisableReading => events - events % 4
    case EnableWriting => if Writes(events) then events else events + 4
    case DisableWriting => if Writes(events) then events - 4 else events
    case DisableAll => NONE_EVENT
  }

  /** Whether a bit is set after the change, given the two changes that concern it. */
  predicate Switched(was: bool, change: InterestChange, on: InterestChange, off: InterestChange) {
    change == on || (was && change != off && change != DisableAll)
  }

  /** Each bit of the mask after the change: both read bits, or the write bit, or none of them. */
  predicate BitsSwitched(before: Events, change: InterestChange, after: Events) {
    && (Bit(after, POLLIN) <==> Switched(Bit(before, POLLIN), change, EnableReading, DisableReading))
    && (Bit(after, POLLPRI) <==> Switched(Bit(before, POLLPRI), change, EnableReading, DisableReading))
    && (Bit(after, POLLOUT) <==> Switched(Bit(before, POLLOUT), change, EnableWriting, DisableWriting))
  }

  predicate Bit(events: Events, weight: nat)
    requires weight > 0
  {
    events / weight % 2 == 1
  }

  const POLLIN: nat := 1
  const POLLPRI: nat := 2
  const POLLOUT: nat := 4

  lemma MaskBits(events: Events, change: InterestChange)
    requires events < 8
    ensures var e := Masked(events, change);
            e < 8 && (Reads(e) <==> Switched(Reads(events), change, EnableReading, DisableReading)) &&
            (Writes(e) <==> Switched(Writes(events), change, EnableWriting, DisableWriting)) &&
            (e == NONE_EVENT <==> !Reads(e) && !Writes(e)) && BitsSwitched(events, change, e)
  {
  }

  datatype InterestChange = EnableReading | DisableReading | EnableWriting | DisableWriting | DisableAll

  // ----- epoll -----

  const NEW := -1
  const ADDED := 1
  const DELETED := 2

  datatype CtlOp = CtlAdd | CtlMod | CtlDel

  /** What the kernel keeps for a registered descriptor. */
  datatype Registration = Registration(events: Events, channel: Channel)

  /** The kernel watches exactly the descriptors marked as added, for the events that their channels ask for; those
      marked as deleted ask for nothing. The events of the descriptors in `but` may be out of date. */
  predicate Registered(index: map<int, int>, asked: map<int, Events>, kernel: map<int, Events>, but: set<int>) {
    && (forall fd :: fd in index ==>
       (index[fd] == ADDED || index[fd] == DELETED) && (index[fd] == ADDED <==> fd in kernel))
    && (forall fd :: fd in kernel ==> fd in index)
    && (forall fd :: fd in index && fd !in but ==>
          fd in asked && if fd in kernel then kernel[fd] == asked[fd] else asked[fd] == NONE_EVENT)
  }

  function KernelInterest(kernel: map<int, Events>): map<int, Events> {
    map fd | fd in kernel && kernel[fd] != NONE_EVENT :: kernel[fd]
  }

  lemma KernelAdd(index: map<int, int>, asked: map<int, Events>, kernel: map<int, Events>, fd: int, events: Events)
    requires Registered(index, asked, kernel, {fd})
    ensures Registered(index[fd := ADDED], asked[fd := events], kernel[fd := events], {})
  {
  }

  lemma KernelDelete(index: map<int, int>, asked: map<int, Events>, kernel: map<int, Events>, fd: int)
    requires Registered(index, asked, kernel, {fd})
    ensures Registered(index[fd := DELETED], asked[fd := NONE_EVENT], kernel - {fd}, {})
  {
  }

  lemma KernelForget(index: map<int, int>, asked: map<int, Events>, kernel: map<int, Events>, fd: int)
    requires Registered(index, asked, kernel, {})
    ensures Registered(index - {fd}, asked - {fd}, kernel - {fd}, {})
  {
  }

  lemma KernelWatches(kernel: map<int, Events>, fd: int, events: Events)
    ensures KernelInterest(kernel[fd := events]) == Watch(KernelInterest(kernel), fd, events)
    ensures KernelInterest(kernel - {fd}) == Watch(KernelInterest(kernel), fd, NONE_EVENT)
  {
  }

  lemma KernelEntry(index: map<int, int>, asked: map<int, Events>, kernel: map<int, Events>, but: set<int>, fd: int)
    requires Registered(index, asked, kernel, but)
    ensures fd in kernel <==> fd in index && index[fd] == ADDED
    ensures fd in index ==> index[fd] == ADDED || index[fd] == DELETED
    ensures fd in index && fd !in but ==> fd in asked && (fd in kernel ==> kernel[fd] == asked[fd])
  {
  }

  lemma KernelForgets(index: map<int, int>, asked: map<int, Events>, kernel: map<int, Events>, fd: int)
    requires Registered(index, asked, kernel, {}) && fd in index && fd in asked && asked[fd] == NONE_EVENT
    ensures Registered(index - {fd}, asked - {fd}, kernel - {fd}, {})
    ensures KernelInterest(kernel - {fd}) == KernelInterest(kernel)
    ensures fd in kernel <==> index[fd] == ADDED
  {
    KernelForget(index, asked, kernel, fd);
    KernelEntry(index, asked, kernel, {}, fd);
    hide Registered;
  }

  class EPollPoller {
    var channels: map<int, Channel>
    var kernel: map<int, Registration>

    ghost predicate Tracks(ch: Channel)
      reads this, ch
    {
      && (ch.index == NEW || ch.index == ADDED || ch.index == DELETED)
      && (ch.index == NEW ==> ch.fd !in channels)
      && (ch.index != NEW ==> ch.fd in channels && channels[ch.fd] == ch)
    }

    ghost function Index(): map<int, int>
      reads this, channels.Values
    {
      map fd | fd in channels :: channels[fd].index
    }

    ghost function Asked(): map<int, Events>
      reads this, channels.Values
    {
      map fd | fd in channels :: channels[fd].events
    }

    ghost function Watched(): map<int, Events>
      reads this
    {
      map fd | fd in kernel :: kernel[fd].events
    }

    /** The maps hold each channel under its descriptor. */
    ghost predicate Linked()
      reads this, channels.Values
    {
      && (forall fd :: fd in channels ==> channels[fd].fd == fd)
      && (forall fd :: fd in kernel && fd in channels ==> kernel[fd].channel == channels[fd])
    }

    /** Valid but for the events of some descriptors, whose channels have changed them and not yet been updated. */
    ghost predicate ValidBut(but: set<int>)
      reads this, channels.Values
    {
      Linked() && Registered(Index(), Asked(), Watched(), but)
    }

    ghost predicate Valid()
      reads this, channels.Values
    {
      ValidBut({})
    }

    ghost function Interest(): map<int, Events>
      reads this
    {
      KernelInterest(Watched())
    }

    constructor ()
      ensures Valid() && channels == map[] && Interest() == map[]
    {
      channels, kernel := map[], map[];
    }

    /** epoll_ctl: the kernel refuses to add what it has, and to modify or delete what it has not. */
    method Update(op: CtlOp, ch: Channel)
      requires op == CtlAdd ==> ch.fd !in kernel
      requires op != CtlAdd ==> ch.fd in kernel
      modifies this`kernel
      ensures kernel == if op == CtlDel then old(kernel) - {ch.fd}
              else old(kernel)[ch.fd := Registration(ch.events, ch)]
      ensures Watched() == if op == CtlDel then old(Watched()) - {ch.fd} else old(Watched())[ch.fd := ch.events]
    {
      if op == CtlDel {
        kernel := kernel - {ch.fd};
      } else {
        kernel := kernel[ch.fd := Registration(ch.events, ch)];
      }
    }

    /** A channel changes its events; until the update its registration is out of date. */
    method BeforeChange(ch: Channel, events: Events)
      requires Valid() && Tracks(ch)
      modifies ch`events
      ensures ch.events == events && ValidBut({ch.fd}) && Tracks(ch) && Interest() == old(Interest())
      ensures Asked()[ch.fd := events] == old(Asked())[ch.fd := events]
    {
      ghost var index0, asked0 := Index(), Asked();
      assert forall fd :: fd in channels && channels[fd] == ch ==> fd == ch.fd;
      ch.events := events;
      assert Index() == index0 && forall fd :: fd in channels && fd != ch.fd ==> Asked()[fd] == asked0[fd];
    }

    /** Afterwards the descriptor is registered, unless it was and the channel asks for nothing: a channel that is not
        registered and asks for nothing is registered without events. */
    method UpdateChannel(ch: Channel)
      requires ValidBut({ch.fd}) && Tracks(ch)
      modifies this, ch`index
      ensures Valid() && Tracks(ch)
      ensures ch.index == if old(ch.index) == ADDED && ch.IsNoneEvent() then DELETED else ADDED
      ensures channels == old(channels)[ch.fd := ch] && Asked() == old(Asked())[ch.fd := ch.events]
      ensures Interest() == Watch(old(Interest()), ch.fd, ch.events)
    {
      hide Registered, KernelInterest;
      ghost var index0, asked0, kernel0 := Index(), Asked(), Watched();
      KernelEntry(index0, asked0, kernel0, {ch.fd}, ch.fd);
      assert ch.fd in index0 <==> ch.index != NEW;
      KernelWatches(kernel0, ch.fd, ch.events);
      assert ch.fd in kernel <==> ch.index == ADDED;
      var index := ch.index;
      if index == NEW || index == DELETED {
        Register(ch);
        KernelAdd(index0, asked0, kernel0, ch.fd, ch.events);
      } else if ch.IsNoneEvent() {
        Update(CtlDel, ch);
        SetIndex(ch, DELETED);
        KernelDelete(index0, asked0, kernel0, ch.fd);
        assert Asked() == asked0[ch.fd := NONE_EVENT] && Index() == index0[ch.fd := DELETED] &&
               Watched() == kernel0 - {ch.fd};
        assert Registered(Index(), Asked(), Watched(), {});
        assert Linked();
      } else {
        Update(CtlMod, ch);
        KernelAdd(index0, asked0, kernel0, ch.fd, ch.events);
        assert Index() == index0[ch.fd := ADDED] && Asked() == asked0[ch.fd := ch.events];
        assert channels == old(channels)[ch.fd := ch];
      }
    }

    /** The branch for a channel that the kernel does not have. */
    method Register(ch: Channel)
      requires Linked() && Tracks(ch) && ch.index != ADDED && ch.fd !in kernel
      modifies this, ch`index
      ensures Linked() && Tracks(ch) && ch.index == ADDED
      ensures channels == old(channels)[ch.fd := ch] && Watched() == old(Watched())[ch.fd := ch.events]
      ensures Index() == old(Index())[ch.fd := ADDED] && Asked() == old(Asked())[ch.fd := ch.events]
    {
      assert forall fd :: fd in channels && channels[fd] == ch ==> fd == ch.fd;
      if ch.index == NEW {
        channels := channels[ch.fd := ch];
      }
      ch.index := ADDED;
      Update(CtlAdd, ch);
    }

    method SetIndex(ch: Channel, index: int)
      requires ch.fd in channels && channels[ch.fd] == ch && (index == ADDED || index == DELETED)
      requires forall fd :: fd in channels ==> channels[fd].fd == fd
      modifies ch`index
      ensures ch.index == index && Tracks(ch) && channels == old(channels)[ch.fd := ch]
      ensures Index() == old(Index())[ch.fd := index] && Asked() == old(Asked())[ch.fd := ch.events]
    {
      assert forall fd :: fd in channels && fd != ch.fd ==> channels[fd] != ch;
      ch.index := index;
    }

    method RemoveChannel(ch: Channel)
      requires Valid() && Tracks(ch) && ch.index != NEW && ch.IsNoneEvent()
      modifies this, ch`index
      ensures Valid() && Tracks(ch) && ch.index == NEW
      ensures channels == old(channels) - {ch.fd} && Asked() == old(Asked()) - {ch.fd}
      ensures Interest() == old(Interest())
    {
      hide Registered, KernelInterest;
      ghost var index0, asked0, kernel0 := Index(), Asked(), Watched();
      KernelForgets(index0, asked0, kernel0, ch.fd);
      Unlink(ch);
    }

    /** The channel leaves the maps. */
    method Unlink(ch: Channel)
      requires Linked() && ch.fd in channels && channels[ch.fd] == ch && (ch.fd in kernel <==> ch.index == ADDED)
      modifies this, ch`index
      ensures Linked() && ch.index == NEW && channels == old(channels) - {ch.fd}
      ensures Index() == old(Index()) - {ch.fd} && Asked() == old(Asked()) - {ch.fd} &&
              Watched() == old(Watched()) - {ch.fd}
    {
      assert forall fd :: fd in channels && fd != ch.fd ==> channels[fd] != ch;
      var index := ch.index;
      channels := channels - {ch.fd};
      if index == ADDED {
        Update(CtlDel, ch);
      }
      ch.index := NEW;
    }

    /** What epoll_wait reported, descriptor by descriptor. */
    method FillActiveChannels(ready: seq<(int, Events)>) returns (active: seq<Channel>)
      requires Valid()
      requires forall i :: 0 <= i < |ready| ==> ready[i].0 in kernel
      requires forall i, j :: 0 <= i < j < |ready| ==> ready[i].0 != ready[j].0
      modifies channels.Values`revents
      ensures Valid() && |active| == |ready|
      ensures forall i :: 0 <= i < |ready| ==>
                ready[i].0 in channels && active[i] == channels[ready[i].0] && active[i].revents == ready[i].1
    {
      ghost var index0, asked0 := Index(), Asked();
      assert forall fd :: fd in kernel ==> fd in Watched() && fd in channels;
      hide Registered;
      active := [];
      for i := 0 to |ready|
        invariant |active| == i && Linked() && Index() == index0 && Asked() == asked0
        invariant forall k :: 0 <= k < i ==>
                    ready[k].0 in channels && active[k] == channels[ready[k].0] && active[k].revents == ready[k].1
      {
        var fd := ready[i].0;
        var ch := kernel[fd].channel;
        assert ch == channels[fd];
        assert forall k :: 0 <= k < i ==> active[k].fd == ready[k].0;
        ch.revents := ready[i].1;
        active := active + [ch];
      }
    }
  }

  // ----- poll -----

  datatype PollFd = PollFd(fd: int, events: Events, revents: Events)

  /** A slot that poll must ignore holds -fd - 1. */
  function SlotFd(slot: PollFd): int {
    if slot.fd < 0 then -1 - slot.fd else slot.fd
  }

  /** Slots and descriptors are in one-to-one correspondence through the index of each descriptor. */
  predicate Matched(slots: seq<PollFd>, index: map<int, int>) {
    && (forall fd :: fd in index ==> 0 <= index[fd] < |slots| && SlotFd(slots[index[fd]]) == fd && fd >= 0)
    && (forall i :: 0 <= i < |slots| ==> SlotFd(slots[i]) in index && index[SlotFd(slots[i])] == i)
  }

  predicate Watching(slot: PollFd) {
    slot.fd >= 0 && slot.events != NONE_EVENT
  }

  /** The descriptors that poll looks at, with their events. */
  function InterestOf(slots: seq<PollFd>, index: map<int, int>): map<int, Events>
    requires Matched(slots, index)
  {
    map fd | fd in index && Watching(slots[index[fd]]) :: slots[index[fd]].events
  }

  /** Each slot but one holds what its channel asks for; it is ignored exactly when that is nothing, unless the channel
      has never asked for anything but nothing, once. */
  predicate Faithful(slots: seq<PollFd>, index: map<int, int>, asked: map<int, Events>, bare: set<int>, but: int)
    requires Matched(slots, index)
  {
    forall fd :: fd in index && fd != but ==>
      var slot := slots[index[fd]];
      fd in asked && slot.events == asked[fd] && (slot.fd < 0 <==> slot.events == NONE_EVENT && fd !in bare)
  }

  lemma AppendSlot(slots: seq<PollFd>, index: map<int, int>, fd: int, slot: PollFd)
    requires Matched(slots, index) && fd !in index && fd >= 0 && slot.fd == fd
    ensures var slots', index' := slots + [slot], index[fd := |slots|];
            Matched(slots', index') && slots'[index'[fd]] == slot &&
            (forall x :: x in index ==> x != fd && index'[x] == index[x] && slots'[index'[x]] == slots[index[x]])
  {
  }

  lemma AppendSlotInterest(slots: seq<PollFd>, index: map<int, int>, fd: int, slot: PollFd)
    requires Matched(slots, index) && fd !in index && fd >= 0 && slot.fd == fd
    ensures var slots', index' := slots + [slot], index[fd := |slots|];
            Matched(slots', index') && InterestOf(slots', index') == Watch(InterestOf(slots, index), fd, slot.events)
  {
    AppendSlot(slots, index, fd, slot);
    var slots', index' := slots + [slot], index[fd := |slots|];
    var before, after := InterestOf(slots, index), InterestOf(slots', index');
    forall x
      ensures x in after <==> x in Watch(before, fd, slot.events)
      ensures x in after ==> after[x] == Watch(before, fd, slot.events)[x]
    {
      if x in index {
        assert slots'[index'[x]] == slots[index[x]];
      }
    }
  }

  lemma AddSlot(slots: seq<PollFd>, index: map<int, int>, asked: map<int, Events>, bare: set<int>, fd: int,
                events: Events)
    requires Matched(slots, index) && fd !in index && fd >= 0 && Faithful(slots, index, asked, bare, fd)
    ensures var slots', index' := slots + [PollFd(fd, events, 0)], index[fd := |slots|];
            Matched(slots', index') && InterestOf(slots', index') == Watch(InterestOf(slots, index), fd, events) &&
            Faithful(slots', index', asked[fd := events], if events == NONE_EVENT then bare + {fd} else bare - {fd}, -1)
  {
    var slot := PollFd(fd, events, 0);
    AppendSlot(slots, index, fd, slot);
    AppendSlotInterest(slots, index, fd, slot);
    hide InterestOf;
    var slots', index' := slots + [slot], index[fd := |slots|];
    AppendFaithful(slots, index, slots', index', asked, bare, fd, events);
  }

  lemma AppendFaithful(slots: seq<PollFd>, index: map<int, int>, slots': seq<PollFd>, index': map<int, int>,
                       asked: map<int, Events>, bare: set<int>, fd: int, events: Events)
    requires Matched(slots, index) && Matched(slots', index') && fd !in index && Faithful(slots, index, asked, bare, fd)
    requires index'.Keys == index.Keys + {fd} && slots'[index'[fd]] == PollFd(fd, events, 0)
    requires forall x :: x in index ==> slots'[index'[x]] == slots[index[x]]
    ensures Faithful(slots', index', asked[fd := events], if events == NONE_EVENT then bare + {fd} else bare - {fd}, -1)
  {
    assert fd >= 0 by { assert fd in index'; }
    hide Matched, SlotFd;
  }

  lemma ReplaceSlot(slots: seq<PollFd>, index: map<int, int>, fd: int, slot: PollFd)
    requires Matched(slots, index) && fd in index && SlotFd(slot) == fd
    ensures var slots' := slots[index[fd] := slot];
            Matched(slots', index) && slots'[index[fd]] == slot &&
            (forall x :: x in index && x != fd ==> slots'[index[x]] == slots[index[x]])
  {
  }

  lemma ReplaceSlotInterest(slots: seq<PollFd>, index: map<int, int>, fd: int, slot: PollFd)
    requires Matched(slots, index) && fd in index && SlotFd(slot) == fd && (slot.fd < 0 <==> slot.events == NONE_EVENT)
    ensures var slots' := slots[index[fd] := slot];
            Matched(slots', index) && InterestOf(slots', index) == Watch(InterestOf(slots, index), fd, slot.events)
  {
    ReplaceSlot(slots, index, fd, slot);
    var slots' := slots[index[fd] := slot];
    var before, after := InterestOf(slots, index), InterestOf(slots', index);
    hide SlotFd;
    forall x
      ensures x in after <==> x in Watch(before, fd, slot.events)
      ensures x in after ==> after[x] == Watch(before, fd, slot.events)[x]
    {
      if x in index && x != fd {
        assert slots'[index[x]] == slots[index[x]];
      }
    }
  }

  lemma SetSlot(slots: seq<PollFd>, index: map<int, int>, asked: map<int, Events>, bare: set<int>, fd: int,
                events: Events)
    requires Matched(slots, index) && fd in index && Faithful(slots, index, asked, bare, fd)
    ensures var slots' := slots[index[fd] := PollFd(if events == NONE_EVENT then -1 - fd else fd, events, 0)];
            Matched(slots', index) && InterestOf(slots', index) == Watch(InterestOf(slots, index), fd, events) &&
            Faithful(slots', index, asked[fd := events], bare - {fd}, -1)
  {
    hide InterestOf;
    var slot := PollFd(if events == NONE_EVENT then -1 - fd else fd, events, 0);
    ReplaceSlot(slots, index, fd, slot);
    ReplaceSlotInterest(slots, index, fd, slot);
  }

  /** Dropping a slot that is not watched: the last one, or another after the last has taken its place. */
  function WithoutSlot(slots: seq<PollFd>, i: nat): seq<PollFd>
    requires i < |slots|
  {
    if i == |slots| - 1 then slots[..i] else slots[i := slots[|slots| - 1]][..|slots| - 1]
  }

  function WithoutIndex(slots: seq<PollFd>, index: map<int, int>, fd: int): map<int, int>
    requires Matched(slots, index) && fd in index
  {
    if index[fd] == |slots| - 1 then index - {fd} else (index - {fd})[SlotFd(slots[|slots| - 1]) := index[fd]]
  }

  lemma DropSlot(slots: seq<PollFd>, index: map<int, int>, asked: map<int, Events>, bare: set<int>, fd: int)
    requires Matched(slots, index) && fd in index && !Watching(slots[index[fd]]) &&
             Faithful(slots, index, asked, bare, -1)
    ensures var slots', index' := WithoutSlot(slots, index[fd]), WithoutIndex(slots, index, fd);
            Matched(slots', index') && InterestOf(slots', index') == InterestOf(slots, index) &&
            Faithful(slots', index', asked - {fd}, bare, -1) && index'.Keys == index.Keys - {fd}
  {
    var n := |slots| - 1;
    var slots', index' := WithoutSlot(slots, index[fd]), WithoutIndex(slots, index, fd);
    assert SlotFd(slots[n]) in index && index[SlotFd(slots[n])] == n;
    assert index'.Keys == index.Keys - {fd};
    assert forall x :: x in index' ==> slots'[index'[x]] == slots[index[x]];
    assert Matched(slots', index');
    assert InterestOf(slots', index') == InterestOf(slots, index);
  }

  class PollPoller {
    var pollfds: seq<PollFd>
    var channels: map<int, Channel>
    ghost var bare: set<int>    // descriptors whose one and only update so far asked for nothing

    ghost function Index(): map<int, int>
      reads this, channels.Values
    {
      map fd | fd in channels :: channels[fd].index
    }

    ghost function Asked(): map<int, Events>
      reads this, channels.Values
    {
      map fd | fd in channels :: channels[fd].events
    }

    ghost predicate Tracks(ch: Channel)
      reads this, ch
    {
      && (ch.index < 0 ==> ch.fd !in channels)
      && (ch.index >= 0 ==> ch.fd in channels && channels[ch.fd] == ch)
    }

    /** Valid but for the events of one descriptor, whose channel has changed them and not yet been updated. */
    ghost predicate ValidBut(but: int)
      reads this, channels.Values
    {
      && (forall fd :: fd in channels ==> channels[fd].fd == fd)
      && Matched(pollfds, Index())
      && Faithful(pollfds, Index(), Asked(), bare, but)
    }

    ghost predicate Valid()
      reads this, channels.Values
    {
      ValidBut(-1)
    }

    ghost function Interest(): map<int, Events>
      requires Matched(pollfds, Index())
      reads this, channels.Values
    {
      InterestOf(pollfds, Index())
    }

    constructor ()
      ensures Valid() && channels == map[] && Interest() == map[]
    {
      pollfds, channels, bare := [], map[], {};
    }

    /** A channel changes its events; until the update its slot is out of date. */
    method BeforeChange(ch: Channel, events: Events)
      requires Valid() && Tracks(ch)
      modifies ch`events
      ensures ch.events == events && ValidBut(ch.fd) && Tracks(ch) && Interest() == old(Interest())
      ensures Asked()[ch.fd := events] == old(Asked())[ch.fd := events]
    {
      hide Matched, InterestOf;
      ghost var index0, asked0 := Index(), Asked();
      assert forall fd :: fd in channels && channels[fd] == ch ==> fd == ch.fd;
      ch.events := events;
      assert Index() == index0 && forall fd :: fd in channels && fd != ch.fd ==> Asked()[fd] == asked0[fd];
      assert Asked()[ch.fd := events] == asked0[ch.fd := events];
    }

    method UpdateChannel(ch: Channel)
      requires ValidBut(ch.fd) && Tracks(ch)
      modifies this, ch`index
      ensures Valid() && Tracks(ch) && ch.index >= 0
      ensures channels == old(channels)[ch.fd := ch] && Asked() == old(Asked())[ch.fd := ch.events]
      ensures Interest() == Watch(old(Interest()), ch.fd, ch.events)
      ensures bare == if old(ch.index) < 0 && ch.events == NONE_EVENT then old(bare) + {ch.fd} else old(bare) - {ch.fd}
    {
      if ch.index < 0 {
        AddChannel(ch);
      } else {
        RefreshSlot(ch);
      }
    }

    /** The branch for a new channel. */
    method AddChannel(ch: Channel)
      requires ValidBut(ch.fd) && Tracks(ch) && ch.index < 0
      modifies this, ch`index
      ensures Valid() && Tracks(ch) && ch.index >= 0
      ensures channels == old(channels)[ch.fd := ch] && Asked() == old(Asked())[ch.fd := ch.events]
      ensures Interest() == Watch(old(Interest()), ch.fd, ch.events)
      ensures bare == if ch.events == NONE_EVENT then old(bare) + {ch.fd} else old(bare) - {ch.fd}
    {
      hide Matched, InterestOf, Faithful;
      ghost var index0, asked0 := Index(), Asked();
      AddSlot(pollfds, index0, asked0, bare, ch.fd, ch.events);
      assert forall fd :: fd in channels ==> channels[fd] != ch;
      pollfds := pollfds + [PollFd(ch.fd, ch.events, 0)];
      ch.index := |pollfds| - 1;
      channels := channels[ch.fd := ch];
      bare := if ch.events == NONE_EVENT then bare + {ch.fd} else bare - {ch.fd};
      assert Index() == index0[ch.fd := ch.index] && Asked() == asked0[ch.fd := ch.events];
    }

    /** The branch for a channel that has a slot. */
    method RefreshSlot(ch: Channel)
      requires ValidBut(ch.fd) && Tracks(ch) && ch.index >= 0
      modifies this, ch`index
      ensures Valid() && Tracks(ch) && ch.index >= 0
      ensures channels == old(channels)[ch.fd := ch] && Asked() == old(Asked())[ch.fd := ch.events]
      ensures Interest() == Watch(old(Interest()), ch.fd, ch.events)
      ensures bare == old(bare) - {ch.fd}
    {
      hide Matched, InterestOf, Faithful;
      ghost var index0, asked0 := Index(), Asked();
      var idx := ch.index;
      assert index0[ch.fd] == idx && 0 <= idx < |pollfds| by { IndexInRange(pollfds, index0, ch.fd); }
      SetSlot(pollfds, index0, asked0, bare, ch.fd, ch.events);
      var pfd := PollFd(ch.fd, ch.events, 0);
      if ch.IsNoneEvent() {
        pfd := pfd.(fd := -1 - ch.fd);
      }
      pollfds := pollfds[idx := pfd];
      bare := bare - {ch.fd};
      assert Index() == index0 && Asked() == asked0[ch.fd := ch.events];
      assert channels == old(channels)[ch.fd := ch];
    }

    /** After poll(2): the channels of the slots that report something, in slot order. */
    method FillActiveChannels(numEvents: int) returns (active: seq<Channel>)
      requires Valid() && numEvents == |Ready(pollfds)|
      requires forall i :: 0 <= i < |pollfds| && pollfds[i].fd < 0 ==> pollfds[i].revents == 0
      modifies channels.Values`revents
      ensures Reported(active, Ready(pollfds))
    {
      hide Matched, Faithful, Ready, Reported;
      ghost var index0 := Index();
      assert index0.Keys == channels.Keys;
      active := [];
      var left, i := numEvents, 0;
      NothingReported();
      while i < |pollfds| && left > 0
        invariant 0 <= i <= |pollfds| && left == |Ready(pollfds[i..])| && Reported(active, Ready(pollfds[..i]))
        decreases |pollfds| - i
      {
        var pfd := pollfds[i];
        ReadyStep(pollfds, i);
        if Reports(pfd) {
          left := left - 1;
          SlotHasChannel(pollfds, index0, i);
          ReadyBefore(pollfds, index0, i);
          active := Report(pfd, channels[pfd.fd], active, Ready(pollfds[..i]));
        }
        i := i + 1;
      }
      ReadyEnd(pollfds, i);
    }

    lemma NothingReported()
      ensures Reported([], Ready(pollfds[..0])) && pollfds[0..] == pollfds
    {
    }

    /** The channels of the slots given, with what these report. */
    ghost predicate Reported(active: seq<Channel>, slots: seq<PollFd>)
      reads this, channels.Values
    {
      && |active| == |slots|
      && forall k :: 0 <= k < |active| ==>
           slots[k].fd in channels && active[k] == channels[slots[k].fd] && active[k].revents == slots[k].revents
    }

    method Report(pfd: PollFd, ch: Channel, active: seq<Channel>, ghost slots: seq<PollFd>)
      returns (active': seq<Channel>)
      requires pfd.fd in channels && ch == channels[pfd.fd] &&
               (forall fd :: fd in channels ==> channels[fd].fd == fd) && Reported(active, slots)
      requires forall k :: 0 <= k < |slots| ==> slots[k].fd != pfd.fd
      modifies ch`revents
      ensures Reported(active', slots + [pfd])
    {
      ch.revents := pfd.revents;
      active' := active + [ch];
    }

    method SetIndex(ch: Channel, idx: int)
      requires ch.fd in channels && channels[ch.fd] == ch && forall fd :: fd in channels ==> channels[fd].fd == fd
      modifies ch`index
      ensures Index() == old(Index())[ch.fd := idx] && Asked() == old(Asked())
    {
      assert forall fd :: fd in channels && fd != ch.fd ==> channels[fd] != ch;
      ch.index := idx;
    }

    /** The channel is out of the map; its slot goes too, the last slot taking its place. */
    method EraseSlot(idx: nat, ghost index0: map<int, int>, ghost fd: int)
      requires Matched(pollfds, index0) && fd in index0 && index0[fd] == idx
      requires Index() == index0 - {fd} && forall x :: x in channels ==> channels[x].fd == x
      modifies this`pollfds, channels.Values`index
      ensures pollfds == WithoutSlot(old(pollfds), idx) && Index() == WithoutIndex(old(pollfds), index0, fd)
      ensures Asked() == old(Asked())
    {
      hide Matched;
      IndexInRange(pollfds, index0, fd);
      if idx == |pollfds| - 1 {
        pollfds := pollfds[..|pollfds| - 1];
      } else {
        var channelAtEnd := pollfds[|pollfds| - 1].fd;
        LastSlot(pollfds, index0);
        SwapAndPop(pollfds, idx);
        pollfds := pollfds[idx := pollfds[|pollfds| - 1]][|pollfds| - 1 := pollfds[idx]];
        if channelAtEnd < 0 {
          channelAtEnd := -channelAtEnd - 1;
        }
        assert channelAtEnd in index0 - {fd};
        SetIndex(channels[channelAtEnd], idx);
        pollfds := pollfds[..|pollfds| - 1];
      }
    }

    /** Swap with the last slot and pop. The source also asserts that the slot is ignored; that holds exactly when the
        descriptor is not in `bare`. The channel keeps its old index, so that its next update would fail. */
    method RemoveChannel(ch: Channel)
      requires Valid() && ch.index >= 0 && Tracks(ch) && ch.IsNoneEvent() && ch.fd !in bare
      modifies this, channels.Values`index
      ensures Valid() && channels == old(channels) - {ch.fd} && |pollfds| == old(|pollfds|) - 1
      ensures Asked() == old(Asked()) - {ch.fd}
      ensures Interest() == old(Interest())
      ensures bare == old(bare)
      ensures ch.index == old(ch.index) && !Tracks(ch)
    {
      hide Matched, InterestOf, Faithful;
      ghost var index0, asked0 := Index(), Asked();
      var idx := ch.index;
      IndexInRange(pollfds, index0, ch.fd);
      SlotIgnored(pollfds, index0, asked0, bare, ch.fd);
      DropSlot(pollfds, index0, asked0, bare, ch.fd);
      channels := channels - {ch.fd};
      assert Index() == index0 - {ch.fd} && Asked() == asked0 - {ch.fd};
      EraseSlot(idx, index0, ch.fd);
    }
  }

  lemma IndexInRange(slots: seq<PollFd>, index: map<int, int>, fd: int)
    requires Matched(slots, index) && fd in index
    ensures 0 <= index[fd] < |slots| && SlotFd(slots[index[fd]]) == fd
  {
  }

  lemma SwapAndPop(slots: seq<PollFd>, i: nat)
    requires i < |slots| - 1
    ensures var n := |slots| - 1; slots[i := slots[n]][n := slots[i]][..n] == WithoutSlot(slots, i)
  {
  }

  lemma LastSlot(slots: seq<PollFd>, index: map<int, int>)
    requires Matched(slots, index) && slots != []
    ensures SlotFd(slots[|slots| - 1]) in index && index[SlotFd(slots[|slots| - 1])] == |slots| - 1
  {
  }

  /** The assertion before removal: the slot of a channel that asks for nothing is ignored, unless that is all it has
      ever asked for. */
  lemma SlotIgnored(slots: seq<PollFd>, index: map<int, int>, asked: map<int, Events>, bare: set<int>, fd: int)
    requires Matched(slots, index) && Faithful(slots, index, asked, bare, -1)
    requires fd in index && fd in asked && asked[fd] == NONE_EVENT
    ensures slots[index[fd]].fd == -1 - fd && slots[index[fd]].events == asked[fd] <==> fd !in bare
    ensures !Watching(slots[index[fd]])
  {
  }

  predicate Reports(slot: PollFd) {
    slot.revents > 0
  }

  function IfReady(slot: PollFd): seq<PollFd> {
    if Reports(slot) then [slot] else []
  }

  function Ready(slots: seq<PollFd>): seq<PollFd> {
    if slots == [] then [] else IfReady(slots[0]) + Ready(slots[1..])
  }

  lemma {:induction false} ReadyConcat(a: seq<PollFd>, b: seq<PollFd>)
    ensures Ready(a + b) == Ready(a) + Ready(b)
  {
    hide IfReady;
    if a == [] {
      assert a + b == b;
    } else {
      assert (a + b)[0] == a[0] && (a + b)[1..] == a[1..] + b;
      ReadyConcat(a[1..], b);
      assert Ready(a + b) == IfReady(a[0]) + Ready(a[1..] + b);
      assert Ready(a) == IfReady(a[0]) + Ready(a[1..]);
      hide Ready;
    }
  }

  lemma ReadyStep(slots: seq<PollFd>, i: nat)
    requires i < |slots|
    ensures Ready(slots[..i + 1]) == if Reports(slots[i]) then Ready(slots[..i]) + [slots[i]] else Ready(slots[..i])
    ensures |Ready(slots[i..])| == |Ready(slots[i + 1..])| + if Reports(slots[i]) then 1 else 0
  {
    assert slots[..i + 1] == slots[..i] + [slots[i]];
    ReadyConcat(slots[..i], [slots[i]]);
    assert Ready([slots[i]]) == IfReady(slots[i]) + [];
    assert slots[i..][0] == slots[i] && slots[i..][1..] == slots[i + 1..];
  }

  lemma ReadyEnd(slots: seq<PollFd>, i: nat)
    requires i <= |slots| && (i == |slots| || |Ready(slots[i..])| == 0)
    ensures Ready(slots[..i]) == Ready(slots)
  {
    assert slots == slots[..i] + slots[i..];
    ReadyConcat(slots[..i], slots[i..]);
  }

  lemma SlotHasChannel(slots: seq<PollFd>, index: map<int, int>, i: nat)
    requires Matched(slots, index) && i < |slots|
    ensures SlotFd(slots[i]) in index && index[SlotFd(slots[i])] == i
  {
  }

  /** No slot before i has the descriptor of slot i. */
  lemma {:induction false} ReadyBefore(slots: seq<PollFd>, index: map<int, int>, i: nat)
    requires Matched(slots, index) && i < |slots| && slots[i].fd >= 0
    ensures forall k :: 0 <= k < |Ready(slots[..i])| ==> Ready(slots[..i])[k].fd != slots[i].fd
  {
    ReadyIsSubset(slots[..i]);
    forall k | 0 <= k < |Ready(slots[..i])|
      ensures Ready(slots[..i])[k].fd != slots[i].fd
    {
      var x := Ready(slots[..i])[k];
      assert x in slots[..i];
      var j :| 0 <= j < i && slots[j] == x;
      SlotHasChannel(slots, index, j);
      SlotHasChannel(slots, index, i);
    }
  }

  lemma {:induction false} ReadyIsSubset(slots: seq<PollFd>)
    ensures forall x :: x in Ready(slots) ==> x in slots && Reports(x)
  {
    if slots != [] {
      ReadyIsSubset(slots[1..]);
    }
  }

  // ----- Using a channel again -----

  /** The epoll poller forgets a channel for good: it can be added again. */
  method RemoveThenAdd(ch: Channel, poller: EPollPoller, change: InterestChange)
    requires poller.Valid() && poller.Tracks(ch) && ch.index != NEW && ch.IsNoneEvent()
    modifies poller, ch`index, ch`events
    ensures poller.Valid() && poller.Tracks(ch) && ch.index != NEW
    ensures poller.Interest() == Watch(old(poller.Interest()), ch.fd, ch.events)
  {
    poller.RemoveChannel(ch);
    ch.Change(change, poller);
  }

  /** What updateChannel of the poll poller asserts. */
  ghost predicate UpdateAsserts(poller: PollPoller, ch: Channel)
    reads poller, ch
  {
    if ch.index < 0 then ch.fd !in poller.channels
    else
      && ch.fd in poller.channels && poller.channels[ch.fd] == ch && ch.index < |poller.pollfds|
      && (poller.pollfds[ch.index].fd == ch.fd || poller.pollfds[ch.index].fd == -1 - ch.fd)
  }

  /** All of it holds exactly if the channel is new and its descriptor unknown, or known as this channel: for a channel
      that is not in the poller, exactly if its index is negative. */
  lemma UpdateAllowedExactly(poller: PollPoller, ch: Channel)
    requires poller.Valid()
    ensures UpdateAsserts(poller, ch) <==> poller.Tracks(ch)
    ensures ch.fd !in poller.channels ==> (UpdateAsserts(poller, ch) <==> ch.index < 0)
  {
    if ch.index >= 0 && ch.fd in poller.channels && poller.channels[ch.fd] == ch {
      assert poller.Index()[ch.fd] == ch.index;
      IndexInRange(poller.pollfds, poller.Index(), ch.fd);
    }
  }

  /** A channel that was used and removed is left with an index, so that adding it again fails. */
  method AddAfterRemoveFails(fd: nat) returns (poller: PollPoller, ch: Channel)
    ensures fresh(poller) && fresh(ch) && poller.Valid() && ch.fd == fd && ch.IsNoneEvent()
    ensures ch.fd !in poller.channels && ch.index >= 0 && !poller.Tracks(ch)
  {
    poller := new PollPoller();
    ch := new Channel(fd);
    ch.ChangeInPoll(EnableReading, poller);
    ch.ChangeInPoll(DisableAll, poller);
    poller.RemoveChannel(ch);
  }

  /** A channel whose first update asks for nothing: its slot is not ignored, as removal asserts it to be. */
  method RemoveFailsAfterAskingForNothing(fd: nat) returns (poller: PollPoller, ch: Channel)
    ensures fresh(poller) && fresh(ch) && poller.Valid() && ch.fd == fd && ch.IsNoneEvent()
    ensures poller.Tracks(ch) && 0 <= ch.index < |poller.pollfds| && fd in poller.bare
    ensures poller.pollfds[ch.index].fd != -1 - fd
  {
    poller := new PollPoller();
    ch := new Channel(fd);
    ch.ChangeInPoll(DisableAll, poller);
    IndexInRange(poller.pollfds, poller.Index(), fd);
    SlotIgnored(poller.pollfds, poller.Index(), poller.Asked(), poller.bare, fd);
  }
}
