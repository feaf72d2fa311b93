/** The poller with its vector, map and channels updated in place. */
module Pollers {
  import opened Registry

  class Channel {
    const fd: nat
    var index: int
    var events: Events
    var revents: int

    constructor (fd: nat)
      ensures this.fd == fd && index == -1 && events == NONE_EVENT && revents == 0
    {
      this.fd := fd;
      index, events, revents := -1, NONE_EVENT, 0;
    }

    predicate IsNoneEvent()
      reads this
    {
      events == NONE_EVENT
    }
  }

  /** What poll() promises about the slots it fills in: masked slots report nothing, and the result
      counts the slots that report something. */
  ghost predicate PollContract(before: seq<PollFd>, after: seq<PollFd>, numEvents: int) {
    && |after| == |before|
    && (forall i | 0 <= i < |after| ::
          && after[i].fd == before[i].fd && after[i].events == before[i].events
          && after[i].revents >= 0 && (after[i].fd < 0 ==> after[i].revents == 0))
    && numEvents == |Ready(after)|
  }

  lemma FilledKeeps(p: seq<PollFd>, ix: Indices, filled: seq<PollFd>, numEvents: int)
    requires Consistent(p, ix)
    requires if numEvents >= 0 then PollContract(p, filled, numEvents) else filled == p
    ensures Consistent(filled, ix)
    ensures numEvents >= 0 ==>
      numEvents == |Ready(filled)| && forall i | 0 <= i < |filled| && filled[i].revents > 0 :: filled[i].fd >= 0
  {
  }

  lemma ReadyDiffer(p: seq<PollFd>, ix: Indices)
    requires Consistent(p, ix)
    ensures forall i, j | 0 <= i < j < |Ready(p)| :: Ready(p)[i] != Ready(p)[j]
  {
    ConsistentSlotsDiffer(p, ix);
    hide Consistent;
    ReadyIsTheFilter(p);
  }

  lemma NoneReady(p: seq<PollFd>)
    ensures Ready(p[..0]) == []
  {
  }

  lemma LastSlot(p: seq<PollFd>, ix: Indices, fd: int)
    requires Consistent(p, ix) && fd in ix
    ensures var last := Decode(p[|p| - 1].fd);
      && 0 <= ix[fd] < |p| && Decode(p[ix[fd]].fd) == fd
      && last in ix && ix[last] == |p| - 1 && (last == fd <==> ix[fd] == |p| - 1)
  {
  }

  ghost predicate Distinct(pool: seq<Channel>) {
    forall i, j | 0 <= i < j < |pool| :: pool[i] != pool[j]
  }

  function Fds(pool: seq<Channel>): (fds: seq<nat>)
    ensures |fds| == |pool| && forall k | 0 <= k < |pool| :: fds[k] == pool[k].fd
  {
    seq(|pool|, k requires 0 <= k < |pool| => pool[k].fd)
  }

  function Masks(pool: seq<Channel>): (masks: seq<Events>)
    reads pool`events
    ensures |masks| == |pool| && forall k | 0 <= k < |pool| :: masks[k] == pool[k].events
  {
    if pool == [] then [] else [pool[0].events] + Masks(pool[1..])
  }

  /** Which channel is registered for which descriptor after the calls. */
  function MapAfter(m: map<int, Channel>, pool: seq<Channel>, calls: seq<Call>): map<int, Channel>
    requires CallsOf(calls, |pool|)
    decreases |calls|
  {
    if calls == [] then m else
      var n := |calls| - 1;
      MapStep(MapAfter(m, pool, calls[..n]), pool, calls[n])
  }

  function MapStep(m: map<int, Channel>, pool: seq<Channel>, call: Call): map<int, Channel>
    requires call.who < |pool|
  {
    match call
    case Change(who, _) => m[pool[who].fd := pool[who]]
    case Unregister(who) => m - {pool[who].fd}
  }

  lemma NextInMap(m: map<int, Channel>, pool: seq<Channel>, calls: seq<Call>, n: nat)
    requires n < |calls| && CallsOf(calls[..n + 1], |pool|) && CallsOf(calls[..n], |pool|)
    ensures calls[n].who < |pool|
    ensures MapAfter(m, pool, calls[..n + 1]) == MapStep(MapAfter(m, pool, calls[..n]), pool, calls[n])
  {
    assert calls[..n + 1][..n] == calls[..n] && calls[..n + 1][n] == calls[n];
  }

  lemma NoCallYet(slots: map<int, PollFd>, m: map<int, Channel>, pool: seq<Channel>, masks: seq<Events>,
                  calls: seq<Call>)
    requires |masks| == |pool|
    ensures CallsOf(calls[..0], |pool|) && SlotRun(slots, OpsOf(Fds(pool), masks, calls[..0])) == slots
    ensures MasksAfter(masks, calls[..0]) == masks && MapAfter(m, pool, calls[..0]) == m
  {
  }

  /** The slot of each channel of the pool that is in the map asks for the channel's events. */
  ghost predicate AskFor(slots: map<int, PollFd>, m: map<int, Channel>, pool: seq<Channel>, masks: seq<Events>)
    requires |pool| == |masks|
  {
    forall who | 0 <= who < |pool| && pool[who].fd in m && m[pool[who].fd] == pool[who] ::
      pool[who].fd in slots && slots[pool[who].fd].events == masks[who]
  }

  lemma NextAsk(slots: map<int, PollFd>, m: map<int, Channel>, pool: seq<Channel>, masks: seq<Events>, call: Call)
    requires |pool| == |masks| && call.who < |pool| && Distinct(pool)
    ensures AskFor(slots, m, pool, masks) ==>
      AskFor(SlotStep(slots, OpOf(Fds(pool), masks, call)), MapStep(m, pool, call), pool, MaskStep(masks, call))
  {
  }

  lemma MaskChanged(pool: seq<Channel>, who: nat, masks: seq<Events>)
    requires who < |pool| == |masks|
    requires forall k | 0 <= k < |pool| && k != who :: pool[k].events == masks[k]
    ensures Masks(pool) == masks[who := pool[who].events]
  {
  }

  class Poller {
    var pollfds: seq<PollFd>
    var channels: map<int, Channel>
    /** The slot numbers the channels hold. */
    ghost var indices: Indices
    /** The channels in the map. */
    ghost var members: set<Channel>

    constructor ()
      ensures Valid() && pollfds == [] && channels == map[] && members == {}
    {
      pollfds, channels, indices, members := [], map[], map[], {};
    }

    /** The map's channels are the members, each under its descriptor, with its slot number. */
    ghost predicate Tied()
      reads this, members
    {
      && indices.Keys == channels.Keys
      && (forall fd | fd in channels ::
            channels[fd] in members && channels[fd].fd == fd && channels[fd].index == indices[fd])
    }

    ghost predicate Valid()
      reads this, members
    {
      Tied() && Consistent(pollfds, indices)
    }

    /** The slots by descriptor, wherever they are. */
    ghost function SlotMap(): map<int, PollFd>
      requires Valid()
      reads this, members
    {
      Slots(pollfds, indices)
    }

    predicate Registered(channel: Channel)
      reads this
    {
      channel.fd in channels && channels[channel.fd] == channel
    }

    /** A channel without a slot whose descriptor is free, or a channel that is registered. */
    predicate InOrder(channel: Channel)
      reads this, channel
    {
      if channel.index < 0 then channel.fd !in channels else Registered(channel)
    }

    /** In order, an update touches the slot of this channel and no other. Out of order, through the
        index that a removed channel keeps or for a descriptor that is taken, it does what the other
        clauses say; only an index past the end of the vector has no defined effect. */
    method UpdateChannel(channel: Channel)
      requires Valid() && channel.index < |pollfds|
      modifies this, channel`index
      ensures pollfds == Filed(old(pollfds), old(channel.index), channel.fd, channel.events)
      ensures channel.index == if old(channel.index) < 0 then |old(pollfds)| else old(channel.index)
      ensures old(InOrder(channel)) ==>
        && Valid()
        && channels == old(channels)[channel.fd := channel] && members == old(members) + {channel}
        && SlotMap() == SlotStep(old(SlotMap()), Update(channel.fd, channel.events))
        && pollfds[channel.index].events == channel.events
      ensures old(!InOrder(channel) && channel.index >= 0) ==>
        && channels == old(channels) && members == old(members)
        && (Valid() <==> channel.events != NONE_EVENT || Decode(old(pollfds)[channel.index].fd) == channel.fd)
      ensures old(!InOrder(channel) && channel.index < 0) ==> !Valid()
    {
      hide Consistent, Slots, SlotStep, Updated;
      ghost var legal := InOrder(channel);
      if legal {
        StepRefines(State(pollfds, indices), Update(channel.fd, channel.events));
      } else if channel.index < 0 {
        DoubleRegistration(pollfds, indices, PollFd(channel.fd, channel.events, 0));
      } else {
        StaleUpdate(pollfds, indices, channel.index, channel.fd, channel.events);
      }
      if channel.index < 0 {
        AppendSlot(channel);
      } else {
        ChangeSlot(channel);
        assert legal ==> channels == channels[channel.fd := channel] && members == members + {channel};
      }
    }

    /** The branch of update for a channel that has no slot yet. */
    method AppendSlot(channel: Channel)
      modifies this, channel`index
      ensures pollfds == old(pollfds) + [PollFd(channel.fd, channel.events, 0)]
      ensures channel.index == |old(pollfds)|
      ensures channels == old(channels)[channel.fd := channel]
      ensures indices == old(indices)[channel.fd := |old(pollfds)|] && members == old(members) + {channel}
      ensures old(Tied()) && old(InOrder(channel)) ==> Tied()
    {
      var pfd := PollFd(channel.fd, channel.events, 0);
      pollfds := pollfds + [pfd];
      var idx := |pollfds| - 1;
      channel.index := idx;
      channels := channels[pfd.fd := channel];
      indices := indices[channel.fd := idx];
      members := members + {channel};
    }

    /** The branch for a channel that has one: the descriptor is masked when nothing is asked for,
        and never unmasked. */
    method ChangeSlot(channel: Channel)
      requires 0 <= channel.index < |pollfds|
      modifies this`pollfds
      ensures pollfds == old(pollfds)[channel.index := Updated(old(pollfds)[channel.index], channel.fd, channel.events)]
      ensures pollfds[channel.index].events == channel.events
    {
      var idx := channel.index;
      pollfds := pollfds[idx := PollFd(pollfds[idx].fd, channel.events, 0)];
      if channel.IsNoneEvent() {
        pollfds := pollfds[idx := PollFd(-(channel.fd as int) - 1, pollfds[idx].events, pollfds[idx].revents)];
      }
    }

    /** enableReading, enableWriting, disableWriting and disableAll of a channel, with the update
        that each of them ends in. */
    method ChangeInterest(channel: Channel, interest: Interest)
      requires Valid() && Proper(channel.events) && channel.index < |pollfds|
      modifies this, channel`index, channel`events
      ensures Proper(channel.events) && channel.events == EventsAfter(old(channel.events), interest)
      ensures pollfds == Filed(old(pollfds), old(channel.index), channel.fd, channel.events)
      ensures channel.index == if old(channel.index) < 0 then |old(pollfds)| else old(channel.index)
      ensures old(InOrder(channel)) ==>
        && Valid() && Registered(channel)
        && channels == old(channels)[channel.fd := channel] && members == old(members) + {channel}
        && SlotMap() == SlotStep(old(SlotMap()), Update(channel.fd, EventsAfter(old(channel.events), interest)))
        && pollfds[channel.index].events == channel.events
      ensures old(!InOrder(channel) && channel.index >= 0) ==>
        && channels == old(channels) && members == old(members)
        && (Valid() <==> channel.events != NONE_EVENT || Decode(old(pollfds)[channel.index].fd) == channel.fd)
      ensures old(!InOrder(channel) && channel.index < 0) ==> !Valid()
    {
      InterestRunsOut(channel.events, interest);
      channel.events := EventsAfter(channel.events, interest);
      UpdateChannel(channel);
    }

    /** A removal is defined for a registered channel. For another it is where the index that it keeps
        names a slot and the last slot's channel is still in the map when it is looked up there. */
    predicate Removable(channel: Channel)
      reads this, channel
    {
      || Registered(channel)
      || (0 <= channel.index < |pollfds|
          && (channel.index == |pollfds| - 1 || Decode(pollfds[|pollfds| - 1].fd) != channel.fd))
    }

    /** A registered channel's slot goes, and no other. Through a stale index another channel's slot goes. */
    method RemoveChannel(channel: Channel)
      requires Valid() && Removable(channel)
      modifies this, members`index
      ensures channel.index == old(channel.index) && 0 <= channel.index < |old(pollfds)|
      ensures channels == old(channels) - {channel.fd}
      ensures pollfds == SwapRemoved(old(pollfds), channel.index)
      ensures Valid() <==> Decode(old(pollfds)[channel.index].fd) == channel.fd
      ensures Valid() ==> SlotMap() == SlotStep(old(SlotMap()), Remove(channel.fd))
      ensures old(Registered(channel)) ==> Valid() && members == old(members) - {channel}
    {
      hide Consistent, Slots;
      if Registered(channel) {
        LastSlot(pollfds, indices, channel.fd);
      }
      StaleRemove(pollfds, indices, channel.index, channel.fd);
      IndexOf(pollfds, indices, |pollfds| - 1);
      if channel.index == |pollfds| - 1 {
        RemoveLast(channel);
      } else {
        RemoveBySwapping(channel);
      }
      assert Valid() <==> Decode(old(pollfds)[channel.index].fd) == channel.fd;
    }

    /** channels_.erase(channel->fd()) */
    method Forget(channel: Channel)
      requires Tied()
      modifies this`channels, this`indices, this`members
      ensures Tied() && channels == old(channels) - {channel.fd} && indices == old(indices) - {channel.fd}
      ensures members == old(members) - if channel.fd in old(channels) then {old(channels)[channel.fd]} else {}
    {
      members := members - if channel.fd in channels then {channels[channel.fd]} else {};
      channels := channels - {channel.fd};
      indices := indices - {channel.fd};
    }

    /** channels_[fd]->set_index(idx), for a descriptor in the map. */
    method SetIndex(fd: int, idx: int)
      requires Tied() && fd in channels
      modifies this`indices, {channels[fd]}`index
      ensures Tied() && indices == old(indices)[fd := idx]
    {
      channels[fd].index := idx;
      indices := indices[fd := idx];
    }

    /** The branch of removal for the last slot. */
    method RemoveLast(channel: Channel)
      requires Tied() && 0 <= channel.index == |pollfds| - 1
      modifies this
      ensures Tied() && channels == old(channels) - {channel.fd}
      ensures pollfds == SwapRemoved(old(pollfds), channel.index)
      ensures indices == WithoutIndex(old(pollfds), old(indices), channel.index, channel.fd)
      ensures old(Registered(channel)) ==> members == old(members) - {channel}
    {
      Forget(channel);
      pollfds := pollfds[..|pollfds| - 1];
      assert pollfds == SwapRemoved(old(pollfds), channel.index);
    }

    /** The branch of removal that moves the last slot into the hole. */
    method RemoveBySwapping(channel: Channel)
      requires Tied() && 0 <= channel.index < |pollfds| - 1
      requires var last := Decode(pollfds[|pollfds| - 1].fd); last in channels && last != channel.fd
      modifies this, members`index
      ensures Tied() && channels == old(channels) - {channel.fd}
      ensures pollfds == SwapRemoved(old(pollfds), old(channel.index))
      ensures indices == WithoutIndex(old(pollfds), old(indices), old(channel.index), channel.fd)
      ensures channel.index == old(channel.index)
      ensures old(Registered(channel)) ==> members == old(members) - {channel}
    {
      var idx := channel.index;
      Forget(channel);
      var channelAtEnd := pollfds[|pollfds| - 1].fd;
      SwapWithLast(idx);
      if channelAtEnd < 0 {
        channelAtEnd := -channelAtEnd - 1;
      }
      SetIndex(channelAtEnd, idx);
    }

    /** iter_swap with the last slot, and pop_back. */
    method SwapWithLast(idx: nat)
      requires idx < |pollfds|
      modifies this`pollfds
      ensures pollfds == SwapRemoved(old(pollfds), idx)
    {
      pollfds := pollfds[idx := pollfds[|pollfds| - 1]][|pollfds| - 1 := pollfds[idx]];
      pollfds := pollfds[..|pollfds| - 1];
    }

    /** `channel` is the one registered for `fd`, and has the events that its slot reports. */
    ghost predicate Reports(channel: Channel, fd: int)
      requires Consistent(pollfds, indices)
      reads this, channel
    {
      fd in channels && fd in indices && channel == channels[fd] && channel.revents == pollfds[indices[fd]].revents
    }

    /** The scan stops after `numEvents` hits, so it finds the first `numEvents` ready channels; every
        map lookup on the way succeeds. */
    method FillActiveChannels(numEvents: int) returns (active: seq<Channel>)
      requires Valid()
      requires forall i | 0 <= i < |pollfds| && pollfds[i].revents > 0 :: pollfds[i].fd >= 0
      modifies members`revents
      ensures var ready := Ready(pollfds);
        && |active| == (if numEvents < 0 then 0 else if numEvents < |ready| then numEvents else |ready|)
        && (forall k | 0 <= k < |active| :: Reports(active[k], ready[k]))
      ensures forall c | c in members && c !in active :: c.revents == old(c.revents)
    {
      hide Consistent, Ready;
      active := [];
      var left := numEvents;
      NoneReady(pollfds);
      var i := 0;
      while i < |pollfds| && left > 0
        invariant 0 <= i <= |pollfds|
        invariant left == numEvents - |active|
        invariant numEvents < 0 ==> active == []
        invariant numEvents >= 0 ==> left >= 0
        invariant |active| == |Ready(pollfds[..i])|
        invariant forall k | 0 <= k < |active| :: Reports(active[k], Ready(pollfds[..i])[k])
        invariant forall c | c in members && c !in active :: c.revents == old(c.revents)
      {
        var pfd := pollfds[i];
        assert pollfds[..i + 1] == pollfds[..i] + [pfd];
        ReadyAppend(pollfds[..i], pfd);
        if pfd.revents > 0 {
          left := left - 1;
          IndexOf(pollfds, indices, i);
          var channel := channels[pfd.fd];
          channel.revents := pfd.revents;
          active := active + [channel];
        }
        i := i + 1;
      }
      ReadyGrows(pollfds, i);
      assert i == |pollfds| ==> pollfds[..i] == pollfds;
    }

    /** `filled` is the vector as poll() left it, and `numEvents` what it returned; -1 is an error,
        which leaves the vector alone. */
    method Poll(numEvents: int, filled: seq<PollFd>) returns (active: seq<Channel>)
      requires Valid()
      requires if numEvents >= 0 then PollContract(pollfds, filled, numEvents) else filled == pollfds
      modifies this`pollfds, members`revents
      ensures Valid() && pollfds == filled
      ensures numEvents < 0 ==> active == []
      ensures numEvents >= 0 ==>
        |active| == |Ready(filled)| && forall k | 0 <= k < |active| :: Reports(active[k], Ready(filled)[k])
      ensures forall i, j | 0 <= i < j < |active| :: active[i] != active[j]
    {
      hide Consistent, Ready, PollContract;
      FilledKeeps(pollfds, indices, filled, numEvents);
      ReadyDiffer(filled, indices);
      pollfds := filled;
      active := [];
      if numEvents > 0 {
        active := FillActiveChannels(numEvents);
      }
      assert Valid();
    }

    // ----- runs

    /** The slot of each registered channel asks for the events that the channel has. */
    ghost predicate SlotsAsk(pool: seq<Channel>)
      requires Valid()
      reads this, members, pool`events
    {
      AskFor(SlotMap(), channels, pool, Masks(pool))
    }

    /** Whether a call is in order. */
    predicate Allowed(pool: seq<Channel>, call: Call)
      reads this, pool
    {
      call.who < |pool|
      && match call
         case Change(who, _) => InOrder(pool[who])
         case Unregister(who) => Registered(pool[who])
    }

    method PerformChange(pool: seq<Channel>, who: nat, interest: Interest)
      requires Valid() && Distinct(pool) && AllProper(Masks(pool))
      requires who < |pool| && InOrder(pool[who])
      modifies this, {pool[who]}`index, {pool[who]}`events
      ensures Valid() && members == old(members) + {pool[who]}
      ensures var call := Change(who, interest);
        && SlotMap() == SlotStep(old(SlotMap()), OpOf(Fds(pool), old(Masks(pool)), call))
        && Masks(pool) == MaskStep(old(Masks(pool)), call) && AllProper(Masks(pool))
        && channels == MapStep(old(channels), pool, call)
    {
      var channel := pool[who];
      if channel.index >= 0 {
        LastSlot(pollfds, indices, channel.fd);
      }
      ghost var masks := Masks(pool);
      MaskStepProper(masks, Change(who, interest));
      assert Proper(masks[who]);
      ChangeInterest(channel, interest);
      MaskChanged(pool, who, masks);
    }

    method Perform(pool: seq<Channel>, call: Call)
      requires Valid() && Allowed(pool, call) && Distinct(pool) && AllProper(Masks(pool))
      modifies this, members`index, pool`index, pool`events
      ensures call.who < |pool|
      ensures Valid() && members <= old(members) + {pool[call.who]} && AllProper(Masks(pool))
      ensures SlotMap() == SlotStep(old(SlotMap()), OpOf(Fds(pool), old(Masks(pool)), call))
      ensures Masks(pool) == MaskStep(old(Masks(pool)), call)
      ensures channels == MapStep(old(channels), pool, call)
      ensures old(SlotsAsk(pool)) ==> SlotsAsk(pool)
    {
      hide AskFor, Consistent, Slots, SlotStep, AllProper;
      NextAsk(SlotMap(), channels, pool, Masks(pool), call);
      match call
      case Change(who, interest) => PerformChange(pool, who, interest);
      case Unregister(who) => RemoveChannel(pool[who]);
    }

    /** Any sequence of requests by the owners of distinct channels, up to the first that is not in
        order, leaves a valid registry: exactly the channels asked for, with exactly the slots that
        the plain map would have. */
    method PerformAll(pool: seq<Channel>, calls: seq<Call>) returns (n: nat)
      requires Valid() && Distinct(pool) && AllProper(Masks(pool))
      modifies this, members`index, pool`index, pool`events
      ensures Valid() && n <= |calls| && (n < |calls| ==> !Allowed(pool, calls[n]))
      ensures CallsOf(calls[..n], |pool|)
      ensures SlotMap() == SlotRun(old(SlotMap()), OpsOf(Fds(pool), old(Masks(pool)), calls[..n]))
      ensures Masks(pool) == MasksAfter(old(Masks(pool)), calls[..n]) && AllProper(Masks(pool))
      ensures channels == MapAfter(old(channels), pool, calls[..n])
      ensures members <= old(members) + set c | c in pool
      ensures old(SlotsAsk(pool)) ==> SlotsAsk(pool)
    {
      hide *;
      ghost var slots, fds, masks, asking := SlotMap(), Fds(pool), Masks(pool), SlotsAsk(pool);
      n := 0;
      NoCallYet(slots, channels, pool, masks, calls);
      while n < |calls| && Allowed(pool, calls[n])
        invariant n <= |calls| && CallsOf(calls[..n], |pool|)
        invariant Valid() && members <= old(members) + set c | c in pool
        invariant AllProper(Masks(pool)) && (asking ==> SlotsAsk(pool))
        invariant SlotMap() == SlotRun(slots, OpsOf(fds, masks, calls[..n]))
        invariant Masks(pool) == MasksAfter(masks, calls[..n])
        invariant channels == MapAfter(old(channels), pool, calls[..n])
      {
        Perform(pool, calls[n]);
        NextCall(slots, fds, masks, calls, n);
        NextInMap(old(channels), pool, calls, n);
        n := n + 1;
      }
    }
  }

  method EnableBoth(poller: Poller, first: Channel, second: Channel)
    requires poller.Valid() && poller.pollfds == []
    requires first.index < 0 && second.index < 0 && first.fd != second.fd
    requires first.events == second.events == NONE_EVENT
    modifies poller, first`index, first`events, second`index, second`events
    ensures poller.Valid() && poller.channels == map[first.fd := first, second.fd := second]
    ensures poller.members == old(poller.members) + {first, second}
    ensures poller.pollfds == [PollFd(first.fd, READ_EVENT, 0), PollFd(second.fd, READ_EVENT, 0)]
    ensures first.index == 0 && first.events == second.events == READ_EVENT
  {
    assert poller.channels == map[];
    poller.ChangeInterest(first, EnableReading);
    poller.ChangeInterest(second, EnableReading);
  }

  lemma OnlyOther(a: int, b: int, c: Channel, d: Channel)
    requires a != b
    ensures map[a := c, b := d] - {a} == map[b := d]
  {
  }

  /** An update through the index that a removed channel keeps. */
  method DisableStale(poller: Poller, first: Channel, second: Channel)
    requires poller.Valid() && poller.channels == map[second.fd := second] && first.fd != second.fd
    requires poller.pollfds == [PollFd(second.fd, READ_EVENT, 0)] && first.index == 0 && Proper(first.events)
    modifies poller, first`index, first`events
    ensures poller.channels == map[second.fd := second]
    ensures poller.pollfds == [PollFd(-(first.fd as int) - 1, NONE_EVENT, 0)] && !poller.Valid()
  {
    poller.ChangeInterest(first, DisableAll);
  }

  /** Two channels are enabled, the first is removed and then disabled, as its owner still may: the
      other channel is registered, but the only slot is now masked and stands for the first. */
  method StaleUpdateHappens(poller: Poller, first: Channel, second: Channel)
    requires poller.Valid() && poller.pollfds == []
    requires first.index < 0 && second.index < 0 && first.fd != second.fd
    requires first.events == second.events == NONE_EVENT
    modifies poller, poller.members`index, first`index, first`events, second`index, second`events
    ensures poller.channels == map[second.fd := second] && second.events == READ_EVENT
    ensures poller.pollfds == [PollFd(-(first.fd as int) - 1, NONE_EVENT, 0)] && !poller.Valid()
  {
    hide Consistent, Slots, SlotStep;
    EnableBoth(poller, first, second);
    poller.RemoveChannel(first);
    OnlyOther(first.fd, second.fd, first, second);
    DisableStale(poller, first, second);
  }
}
