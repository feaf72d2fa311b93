/** The poller's bookkeeping on values: the vector of poll slots and each channel's slot number. */
module Registry {

  /** Event masks, in the 16 bits that a slot has for them. */
  type Events = bv16

  const NONE_EVENT: Events := 0
  /** POLLPRI|POLLIN */
  const READ_EVENT: Events := 3
  /** POLLOUT */
  const WRITE_EVENT: Events := 4

  /** What the owner of a channel can ask of it. */
  datatype Interest = EnableReading | EnableWriting | DisableWriting | DisableAll

  function EventsAfter(events: Events, interest: Interest): Events {
    match interest
    case EnableReading => events | READ_EVENT
    case EnableWriting => events | WRITE_EVENT
    case DisableWriting => events & !WRITE_EVENT
    case DisableAll => NONE_EVENT
  }

  /** The masks a channel can have: none, reading, writing, or both. */
  predicate Proper(events: Events) {
    events == 0 || events == 3 || events == 4 || events == 7
  }

  predicate Reading(events: Events) {
    events & 3 != 0
  }

  predicate Writing(events: Events) {
    events & 4 != 0
  }

  /** Each request switches its own interest on or off and leaves the other alone. */
  lemma RequestsSwitchTheirInterest(events: Events, interest: Interest)
    requires Proper(events)
    ensures var after := EventsAfter(events, interest);
      && Proper(after)
      && (Reading(after) <==> interest.EnableReading? || (Reading(events) && !interest.DisableAll?))
      && (Writing(after) <==>
            interest.EnableWriting? || (Writing(events) && !interest.DisableWriting? && !interest.DisableAll?))
  {
  }

  /** Nothing else is in a mask. */
  lemma MaskIsItsInterests(a: Events, b: Events)
    requires Proper(a) && Proper(b) && Reading(a) == Reading(b) && Writing(a) == Writing(b)
    ensures a == b
  {
  }

  /** When a request leaves a channel with no interest at all, which is what masks its slot. */
  lemma InterestRunsOut(events: Events, interest: Interest)
    requires Proper(events)
    ensures var after := EventsAfter(events, interest);
      && Proper(after)
      && (after == NONE_EVENT <==>
            interest.DisableAll? || (interest.DisableWriting? && (events == NONE_EVENT || events == WRITE_EVENT)))
  {
  }

  /** One slot of the vector handed to poll(); a negative descriptor takes no part. */
  datatype PollFd = PollFd(fd: int, events: Events, revents: int)

  type Indices = map<int, int>

  /** The descriptor a slot stands for, masked or not. */
  function Decode(fd: int): int {
    if fd < 0 then -fd - 1 else fd
  }

  /** Slots and descriptors name each other, one for one. */
  ghost predicate Consistent(p: seq<PollFd>, ix: Indices) {
    && |p| == |ix|
    && (forall fd | fd in ix :: fd >= 0 && 0 <= ix[fd] < |p| && Decode(p[ix[fd]].fd) == fd)
    && (forall i | 0 <= i < |p| :: Decode(p[i].fd) in ix && ix[Decode(p[i].fd)] == i)
  }

  lemma SlotOf(p: seq<PollFd>, ix: Indices, fd: int)
    requires Consistent(p, ix) && fd in ix
    ensures |p| == |ix.Keys| && fd >= 0 && 0 <= ix[fd] < |p| && Decode(p[ix[fd]].fd) == fd
  {
  }

  lemma IndexOf(p: seq<PollFd>, ix: Indices, i: nat)
    requires Consistent(p, ix) && i < |p|
    ensures Decode(p[i].fd) in ix && ix[Decode(p[i].fd)] == i
  {
  }

  lemma IsConsistent(p: seq<PollFd>, ix: Indices)
    requires |p| == |ix.Keys|
    requires forall fd | fd in ix :: fd >= 0 && 0 <= ix[fd] < |p| && Decode(p[ix[fd]].fd) == fd
    requires forall i | 0 <= i < |p| :: Decode(p[i].fd) in ix && ix[Decode(p[i].fd)] == i
    ensures Consistent(p, ix)
  {
  }

  /** The registry without its layout: for each descriptor, what its slot holds. */
  function Slots(p: seq<PollFd>, ix: Indices): map<int, PollFd>
    requires forall fd | fd in ix :: 0 <= ix[fd] < |p|
  {
    map fd | fd in ix :: p[ix[fd]]
  }

  lemma SlotsAre(p: seq<PollFd>, ix: Indices, m: map<int, PollFd>)
    requires forall fd | fd in ix :: 0 <= ix[fd] < |p|
    requires m.Keys == ix.Keys && forall fd | fd in ix :: p[ix[fd]] == m[fd]
    ensures Slots(p, ix) == m
  {
    var r := Slots(p, ix);
    assert r.Keys == m.Keys;
    assert forall fd | fd in r :: r[fd] == m[fd];
  }

  // ----- the three changes of layout

  lemma AppendKeeps(p: seq<PollFd>, ix: Indices, slot: PollFd)
    requires Consistent(p, ix) && slot.fd >= 0 && slot.fd !in ix
    ensures var p', ix' := p + [slot], ix[slot.fd := |p|];
      Consistent(p', ix') && Slots(p', ix') == Slots(p, ix)[slot.fd := slot]
  {
    SlotsAre(p + [slot], ix[slot.fd := |p|], Slots(p, ix)[slot.fd := slot]);
  }

  lemma ReplaceKeeps(p: seq<PollFd>, ix: Indices, fd: int, slot: PollFd)
    requires Consistent(p, ix) && fd in ix && Decode(slot.fd) == fd
    ensures var p' := p[ix[fd] := slot];
      Consistent(p', ix) && Slots(p', ix) == Slots(p, ix)[fd := slot]
  {
    hide Consistent;
    SlotOf(p, ix, fd);
    var p' := p[ix[fd] := slot];
    forall other | other in ix
      ensures other >= 0 && 0 <= ix[other] < |p'| && Decode(p'[ix[other]].fd) == other
      ensures p'[ix[other]] == if other == fd then slot else p[ix[other]]
    {
      SlotOf(p, ix, other);
    }
    forall i | 0 <= i < |p'| ensures Decode(p'[i].fd) in ix && ix[Decode(p'[i].fd)] == i {
      IndexOf(p, ix, i);
    }
    IsConsistent(p', ix);
    SlotsAre(p', ix, Slots(p, ix)[fd := slot]);
  }

  /** Removal at `idx` by moving the last slot there. */
  function SwapRemoved(p: seq<PollFd>, idx: int): seq<PollFd>
    requires 0 <= idx < |p|
  {
    p[idx := p[|p| - 1]][..|p| - 1]
  }

  /** The slot numbers once `fd` is gone and the channel of the last slot has been told to use `idx`. */
  function WithoutIndex(p: seq<PollFd>, ix: Indices, idx: int, fd: int): Indices
    requires 0 <= idx < |p|
  {
    var rest := ix - {fd};
    if idx == |p| - 1 then rest else rest[Decode(p[|p| - 1].fd) := idx]
  }

  lemma SwapRemoveConsistent(p: seq<PollFd>, ix: Indices, fd: int)
    requires Consistent(p, ix) && fd in ix
    ensures var p', ix' := SwapRemoved(p, ix[fd]), WithoutIndex(p, ix, ix[fd], fd);
      && Consistent(p', ix')
      && ix'.Keys == ix.Keys - {fd}
      && forall other | other in ix' :: p'[ix'[other]] == p[ix[other]]
  {
    hide Consistent;
    SlotOf(p, ix, fd);
    IndexOf(p, ix, |p| - 1);
    var p', ix' := SwapRemoved(p, ix[fd]), WithoutIndex(p, ix, ix[fd], fd);
    assert ix'.Keys == ix.Keys - {fd};
    assert |ix'.Keys| == |ix.Keys| - 1;
    forall other | other in ix'
      ensures other >= 0 && 0 <= ix'[other] < |p'| && p'[ix'[other]] == p[ix[other]]
      ensures Decode(p'[ix'[other]].fd) == other
    {
      SlotOf(p, ix, other);
    }
    forall i | 0 <= i < |p'| ensures Decode(p'[i].fd) in ix' && ix'[Decode(p'[i].fd)] == i {
      IndexOf(p, ix, i);
    }
    IsConsistent(p', ix');
  }

  lemma SwapRemoveKeeps(p: seq<PollFd>, ix: Indices, fd: int)
    requires Consistent(p, ix) && fd in ix
    ensures var p', ix' := SwapRemoved(p, ix[fd]), WithoutIndex(p, ix, ix[fd], fd);
      Consistent(p', ix') && Slots(p', ix') == Slots(p, ix) - {fd}
  {
    SwapRemoveConsistent(p, ix, fd);
    SlotsAre(SwapRemoved(p, ix[fd]), WithoutIndex(p, ix, ix[fd], fd), Slots(p, ix) - {fd});
  }

  // ----- updates and removals that are out of order

  function Updated(slot: PollFd, fd: int, events: Events): PollFd {
    PollFd(if events == NONE_EVENT then -fd - 1 else slot.fd, events, 0)
  }

  /** The vector after an update by a channel that holds index `idx`. */
  function Filed(p: seq<PollFd>, idx: int, fd: nat, events: Events): seq<PollFd>
    requires idx < |p|
  {
    if idx < 0 then p + [PollFd(fd, events, 0)] else p[idx := Updated(p[idx], fd, events)]
  }

  /** An update through the stale index of a removed channel writes into a slot that is another's. The
      layout survives exactly if the update asks for something, or the slot stands for the same
      descriptor; and then the other channel's interest is overwritten. */
  lemma StaleUpdate(p: seq<PollFd>, ix: Indices, idx: nat, fd: nat, events: Events)
    requires Consistent(p, ix) && idx < |p|
    ensures var p' := p[idx := Updated(p[idx], fd, events)];
      && (Consistent(p', ix) <==> events != NONE_EVENT || Decode(p[idx].fd) == fd)
      && (Consistent(p', ix) ==>
            Slots(p', ix) == Slots(p, ix)[Decode(p[idx].fd) := Updated(p[idx], fd, events)])
  {
    var other := Decode(p[idx].fd);
    var slot := Updated(p[idx], fd, events);
    if events != NONE_EVENT || other == fd {
      ReplaceKeeps(p, ix, other, slot);
    } else {
      assert Decode(slot.fd) == fd;
      assert p[idx := slot][ix[other]] == slot;
    }
  }

  /** A removal through a stale index takes out whatever slot is there. The layout survives exactly if
      that is the slot of the same descriptor, registered again by another channel. */
  lemma StaleRemove(p: seq<PollFd>, ix: Indices, idx: nat, fd: nat)
    requires Consistent(p, ix) && idx < |p|
    requires idx == |p| - 1 || Decode(p[|p| - 1].fd) != fd
    ensures var p', ix' := SwapRemoved(p, idx), WithoutIndex(p, ix, idx, fd);
      && (Consistent(p', ix') <==> Decode(p[idx].fd) == fd)
      && (Consistent(p', ix') ==> Slots(p', ix') == Slots(p, ix) - {fd})
  {
    var other := Decode(p[idx].fd);
    if other == fd {
      SwapRemoveKeeps(p, ix, fd);
    } else {
      var p', ix' := SwapRemoved(p, idx), WithoutIndex(p, ix, idx, fd);
      assert other in ix' && ix'[other] == idx;
      if idx < |p| - 1 {
        assert p'[idx] == p[|p| - 1];
      }
    }
  }

  /** A second channel for a registered descriptor leaves the first one's slot behind. */
  lemma DoubleRegistration(p: seq<PollFd>, ix: Indices, slot: PollFd)
    requires Consistent(p, ix) && slot.fd in ix
    ensures !Consistent(p + [slot], ix[slot.fd := |p|])
  {
    assert ix[slot.fd := |p|].Keys == ix.Keys;
  }

  // ----- runs

  datatype Op = Update(fd: nat, events: Events) | Remove(fd: nat)

  datatype State = State(pollfds: seq<PollFd>, indices: Indices)

  const EMPTY := State([], map[])

  function Step(s: State, op: Op): State
    requires Consistent(s.pollfds, s.indices)
  {
    match op
    case Update(fd, events) =>
      if fd !in s.indices then
        State(s.pollfds + [PollFd(fd, events, 0)], s.indices[fd := |s.pollfds|])
      else
        var idx := s.indices[fd];
        s.(pollfds := s.pollfds[idx := Updated(s.pollfds[idx], fd, events)])
    case Remove(fd) =>
      if fd in s.indices then
        State(SwapRemoved(s.pollfds, s.indices[fd]), WithoutIndex(s.pollfds, s.indices, s.indices[fd], fd))
      else s
  }

  /** The same step on the plain map. */
  function SlotStep(m: map<int, PollFd>, op: Op): map<int, PollFd> {
    match op
    case Update(fd, events) =>
      m[fd := if fd in m then Updated(m[fd], fd, events) else PollFd(fd, events, 0)]
    case Remove(fd) => m - {fd}
  }

  function SlotRun(m: map<int, PollFd>, ops: seq<Op>): map<int, PollFd>
    decreases |ops|
  {
    if ops == [] then m else SlotRun(SlotStep(m, ops[0]), ops[1..])
  }

  lemma {:induction false} SlotRunSnoc(m: map<int, PollFd>, ops: seq<Op>, op: Op)
    ensures SlotRun(m, ops + [op]) == SlotStep(SlotRun(m, ops), op)
    decreases |ops|
  {
    if ops == [] {
      assert (ops + [op])[1..] == [];
    } else {
      assert (ops + [op])[1..] == ops[1..] + [op];
      SlotRunSnoc(SlotStep(m, ops[0]), ops[1..], op);
    }
  }

  /** An updated slot asks for exactly the events of the update, and has nothing to report; an operation
      on one descriptor changes no slot of another. */
  lemma OperationsKeepToTheirSlot(m: map<int, PollFd>, op: Op, other: int)
    requires other != op.fd
    ensures var r := SlotStep(m, op);
      && (other in r <==> other in m) && (other in m ==> r[other] == m[other])
      && (op.fd in r <==> op.Update?)
      && (op.Update? ==> r[op.fd].events == op.events && r[op.fd].revents == 0
                         && (op.fd !in m ==> r[op.fd].fd == op.fd))
  {
  }

  /** Over any run: the last operation on a descriptor decides whether it has a slot, and what events
      the slot asks for. */
  lemma {:induction false} LastOperationDecides(m: map<int, PollFd>, ops: seq<Op>, i: nat)
    requires i < |ops| && forall k | i < k < |ops| :: ops[k].fd != ops[i].fd
    ensures var r, fd := SlotRun(m, ops), ops[i].fd;
      && (fd in r <==> ops[i].Update?)
      && (ops[i].Update? ==> r[fd].events == ops[i].events && r[fd].revents == 0)
    decreases |ops|
  {
    var n := |ops| - 1;
    assert ops == ops[..n] + [ops[n]];
    SlotRunSnoc(m, ops[..n], ops[n]);
    if i == n {
      OperationsKeepToTheirSlot(SlotRun(m, ops[..n]), ops[n], ops[n].fd + 1);
    } else {
      LastOperationDecides(m, ops[..n], i);
      OperationsKeepToTheirSlot(SlotRun(m, ops[..n]), ops[n], ops[i].fd);
    }
    hide SlotRun, SlotStep;
  }

  lemma StepRefines(s: State, op: Op)
    requires Consistent(s.pollfds, s.indices)
    ensures var t := Step(s, op);
      && Consistent(t.pollfds, t.indices)
      && Slots(t.pollfds, t.indices) == SlotStep(Slots(s.pollfds, s.indices), op)
  {
    match op
    case Update(fd, events) =>
      if fd !in s.indices {
        AppendKeeps(s.pollfds, s.indices, PollFd(fd, events, 0));
      } else {
        var slot := s.pollfds[s.indices[fd]];
        ReplaceKeeps(s.pollfds, s.indices, fd, Updated(slot, fd, events));
      }
    case Remove(fd) =>
      if fd in s.indices {
        SwapRemoveKeeps(s.pollfds, s.indices, fd);
      }
  }

  function Run(s: State, ops: seq<Op>): (t: State)
    requires Consistent(s.pollfds, s.indices)
    ensures Consistent(t.pollfds, t.indices)
    decreases |ops|
  {
    if ops == [] then s else
      StepRefines(s, ops[0]);
      Run(Step(s, ops[0]), ops[1..])
  }

  /** Over any sequence of updates and removals the layout stays one-for-one and holds exactly what
      the plain map would: no channel's slot is disturbed by an operation on another. */
  lemma {:induction false} RunRefines(s: State, ops: seq<Op>)
    requires Consistent(s.pollfds, s.indices)
    ensures var t := Run(s, ops);
      && Consistent(t.pollfds, t.indices)
      && Slots(t.pollfds, t.indices) == SlotRun(Slots(s.pollfds, s.indices), ops)
    decreases |ops|
  {
    if ops == [] {
    } else {
      StepRefines(s, ops[0]);
      RunRefines(Step(s, ops[0]), ops[1..]);
    }
  }

  /** The slot of a registered channel is the only one that stands for its descriptor. */
  lemma SlotIsUnique(ops: seq<Op>, fd: int, i: nat)
    ensures var s := Run(EMPTY, ops);
      i < |s.pollfds| && fd in s.indices && Decode(s.pollfds[i].fd) == fd ==> i == s.indices[fd]
  {
  }

  // ----- what the owners of several channels ask for

  /** A request by the owner of channel number `who`. */
  datatype Call = Change(who: nat, interest: Interest) | Unregister(who: nat)

  predicate CallsOf(calls: seq<Call>, n: nat) {
    forall k | 0 <= k < |calls| :: calls[k].who < n
  }

  /** The masks the channels have after the calls. */
  function MasksAfter(masks: seq<Events>, calls: seq<Call>): (after: seq<Events>)
    requires CallsOf(calls, |masks|)
    ensures |after| == |masks|
    decreases |calls|
  {
    if calls == [] then masks else
      var n := |calls| - 1;
      MaskStep(MasksAfter(masks, calls[..n]), calls[n])
  }

  function MaskStep(masks: seq<Events>, call: Call): seq<Events>
    requires call.who < |masks|
  {
    match call
    case Change(who, interest) => masks[who := EventsAfter(masks[who], interest)]
    case Unregister(_) => masks
  }

  predicate AllProper(masks: seq<Events>) {
    forall k | 0 <= k < |masks| :: Proper(masks[k])
  }

  lemma MaskStepProper(masks: seq<Events>, call: Call)
    requires AllProper(masks) && call.who < |masks|
    ensures AllProper(MaskStep(masks, call))
  {
    if call.Change? {
      InterestRunsOut(masks[call.who], call.interest);
    }
  }

  /** The updates and removals that the calls come to. */
  function OpsOf(fds: seq<nat>, masks: seq<Events>, calls: seq<Call>): seq<Op>
    requires |fds| == |masks| && CallsOf(calls, |masks|)
    decreases |calls|
  {
    if calls == [] then [] else
      var n := |calls| - 1;
      OpsOf(fds, masks, calls[..n]) + [OpOf(fds, MasksAfter(masks, calls[..n]), calls[n])]
  }

  function OpOf(fds: seq<nat>, masks: seq<Events>, call: Call): Op
    requires |fds| == |masks| && call.who < |masks|
  {
    match call
    case Change(who, interest) => Update(fds[who], EventsAfter(masks[who], interest))
    case Unregister(who) => Remove(fds[who])
  }

  lemma NextCall(m: map<int, PollFd>, fds: seq<nat>, masks: seq<Events>, calls: seq<Call>, n: nat)
    requires |fds| == |masks| && n < |calls| && CallsOf(calls[..n], |masks|) && calls[n].who < |masks|
    ensures CallsOf(calls[..n + 1], |masks|)
    ensures var before := MasksAfter(masks, calls[..n]);
      && MasksAfter(masks, calls[..n + 1]) == MaskStep(before, calls[n])
      && SlotRun(m, OpsOf(fds, masks, calls[..n + 1]))
           == SlotStep(SlotRun(m, OpsOf(fds, masks, calls[..n])), OpOf(fds, before, calls[n]))
  {
    assert calls[..n + 1][..n] == calls[..n];
    SlotRunSnoc(m, OpsOf(fds, masks, calls[..n]), OpOf(fds, MasksAfter(masks, calls[..n]), calls[n]));
  }

  // ----- masking

  /** A registered channel takes part in poll() exactly until the first update that asks for no
      events; asking again later does not bring it back. Only removal does. */
  lemma {:induction false} MaskingIsForGood(m: map<int, PollFd>, ops: seq<Op>, fd: nat)
    requires fd in m && Remove(fd) !in ops
    ensures var r := SlotRun(m, ops);
      fd in r && (r[fd].fd < 0 <==> m[fd].fd < 0 || Update(fd, NONE_EVENT) in ops)
    decreases |ops|
  {
    if ops == [] {
    } else {
      assert ops == [ops[0]] + ops[1..];
      MaskingIsForGood(SlotStep(m, ops[0]), ops[1..], fd);
    }
  }

  lemma ReenabledChannelStaysMasked(fd: int)
    requires fd >= 0
    ensures var s := Run(EMPTY, [Update(fd, READ_EVENT), Update(fd, NONE_EVENT), Update(fd, READ_EVENT)]);
      s.pollfds == [PollFd(-fd - 1, READ_EVENT, 0)]
  {
    var ops := [Update(fd, READ_EVENT), Update(fd, NONE_EVENT), Update(fd, READ_EVENT)];
    var s1 := Step(EMPTY, ops[0]);
    StepRefines(EMPTY, ops[0]);
    StepRefines(s1, ops[1]);
    var s2 := Step(s1, ops[1]);
    StepRefines(s2, ops[2]);
    assert ops[1..] == [ops[1], ops[2]] && ops[1..][1..] == [ops[2]] && ops[1..][1..][1..] == [];
    assert Run(EMPTY, ops) == Run(s1, ops[1..]) == Run(s2, ops[1..][1..]) == Step(s2, ops[2]);
  }

  // ----- ready slots

  /** The descriptors of the slots that have something to report, in slot order. */
  function Ready(p: seq<PollFd>): seq<int> {
    if p == [] then []
    else if p[0].revents > 0 then [p[0].fd] + Ready(p[1..])
    else Ready(p[1..])
  }

  lemma {:induction false} ReadyAppend(p: seq<PollFd>, slot: PollFd)
    ensures Ready(p + [slot]) == Ready(p) + if slot.revents > 0 then [slot.fd] else []
    decreases |p|
  {
    if p == [] {
      assert p + [slot] == [slot];
    } else {
      assert (p + [slot])[1..] == p[1..] + [slot];
      ReadyAppend(p[1..], slot);
    }
  }

  lemma {:induction false} ReadyGrows(p: seq<PollFd>, n: nat)
    requires n <= |p|
    ensures Ready(p[..n]) <= Ready(p)
    decreases |p| - n
  {
    if n == |p| {
      assert p[..n] == p;
    } else {
      assert p[..n + 1] == p[..n] + [p[n]];
      ReadyAppend(p[..n], p[n]);
      ReadyGrows(p, n + 1);
    }
  }

  /** Which descriptors are ready, and that none is there twice. */
  lemma {:induction false} ReadyIsTheFilter(p: seq<PollFd>)
    requires forall i, j | 0 <= i < j < |p| :: Decode(p[i].fd) != Decode(p[j].fd)
    ensures forall fd :: fd in Ready(p) <==> exists i | 0 <= i < |p| :: p[i].fd == fd && p[i].revents > 0
    ensures forall i, j | 0 <= i < j < |Ready(p)| :: Ready(p)[i] != Ready(p)[j]
    decreases |p|
  {
    if p == [] {
    } else {
      var rest := p[1..];
      forall i, j | 0 <= i < j < |rest| ensures Decode(rest[i].fd) != Decode(rest[j].fd) {
        assert rest[i] == p[i + 1] && rest[j] == p[j + 1];
      }
      ReadyIsTheFilter(rest);
      assert forall i | 0 <= i < |rest| :: rest[i] == p[i + 1];
      if p[0].revents > 0 {
        assert p[0].fd !in Ready(rest);
      }
    }
  }

  lemma ConsistentSlotsDiffer(p: seq<PollFd>, ix: Indices)
    requires Consistent(p, ix)
    ensures forall i, j | 0 <= i < j < |p| :: Decode(p[i].fd) != Decode(p[j].fd)
  {
  }
}
