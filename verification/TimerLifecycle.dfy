/** What one step does to one timer, for each of the places a timer can be. */
module TimerLifecycle {
  import opened TimerEntries
  import opened TimerModel
  import opened TimerInvariant

  predicate InSets(s: State, id: TimerId) {
    id in s.active && EntryAt(s.heap, id.timer) in s.timers
  }

  predicate InBatch(s: State, id: TimerId) {
    Live(s, id) && EntryAt(s.heap, id.timer) in Batch(s)
  }

  /** `reset` keeps a batch member exactly when it repeats and nobody cancelled it. */
  predicate Renewed(s: State, id: TimerId) {
    TimerAt(s.heap, id.timer).Repeat() && id !in s.canceling
  }

  /** The step that ends a batch. */
  predicate Closes(s: State, event: Event) {
    event == EndRead && s.phase.Calling? && s.phase.next == |s.phase.batch|
  }

  predicate SameTimer(s: State, t: State, id: TimerId) {
    && Live(t, id) == Live(s, id)
    && (Live(s, id) ==> t.heap[id.timer] == s.heap[id.timer])
  }

  // ----- user operations

  lemma AddFrame(s: State, when: int, interval: real, at: Address, id: TimerId)
    requires Inv(s) && id.sequence <= s.created && Allocatable(s, at)
    ensures var t := AddTimerInLoop(NewTimer(s, when, interval, at), at);
      SameTimer(s, t, id) && (id in t.active <==> id in s.active)
  {
  }

  lemma CancelFrame(s: State, other: TimerId, id: TimerId)
    requires Inv(s)
    ensures var t := CancelInLoop(s, other);
      if other == id && id in s.active then !Live(t, id)
      else SameTimer(s, t, id) && (id in t.active <==> id in s.active)
  {
  }

  lemma DoFrame(s: State, op: Op, id: TimerId)
    requires Inv(s) && id.sequence <= s.created
    ensures var t := Do(s, op);
      if op == Cancel(id) && id in s.active then !Live(t, id)
      else SameTimer(s, t, id) && (id in t.active <==> id in s.active)
  {
    match op
    case Add(when, interval, at) => if Allocatable(s, at) { AddFrame(s, when, interval, at, id); }
    case Cancel(other) => CancelFrame(s, other, id);
    case Tick(_) =>
    case AddElsewhere =>
  }

  // ----- handleRead

  lemma StartReadFrame(s: State, id: TimerId)
    requires Inv(s) && s.phase.Idle?
    ensures var t := StartRead(s);
      && SameTimer(s, t, id)
      && (id in t.active <==> id in s.active && s.clock < s.heap[id.timer].expiration)
  {
    forall e | e in s.timers ensures e.timer < UINTPTR_MAX {
      assert e.timer in s.heap;
    }
    ExpiredSplit(s);
    var expired := s.timers[..ExpiredCount(s)];
    if id in s.active {
      var e := EntryAt(s.heap, id.timer);
      assert e in expired <==> e.when <= s.clock;
      assert forall x | x in expired :: x == EntryAt(s.heap, x.timer);
    }
  }

  lemma {:induction false} ResetBatchFrame(s: State)
    requires s.phase.Resetting?
    ensures var r := ResetBatch(s);
      && r.canceling == s.canceling && r.fd == s.fd && r.clock == s.clock && r.created == s.created
      && r.armedAt == s.armedAt && r.born == s.born && r.fired == s.fired
    decreases |s.phase.batch|
  {
    if s.phase.batch == [] {
    } else {
      ResetBatchFrame(ResetHead(s));
    }
  }

  ghost predicate Settles(s: State, t: State, id: TimerId)
    requires !s.phase.Idle?
  {
    if InBatch(s, id) && Renewed(s, id) then
      Live(t, id) && id in t.active && t.heap[id.timer] == s.heap[id.timer].Restart(s.phase.now)
    else if InBatch(s, id) then
      !Live(t, id)
    else
      SameTimer(s, t, id) && (Live(s, id) ==> id in t.active)
  }

  lemma ResetHeadFate(s: State, id: TimerId)
    requires Sound(s) && s.phase.Resetting? && s.phase.batch != []
    ensures var t := ResetHead(s);
      if Live(s, id) && EntryAt(s.heap, id.timer) == s.phase.batch[0]
      then Settles(s, t, id) && !InBatch(t, id)
      else SameTimer(s, t, id) && InBatch(t, id) == InBatch(s, id)
  {
    var e := s.phase.batch[0];
    assert e in Batch(s);
    PopHeadApart(s);
    if Live(s, id) {
      assert EntryAt(s.heap, id.timer) == e <==> id.timer == e.timer;
    }
    assert Batch(ResetHead(s)) == Batch(PopHead(s));
  }

  lemma {:induction false} ResetBatchFate(s: State, id: TimerId)
    requires Sound(s) && s.phase.Resetting?
    ensures Settles(s, ResetBatch(s), id)
    decreases |s.phase.batch|
  {
    if Live(s, id) {
      assert id == IdAt(s.heap, id.timer);
    }
    if s.phase.batch == [] {
    } else {
      ResetHeadSound(s);
      ResetHeadFate(s, id);
      ResetBatchFate(ResetHead(s), id);
    }
  }

  lemma ResetFrame(s: State, id: TimerId)
    requires Inv(s) && s.phase.Calling?
    ensures var t := Reset(s);
      && Settles(s, t, id)
      && t.canceling == s.canceling && t.clock == s.clock && t.created == s.created && t.fired == s.fired
  {
    var r := s.(phase := Resetting(s.phase.now, s.phase.batch));
    UnmovedSound(s, r);
    ResetBatchFate(r, id);
    ResetBatchFrame(r);
    assert SameTimer(ResetBatch(r), Reset(s), id);
  }

  /** What no step takes back, and where a mark comes from. */
  ghost predicate Onward(s: State, t: State, event: Event) {
    && s.clock <= t.clock && s.created <= t.created && s.born <= t.born && s.canceling <= t.canceling
    && (forall id | id in t.canceling && id !in s.canceling :: event == User(Cancel(id)) && id !in s.active)
    && (t.phase.Calling? ==> t.phase.now == if s.phase.Calling? then s.phase.now else s.clock)
  }

  lemma DoOnward(s: State, op: Op)
    ensures Onward(s, Do(s, op), User(op)) && Do(s, op).fired == s.fired
  {
  }

  lemma StepOnward(s: State, event: Event)
    ensures Onward(s, Step(s, event), event)
  {
    match event
    case User(op) => DoOnward(s, op);
    case BeginRead =>
    case RunNext =>
    case EndRead =>
      if Closes(s, event) {
        ResetBatchFrame(s.(phase := Resetting(s.phase.now, s.phase.batch)));
      }
  }

  /** An id that was issued is in the sets, in the batch, or freed once; and in one of them only. */
  lemma Placed(s: State, id: TimerId)
    requires Inv(s) && id in s.born
    ensures InSets(s, id) <==> id in s.active
    ensures InSets(s, id) ==> !InBatch(s, id) && Live(s, id) && s.freed[id] == 0
    ensures InBatch(s, id) ==> s.freed[id] == 0
    ensures !InSets(s, id) && !InBatch(s, id) ==> !Live(s, id) && s.freed[id] == 1
  {
  }

  // ----- the three fates

  /** A timer in the sets leaves them only by its own cancellation or by falling due, and
      while it is there its record, and so its expiration, does not change. */
  lemma ActiveFate(s: State, event: Event, id: TimerId)
    requires Inv(s) && id in s.active
    ensures var t := Step(s, event);
      if event == User(Cancel(id)) then
        !Live(t, id) && t.freed[id] == 1
      else
        && Live(t, id) && t.heap[id.timer] == s.heap[id.timer]
        && (if event == BeginRead && s.phase.Idle? && s.heap[id.timer].expiration <= s.clock
            then InBatch(t, id) && id !in t.active
            else InSets(t, id))
  {
    var t := Step(s, event);
    assert id == IdAt(s.heap, id.timer) && id in s.born;
    StepKeepsInv(s, event);
    StepOnward(s, event);
    match event
    case User(op) => DoFrame(s, op, id);
    case BeginRead => if s.phase.Idle? { StartReadFrame(s, id); }
    case RunNext =>
    case EndRead => if Closes(s, event) { ResetFrame(s, id); }
    Placed(t, id);
  }

  /** A batch member stays what it is until `reset` renews or frees it. */
  lemma BatchFate(s: State, event: Event, id: TimerId)
    requires Inv(s) && InBatch(s, id)
    ensures var t := Step(s, event);
      if Closes(s, event) then
        if Renewed(s, id)
        then InSets(t, id) && Live(t, id) && t.heap[id.timer] == s.heap[id.timer].Restart(s.phase.now)
        else !Live(t, id) && t.freed[id] == 1
      else
        InBatch(t, id) && t.heap[id.timer] == s.heap[id.timer] && Batch(t) == Batch(s)
  {
    var t := Step(s, event);
    assert id == IdAt(s.heap, id.timer) && id in s.born;
    StepKeepsInv(s, event);
    StepOnward(s, event);
    match event
    case User(op) => DoFrame(s, op, id);
    case BeginRead =>
    case RunNext =>
    case EndRead => if Closes(s, event) { ResetFrame(s, id); }
    Placed(t, id);
  }

  /** An issued id that names nothing never names anything again, even when its address is reused. */
  lemma FreedFate(s: State, event: Event, id: TimerId)
    requires Inv(s) && id.sequence <= s.created && !Live(s, id)
    ensures var t := Step(s, event); id.sequence <= t.created && !Live(t, id)
  {
    match event
    case User(op) => DoFrame(s, op, id);
    case BeginRead => if s.phase.Idle? { StartReadFrame(s, id); }
    case RunNext =>
    case EndRead => if Closes(s, event) { ResetFrame(s, id); }
  }
}
