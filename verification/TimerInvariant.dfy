/** What every step of the timer queue keeps. */
module TimerInvariant {
  import opened Timestamps
  import opened TimerEntries
  import opened TimerModel

  function EntryAt(heap: map<Address, Timer>, a: Address): Entry {
    Entry(TimerAt(heap, a).expiration, a)
  }

  /** `id` names a timer that is allocated now. */
  predicate Live(s: State, id: TimerId) {
    id.timer in s.heap && s.heap[id.timer].sequence == id.sequence
  }

  /** The entries that are out of the sets and in the hands of `handleRead`. */
  function Batch(s: State): seq<Entry> {
    if s.phase.Idle? then [] else s.phase.batch
  }

  /** `timers` and `active` hold the same timers, each under its current expiration. */
  ghost predicate TwinSetsAgree(s: State) {
    && Sorted(s.timers)
    && (forall e | e in s.timers ::
          e.timer in s.heap && e == EntryAt(s.heap, e.timer) && IdAt(s.heap, e.timer) in s.active)
    && (forall id | id in s.active ::
          id.timer in s.heap && id == IdAt(s.heap, id.timer) && EntryAt(s.heap, id.timer) in s.timers)
  }

  /** The batch is ordered, allocated, and apart from the sets. */
  ghost predicate BatchApart(s: State) {
    && Sorted(Batch(s))
    && (forall e | e in Batch(s) ::
          e.timer in s.heap && e == EntryAt(s.heap, e.timer) && IdAt(s.heap, e.timer) !in s.active)
  }

  /** Nothing allocated is forgotten. */
  ghost predicate NoneLost(s: State) {
    forall a | a in s.heap ::
      0 < a < UINTPTR_MAX && (IdAt(s.heap, a) in s.active || EntryAt(s.heap, a) in Batch(s))
  }

  ghost predicate Numbered(s: State) {
    && (forall a | a in s.heap :: IdAt(s.heap, a) in s.born)
    && (forall id | id in s.born :: 1 <= id.sequence <= s.created)
    && (forall i, j | i in s.born && j in s.born && i.sequence == j.sequence :: i == j)
  }

  /** Every timer ever allocated is allocated still or was freed exactly once. */
  ghost predicate FreedOnce(s: State) {
    forall id: TimerId :: s.freed[id] == if id in s.born && !Live(s, id) then 1 else 0
  }

  ghost predicate OnTime(s: State) {
    && 0 < s.clock
    && s.armedAt <= s.clock
    && (s.fd.Armed? ==> s.clock < s.fd.deadline)
    && (!s.phase.Idle? ==> 0 < s.phase.now <= s.clock)
    && (s.phase.Calling? ==> s.phase.next <= |s.phase.batch|)
    && (forall e | e in Batch(s) :: e.when <= s.phase.now)
  }

  /** The kernel timer wakes the loop by `due`, or MIN_DELAY_MICROS after it was last set. */
  ghost predicate WakesBy(s: State, due: int) {
    s.fd.Fired? || (s.fd.Armed? && s.fd.deadline <= Max(due, s.armedAt + MIN_DELAY_MICROS))
  }

  /** Outside `handleRead` the earliest timer has a wakeup; inside it, a timer that a callback
      added already due has one. */
  ghost predicate Covered(s: State) {
    s.timers != [] && (s.phase.Idle? || s.timers[0].when <= s.phase.now) ==> WakesBy(s, s.timers[0].when)
  }

  ghost predicate Sound(s: State) {
    && !s.crashed
    && TwinSetsAgree(s)
    && BatchApart(s)
    && NoneLost(s)
    && Numbered(s)
    && FreedOnce(s)
    && OnTime(s)
  }

  /** What holds wherever user code can run; it never runs inside `reset`. */
  ghost predicate Inv(s: State) {
    !s.phase.Resetting? && Sound(s) && Covered(s)
  }

  lemma ActiveIsLive(s: State, id: TimerId)
    requires Inv(s) && id in s.active
    ensures id.timer in s.heap && id == IdAt(s.heap, id.timer)
  {
  }

  lemma InitInv(clock: int)
    requires clock > 0
    ensures Inv(Init(clock))
  {
  }

  /** Steps that touch only the kernel timer, the clock or the phase tag move no timer. */
  lemma UnmovedSound(s: State, t: State)
    requires Sound(s) && OnTime(t) && !t.crashed
    requires t.heap == s.heap && t.timers == s.timers && t.active == s.active
    requires t.born == s.born && t.freed == s.freed && t.created == s.created && Batch(t) == Batch(s)
    ensures Sound(t)
  {
  }

  lemma ResetTimerFdSound(s: State, when: int)
    requires Sound(s)
    ensures Sound(ResetTimerFd(s, when))
  {
  }

  // ----- adding

  lemma InsertSound(s: State, a: Address)
    requires !s.crashed && TwinSetsAgree(s) && BatchApart(s)
    requires a in s.heap && IdAt(s.heap, a) !in s.active && EntryAt(s.heap, a) !in Batch(s)
    ensures var t := Insert(s, a);
      !t.crashed && TwinSetsAgree(t) && BatchApart(t)
  {
    InsertKeepsOrder(s.timers, EntryAt(s.heap, a));
  }

  /** Allocation alone: the new timer is in no set yet, and no older id comes back to life. */
  lemma NewTimerFacts(s: State, when: int, interval: real, at: Address)
    requires Sound(s) && Allocatable(s, at)
    ensures var n := NewTimer(s, when, interval, at);
      && !n.crashed && TwinSetsAgree(n) && BatchApart(n) && Numbered(n) && FreedOnce(n)
      && at in n.heap && IdAt(n.heap, at) !in n.active && EntryAt(n.heap, at) !in Batch(n)
  {
    NewTimerNumbered(s, when, interval, at);
    NewTimerFreedOnce(s, when, interval, at);
    NewTimerApart(s, when, interval, at);
    hide Numbered, FreedOnce, TwinSetsAgree, BatchApart;
  }

  lemma NewTimerApart(s: State, when: int, interval: real, at: Address)
    requires TwinSetsAgree(s) && BatchApart(s) && Allocatable(s, at)
    ensures var n := NewTimer(s, when, interval, at);
      TwinSetsAgree(n) && BatchApart(n) && IdAt(n.heap, at) !in n.active && EntryAt(n.heap, at) !in Batch(n)
  {
    var n := NewTimer(s, when, interval, at);
    hide Sorted;
    assert forall a | a in s.heap :: IdAt(n.heap, a) == IdAt(s.heap, a) && EntryAt(n.heap, a) == EntryAt(s.heap, a);
    assert TwinSetsAgree(n);
    assert BatchApart(n);
  }

  lemma NewTimerNumbered(s: State, when: int, interval: real, at: Address)
    requires Numbered(s) && Allocatable(s, at)
    ensures var n := NewTimer(s, when, interval, at); Numbered(n)
  {
  }

  lemma NewTimerFreedOnce(s: State, when: int, interval: real, at: Address)
    requires Numbered(s) && FreedOnce(s) && Allocatable(s, at)
    ensures FreedOnce(NewTimer(s, when, interval, at))
  {
  }

  lemma AddNoneLost(s: State, when: int, interval: real, at: Address)
    requires NoneLost(s) && Allocatable(s, at)
    ensures NoneLost(Insert(NewTimer(s, when, interval, at), at))
  {
  }

  lemma InsertNumbered(s: State, a: Address)
    requires Numbered(s) && FreedOnce(s)
    ensures Numbered(Insert(s, a)) && FreedOnce(Insert(s, a))
  {
  }

  lemma NumberedOf(s: State, t: State)
    requires Numbered(s) && FreedOnce(s)
    requires t.heap == s.heap && t.born == s.born && t.freed == s.freed && t.created == s.created
    ensures Numbered(t) && FreedOnce(t)
  {
  }

  lemma AddSound(s: State, when: int, interval: real, at: Address)
    requires Sound(s) && Allocatable(s, at)
    ensures Sound(AddTimerInLoop(NewTimer(s, when, interval, at), at))
  {
    var n := NewTimer(s, when, interval, at);
    NewTimerFacts(s, when, interval, at);
    InsertSound(n, at);
    InsertNumbered(n, at);
    AddNoneLost(s, when, interval, at);
    var t := Insert(n, at);
    assert Sound(t);
    if EarliestChanged(n, when) {
      ResetTimerFdSound(t, when);
    }
  }

  lemma AddCovered(s: State, when: int, interval: real, at: Address)
    requires Inv(s) && Allocatable(s, at)
    ensures Covered(AddTimerInLoop(NewTimer(s, when, interval, at), at))
  {
    InsertKeepsOrder(s.timers, Entry(when, at));
  }

  // ----- cancelling

  /** Freeing a timer that is in no set and no batch. */
  lemma DeleteNumbered(s: State, a: Address)
    requires Numbered(s) && FreedOnce(s) && a in s.heap
    ensures Numbered(Delete(s, a)) && FreedOnce(Delete(s, a))
  {
    var t := Delete(s, a);
    var gone := IdAt(s.heap, a);
    assert gone in s.born && Live(s, gone);
    forall b | b in t.heap ensures IdAt(t.heap, b) in t.born {
      assert b in s.heap && IdAt(t.heap, b) == IdAt(s.heap, b);
    }
    forall id: TimerId ensures t.freed[id] == if id in t.born && !Live(t, id) then 1 else 0 {
      assert s.freed[id] == if id in s.born && !Live(s, id) then 1 else 0;
      assert Live(t, id) <==> Live(s, id) && id != gone;
    }
  }

  lemma CancelActiveSets(s: State, id: TimerId)
    requires TwinSetsAgree(s) && BatchApart(s) && id in s.active
    ensures var t := CancelInLoop(s, id); TwinSetsAgree(t) && BatchApart(t)
  {
    var gone := EntryAt(s.heap, id.timer);
    EraseKeepsOrder(s.timers, gone);
    var t := CancelInLoop(s, id);
    assert t.timers == EraseEntry(s.timers, gone);
    forall e | e in t.timers
      ensures e.timer in t.heap && e == EntryAt(t.heap, e.timer) && IdAt(t.heap, e.timer) in t.active
    {
      assert e in s.timers && e.timer != id.timer;
    }
    forall i | i in t.active
      ensures i.timer in t.heap && i == IdAt(t.heap, i.timer) && EntryAt(t.heap, i.timer) in t.timers
    {
      assert i in s.active && i.timer != id.timer;
    }
    assert forall e | e in Batch(s) :: e.timer != id.timer;
  }

  /** Freeing `a` loses no other timer. */
  lemma FreedKeepsOthers(s: State, t: State, a: Address)
    requires NoneLost(s) && t.heap == s.heap - {a}
    requires forall b | b in t.heap && IdAt(s.heap, b) in s.active :: IdAt(s.heap, b) in t.active
    requires forall e | e in Batch(s) && e.timer != a :: e in Batch(t)
    ensures NoneLost(t)
  {
  }

  lemma CancelSound(s: State, id: TimerId)
    requires Sound(s)
    ensures Sound(CancelInLoop(s, id))
  {
    if id in s.active {
      CancelActiveSound(s, id);
    } else if s.phase.Calling? {
      var t := CancelInLoop(s, id);
      NumberedOf(s, t);
      assert TwinSetsAgree(t) && NoneLost(t) && BatchApart(t);
    }
  }

  lemma CancelActiveSound(s: State, id: TimerId)
    requires Sound(s) && id in s.active
    ensures Sound(CancelInLoop(s, id))
  {
    var t := CancelInLoop(s, id);
    CancelActiveSets(s, id);
    DeleteNumbered(s, id.timer);
    assert t.heap == Delete(s, id.timer).heap && t.freed == Delete(s, id.timer).freed;
    NumberedOf(Delete(s, id.timer), t);
    FreedKeepsOthers(s, t, id.timer);
  }

  lemma CancelCovered(s: State, id: TimerId)
    requires Inv(s)
    ensures Covered(CancelInLoop(s, id))
  {
    if id in s.active {
      EraseKeepsOrder(s.timers, EntryAt(s.heap, id.timer));
      var t := CancelInLoop(s, id);
      if t.timers != [] {
        assert t.timers[0] in s.timers;
        assert s.timers[0].when <= t.timers[0].when;
      }
    }
  }

  lemma AddElsewhereSound(s: State)
    requires Sound(s)
    ensures Sound(Do(s, AddElsewhere))
  {
    var t := Do(s, AddElsewhere);
    assert TwinSetsAgree(t) && BatchApart(t) && NoneLost(t);
    assert forall id: TimerId :: Live(t, id) == Live(s, id);
  }

  lemma DoKeepsInv(s: State, op: Op)
    requires Inv(s)
    ensures Inv(Do(s, op))
  {
    match op
    case Add(when, interval, at) =>
      if Allocatable(s, at) {
        AddSound(s, when, interval, at);
        AddCovered(s, when, interval, at);
      }
    case Cancel(id) =>
      CancelSound(s, id);
      CancelCovered(s, id);
    case Tick(micros) =>
    case AddElsewhere => AddElsewhereSound(s);
  }

  // ----- handleRead

  /** The batch taken out is exactly the due timers; what stays is due later. */
  lemma ExpiredSplit(s: State)
    requires Sorted(s.timers)
    requires forall e | e in s.timers :: e.timer < UINTPTR_MAX
    ensures var n := ExpiredCount(s);
      && Sorted(s.timers[..n]) && Sorted(s.timers[n..])
      && (forall e :: e in s.timers[..n] <==> e in s.timers && e.when <= s.clock)
      && (forall e :: e in s.timers[n..] <==> e in s.timers && s.clock < e.when)
  {
  }

  lemma StartReadSets(s: State)
    requires Sound(s) && s.phase.Idle?
    ensures TwinSetsAgree(StartRead(s)) && !StartRead(s).crashed
  {
    var t := StartRead(s);
    forall e | e in s.timers ensures e.timer < UINTPTR_MAX {
      assert e.timer in s.heap;
    }
    ExpiredSplit(s);
    var n := ExpiredCount(s);
    var expired := s.timers[..n];
    forall e | e in t.timers
      ensures e.timer in t.heap && e == EntryAt(t.heap, e.timer) && IdAt(t.heap, e.timer) in t.active
    {
      assert e in s.timers && e !in expired;
      assert forall x | x in expired :: x in s.timers && x.timer != e.timer;
    }
    forall id | id in t.active
      ensures id.timer in t.heap && id == IdAt(t.heap, id.timer) && EntryAt(t.heap, id.timer) in t.timers
    {
      var e := EntryAt(s.heap, id.timer);
      assert id in s.active && e in s.timers;
      assert e !in expired;
    }
  }

  lemma StartReadSound(s: State)
    requires Sound(s) && s.phase.Idle?
    ensures Sound(StartRead(s))
  {
    StartReadSets(s);
    ExpiredSplit(s);
    var t := StartRead(s);
    assert forall e | e in Batch(t) :: e in s.timers;
    assert BatchApart(t);
    assert NoneLost(t);
    NumberedOf(s, t);
  }

  lemma StartReadKeepsInv(s: State)
    requires Inv(s) && s.phase.Idle?
    ensures Inv(StartRead(s))
  {
    StartReadSound(s);
    forall e | e in s.timers ensures e.timer < UINTPTR_MAX {
      assert e.timer in s.heap;
    }
    ExpiredSplit(s);
    var t := StartRead(s);
    assert t.timers != [] ==> t.timers[0] in t.timers;
  }

  lemma CallNextKeepsInv(s: State)
    requires Inv(s) && s.phase.Calling? && s.phase.next < |s.phase.batch|
    ensures Inv(CallNext(s))
  {
  }

  /** The state in `reset` once the head has left the batch and before it is put anywhere. */
  function PopHead(s: State): State
    requires s.phase.Resetting? && s.phase.batch != []
  {
    s.(phase := s.phase.(batch := s.phase.batch[1..]))
  }

  lemma PopHeadApart(s: State)
    requires s.phase.Resetting? && s.phase.batch != [] && BatchApart(s)
    ensures BatchApart(PopHead(s))
    ensures forall e | e in Batch(PopHead(s)) :: e in Batch(s) && e.timer != s.phase.batch[0].timer
    ensures forall e | e in Batch(s) :: e in Batch(PopHead(s)) || e == s.phase.batch[0]
  {
  }

  lemma RestartNumbered(s: State, t: State, a: Address, now: int)
    requires Numbered(s) && FreedOnce(s) && a in s.heap
    requires t.heap == s.heap[a := s.heap[a].Restart(now)]
    requires t.born == s.born && t.freed == s.freed && t.created == s.created
    ensures Numbered(t) && FreedOnce(t)
  {
    forall b | b in t.heap ensures IdAt(t.heap, b) == IdAt(s.heap, b) {}
    forall id: TimerId ensures Live(t, id) == Live(s, id) {}
  }

  lemma RestartHeadSound(s: State)
    requires Sound(s) && s.phase.Resetting? && s.phase.batch != []
    requires var a := s.phase.batch[0].timer; s.heap[a].Repeat() && IdAt(s.heap, a) !in s.canceling
    ensures Sound(ResetHead(s))
  {
    var a := s.phase.batch[0].timer;
    PopHeadApart(s);
    var p := PopHead(s);
    var r := p.(heap := s.heap[a := s.heap[a].Restart(s.phase.now)]);
    forall b | b in s.heap ensures IdAt(r.heap, b) == IdAt(s.heap, b) {}
    forall b | b in s.heap && b != a ensures EntryAt(r.heap, b) == EntryAt(s.heap, b) {}
    assert s.phase.batch[0] in Batch(s);
    assert forall e | e in s.timers :: e.timer != a;
    assert TwinSetsAgree(r);
    assert BatchApart(r);
    assert EntryAt(r.heap, a) !in Batch(r);
    InsertSound(r, a);
    var t := ResetHead(s);
    assert t == Insert(r, a);
    RestartNumbered(s, t, a, s.phase.now);
    forall b | b in t.heap
      ensures 0 < b < UINTPTR_MAX && (IdAt(t.heap, b) in t.active || EntryAt(t.heap, b) in Batch(t))
    {
      assert b in s.heap;
      assert b != a && IdAt(s.heap, b) !in s.active ==> EntryAt(s.heap, b) != s.phase.batch[0];
    }
  }

  lemma DeleteHeadSets(s: State)
    requires TwinSetsAgree(s) && BatchApart(s) && s.phase.Resetting? && s.phase.batch != []
    ensures var t := Delete(PopHead(s), s.phase.batch[0].timer); TwinSetsAgree(t) && BatchApart(t)
  {
  }

  lemma DeleteHeadSound(s: State)
    requires Sound(s) && s.phase.Resetting? && s.phase.batch != []
    ensures Sound(Delete(PopHead(s), s.phase.batch[0].timer))
  {
    var a := s.phase.batch[0].timer;
    assert s.phase.batch[0] in Batch(s);
    var p := PopHead(s);
    var t := Delete(p, a);
    DeleteHeadSets(s);
    NumberedOf(s, p);
    DeleteNumbered(p, a);
    PopHeadApart(s);
    assert forall e | e in Batch(s) && e.timer != a :: e in Batch(t);
    FreedKeepsOthers(s, t, a);
    assert OnTime(t);
  }

  lemma ResetHeadSound(s: State)
    requires Sound(s) && s.phase.Resetting? && s.phase.batch != []
    ensures Sound(ResetHead(s))
  {
    var a := s.phase.batch[0].timer;
    assert s.phase.batch[0] in Batch(s);
    if s.heap[a].Repeat() && IdAt(s.heap, a) !in s.canceling {
      RestartHeadSound(s);
    } else {
      DeleteHeadSound(s);
      assert ResetHead(s) == Delete(PopHead(s), a);
    }
  }

  /** A timer at a time no clock shows has a wakeup, since `reset` will not arm for it. */
  ghost predicate InvalidCovered(s: State) {
    s.timers != [] && !ValidTime(s.timers[0].when) ==> WakesBy(s, s.timers[0].when)
  }

  lemma ResetHeadCovers(s: State)
    requires Sound(s) && s.phase.Resetting? && s.phase.batch != [] && InvalidCovered(s)
    ensures InvalidCovered(ResetHead(s))
  {
    var a := s.phase.batch[0].timer;
    assert s.phase.batch[0] in Batch(s);
    var timer := s.heap[a];
    if timer.Repeat() && IdAt(s.heap, a) !in s.canceling {
      PositiveIntervalMayStandStill(s.phase.now, timer.interval);
      InsertKeepsOrder(s.timers, Entry(timer.Restart(s.phase.now).expiration, a));
    }
  }

  lemma {:induction false} ResetBatchSound(s: State)
    requires Sound(s) && s.phase.Resetting? && InvalidCovered(s)
    ensures Sound(ResetBatch(s)) && InvalidCovered(ResetBatch(s))
    decreases |s.phase.batch|
  {
    if s.phase.batch == [] {
    } else {
      ResetHeadSound(s);
      ResetHeadCovers(s);
      ResetBatchSound(ResetHead(s));
    }
  }

  lemma ResetKeepsInv(s: State)
    requires Inv(s) && s.phase.Calling?
    ensures Inv(Reset(s))
  {
    var r := s.(phase := Resetting(s.phase.now, s.phase.batch));
    assert Sound(r);
    ResetBatchSound(r);
    RearmRestoresInv(ResetBatch(r));
  }

  lemma RearmRestoresInv(b: State)
    requires Sound(b) && InvalidCovered(b) && b.phase.Resetting? && b.phase.batch == []
    ensures Inv(Rearm(b).(phase := Idle))
  {
    var t := Rearm(b).(phase := Idle);
    if b.timers != [] {
      assert b.timers[0] in b.timers;
    }
    assert OnTime(t);
    UnmovedSound(b, t);
  }

  lemma StepKeepsInv(s: State, event: Event)
    requires Inv(s)
    ensures Inv(Step(s, event))
  {
    match event
    case User(op) => DoKeepsInv(s, op);
    case BeginRead => if s.phase.Idle? { StartReadKeepsInv(s); }
    case RunNext => if s.phase.Calling? && s.phase.next < |s.phase.batch| { CallNextKeepsInv(s); }
    case EndRead => if s.phase.Calling? && s.phase.next == |s.phase.batch| { ResetKeepsInv(s); }
  }

  lemma {:induction false} RunKeepsInv(s: State, events: seq<Event>)
    requires Inv(s)
    ensures Inv(Run(s, events))
    decreases |events|
  {
    if events == [] {
    } else {
      StepKeepsInv(s, events[0]);
      RunKeepsInv(Step(s, events[0]), events[1..]);
    }
  }
}
