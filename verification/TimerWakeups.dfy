/** What the kernel timer is set to, step by step, and how early it can fire. */
module TimerWakeups {
  import opened Timestamps
  import opened TimerEntries
  import opened TimerModel
  import opened TimerInvariant
  import opened TimerLifecycle

  /** The kernel timer set for `when`: never less than 100 microseconds from now. */
  function SetFor(when: int, clock: int): TimerFd {
    Armed(if when < clock + 100 then clock + 100 else when)
  }

  /** The relative delay, split up and put together again, leads to the time that was meant. */
  lemma ArmsForTheTimeMeant(s: State, when: int)
    ensures ResetTimerFd(s, when) == s.(fd := SetFor(when, s.clock), armedAt := s.clock)
  {
  }

  /** The clock, and what it makes of the kernel timer. */
  predicate Passes(s: State, t: State, micros: nat) {
    t.clock == s.clock + micros && t.armedAt == s.armedAt
    && t.fd == if s.fd.Armed? && s.fd.deadline <= t.clock then Fired else s.fd
  }

  predicate SetNow(s: State, t: State, when: int) {
    t.clock == s.clock == t.armedAt && t.fd == SetFor(when, s.clock)
  }

  predicate LeftAlone(s: State, t: State) {
    t.clock == s.clock && t.armedAt == s.armedAt && t.fd == s.fd
  }

  /** The kernel timer is set by an addition that changes the earliest time, for that time; by the end
      of a batch, for the earliest time there is, unless that is not valid; read at the start of a
      batch; and left alone by everything else. */
  predicate TimerFdStep(s: State, event: Event, t: State) {
    match event
    case User(Add(when, _, at)) =>
      if 0 < at < UINTPTR_MAX && at !in s.heap && (s.timers == [] || when < s.timers[0].when)
      then SetNow(s, t, when) else LeftAlone(s, t)
    case User(Tick(micros)) => Passes(s, t, micros)
    case User(_) => LeftAlone(s, t)
    case BeginRead => LeftAlone(s.(fd := if s.phase.Idle? && s.fd.Fired? then Disarmed else s.fd), t)
    case RunNext => LeftAlone(s, t)
    case EndRead =>
      if Closes(s, event) && t.timers != [] && t.timers[0].when > 0
      then SetNow(s, t, t.timers[0].when) else LeftAlone(s, t)
  }

  lemma StepSetsTheTimer(s: State, event: Event)
    requires Inv(s)
    ensures TimerFdStep(s, event, Step(s, event))
  {
    if Closes(s, event) {
      ClosingSetsTheTimer(s);
    } else if event.User? && event.op.Add? && Allocatable(s, event.op.at) {
      AddingSetsTheTimer(s, event.op);
    } else {
      hide Inv, ResetTimerFd, SetFor;
    }
  }

  lemma AddingSetsTheTimer(s: State, op: Op)
    requires op.Add? && Allocatable(s, op.at)
    ensures TimerFdStep(s, User(op), Step(s, User(op)))
  {
    ArmsForTheTimeMeant(Insert(NewTimer(s, op.when, op.interval, op.at), op.at), op.when);
  }

  lemma FirstIsInTheHeap(s: State)
    requires Inv(s)
    ensures s.timers != [] ==> s.timers[0].when == TimerAt(s.heap, s.timers[0].timer).expiration
  {
    assert s.timers != [] ==> s.timers[0] in s.timers;
  }

  lemma RearmSetsTheTimer(s: State)
    ensures var t := Rearm(s);
      && t.timers == s.timers && t.heap == s.heap && t.clock == s.clock
      && if s.timers != [] && TimerAt(s.heap, s.timers[0].timer).expiration > 0
         then SetNow(s, t, TimerAt(s.heap, s.timers[0].timer).expiration) else LeftAlone(s, t)
  {
  }

  lemma ClosingSetsTheTimer(s: State)
    requires Inv(s) && Closes(s, EndRead)
    ensures TimerFdStep(s, EndRead, Step(s, EndRead))
  {
    hide Inv, ResetBatch, Rearm, SetFor;
    var r := s.(phase := Resetting(s.phase.now, s.phase.batch));
    ResetBatchFrame(r);
    RearmSetsTheTimer(ResetBatch(r));
    StepKeepsInv(s, EndRead);
    FirstIsInTheHeap(Step(s, EndRead));
    assert Step(s, EndRead) == Rearm(ResetBatch(r)).(phase := Idle);
  }

  // ----- over runs

  /** The kernel timer never fires, and is never set to fire, within 100 microseconds of its setting. */
  predicate FloorKept(s: State) {
    && (s.fd.Armed? ==> s.armedAt + 100 <= s.fd.deadline)
    && (s.fd.Fired? ==> s.armedAt + 100 <= s.clock)
  }

  lemma StepKeepsTheFloor(s: State, event: Event, t: State)
    requires TimerFdStep(s, event, t) && FloorKept(s)
    ensures FloorKept(t)
  {
    if event.User? && event.op.Tick? {
      assert Passes(s, t, event.op.micros);
    } else {
      assert LeftAlone(s, t) || t.fd.Disarmed?
        || (t.fd.Armed? && t.clock + 100 <= t.fd.deadline && t.armedAt == t.clock);
    }
  }

  lemma {:induction false} RunKeepsTheFloor(s: State, events: seq<Event>)
    requires Inv(s) && FloorKept(s)
    ensures FloorKept(Run(s, events))
    decreases |events|
  {
    if events == [] {
    } else {
      hide Inv, Step, TimerFdStep, FloorKept;
      StepSetsTheTimer(s, events[0]);
      StepKeepsTheFloor(s, events[0], Step(s, events[0]));
      StepKeepsInv(s, events[0]);
      RunKeepsTheFloor(Step(s, events[0]), events[1..]);
    }
  }

  /** Over any run: so the loop is not woken again before that, however late its timers are. */
  lemma NoWakeupWithinTheFloor(clock: int, events: seq<Event>)
    requires clock > 0
    ensures FloorKept(Run(Init(clock), events))
  {
    InitInv(clock);
    RunKeepsTheFloor(Init(clock), events);
  }

  predicate AddsNothing(event: Event) {
    event == RunNext || (event.User? && !event.op.Add?)
  }

  lemma {:induction false} BatchLeavesTimerFd(s: State, events: seq<Event>)
    requires Inv(s) && s.phase.Calling? && s.fd.Disarmed?
    requires forall e | e in events :: AddsNothing(e)
    ensures var m := Run(s, events); Inv(m) && m.phase.Calling? && m.fd.Disarmed?
    decreases |events|
  {
    if events == [] {
    } else {
      var t := Step(s, events[0]);
      assert AddsNothing(events[0]);
      StepSetsTheTimer(s, events[0]);
      StepKeepsInv(s, events[0]);
      assert t.phase.Calling?;
      hide Inv, Step;
      BatchLeavesTimerFd(t, events[1..]);
    }
  }

  /** After handleRead has answered the kernel timer, and no callback added a timer, poll is not
      woken again for nothing: the kernel timer is set for the earliest timer left, and is quiet if
      there is none with a valid time. */
  lemma ReadingQuietsTheTimer(s: State, events: seq<Event>)
    requires Inv(s) && s.phase.Idle? && s.fd.Fired?
    requires forall e | e in events :: AddsNothing(e)
    requires Closes(Run(Step(s, BeginRead), events), EndRead)
    ensures var m := Run(Step(s, BeginRead), events);
      var t := Step(m, EndRead);
      t.fd == if t.timers != [] && t.timers[0].when > 0 then SetFor(t.timers[0].when, m.clock) else Disarmed
  {
    StepSetsTheTimer(s, BeginRead);
    StepKeepsInv(s, BeginRead);
    BatchLeavesTimerFd(Step(s, BeginRead), events);
    StepSetsTheTimer(Run(Step(s, BeginRead), events), EndRead);
  }
}
