/** What cancelling does, now and over the rest of the run. */
module TimerCancel {
  import opened Timestamps
  import opened TimerEntries
  import opened TimerModel
  import opened TimerInvariant
  import opened TimerLifecycle
  import opened TimerRuns

  // ----- precision

  /** Cancelling an id frees its timer if that is in the sets, and otherwise leaves a mark if callbacks
      run; the kernel timer and the clock stay as they are. */
  lemma CancelDoes(s: State, id: TimerId)
    requires Inv(s)
    ensures var t := Step(s, User(Cancel(id)));
      && t.heap == (if id in s.active then s.heap - {id.timer} else s.heap)
      && t.active == s.active - {id}
      && t.canceling == (if id !in s.active && s.phase.Calling? then s.canceling + {id} else s.canceling)
      && t.fd == s.fd && t.clock == s.clock && t.phase == s.phase
      && t.created == s.created && t.born == s.born && t.fired == s.fired
  {
    if id !in s.active {
      assert s.active - {id} == s.active;
    }
  }

  /** Cancelling an id touches no other timer: nothing else is freed, moved, or marked. */
  lemma CancelTouchesOnlyItsTimer(s: State, id: TimerId, other: TimerId)
    requires Inv(s) && other != id
    ensures var t := Step(s, User(Cancel(id)));
      && SameTimer(s, t, other)
      && (other in t.active <==> other in s.active)
      && InBatch(t, other) == InBatch(s, other)
      && (other in t.canceling <==> other in s.canceling)
      && t.freed[other] == s.freed[other]
  {
    CancelFrame(s, id, other);
    if id in s.active {
      ActiveIsLive(s, id);
    }
    hide Inv, EraseEntry;
    assert SameTimer(s, Step(s, User(Cancel(id))), other);
  }

  // ----- survival of a batch

  /** What can happen while a batch runs: callbacks start, and their bodies act. */
  predicate DuringBatch(event: Event) {
    event.User? || event.RunNext?
  }

  lemma {:induction false} MarkedDuringBatch(s: State, events: seq<Event>, id: TimerId)
    requires Inv(s) && s.phase.Calling? && InBatch(s, id)
    requires forall e | e in events :: DuringBatch(e)
    ensures var m := Run(s, events);
      && Inv(m) && m.phase.Calling? && m.phase.now == s.phase.now && m.phase.batch == s.phase.batch
      && InBatch(m, id) && m.heap[id.timer] == s.heap[id.timer]
      && (id in m.canceling <==> id in s.canceling || User(Cancel(id)) in events)
    decreases |events|
  {
    hide Inv, Step, InBatch;
    if events == [] {
    } else {
      var t := Step(s, events[0]);
      assert DuringBatch(events[0]);
      StepKeepsInv(s, events[0]);
      BatchFate(s, events[0], id);
      MarkedAtStep(s, events[0], id);
      assert events == [events[0]] + events[1..];
      MarkedDuringBatch(t, events[1..], id);
    }
  }

  lemma MarkedAtStep(s: State, event: Event, id: TimerId)
    requires Inv(s) && s.phase.Calling? && InBatch(s, id) && DuringBatch(event)
    ensures var t := Step(s, event);
      && t.phase.Calling? && t.phase.now == s.phase.now
      && (id in t.canceling <==> id in s.canceling || event == User(Cancel(id)))
  {
    assert id == IdAt(s.heap, id.timer);
  }

  /** A due timer outlives its batch exactly when it repeats, carries no mark from before, and no
      callback of this batch cancels it; then all that changes is that it is due again one interval,
      to the microsecond, after the batch time. */
  lemma SurvivesItsBatch(s: State, events: seq<Event>, id: TimerId)
    requires Inv(s) && s.phase.Idle? && id in s.active && s.heap[id.timer].expiration <= s.clock
    requires forall e | e in events :: DuringBatch(e)
    requires Closes(Run(Step(s, BeginRead), events), EndRead)
    ensures var t := Step(Run(Step(s, BeginRead), events), EndRead);
      var timer := s.heap[id.timer];
      if timer.interval > 0.0 && id !in s.canceling && User(Cancel(id)) !in events
      then InSets(t, id) && Live(t, id)
           && LaterBy(s.clock, timer.interval, t.heap[id.timer].expiration)
           && t.heap[id.timer] == timer.(expiration := t.heap[id.timer].expiration)
      else !Live(t, id) && t.freed[id] == 1
  {
    ActiveFate(s, BeginRead, id);
    StepKeepsInv(s, BeginRead);
    var b := Step(s, BeginRead);
    MarkedDuringBatch(b, events, id);
    BatchFate(Run(b, events), EndRead, id);
    AddTimeIsTheInterval(s.clock, s.heap[id.timer].interval);
    hide Inv, Run, Step;
  }

  // ----- the marks that are never cleared

  /** Every mark names a batch member or nothing at all. */
  ghost predicate MarksSettled(s: State) {
    forall id | id in s.canceling :: id.sequence <= s.created && (Live(s, id) ==> InBatch(s, id))
  }

  /** Nobody cancels an id that addTimer has yet to return. */
  ghost predicate IssuedOnly(s: State, events: seq<Event>)
    decreases |events|
  {
    events == [] ||
    ((events[0].User? && events[0].op.Cancel? ==> events[0].op.id.sequence <= s.created)
     && IssuedOnly(Step(s, events[0]), events[1..]))
  }

  lemma StepKeepsMarksSettled(s: State, event: Event)
    requires Inv(s) && MarksSettled(s)
    requires event.User? && event.op.Cancel? ==> event.op.id.sequence <= s.created
    ensures MarksSettled(Step(s, event))
  {
    var t := Step(s, event);
    StepOnward(s, event);
    forall id | id in t.canceling
      ensures id.sequence <= t.created && (Live(t, id) ==> InBatch(t, id))
    {
      assert Live(s, id) ==> id == IdAt(s.heap, id.timer);
      if !Live(s, id) {
        FreedFate(s, event, id);
      } else if InBatch(s, id) {
        BatchFate(s, event, id);
      }
    }
  }

  lemma {:induction false} RunKeepsMarksSettled(s: State, events: seq<Event>)
    requires Inv(s) && MarksSettled(s) && IssuedOnly(s, events)
    ensures MarksSettled(Run(s, events))
    decreases |events|
  {
    if events == [] {
    } else {
      StepKeepsMarksSettled(s, events[0]);
      StepKeepsInv(s, events[0]);
      RunKeepsMarksSettled(Step(s, events[0]), events[1..]);
    }
  }

  /** As long as only issued ids are cancelled, never clearing the marks is harmless: outside
      `handleRead` each of them names a freed timer, so no later batch member carries one. */
  lemma LeftoverMarksNameFreedTimers(clock: int, events: seq<Event>, id: TimerId)
    requires clock > 0 && IssuedOnly(Init(clock), events)
    ensures var s := Run(Init(clock), events);
      s.phase.Idle? && id in s.canceling ==> !Live(s, id) && id !in s.active
  {
    InitInv(clock);
    RunKeepsInv(Init(clock), events);
    RunKeepsMarksSettled(Init(clock), events);
  }

  /** In such runs a due timer survives its batch exactly when it repeats and this very batch does
      not cancel it, whatever was cancelled before. */
  lemma SurvivesUnlessCancelledNow(clock: int, before: seq<Event>, during: seq<Event>, id: TimerId)
    requires clock > 0 && IssuedOnly(Init(clock), before)
    requires forall e | e in during :: DuringBatch(e)
    requires var s := Run(Init(clock), before);
      && s.phase.Idle? && id in s.active && TimerAt(s.heap, id.timer).expiration <= s.clock
      && Closes(Run(Step(s, BeginRead), during), EndRead)
    ensures var s := Run(Init(clock), before);
      var t := Step(Run(Step(s, BeginRead), during), EndRead);
      id in t.active <==> TimerAt(s.heap, id.timer).Repeat() && User(Cancel(id)) !in during
  {
    var s := Run(Init(clock), before);
    InitInv(clock);
    RunKeepsInv(Init(clock), before);
    LeftoverMarksNameFreedTimers(clock, before, id);
    assert id == IdAt(s.heap, id.timer);
    SurvivesItsBatch(s, during, id);
    RunKeepsInv(s, [BeginRead] + during + [EndRead]);
    RunConcat(s, [BeginRead], during);
    RunConcat(s, [BeginRead] + during, [EndRead]);
    RunOne(s, BeginRead);
    var m := Run(Step(s, BeginRead), during);
    RunOne(m, EndRead);
    hide Inv, Step;
    ActiveIsLive(Step(m, EndRead), id);
  }

  lemma ActiveIsLive(s: State, id: TimerId)
    requires Inv(s)
    ensures id in s.active ==> Live(s, id)
  {
  }

  // ----- finality

  /** How many times the timer named `id` ran. */
  function RunsOf(fired: seq<Firing>, id: TimerId): nat {
    if fired == [] then 0
    else RunsOf(fired[..|fired| - 1], id) + Indicator(fired[|fired| - 1].id == id)
  }

  /** `id` is in the part of the batch whose callbacks have yet to start. */
  predicate Awaiting(s: State, id: TimerId) {
    && s.phase.Calling? && s.phase.next <= |s.phase.batch|
    && Live(s, id) && EntryAt(s.heap, id.timer) in s.phase.batch[s.phase.next..]
  }

  /** `id` can have no future beyond the batch in flight. */
  predicate Doomed(s: State, id: TimerId) {
    && id.sequence <= s.created
    && (Live(s, id) ==> InBatch(s, id) && id in s.canceling)
  }

  lemma CallNextCounts(s: State, id: TimerId)
    requires Inv(s) && s.phase.Calling? && s.phase.next < |s.phase.batch|
    ensures var t := CallNext(s);
      RunsOf(t.fired, id) + Indicator(Awaiting(t, id)) == RunsOf(s.fired, id) + Indicator(Awaiting(s, id))
  {
    NextIsAwaited(s, id);
    RunsOfSnoc(s.fired, CallNext(s).fired[|s.fired|], id);
    hide Inv, Awaiting, RunsOf;
  }

  lemma RunsOfSnoc(fired: seq<Firing>, f: Firing, id: TimerId)
    ensures RunsOf(fired + [f], id) == RunsOf(fired, id) + Indicator(f.id == id)
  {
    assert (fired + [f])[..|fired|] == fired;
  }

  lemma NextIsAwaited(s: State, id: TimerId)
    requires Inv(s) && s.phase.Calling? && s.phase.next < |s.phase.batch|
    ensures var next := IdAt(s.heap, s.phase.batch[s.phase.next].timer);
      && CallNext(s).fired == s.fired + [CallNext(s).fired[|s.fired|]] && CallNext(s).fired[|s.fired|].id == next
      && (Awaiting(s, id) <==> id == next || Awaiting(CallNext(s), id))
      && !Awaiting(CallNext(s), next)
  {
    var e := s.phase.batch[s.phase.next];
    assert e in Batch(s);
    assert e == EntryAt(s.heap, e.timer);
    TakeNext(s.phase.batch, s.phase.next);
    hide Inv, Sorted;
  }

  /** In a sorted batch the next entry is not among the later ones. */
  lemma TakeNext(batch: seq<Entry>, next: nat)
    requires Sorted(batch) && next < |batch|
    ensures forall x :: x in batch[next..] <==> x == batch[next] || x in batch[next + 1..]
    ensures batch[next] !in batch[next + 1..]
  {
    assert batch[next..] == [batch[next]] + batch[next + 1..];
  }

  lemma DoomedStep(s: State, event: Event, id: TimerId)
    requires Inv(s) && Doomed(s, id)
    ensures var t := Step(s, event);
      && Doomed(t, id) && (Live(t, id) ==> Live(s, id))
      && RunsOf(t.fired, id) + Indicator(Awaiting(t, id)) == RunsOf(s.fired, id) + Indicator(Awaiting(s, id))
  {
    if Live(s, id) {
      assert id == IdAt(s.heap, id.timer);
      BatchFate(s, event, id);
    } else {
      FreedFate(s, event, id);
    }
    DoomedCounts(s, event, id);
    StepOnward(s, event);
    hide Step, Inv, RunsOf;
  }

  /** Only starting a callback trades a pending run for a run. */
  lemma DoomedCounts(s: State, event: Event, id: TimerId)
    requires Inv(s) && Doomed(s, id)
    ensures var t := Step(s, event);
      RunsOf(t.fired, id) + Indicator(Awaiting(t, id)) == RunsOf(s.fired, id) + Indicator(Awaiting(s, id))
  {
    match event
    case User(op) => DoKeepsCount(s, op, id);
    case BeginRead => if s.phase.Idle? { StartReadFrame(s, id); }
    case RunNext => if s.phase.Calling? && s.phase.next < |s.phase.batch| { CallNextCounts(s, id); }
    case EndRead => if Closes(s, event) { ResetFrame(s, id); }
  }

  lemma DoKeepsCount(s: State, op: Op, id: TimerId)
    requires Inv(s) && Doomed(s, id)
    ensures Do(s, op).fired == s.fired && Awaiting(Do(s, op), id) == Awaiting(s, id)
  {
    DoFrame(s, op, id);
    DoOnward(s, op);
    assert id in s.active ==> Live(s, id) && EntryAt(s.heap, id.timer) !in Batch(s);
    hide Inv, Do;
  }

  lemma {:induction false} DoomedRun(s: State, events: seq<Event>, id: TimerId)
    requires Inv(s) && Doomed(s, id)
    ensures var t := Run(s, events);
      && Inv(t) && Doomed(t, id) && (Live(t, id) ==> Live(s, id))
      && RunsOf(t.fired, id) + Indicator(Awaiting(t, id)) == RunsOf(s.fired, id) + Indicator(Awaiting(s, id))
    decreases |events|
  {
    if events == [] {
    } else {
      DoomedStep(s, events[0], id);
      StepKeepsInv(s, events[0]);
      DoomedRun(Step(s, events[0]), events[1..], id);
    }
  }

  lemma CancelDooms(s: State, id: TimerId)
    requires Inv(s) && id.sequence <= s.created
    ensures var c := CancelInLoop(s, id);
      && Doomed(c, id) && c.fired == s.fired && Awaiting(c, id) == Awaiting(s, id)
      && (s.phase.Idle? || id in s.active ==> !Live(c, id) && !Awaiting(s, id))
  {
  }

  /** After `cancel(id)` the callback of `id` runs once more if and only if its batch was already
      in flight and had yet to reach it, and never again after that; whatever follows. */
  lemma CancelIsFinal(s: State, id: TimerId, events: seq<Event>)
    requires Inv(s) && id.sequence <= s.created
    ensures var t := Run(Step(s, User(Cancel(id))), events);
      && RunsOf(t.fired, id) + Indicator(Awaiting(t, id)) == RunsOf(s.fired, id) + Indicator(Awaiting(s, id))
      && (s.phase.Idle? || id in s.active ==> RunsOf(t.fired, id) == RunsOf(s.fired, id))
      && (t.phase.Idle? ==> !Live(t, id))
  {
    StepKeepsInv(s, User(Cancel(id)));
    CancelDooms(s, id);
    DoomedRun(Step(s, User(Cancel(id))), events, id);
  }

  // ----- where a mark that matters comes from

  /** Step `i` of the run cancels `id` during a batch, and `id` is not in the sets then. */
  predicate MarksAt(s: State, events: seq<Event>, i: nat, id: TimerId)
    requires i < |events|
  {
    var t := Run(s, events[..i]);
    events[i] == User(Cancel(id)) && t.phase.Calling? && id !in t.active
  }

  /** Step `i` cancels `id` during a batch, before any timer has that sequence number. */
  predicate ForgedAt(s: State, events: seq<Event>, i: nat, id: TimerId)
    requires i < |events|
  {
    var t := Run(s, events[..i]);
    events[i] == User(Cancel(id)) && t.phase.Calling? && t.created < id.sequence
  }

  lemma MarkAtLastStep(s: State, event: Event, id: TimerId)
    ensures id in Step(s, event).canceling <==>
            id in s.canceling || (event == User(Cancel(id)) && s.phase.Calling? && id !in s.active)
  {
    StepOnward(s, event);
  }

  lemma RunSnoc(s: State, events: seq<Event>)
    requires events != []
    ensures Run(s, events) == Step(Run(s, events[..|events| - 1]), events[|events| - 1])
  {
    var init, last := events[..|events| - 1], events[|events| - 1];
    assert events == init + [last];
    RunConcat(s, init, [last]);
    RunOne(Run(s, init), last);
  }

  lemma MarksAtPrefix(s: State, events: seq<Event>, id: TimerId)
    requires events != []
    ensures var n := |events| - 1;
      (exists i | 0 <= i < |events| :: MarksAt(s, events, i, id)) <==>
        (exists i | 0 <= i < n :: MarksAt(s, events[..n], i, id)) || MarksAt(s, events, n, id)
  {
    var n := |events| - 1;
    forall i | 0 <= i < n ensures MarksAt(s, events, i, id) == MarksAt(s, events[..n], i, id) {
      assert events[..n][..i] == events[..i];
    }
    hide MarksAt;
  }

  lemma {:induction false} MarksComeFromCancels(s: State, events: seq<Event>, id: TimerId)
    requires s.canceling == {}
    ensures id in Run(s, events).canceling <==> exists i | 0 <= i < |events| :: MarksAt(s, events, i, id)
    decreases |events|
  {
    hide Step;
    if events == [] {
    } else {
      var n := |events| - 1;
      RunSnoc(s, events);
      hide Run;
      MarksComeFromCancels(s, events[..n], id);
      MarkAtLastStep(Run(s, events[..n]), events[n], id);
      MarksAtPrefix(s, events, id);
    }
  }

  /** In every run: outside `handleRead` a live timer is marked, so that its next batch is its last,
      exactly if its id was cancelled during a batch before it was issued. */
  lemma LiveTimerIsMarkedIffForged(clock: int, events: seq<Event>, id: TimerId)
    requires clock > 0
    requires var s := Run(Init(clock), events); s.phase.Idle? && Live(s, id)
    ensures id in Run(Init(clock), events).canceling <==>
            exists i | 0 <= i < |events| :: ForgedAt(Init(clock), events, i, id)
  {
    var s := Init(clock);
    InitInv(clock);
    MarksComeFromCancels(s, events, id);
    hide Run, Step, Inv;
    forall i | 0 <= i < |events| ensures MarksAt(s, events, i, id) <==> ForgedAt(s, events, i, id) {
      MarkedBeforeIssue(s, events, i, id);
    }
  }

  lemma MarkedBeforeIssue(s: State, events: seq<Event>, i: nat, id: TimerId)
    requires Inv(s) && i < |events|
    requires var t := Run(s, events); t.phase.Idle? && Live(t, id)
    ensures MarksAt(s, events, i, id) <==> ForgedAt(s, events, i, id)
  {
    if events[i] == User(Cancel(id)) {
      var before := Run(s, events[..i]);
      RunKeepsInv(s, events[..i]);
      UnissuedIsNotActive(before, id);
      hide Inv, Step, Run;
      if id.sequence <= before.created {
        RunSplit(s, events, i);
        CancelIsFinal(before, id, events[i + 1..]);
      }
    }
  }

  lemma RunSplit(s: State, events: seq<Event>, i: nat)
    requires i < |events|
    ensures Run(s, events) == Run(Step(Run(s, events[..i]), events[i]), events[i + 1..])
  {
    hide Step;
    var rest := events[i..];
    assert events == events[..i] + rest;
    RunConcat(s, events[..i], rest);
    assert rest[0] == events[i] && rest[1..] == events[i + 1..];
    assert Run(Run(s, events[..i]), rest) == Run(Step(Run(s, events[..i]), rest[0]), rest[1..]);
  }

  lemma UnissuedIsNotActive(s: State, id: TimerId)
    requires Inv(s)
    ensures s.created < id.sequence ==> id !in s.active
  {
    assert id in s.active ==> IdAt(s.heap, id.timer) in s.born;
  }

  /** So a repeating timer that nobody cancelled since it was issued still ends in its next batch
      exactly if its id was cancelled too early, which the public TimerId constructor permits. */
  lemma ForgedIdEndsALaterTimer(clock: int, events: seq<Event>, during: seq<Event>, id: TimerId)
    requires clock > 0
    requires forall e | e in during :: DuringBatch(e) && e != User(Cancel(id))
    requires var s := Run(Init(clock), events);
      && s.phase.Idle? && id in s.active && TimerAt(s.heap, id.timer).expiration <= s.clock
      && TimerAt(s.heap, id.timer).Repeat()
      && Closes(Run(Step(s, BeginRead), during), EndRead)
    ensures var t := Step(Run(Step(Run(Init(clock), events), BeginRead), during), EndRead);
      !Live(t, id) <==> exists i | 0 <= i < |events| :: ForgedAt(Init(clock), events, i, id)
  {
    var s := Run(Init(clock), events);
    InitInv(clock);
    RunKeepsInv(Init(clock), events);
    assert id == IdAt(s.heap, id.timer);
    SurvivesItsBatch(s, during, id);
    LiveTimerIsMarkedIffForged(clock, events, id);
    hide Run, Step, Inv, Closes, InSets, ForgedAt;
  }

  const FORGED := TimerId(8, 2)

  /** A one-shot timer's callback cancels an id that does not exist yet; then a timer gets that id. */
  const FORGED_EVENTS: seq<Event> :=
    [User(Add(1, 0.0, 8)), BeginRead, RunNext, User(Cancel(FORGED)), EndRead, User(Add(1, 1.0, 8))]

  lemma ForgedFirst(s: State)
    requires s == Init(1)
    ensures var t := Step(s, FORGED_EVENTS[0]);
      && t.timers == [Entry(1, 8)] && t.active == {TimerId(8, 1)} && t.heap == map[8 := Timer(1, 0.0, 1)]
      && t.canceling == {} && t.phase == Idle && t.created == 1 && t.clock == 1
  {
  }

  lemma ForgedMark(s: State)
    requires s.timers == [Entry(1, 8)] && s.active == {TimerId(8, 1)} && s.heap == map[8 := Timer(1, 0.0, 1)]
    requires s.canceling == {} && s.phase == Idle && s.created == 1 && s.clock == 1
    ensures var t := Step(Step(Step(s, BeginRead), RunNext), FORGED_EVENTS[3]);
      && t.canceling == {FORGED} && t.phase == Calling(1, [Entry(1, 8)], 1)
      && t.heap == s.heap && t.timers == [] && t.active == {} && t.created == 1 && t.clock == 1
  {
    var t := Step(s, BeginRead);
    assert ExpiredCount(s) == 1;
    assert t.phase == Calling(1, [Entry(1, 8)], 0) && t.timers == [] && t.active == {};
  }

  lemma ForgedLater(s: State)
    requires s.canceling == {FORGED} && s.phase == Calling(1, [Entry(1, 8)], 1)
    requires s.heap == map[8 := Timer(1, 0.0, 1)] && s.timers == [] && s.active == {} && s.created == 1 && s.clock == 1
    ensures var t := Step(Step(s, EndRead), FORGED_EVENTS[5]);
      && t.phase.Idle? && t.timers == [Entry(1, 8)] && t.active == {FORGED} && t.clock == 1
      && t.heap == map[8 := Timer(1, 1.0, 2)] && t.canceling == {FORGED}
  {
    var r := s.(phase := Resetting(1, [Entry(1, 8)]));
    ForgedAtReset(r);
    ResetBatchFrame(r);
    var t := Step(s, EndRead);
    assert t.heap == map[] && t.timers == [] && t.active == {} && t.phase.Idle? && t.created == 1;
  }

  /** Such a run: the mark waits for the timer that gets the id and ends it after one run. */
  lemma ForgedIdHappens()
    ensures var s := Run(Init(1), FORGED_EVENTS);
      var t := Run(s, [BeginRead, RunNext, EndRead]);
      FORGED in s.active && TimerAt(s.heap, 8).Repeat() && !Live(t, FORGED)
  {
    var s := Run(Init(1), FORGED_EVENTS);
    InitInv(1);
    RunKeepsInv(Init(1), FORGED_EVENTS);
    RunOfSix(Init(1), FORGED_EVENTS);
    hide Inv, Step, Run, Live;
    ForgedFirst(Init(1));
    ForgedMark(Step(Init(1), FORGED_EVENTS[0]));
    ForgedLater(Step(Step(Step(Step(Init(1), FORGED_EVENTS[0]), BeginRead), RunNext), FORGED_EVENTS[3]));
    RunOfThree(s, BeginRead, RunNext, EndRead);
    ForgedSecondBatch(s);
  }

  lemma ForgedSecondBatch(s: State)
    requires Inv(s) && s.phase.Idle? && s.timers == [Entry(1, 8)] && s.active == {FORGED} && s.clock == 1
    requires s.heap == map[8 := Timer(1, 1.0, 2)] && s.canceling == {FORGED}
    ensures !Live(Step(Step(Step(s, BeginRead), RunNext), EndRead), FORGED)
  {
    var b := Step(s, BeginRead);
    assert b.phase == Calling(1, [Entry(1, 8)], 0);
    RunOne(b, RunNext);
    SurvivesItsBatch(s, [RunNext], FORGED);
  }

  lemma ForgedAtReset(s: State)
    requires s.phase == Resetting(1, [Entry(1, 8)]) && s.heap == map[8 := Timer(1, 0.0, 1)]
    ensures var r := ResetBatch(s);
      && r.heap == map[] && r.timers == s.timers && r.active == s.active && r.canceling == s.canceling
  {
  }

  lemma RunOfThree(s: State, a: Event, b: Event, c: Event)
    ensures Run(s, [a, b, c]) == Step(Step(Step(s, a), b), c)
  {
    hide Step, Run;
    RunOne(s, a);
    RunConcat(s, [a], [b]);
    RunOne(Run(s, [a]), b);
    RunConcat(s, [a] + [b], [c]);
    RunOne(Run(s, [a] + [b]), c);
    assert [a, b, c] == [a] + [b] + [c];
  }

  lemma RunOfSix(s: State, es: seq<Event>)
    requires |es| == 6
    ensures Run(s, es) == Step(Step(Step(Step(Step(Step(s, es[0]), es[1]), es[2]), es[3]), es[4]), es[5])
  {
    hide Step, Run;
    assert es == [es[0], es[1], es[2]] + [es[3], es[4], es[5]];
    RunConcat(s, [es[0], es[1], es[2]], [es[3], es[4], es[5]]);
    RunOfThree(s, es[0], es[1], es[2]);
    RunOfThree(Run(s, [es[0], es[1], es[2]]), es[3], es[4], es[5]);
  }
}
