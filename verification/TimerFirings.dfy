/** When callbacks run: on time, in order, once a batch, and an interval apart. */
module TimerFirings {
  import opened Timestamps
  import opened TimerEntries
  import opened TimerModel
  import opened TimerInvariant
  import opened TimerLifecycle

  // ----- spacing

  /** The callback of `id` has started in the batch in flight. */
  predicate Started(s: State, id: TimerId) {
    s.phase.Calling? && s.phase.next <= |s.phase.batch|
    && EntryAt(s.heap, id.timer) in s.phase.batch[..s.phase.next]
  }

  /** What a past firing says about the present: a timer that is still allocated, and not running
      in this batch, repeats and is not due before one interval after that batch. */
  predicate Remembered(s: State, f: Firing) {
    && f.id in s.born
    && f.due <= f.at <= s.clock
    && (s.phase.Calling? ==> f.at <= s.phase.now)
    && (Live(s, f.id) ==>
          && s.heap[f.id.timer].interval == f.interval
          && (!Started(s, f.id) ==> f.interval > 0.0 && f.at + Micros(f.interval) <= s.heap[f.id.timer].expiration))
  }

  ghost predicate Spaced(fired: seq<Firing>) {
    forall i, j | 0 <= i < j < |fired| && fired[i].id == fired[j].id ::
      fired[i].interval == fired[j].interval && fired[i].interval > 0.0
      && fired[i].at + Micros(fired[i].interval) <= fired[j].due
  }

  ghost predicate History(s: State) {
    Spaced(s.fired) && forall f | f in s.fired :: Remembered(s, f)
  }

  lemma StepRemembers(s: State, event: Event, f: Firing)
    requires Inv(s) && Remembered(s, f)
    ensures Remembered(Step(s, event), f)
  {
    var t := Step(s, event);
    StepOnward(s, event);
    if f.id in s.active {
      ActiveRemembers(s, event, f);
    } else if InBatch(s, f.id) {
      BatchRemembers(s, event, f);
    } else {
      Placed(s, f.id);
      FreedFate(s, event, f.id);
    }
  }

  lemma ActiveRemembers(s: State, event: Event, f: Firing)
    requires Inv(s) && Remembered(s, f) && f.id in s.active
    ensures var t := Step(s, event);
      Live(t, f.id) ==>
        && t.heap[f.id.timer].interval == f.interval
        && (!Started(t, f.id) ==> f.interval > 0.0 && f.at + Micros(f.interval) <= t.heap[f.id.timer].expiration)
  {
    ActiveFate(s, event, f.id);
    assert f.id == IdAt(s.heap, f.id.timer);
    assert EntryAt(s.heap, f.id.timer) !in Batch(s);
    assert !Started(s, f.id);
  }

  lemma BatchRemembers(s: State, event: Event, f: Firing)
    requires Inv(s) && Remembered(s, f) && InBatch(s, f.id)
    ensures var t := Step(s, event);
      Live(t, f.id) ==>
        && t.heap[f.id.timer].interval == f.interval
        && (!Started(t, f.id) ==> f.interval > 0.0 && f.at + Micros(f.interval) <= t.heap[f.id.timer].expiration)
  {
    BatchFate(s, event, f.id);
    if !Closes(s, event) && Started(s, f.id) {
      var e := EntryAt(s.heap, f.id.timer);
      var t := Step(s, event);
      assert t.phase.Calling? && s.phase.next <= t.phase.next && t.phase.batch == s.phase.batch;
      var i :| 0 <= i < s.phase.next && s.phase.batch[i] == e;
      assert t.phase.batch[..t.phase.next][i] == e;
    }
  }

  predicate OneMore(before: seq<Firing>, after: seq<Firing>) {
    |after| == |before| + 1 && after[..|before|] == before
  }

  /** The only step that runs a callback, and what it adds to the history. */
  lemma StepFires(s: State, event: Event)
    requires Inv(s) && History(s)
    ensures var t := Step(s, event);
      t.fired == s.fired || (OneMore(s.fired, t.fired) && Remembered(t, t.fired[|s.fired|]) && Spaced(t.fired))
  {
    var t := Step(s, event);
    if Closes(s, event) {
      ResetBatchFrame(s.(phase := Resetting(s.phase.now, s.phase.batch)));
    } else if event == RunNext && s.phase.Calling? && s.phase.next < |s.phase.batch| {
      NextIsSpaced(s);
    }
  }

  lemma NextIsSpaced(s: State)
    requires Inv(s) && History(s) && s.phase.Calling? && s.phase.next < |s.phase.batch|
    ensures var t := CallNext(s);
      OneMore(s.fired, t.fired) && Remembered(t, t.fired[|s.fired|]) && Spaced(t.fired)
  {
    var t := CallNext(s);
    var e := s.phase.batch[s.phase.next];
    assert e in Batch(s);
    var f := t.fired[|s.fired|];
    assert t.phase.batch[..t.phase.next][s.phase.next] == e;
    assert forall i | 0 <= i < s.phase.next :: Less(s.phase.batch[i], e);
    assert !Started(s, f.id);
    assert Live(s, f.id);
    assert Remembered(t, f);
    forall i | 0 <= i < |s.fired| && s.fired[i].id == f.id
      ensures s.fired[i].interval == f.interval && f.interval > 0.0
      ensures s.fired[i].at + Micros(f.interval) <= f.due
    {
      assert Remembered(s, s.fired[i]);
    }
  }

  lemma StepKeepsHistory(s: State, event: Event)
    requires Inv(s) && History(s)
    ensures History(Step(s, event))
  {
    hide Inv, Step, Remembered, Spaced;
    forall f | f in s.fired ensures Remembered(Step(s, event), f) {
      StepRemembers(s, event, f);
    }
    StepFires(s, event);
    var t := Step(s, event);
    if t.fired != s.fired {
      assert t.fired == s.fired + [t.fired[|s.fired|]];
    }
  }

  lemma {:induction false} RunKeepsHistory(s: State, events: seq<Event>)
    requires Inv(s) && History(s)
    ensures History(Run(s, events))
    decreases |events|
  {
    if events == [] {
    } else {
      StepKeepsHistory(s, events[0]);
      StepKeepsInv(s, events[0]);
      RunKeepsHistory(Step(s, events[0]), events[1..]);
    }
  }

  /** Over any run, no callback runs before its timer is due. */
  lemma FiringsAreDue(clock: int, events: seq<Event>, i: nat)
    requires clock > 0 && i < |Run(Init(clock), events).fired|
    ensures var fired := Run(Init(clock), events).fired; fired[i].due <= fired[i].at
  {
    InitInv(clock);
    RunKeepsHistory(Init(clock), events);
    var s := Run(Init(clock), events);
    assert Remembered(s, s.fired[i]);
  }

  /** Over any run, only a repeating timer runs twice, and the batch times of two of its runs are at
      least its interval apart, less the fraction of a microsecond that is dropped. */
  lemma FiringsAreSpaced(clock: int, events: seq<Event>, i: nat, j: nat)
    requires clock > 0 && i < j < |Run(Init(clock), events).fired|
    ensures var fired := Run(Init(clock), events).fired;
      fired[i].id == fired[j].id ==>
        && fired[i].interval > 0.0
        && fired[i].at as real + 1000000.0 * fired[i].interval - 1.0 < fired[j].due as real
        && fired[j].due <= fired[j].at
  {
    InitInv(clock);
    RunKeepsHistory(Init(clock), events);
    FiringsAreDue(clock, events, j);
    var s := Run(Init(clock), events);
    AddTimeIsTheInterval(s.fired[i].at, s.fired[i].interval);
    hide Run, Inv;
  }

  // ----- one handleRead

  function FiringOf(heap: map<Address, Timer>, now: int, e: Entry): Firing {
    Firing(IdAt(heap, e.timer), now, e.when, TimerAt(heap, e.timer).interval)
  }

  /** User code neither runs callbacks nor changes what a batch member is. */
  lemma OpKeepsTheBatch(s: State, op: Op, e: Entry)
    requires Inv(s) && s.phase.Calling? && e in s.phase.batch
    ensures var t := Do(s, op);
      Inv(t) && t.fired == s.fired && FiringOf(t.heap, s.phase.now, e) == FiringOf(s.heap, s.phase.now, e)
  {
    assert e in Batch(s);
    assert Live(s, IdAt(s.heap, e.timer)) && Step(s, User(op)) == Do(s, op);
    hide Do, Step, Inv;
    StepKeepsInv(s, User(op));
    BatchFate(s, User(op), IdAt(s.heap, e.timer));
    DoOnward(s, op);
  }

  lemma {:induction false} OpsKeepTheBatch(s: State, ops: seq<Op>, e: Entry)
    requires Inv(s) && s.phase.Calling? && e in s.phase.batch
    ensures var t := DoAll(s, ops);
      Inv(t) && t.fired == s.fired && FiringOf(t.heap, s.phase.now, e) == FiringOf(s.heap, s.phase.now, e)
    decreases |ops|
  {
    hide Inv, Do;
    if ops == [] {
    } else {
      OpKeepsTheBatch(s, ops[0], e);
      OpsKeepTheBatch(Do(s, ops[0]), ops[1..], e);
    }
  }

  function FiringsOf(heap: map<Address, Timer>, now: int, es: seq<Entry>): (fs: seq<Firing>)
    ensures |fs| == |es|
    ensures forall k | 0 <= k < |es| :: fs[k] == FiringOf(heap, now, es[k])
  {
    if es == [] then [] else [FiringOf(heap, now, es[0])] + FiringsOf(heap, now, es[1..])
  }

  /** The `next` callback: it is logged, and then its body runs. */
  lemma CallOne(s: State, ops: seq<Op>)
    requires Inv(s) && s.phase.Calling? && s.phase.next < |s.phase.batch|
    ensures var t := DoAll(CallNext(s), ops);
      && Inv(t) && t.phase == s.phase.(next := s.phase.next + 1)
      && t.fired == s.fired + [FiringOf(s.heap, s.phase.now, s.phase.batch[s.phase.next])]
      && forall e | e in s.phase.batch :: FiringOf(t.heap, s.phase.now, e) == FiringOf(s.heap, s.phase.now, e)
  {
    var n := CallNext(s);
    assert s.phase.batch[s.phase.next] in Batch(s);
    CallNextKeepsInv(s);
    assert n.fired == s.fired + [FiringOf(s.heap, s.phase.now, s.phase.batch[s.phase.next])];
    hide Inv, Do;
    OpsKeepTheBatch(n, ops, s.phase.batch[s.phase.next]);
    forall e | e in s.phase.batch
      ensures FiringOf(DoAll(n, ops).heap, s.phase.now, e) == FiringOf(s.heap, s.phase.now, e)
    {
      OpsKeepTheBatch(n, ops, e);
    }
  }

  lemma {:induction false} CallAllFires(s: State, script: nat -> seq<Op>)
    requires Inv(s) && s.phase.Calling? && s.phase.next <= |s.phase.batch|
    ensures var t := CallAll(s, script);
      Inv(t) && t.fired == s.fired + FiringsOf(s.heap, s.phase.now, s.phase.batch[s.phase.next..])
    decreases |s.phase.batch| - s.phase.next
  {
    hide Inv, Do, CallNext, FiringOf, FiringsOf;
    var n := s.phase.next;
    if n == |s.phase.batch| {
    } else {
      CallOne(s, script(n));
      var d := DoAll(CallNext(s), script(n));
      var rest := s.phase.batch[n + 1..];
      CallAllFires(d, script);
      assert s.phase.batch[n..] == [s.phase.batch[n]] + rest;
      assert FiringsOf(s.heap, s.phase.now, s.phase.batch[n..])
          == [FiringOf(s.heap, s.phase.now, s.phase.batch[n])] + FiringsOf(d.heap, s.phase.now, rest);
    }
  }

  /** One `handleRead`, whatever its callbacks add and cancel: it runs exactly the timers that are
      due at its start, each once, in order of expiration and then address. */
  lemma HandleReadRunsExactlyTheDueTimers(s: State, script: nat -> seq<Op>)
    requires Inv(s) && s.phase.Idle?
    ensures var t := HandleRead(s, script);
      var due := s.timers[..ExpiredCount(s)];
      && Inv(t) && t.phase.Idle?
      && Sorted(due)
      && (forall a | a in s.heap :: EntryAt(s.heap, a) in due <==> s.heap[a].expiration <= s.clock)
      && t.fired == s.fired + FiringsOf(s.heap, s.clock, due)
  {
    DueTimers(s);
    var b := StartRead(s);
    StartReadKeepsInv(s);
    hide Inv, Reset, CallAll, Sorted, FiringsOf;
    CallAllFires(b, script);
    assert b.phase.batch[0..] == b.phase.batch;
    EndOfRead(CallAll(b, script));
  }

  lemma DueTimers(s: State)
    requires Inv(s) && s.phase.Idle?
    ensures var due := s.timers[..ExpiredCount(s)];
      Sorted(due) && (forall a | a in s.heap :: EntryAt(s.heap, a) in due <==> s.heap[a].expiration <= s.clock)
  {
    forall e | e in s.timers ensures e.timer < UINTPTR_MAX {
      assert e.timer in s.heap;
    }
    ExpiredSplit(s);
    forall a | a in s.heap ensures EntryAt(s.heap, a) in s.timers {
      assert IdAt(s.heap, a) in s.active;
    }
  }

  lemma EndOfRead(c: State)
    requires Inv(c) && c.phase.Calling?
    ensures Inv(Reset(c)) && Reset(c).phase.Idle? && Reset(c).fired == c.fired
  {
    ResetKeepsInv(c);
    ResetFrame(c, TimerId(0, 0));
  }

  // ----- one handleRead is a run

  function UserEvents(ops: seq<Op>): (es: seq<Event>)
    ensures |es| == |ops|
  {
    if ops == [] then [] else [User(ops[0])] + UserEvents(ops[1..])
  }

  function CallEvents(s: State, script: nat -> seq<Op>): seq<Event>
    requires s.phase.Calling? && s.phase.next <= |s.phase.batch|
    decreases |s.phase.batch| - s.phase.next
  {
    if s.phase.next == |s.phase.batch| then []
    else
      var t := DoAll(CallNext(s), script(s.phase.next));
      [RunNext] + UserEvents(script(s.phase.next)) + CallEvents(t, script)
  }

  lemma {:induction false} UserEventsRun(s: State, ops: seq<Op>)
    ensures Run(s, UserEvents(ops)) == DoAll(s, ops)
    decreases |ops|
  {
    if ops == [] {
    } else {
      assert UserEvents(ops)[1..] == UserEvents(ops[1..]);
      UserEventsRun(Do(s, ops[0]), ops[1..]);
    }
  }

  lemma {:induction false} CallEventsRun(s: State, script: nat -> seq<Op>)
    requires s.phase.Calling? && s.phase.next <= |s.phase.batch|
    ensures Run(s, CallEvents(s, script)) == CallAll(s, script)
    decreases |s.phase.batch| - s.phase.next
  {
    if s.phase.next == |s.phase.batch| {
    } else {
      var c := CallNext(s);
      var ops := script(s.phase.next);
      var d := DoAll(c, ops);
      assert Run(s, [RunNext]) == c by {
        RunOne(s, RunNext);
      }
      UserEventsRun(c, ops);
      RunConcat(s, [RunNext], UserEvents(ops));
      RunConcat(s, [RunNext] + UserEvents(ops), CallEvents(d, script));
      CallEventsRun(d, script);
    }
  }

  lemma ReadSteps(s: State, script: nat -> seq<Op>)
    requires s.phase.Idle?
    ensures Step(s, BeginRead) == StartRead(s)
    ensures var c := CallAll(StartRead(s), script); Step(c, EndRead) == Reset(c)
  {
  }

  /** `handleRead` as one call is a run of the small steps, so everything proved of runs holds of it. */
  lemma HandleReadIsARun(s: State, script: nat -> seq<Op>)
    requires s.phase.Idle?
    ensures Run(s, [BeginRead] + CallEvents(StartRead(s), script) + [EndRead]) == HandleRead(s, script)
  {
    ReadSteps(s, script);
    var b := StartRead(s);
    hide Step, Run, CallAll, CallEvents, StartRead, Reset;
    var body := CallEvents(b, script);
    RunOne(s, BeginRead);
    CallEventsRun(b, script);
    RunConcat(s, [BeginRead], body);
    RunConcat(s, [BeginRead] + body, [EndRead]);
    RunOne(CallAll(b, script), EndRead);
  }
}
