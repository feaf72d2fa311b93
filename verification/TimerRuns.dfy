/** Properties of whole runs of the timer queue. */
module TimerRuns {
  import opened Timestamps
  import opened TimerEntries
  import opened TimerModel
  import opened TimerInvariant
  import opened TimerLifecycle

  function Indicator(b: bool): nat {
    if b then 1 else 0
  }

  // ----- ownership

  /** In every run: no dead pointer is read or freed, and each timer ever allocated is in exactly
      one of the twin sets, the batch in flight, or the freed timers, where it counts once. */
  lemma EveryTimerHasOneOwner(clock: int, events: seq<Event>, id: TimerId)
    requires clock > 0
    ensures var s := Run(Init(clock), events);
      && !s.crashed
      && Indicator(InSets(s, id)) + Indicator(InBatch(s, id)) + s.freed[id] == Indicator(id in s.born)
  {
    InitInv(clock);
    RunKeepsInv(Init(clock), events);
    var s := Run(Init(clock), events);
    assert Live(s, id) ==> IdAt(s.heap, id.timer) in s.born;
    if id in s.born {
      Placed(s, id);
    }
  }

  /** `timers` is the set of (expiration, timer) for exactly the timers in `active`. */
  lemma TwinSetsHoldTheSameTimers(clock: int, events: seq<Event>)
    requires clock > 0
    ensures var s := Run(Init(clock), events);
      && Sorted(s.timers)
      && (set e | e in s.timers) == (set id | id in s.active :: EntryAt(s.heap, id.timer))
      && s.active == (set e | e in s.timers :: IdAt(s.heap, e.timer))
      && (forall e | e in Batch(s) :: e !in s.timers && IdAt(s.heap, e.timer) !in s.active)
  {
    InitInv(clock);
    RunKeepsInv(Init(clock), events);
    hide Run;
    TwinSets(Run(Init(clock), events));
  }

  lemma TwinSets(s: State)
    requires TwinSetsAgree(s) && BatchApart(s)
    ensures (set e | e in s.timers) == (set id | id in s.active :: EntryAt(s.heap, id.timer))
    ensures s.active == (set e | e in s.timers :: IdAt(s.heap, e.timer))
    ensures forall e | e in Batch(s) :: e !in s.timers && IdAt(s.heap, e.timer) !in s.active
  {
    hide Sorted;
    forall e | e in s.timers ensures e in (set id | id in s.active :: EntryAt(s.heap, id.timer)) {
      assert IdAt(s.heap, e.timer) in s.active;
    }
    forall id | id in s.active ensures id in (set e | e in s.timers :: IdAt(s.heap, e.timer)) {
      assert EntryAt(s.heap, id.timer) in s.timers;
    }
  }

  /** The destructor deletes the timers in the set; outside `handleRead` those are all there are. */
  function DeleteAll(s: State): State
    decreases |s.timers|
  {
    if s.timers == [] then s
    else DeleteAll(Delete(s, s.timers[0].timer).(timers := s.timers[1..]))
  }

  lemma FreedOneMore(s: State, a: Address)
    requires FreedOnce(s) && a in s.heap && IdAt(s.heap, a) in s.born
    ensures FreedOnce(Delete(s, a))
  {
    var t := Delete(s, a);
    forall id: TimerId ensures t.freed[id] == if id in t.born && !Live(t, id) then 1 else 0 {
      assert s.freed[id] == if id in s.born && !Live(s, id) then 1 else 0;
      assert Live(t, id) <==> Live(s, id) && id != IdAt(s.heap, a);
    }
  }

  lemma {:induction false} DeleteAllEmpties(s: State)
    requires !s.crashed && Sorted(s.timers) && FreedOnce(s)
    requires forall e | e in s.timers :: e.timer in s.heap && e == EntryAt(s.heap, e.timer)
    requires forall a | a in s.heap :: IdAt(s.heap, a) in s.born && EntryAt(s.heap, a) in s.timers
    ensures var t := DeleteAll(s); !t.crashed && t.heap == map[] && FreedOnce(t)
    decreases |s.timers|
  {
    if s.timers == [] {
      assert s.heap.Keys == {};
    } else {
      var e := s.timers[0];
      assert e in s.timers;
      var t := Delete(s, e.timer).(timers := s.timers[1..]);
      assert s.timers == [e] + t.timers;
      FreedOneMore(s, e.timer);
      hide FreedOnce;
      forall x | x in t.timers ensures x.timer in t.heap && x == EntryAt(t.heap, x.timer) {
        assert x in s.timers && Less(e, x);
      }
      forall a | a in t.heap ensures IdAt(t.heap, a) in t.born && EntryAt(t.heap, a) in t.timers {
        assert a in s.heap && EntryAt(s.heap, a) in s.timers;
      }
      DeleteAllEmpties(t);
    }
  }

  lemma DestructorFreesEverythingOnce(clock: int, events: seq<Event>, id: TimerId)
    requires clock > 0 && Run(Init(clock), events).phase.Idle?
    ensures var t := DeleteAll(Run(Init(clock), events));
      !t.crashed && t.heap == map[] && t.freed[id] == Indicator(id in t.born)
  {
    InitInv(clock);
    RunKeepsInv(Init(clock), events);
    var s := Run(Init(clock), events);
    forall a | a in s.heap ensures IdAt(s.heap, a) in s.born && EntryAt(s.heap, a) in s.timers {
      assert IdAt(s.heap, a) in s.active;
    }
    DeleteAllEmpties(s);
  }

  // ----- wakeups

  /** Outside `handleRead`, a timer that is due, and MIN_DELAY_MICROS past the last arming,
      finds the kernel timer fired. */
  lemma DueTimerIsReadable(clock: int, events: seq<Event>, id: TimerId)
    requires clock > 0
    ensures var s := Run(Init(clock), events);
      s.phase.Idle? && id in s.active
      && TimerAt(s.heap, id.timer).expiration <= s.clock && s.armedAt + MIN_DELAY_MICROS <= s.clock
      ==> s.fd.Fired?
  {
    InitInv(clock);
    RunKeepsInv(Init(clock), events);
    var s := Run(Init(clock), events);
    if s.phase.Idle? && id in s.active && s.heap[id.timer].expiration <= s.clock {
      var e := EntryAt(s.heap, id.timer);
      var i :| 0 <= i < |s.timers| && s.timers[i] == e;
      assert i == 0 || Less(s.timers[0], e);
    }
  }

  /** The earliest timer has a wakeup no later than its expiration, or MIN_DELAY_MICROS after the
      kernel timer was last set. */
  ghost predicate EarliestIsCovered(s: State) {
    s.phase.Idle? && s.timers != [] ==>
      s.fd.Fired? || (s.fd.Armed? && s.clock < s.fd.deadline <= Max(s.timers[0].when, s.armedAt + MIN_DELAY_MICROS))
  }

  lemma EarliestTimerHasAWakeup(clock: int, events: seq<Event>)
    requires clock > 0
    ensures EarliestIsCovered(Run(Init(clock), events))
  {
    InitInv(clock);
    RunKeepsInv(Init(clock), events);
    hide Run, Init, Sorted, Numbered, FreedOnce, TwinSetsAgree, BatchApart, NoneLost;
  }
}
