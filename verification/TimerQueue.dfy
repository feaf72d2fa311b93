/** The timer queue with its fields updated in place, each method proved against the model. */
module TimerQueues {
  import opened Timestamps
  import opened TimerEntries
  import opened TimerModel
  import opened TimerInvariant
  import opened TimerWakeups

  lemma NewIdIsNew(s: State, when: int, interval: real, at: Address)
    requires Inv(s)
    ensures TimerId(at, s.created + 1) !in s.born
    ensures TimerId(at, s.created + 1) in AddTimerInLoop(NewTimer(s, when, interval, at), at).active
  {
  }

  lemma HeadIsLive(s: State)
    requires Sound(s) && s.phase.Resetting? && s.phase.batch != []
    ensures s.phase.batch[0].timer in s.heap
  {
  }

  lemma CalledIsSound(s: State)
    requires Inv(s) && s.phase.Calling?
    ensures Sound(s.(phase := Resetting(s.phase.now, s.phase.batch)))
  {
  }

  lemma ResetHeadPhase(s: State)
    requires s.phase.Resetting? && s.phase.batch != []
    ensures ResetHead(s).phase == Resetting(s.phase.now, s.phase.batch[1..])
  {
  }

  class TimerQueue {
    var heap: map<Address, Timer>
    var timers: seq<Entry>
    var activeTimers: set<TimerId>
    var cancelingTimers: set<TimerId>
    var callingExpiredTimers: bool
    var timerfd: TimerFd
    var clock: int
    var numCreated: nat
    ghost var phase: Phase
    ghost var armedAt: int
    ghost var born: set<TimerId>
    ghost var freed: multiset<TimerId>
    ghost var fired: seq<Firing>

    /** The model state of this object. `crashed` is false: a dead pointer cannot be read here,
        since every access to `heap` below is checked. */
    ghost function Snapshot(): State
      reads this
    {
      State(heap, timers, activeTimers, cancelingTimers, phase, timerfd, clock, numCreated, false,
            armedAt, born, freed, fired)
    }

    ghost predicate Valid()
      reads this
    {
      Inv(Snapshot()) && callingExpiredTimers == phase.Calling?
    }

    constructor (now: int)
      requires now > 0
      ensures Valid() && Snapshot() == Init(now)
    {
      heap, timers, activeTimers, cancelingTimers := map[], [], {}, {};
      callingExpiredTimers, timerfd, clock, numCreated := false, Disarmed, now, 0;
      phase, armedAt, born, freed, fired := Idle, now, {}, multiset{}, [];
    }

    method Insert(timer: Address) returns (earliestChanged: bool)
      requires timer in heap
      modifies this`timers, this`activeTimers
      ensures Snapshot() == TimerModel.Insert(old(Snapshot()), timer)
      ensures earliestChanged == EarliestChanged(old(Snapshot()), heap[timer].expiration)
    {
      earliestChanged := false;
      var when := heap[timer].expiration;
      if timers == [] || when < timers[0].when {
        earliestChanged := true;
      }
      timers := InsertEntry(timers, Entry(when, timer));
      activeTimers := activeTimers + {TimerId(timer, heap[timer].sequence)};
    }

    method ResetTimerFd(expiration: int)
      modifies this`timerfd, this`armedAt
      ensures Snapshot() == TimerModel.ResetTimerFd(old(Snapshot()), expiration)
      ensures timerfd == SetFor(expiration, clock)
    {
      var newValue := HowMuchTimeFromNow(expiration, clock);
      timerfd := if newValue == Timespec(0, 0) then Disarmed else Armed(clock + newValue.Nanos() / 1000);
      armedAt := clock;
    }

    method AddTimerInLoop(timer: Address)
      requires timer in heap
      modifies this`timers, this`activeTimers, this`timerfd, this`armedAt
      ensures Snapshot() == TimerModel.AddTimerInLoop(old(Snapshot()), timer)
      ensures var when := heap[timer].expiration;
        timerfd == if old(timers) == [] || when < old(timers)[0].when then SetFor(when, clock) else old(timerfd)
    {
      var earliestChanged := Insert(timer);
      if earliestChanged {
        ResetTimerFd(heap[timer].expiration);
      }
    }

    /** `new Timer`: `at` is the address the allocator answers with. */
    method NewTimer(when: int, interval: real, at: Address) returns (id: TimerId)
      modifies this`heap, this`numCreated, this`born
      ensures Snapshot() == TimerModel.NewTimer(old(Snapshot()), when, interval, at)
      ensures heap == old(heap)[at := Timer(when, interval, id.sequence)] && id == TimerId(at, old(numCreated) + 1)
    {
      numCreated := numCreated + 1;
      heap := heap[at := Timer(when, interval, numCreated)];
      id := TimerId(at, numCreated);
      born := born + {id};
    }

    method AddTimer(when: int, interval: real, at: Address) returns (id: TimerId)
      requires Valid() && Allocatable(Snapshot(), at)
      modifies this
      ensures Valid()
      ensures Snapshot() == Do(old(Snapshot()), Add(when, interval, at))
      ensures id == TimerId(at, old(numCreated) + 1) && id in activeTimers && id !in old(born)
      ensures heap == old(heap)[at := Timer(when, interval, id.sequence)]
      ensures timerfd == if old(timers) == [] || when < old(timers)[0].when then SetFor(when, clock) else old(timerfd)
    {
      ghost var s := Snapshot();
      hide Inv, TimerModel.NewTimer, TimerModel.AddTimerInLoop, SetFor;
      DoKeepsInv(s, Add(when, interval, at));
      NewIdIsNew(s, when, interval, at);
      id := NewTimer(when, interval, at);
      AddTimerInLoop(at);
      assert Snapshot() == Do(s, Add(when, interval, at));
    }

    /** `delete`: the address must name a timer. */
    method Delete(timer: Address)
      requires timer in heap
      modifies this`heap, this`freed
      ensures Snapshot() == TimerModel.Delete(old(Snapshot()), timer)
    {
      freed := freed + multiset{IdAt(heap, timer)};
      heap := heap - {timer};
    }

    method CancelInLoop(id: TimerId)
      requires Valid()
      modifies this
      ensures Valid()
      ensures Snapshot() == TimerModel.CancelInLoop(old(Snapshot()), id)
      ensures if id in old(activeTimers)
        then heap == old(heap) - {id.timer} && cancelingTimers == old(cancelingTimers)
        else heap == old(heap) && cancelingTimers == old(cancelingTimers) + if callingExpiredTimers then {id} else {}
      ensures activeTimers == old(activeTimers) - {id}
    {
      DoKeepsInv(Snapshot(), Cancel(id));
      hide Inv, Sound;
      if id in activeTimers {
        ActiveIsLive(Snapshot(), id);
        timers := EraseEntry(timers, Entry(heap[id.timer].expiration, id.timer));
        Delete(id.timer);
        activeTimers := activeTimers - {id};
      } else if callingExpiredTimers {
        cancelingTimers := cancelingTimers + {id};
      }
      assert Snapshot() == TimerModel.CancelInLoop(old(Snapshot()), id);
    }

    /** One thing a callback does. */
    method Perform(op: Op)
      requires Valid()
      modifies this
      ensures Valid() && Snapshot() == Do(old(Snapshot()), op)
      ensures phase == old(phase)
    {
      hide Inv;
      match op
      case Add(when, interval, at) =>
        if 0 < at < UINTPTR_MAX && at !in heap {
          var _ := AddTimer(when, interval, at);
        }
      case Cancel(id) => CancelInLoop(id);
      case Tick(micros) =>
        DoKeepsInv(Snapshot(), op);
        clock := clock + micros;
        if timerfd.Armed? && timerfd.deadline <= clock {
          timerfd := Fired;
        }
      case AddElsewhere =>
        DoKeepsInv(Snapshot(), op);
        numCreated := numCreated + 1;
    }

    method GetExpired(now: int) returns (expired: seq<Entry>)
      requires phase.Idle? && now == clock
      requires AllAllocated(heap, timers)
      modifies this`timers, this`activeTimers
      ensures var s := old(Snapshot());
        && expired == s.timers[..ExpiredCount(s)]
        && Snapshot() == TimerModel.GetExpired(s).(phase := Idle)
    {
      var sentry := Entry(now, UINTPTR_MAX);
      var it := LowerBound(timers, sentry);
      expired := timers[..it];
      assert AllAllocated(heap, expired);
      timers := timers[it..];
      ghost var before := activeTimers;
      for i := 0 to |expired|
        invariant timers == old(timers)[it..]
        invariant activeTimers == before - IdsOf(heap, expired[..i])
      {
        assert expired[i] in expired;
        assert expired[..i + 1] == expired[..i] + [expired[i]];
        activeTimers := activeTimers - {TimerId(expired[i].timer, heap[expired[i].timer].sequence)};
      }
      assert expired[..|expired|] == expired;
    }

    /** The body of the loop in `reset`, for the first member of what is left of the batch. */
    method ResetOne(timer: Address, now: int)
      requires phase.Resetting? && phase.now == now && phase.batch != [] && phase.batch[0].timer == timer
      requires timer in heap
      modifies this
      ensures Snapshot() == ResetHead(old(Snapshot()))
      ensures var t := old(heap)[timer];
        if t.interval > 0.0 && TimerId(timer, t.sequence) !in cancelingTimers
        then timer in heap && LaterBy(now, t.interval, heap[timer].expiration)
             && heap == old(heap)[timer := t.(expiration := heap[timer].expiration)]
        else heap == old(heap) - {timer}
      ensures callingExpiredTimers == old(callingExpiredTimers)
    {
      AddTimeIsTheInterval(now, heap[timer].interval);
      phase := Resetting(now, phase.batch[1..]);
      if heap[timer].Repeat() && TimerId(timer, heap[timer].sequence) !in cancelingTimers {
        heap := heap[timer := heap[timer].Restart(now)];
        var _ := Insert(timer);
      } else {
        Delete(timer);
      }
    }

    method Reset(expired: seq<Entry>, now: int)
      requires phase == Resetting(now, expired) && Sound(Snapshot())
      modifies this
      ensures Snapshot() == Rearm(ResetBatch(old(Snapshot())))
      ensures callingExpiredTimers == old(callingExpiredTimers)
    {
      ghost var start := Snapshot();
      for i := 0 to |expired|
        invariant phase == Resetting(now, expired[i..]) && Sound(Snapshot())
        invariant ResetBatch(Snapshot()) == ResetBatch(start)
        invariant callingExpiredTimers == old(callingExpiredTimers)
      {
        hide Sound, ResetHead;
        HeadIsLive(Snapshot());
        ResetHeadSound(Snapshot());
        ResetHeadPhase(Snapshot());
        assert expired[i..][0] == expired[i] && expired[i..][1..] == expired[i + 1..];
        ResetOne(expired[i].timer, now);
      }
      RearmNow();
    }

    /** The end of `reset`: the kernel timer is set for the earliest timer there is. */
    method RearmNow()
      requires AllAllocated(heap, timers)
      modifies this`timerfd, this`armedAt
      ensures Snapshot() == Rearm(old(Snapshot()))
      ensures timerfd ==
        if timers != [] && heap[timers[0].timer].expiration > 0
        then SetFor(heap[timers[0].timer].expiration, clock) else old(timerfd)
    {
      var nextExpire := 0;
      if timers != [] {
        assert timers[0] in timers;
        nextExpire := heap[timers[0].timer].expiration;
      }
      if ValidTime(nextExpire) {
        ResetTimerFd(nextExpire);
      }
    }

    /** `script(i)` is what the i-th callback of the batch does. */
    method HandleRead(script: nat -> seq<Op>)
      requires Valid() && phase.Idle?
      modifies this
      ensures Valid() && phase.Idle?
      ensures Snapshot() == TimerModel.HandleRead(old(Snapshot()), script)
      ensures timers != [] && timers[0].when > 0 ==> timerfd == SetFor(timers[0].when, clock)
    {
      ghost var before := Snapshot();
      StartReadKeepsInv(before);
      var now := clock;
      if timerfd.Fired? {
        timerfd := Disarmed;
      }
      var expired := GetExpired(now);
      callingExpiredTimers := true;
      phase := Calling(now, expired, 0);
      assert Snapshot() == StartRead(before);
      CallExpired(expired, now, script);
      callingExpiredTimers := false;
      FinishRead(expired, now);
    }

    /** The loop that runs the callbacks of the batch. */
    method CallExpired(expired: seq<Entry>, now: int, script: nat -> seq<Op>)
      requires Valid() && phase == Calling(now, expired, 0)
      modifies this
      ensures Valid() && phase == Calling(now, expired, |expired|)
      ensures Snapshot() == CallAll(old(Snapshot()), script)
    {
      hide Inv, Do, CallNext;
      ghost var start := Snapshot();
      for i := 0 to |expired|
        invariant phase == Calling(now, expired, i) && Valid()
        invariant CallAll(Snapshot(), script) == CallAll(start, script)
      {
        RunCallback(script(i));
      }
    }

    method FinishRead(expired: seq<Entry>, now: int)
      requires Inv(Snapshot()) && phase == Calling(now, expired, |expired|) && !callingExpiredTimers
      modifies this
      ensures Valid() && phase.Idle?
      ensures Snapshot() == TimerModel.Reset(old(Snapshot()))
      ensures timers != [] && timers[0].when > 0 ==> timerfd == SetFor(timers[0].when, clock)
    {
      ResetKeepsInv(Snapshot());
      CalledIsSound(Snapshot());
      ClosingSetsTheTimer(Snapshot());
      hide Inv, Sound, Rearm, ResetBatch;
      phase := Resetting(now, expired);
      Reset(expired, now);
      phase := Idle;
    }

    /** `run` of the next batch member, its body doing `ops`. */
    method RunCallback(ops: seq<Op>)
      requires Valid() && phase.Calling? && phase.next < |phase.batch|
      modifies this
      ensures Valid() && phase == old(phase).(next := old(phase).next + 1)
      ensures Snapshot() == DoAll(CallNext(old(Snapshot())), ops)
    {
      hide Inv, Do, DoAll;
      assert CallNext(Snapshot()).phase == phase.(next := phase.next + 1);
      BeginCallback();
      PerformAll(ops);
    }

    method PerformAll(ops: seq<Op>)
      requires Valid()
      modifies this
      ensures Valid() && phase == old(phase)
      ensures Snapshot() == DoAll(old(Snapshot()), ops)
    {
      hide Inv, Do;
      ghost var s := Snapshot();
      for i := 0 to |ops|
        invariant Valid() && phase == s.phase
        invariant DoAll(Snapshot(), ops[i..]) == DoAll(s, ops)
      {
        assert ops[i..][0] == ops[i] && ops[i..][1..] == ops[i + 1..];
        Perform(ops[i]);
      }
      assert ops[|ops|..] == [];
    }

    /** Entering the callback: the timer is read through its pointer, and the run is recorded. */
    ghost method BeginCallback()
      requires Valid() && phase.Calling? && phase.next < |phase.batch|
      modifies this`fired, this`phase
      ensures Valid() && Snapshot() == CallNext(old(Snapshot()))
    {
      CallNextKeepsInv(Snapshot());
      var a := phase.batch[phase.next].timer;
      assert phase.batch[phase.next] in Batch(Snapshot());
      fired := fired + [Firing(IdAt(heap, a), phase.now, heap[a].expiration, heap[a].interval)];
      phase := phase.(next := phase.next + 1);
    }
  }
}
