/** When each callback is due, by what addTimer was asked for: the first time at the time given, and
    then each time one interval after the batch of the run before. */
module TimerSchedules {
  import opened Timestamps
  import opened TimerEntries
  import opened TimerModel
  import opened TimerInvariant
  import opened TimerLifecycle
  import opened TimerFirings

  datatype Request = Request(when: int, interval: real)

  /** The id that a step issues, with what was asked for it. */
  function Issued(s: State, event: Event): map<TimerId, Request> {
    match event
    case User(Add(when, interval, at)) =>
      if 0 < at < UINTPTR_MAX && at !in s.heap then map[TimerId(at, s.created + 1) := Request(when, interval)]
      else map[]
    case _ => map[]
  }

  /** All the ids that a run issues. */
  function IssuedBy(s: State, events: seq<Event>): map<TimerId, Request>
    decreases |events|
  {
    if events == [] then map[]
    else Issued(s, events[0]) + IssuedBy(Step(s, events[0]), events[1..])
  }

  /** The position of the last run of `id`, or -1. */
  function LastRun(fired: seq<Firing>, id: TimerId): (i: int)
    ensures -1 <= i < |fired| && (i >= 0 ==> fired[i].id == id)
    ensures forall k | i < k < |fired| :: fired[k].id != id
    decreases |fired|
  {
    if fired == [] then -1
    else if fired[|fired| - 1].id == id then |fired| - 1
    else LastRun(fired[..|fired| - 1], id)
  }

  /** When a timer is due, after the runs so far. */
  function NextDue(request: Request, fired: seq<Firing>, id: TimerId): int {
    var i := LastRun(fired, id);
    if i < 0 then request.when else AddTime(fired[i].at, request.interval)
  }

  lemma NextDueAfter(request: Request, fired: seq<Firing>, f: Firing, id: TimerId)
    ensures NextDue(request, fired + [f], id)
         == if f.id == id then AddTime(f.at, request.interval) else NextDue(request, fired, id)
  {
    assert (fired + [f])[..|fired|] == fired;
  }

  // ----- what holds at every step

  /** The record of a live timer agrees with the request. */
  predicate OnSchedule(s: State, request: Request, id: TimerId)
    requires Live(s, id)
  {
    && s.heap[id.timer].interval == request.interval
    && NextDue(request, s.fired, id) ==
         if Started(s, id) then AddTime(s.phase.now, request.interval) else s.heap[id.timer].expiration
  }

  /** A firing agrees with the request and the firings before it. */
  predicate RanOnSchedule(request: Request, before: seq<Firing>, f: Firing) {
    f.interval == request.interval && f.due == NextDue(request, before, f.id)
  }

  ghost predicate LiveOnSchedule(s: State, requests: map<TimerId, Request>) {
    forall id | id in requests && Live(s, id) :: OnSchedule(s, requests[id], id)
  }

  ghost predicate AllRanOnSchedule(fired: seq<Firing>, requests: map<TimerId, Request>) {
    forall k | 0 <= k < |fired| ::
      fired[k].id in requests && RanOnSchedule(requests[fired[k].id], fired[..k], fired[k])
  }

  ghost predicate Scheduled(s: State, requests: map<TimerId, Request>) {
    s.born == requests.Keys && LiveOnSchedule(s, requests) && AllRanOnSchedule(s.fired, requests)
  }

  lemma MoreRan(fired: seq<Firing>, more: seq<Firing>, requests: map<TimerId, Request>, issued: map<TimerId, Request>)
    requires AllRanOnSchedule(fired, requests) && requests.Keys !! issued.Keys
    requires more == fired || NextRanOnSchedule(fired, more, requests)
    ensures AllRanOnSchedule(more, requests + issued)
  {
    hide RanOnSchedule;
    var all := requests + issued;
    forall k | 0 <= k < |more|
      ensures more[k].id in all && RanOnSchedule(all[more[k].id], more[..k], more[k])
    {
      assert more[..k] == fired[..k];
      if k < |fired| {
        assert more[k] == fired[k] && more[k].id in requests;
      } else {
        assert fired[..k] == fired;
      }
    }
  }

  /** One firing was added, on schedule. */
  predicate NextRanOnSchedule(fired: seq<Firing>, more: seq<Firing>, requests: map<TimerId, Request>) {
    OneMore(fired, more)
    && var f := more[|fired|]; f.id in requests && RanOnSchedule(requests[f.id], fired, f)
  }

  // ----- one timer, one step

  lemma CallRunsOne(s: State)
    requires Inv(s) && s.phase.Calling? && s.phase.next < |s.phase.batch|
    ensures var t, e := CallNext(s), s.phase.batch[s.phase.next];
      && e.timer in s.heap && e == EntryAt(s.heap, e.timer)
      && t.heap == s.heap && t.phase == s.phase.(next := s.phase.next + 1) && t.born == s.born
      && t.fired == s.fired + [FiringOf(s.heap, s.phase.now, e)]
      && FiringOf(s.heap, s.phase.now, e).id in s.born
  {
    assert s.phase.batch[s.phase.next] in Batch(s);
  }

  lemma CallStartsOne(s: State, id: TimerId)
    requires Inv(s) && s.phase.Calling? && s.phase.next < |s.phase.batch| && Live(s, id)
    ensures var e := s.phase.batch[s.phase.next];
      && (Started(CallNext(s), id) <==> Started(s, id) || IdAt(s.heap, e.timer) == id)
      && (IdAt(s.heap, e.timer) == id ==> !Started(s, id))
  {
    CallRunsOne(s);
    var n := s.phase.next;
    var e := s.phase.batch[n];
    assert CallNext(s).phase.batch[..n + 1] == s.phase.batch[..n] + [e];
    assert IdAt(s.heap, e.timer) == id <==> e == EntryAt(s.heap, id.timer);
    assert Sorted(s.phase.batch) && forall i | 0 <= i < n :: Less(s.phase.batch[i], e);
    hide Inv, CallNext;
  }

  lemma CallStaysOnSchedule(s: State, request: Request, id: TimerId)
    requires Inv(s) && s.phase.Calling? && s.phase.next < |s.phase.batch|
    requires Live(s, id) && OnSchedule(s, request, id)
    ensures var t := CallNext(s); Live(t, id) && OnSchedule(t, request, id)
  {
    CallRunsOne(s);
    CallStartsOne(s, id);
    NextDueAfter(request, s.fired, FiringOf(s.heap, s.phase.now, s.phase.batch[s.phase.next]), id);
    hide Inv, CallNext, NextDue, Started;
  }

  lemma CloseStaysOnSchedule(s: State, request: Request, id: TimerId)
    requires Inv(s) && Closes(s, EndRead)
    requires Live(s, id) && id in s.born && OnSchedule(s, request, id)
    ensures var t := Step(s, EndRead); Live(t, id) ==> OnSchedule(t, request, id)
  {
    Placed(s, id);
    ClosingRunsNothing(s);
    if id in s.active {
      ActiveFate(s, EndRead, id);
    } else {
      BatchFate(s, EndRead, id);
    }
    hide Inv, Step, NextDue;
  }

  lemma ClosingRunsNothing(s: State)
    requires Closes(s, EndRead)
    ensures var t := Step(s, EndRead); t.fired == s.fired && t.phase.Idle?
    ensures s.phase.batch[..s.phase.next] == Batch(s)
  {
    ResetBatchFrame(s.(phase := Resetting(s.phase.now, s.phase.batch)));
  }

  /** The other steps run nothing. */
  lemma OtherStepsRunNothing(s: State, event: Event)
    requires event != RunNext && !Closes(s, event)
    ensures var t := Step(s, event);
      && t.fired == s.fired
      && (if event == BeginRead && s.phase.Idle? then t.phase.Calling? && t.phase.next == 0 else t.phase == s.phase)
  {
  }

  lemma OtherStepsStayOnSchedule(s: State, event: Event, request: Request, id: TimerId)
    requires Inv(s) && event != RunNext && !Closes(s, event)
    requires Live(s, id) && id in s.born && OnSchedule(s, request, id)
    ensures var t := Step(s, event); Live(t, id) ==> OnSchedule(t, request, id)
  {
    OtherStepsRunNothing(s, event);
    Placed(s, id);
    if id in s.active {
      ActiveFate(s, event, id);
      assert EntryAt(s.heap, id.timer) !in Batch(s);
    } else {
      BatchFate(s, event, id);
    }
    hide Inv, Step;
  }

  lemma StepStaysOnSchedule(s: State, event: Event, request: Request, id: TimerId)
    requires Inv(s) && Live(s, id) && id in s.born && OnSchedule(s, request, id)
    ensures var t := Step(s, event); Live(t, id) ==> OnSchedule(t, request, id)
  {
    hide Inv, OnSchedule;
    if Closes(s, event) {
      CloseStaysOnSchedule(s, request, id);
    } else if event == RunNext {
      if s.phase.Calling? && s.phase.next < |s.phase.batch| {
        CallStaysOnSchedule(s, request, id);
      }
    } else {
      OtherStepsStayOnSchedule(s, event, request, id);
    }
  }

  // ----- all timers, all runs

  /** What addTimer is asked for is what the new timer is. */
  lemma AddIssues(s: State, op: Op)
    requires Inv(s) && op.Add? && Allocatable(s, op.at)
    ensures var t, id := Do(s, op), TimerId(op.at, s.created + 1);
      && id !in s.born && t.born == s.born + {id} && t.fired == s.fired && t.created == s.created + 1
      && t.heap == s.heap[op.at := Timer(op.when, op.interval, s.created + 1)]
  {
  }

  lemma NewIsNotStarted(s: State, op: Op)
    requires Inv(s) && op.Add? && Allocatable(s, op.at)
    ensures !Started(Do(s, op), TimerId(op.at, s.created + 1))
  {
    assert forall e | e in Batch(s) :: e.timer in s.heap;
    assert Do(s, op).phase == s.phase;
    hide Inv, Do;
  }

  lemma OnlyAddIssues(s: State, event: Event)
    requires !(event.User? && event.op.Add? && Allocatable(s, event.op.at))
    ensures Step(s, event).born == s.born
    ensures Step(s, event).created == s.created + if event == User(AddElsewhere) then 1 else 0
  {
    hide ResetBatch, EraseEntry, HowMuchTimeFromNow;
    if Closes(s, event) {
      ResetBatchFrame(s.(phase := Resetting(s.phase.now, s.phase.batch)));
    }
  }

  /** A step adds the ids it issues, and no other. */
  lemma StepIssues(s: State, event: Event)
    requires Inv(s)
    ensures Step(s, event).born == s.born + Issued(s, event).Keys && s.born !! Issued(s, event).Keys
  {
    hide Inv, Do;
    if event.User? && event.op.Add? && Allocatable(s, event.op.at) {
      AddIssues(s, event.op);
      assert Step(s, event) == Do(s, event.op);
    } else {
      OnlyAddIssues(s, event);
    }
  }

  /** Each is for a new timer with the record asked for. */
  lemma IssuedIsNew(s: State, event: Event, id: TimerId)
    requires Inv(s) && id in Issued(s, event)
    ensures var t, request := Step(s, event), Issued(s, event)[id];
      && id !in s.born && t.fired == s.fired && Live(t, id) && !Started(t, id)
      && t.heap[id.timer].interval == request.interval && t.heap[id.timer].expiration == request.when
  {
    AddIssues(s, event.op);
    NewIsNotStarted(s, event.op);
    assert Step(s, event) == Do(s, event.op);
    hide Inv, Do, Step, Started;
  }

  lemma NewIsOnSchedule(s: State, requests: map<TimerId, Request>, event: Event, id: TimerId)
    requires Inv(s) && Scheduled(s, requests) && id in Issued(s, event)
    ensures var t := Step(s, event); Live(t, id) && OnSchedule(t, Issued(s, event)[id], id)
  {
    IssuedIsNew(s, event, id);
    assert forall k | 0 <= k < |s.fired| :: s.fired[k].id in requests && s.fired[k].id != id;
    hide Inv, Step, Issued, Started;
  }

  lemma LiveIsOnSchedule(s: State, requests: map<TimerId, Request>, event: Event, id: TimerId)
    requires Inv(s) && Scheduled(s, requests)
    requires id in Step(s, event).born && Live(Step(s, event), id)
    ensures var all := requests + Issued(s, event);
      id in all && OnSchedule(Step(s, event), all[id], id)
  {
    StepIssues(s, event);
    if id in s.born {
      if Live(s, id) {
        StepStaysOnSchedule(s, event, requests[id], id);
      } else {
        assert id.sequence <= s.created;
        FreedFate(s, event, id);
      }
    } else {
      NewIsOnSchedule(s, requests, event, id);
    }
    hide Inv, Step, Issued, OnSchedule;
  }

  /** What a step adds to the firings. */
  lemma RunIsOnSchedule(s: State, requests: map<TimerId, Request>, event: Event)
    requires Inv(s) && Scheduled(s, requests)
    ensures var t := Step(s, event);
      t.fired == s.fired || NextRanOnSchedule(s.fired, t.fired, requests)
  {
    if Closes(s, event) {
      ClosingRunsNothing(s);
    } else if event == RunNext {
      if s.phase.Calling? && s.phase.next < |s.phase.batch| {
        CallRunsOne(s);
        var f := FiringOf(s.heap, s.phase.now, s.phase.batch[s.phase.next]);
        CallStartsOne(s, f.id);
        assert OnSchedule(s, requests[f.id], f.id);
        assert Step(s, event) == CallNext(s);
        hide Inv, CallNext, NextDue, Started, Step;
      }
    } else {
      OtherStepsRunNothing(s, event);
    }
  }

  lemma StepKeepsFirings(s: State, requests: map<TimerId, Request>, event: Event)
    requires Inv(s) && Scheduled(s, requests)
    ensures AllRanOnSchedule(Step(s, event).fired, requests + Issued(s, event))
  {
    hide Inv, Step, Issued, LiveOnSchedule, RanOnSchedule, AllRanOnSchedule, NextRanOnSchedule;
    StepIssues(s, event);
    RunIsOnSchedule(s, requests, event);
    MoreRan(s.fired, Step(s, event).fired, requests, Issued(s, event));
  }

  lemma StepKeepsSchedule(s: State, requests: map<TimerId, Request>, event: Event)
    requires Inv(s) && Scheduled(s, requests)
    ensures Scheduled(Step(s, event), requests + Issued(s, event))
  {
    hide Inv, Step, Issued, OnSchedule, AllRanOnSchedule;
    var t, all := Step(s, event), requests + Issued(s, event);
    StepIssues(s, event);
    forall id | id in all && Live(t, id) ensures OnSchedule(t, all[id], id) {
      LiveIsOnSchedule(s, requests, event, id);
    }
    StepKeepsFirings(s, requests, event);
    assert LiveOnSchedule(t, all);
  }

  lemma {:induction false} RunKeepsSchedule(s: State, requests: map<TimerId, Request>, events: seq<Event>)
    requires Inv(s) && Scheduled(s, requests)
    ensures Scheduled(Run(s, events), requests + IssuedBy(s, events))
    decreases |events|
  {
    hide Inv, Step, Issued, Scheduled;
    if events == [] {
      assert requests + map[] == requests;
    } else {
      var t, rest := Step(s, events[0]), events[1..];
      StepKeepsSchedule(s, requests, events[0]);
      StepKeepsInv(s, events[0]);
      RunKeepsSchedule(t, requests + Issued(s, events[0]), rest);
      assert (requests + Issued(s, events[0])) + IssuedBy(t, rest)
          == requests + (Issued(s, events[0]) + IssuedBy(t, rest));
    }
  }

  /** Over any run, every callback is due exactly when addTimer was asked for it: the first time at
      the time given, and then one interval, to the microsecond, after the batch of its run before. */
  lemma FiringsFollowTheSchedule(clock: int, events: seq<Event>, k: nat)
    requires clock > 0 && k < |Run(Init(clock), events).fired|
    ensures var fired, requests := Run(Init(clock), events).fired, IssuedBy(Init(clock), events);
      var f, i := fired[k], LastRun(fired[..k], fired[k].id);
      && f.id in requests && f.interval == requests[f.id].interval && f.due <= f.at
      && (if i < 0 then f.due == requests[f.id].when
          else f.interval > 0.0 && LaterBy(fired[i].at, f.interval, f.due))
  {
    var fired, requests := Run(Init(clock), events).fired, IssuedBy(Init(clock), events);
    InitInv(clock);
    RunKeepsSchedule(Init(clock), map[], events);
    assert map[] + requests == requests;
    FiringsAreDue(clock, events, k);
    var i := LastRun(fired[..k], fired[k].id);
    if i >= 0 {
      FiringsAreSpaced(clock, events, i, k);
      AddTimeIsTheInterval(fired[i].at, fired[k].interval);
    }
    hide Run, Inv;
  }

  /** The requests are those of the calls of addTimer in the run, under the ids that these return. */
  lemma {:induction false} RequestsAreAdds(s: State, events: seq<Event>, id: TimerId)
    requires id in IssuedBy(s, events)
    ensures exists j | 0 <= j < |events| ::
      events[j] == User(Add(IssuedBy(s, events)[id].when, IssuedBy(s, events)[id].interval, id.timer))
      && id.sequence == Run(s, events[..j]).created + 1
    decreases |events|
  {
    var t, rest := Step(s, events[0]), events[1..];
    var r := IssuedBy(s, events)[id];
    if id in IssuedBy(t, rest) {
      RequestsAreAdds(t, rest, id);
      hide Step, Issued;
      var j :| 0 <= j < |rest| && rest[j] == User(Add(r.when, r.interval, id.timer))
        && id.sequence == Run(t, rest[..j]).created + 1;
      assert events[..j + 1][1..] == rest[..j] && events[j + 1] == rest[j];
    } else {
      assert events[0] == User(Add(r.when, r.interval, id.timer));
      assert Run(s, events[..0]) == s;
    }
  }

  /** How many timers a run makes, here and in other queues. */
  function TimersMade(s: State, events: seq<Event>): nat
    decreases |events|
  {
    if events == [] then 0
    else |Issued(s, events[0])| + (if events[0] == User(AddElsewhere) then 1 else 0)
         + TimersMade(Step(s, events[0]), events[1..])
  }

  lemma {:induction false} NumbersAreConsecutive(s: State, events: seq<Event>)
    requires Inv(s)
    ensures Run(s, events).created == s.created + TimersMade(s, events)
    decreases |events|
  {
    if events == [] {
    } else {
      OneNumberEach(s, events[0]);
      StepKeepsInv(s, events[0]);
      hide Inv, Step, Issued;
      NumbersAreConsecutive(Step(s, events[0]), events[1..]);
    }
  }

  lemma OneNumberEach(s: State, event: Event)
    requires Inv(s)
    ensures Step(s, event).created
         == s.created + |Issued(s, event)| + if event == User(AddElsewhere) then 1 else 0
  {
    if event.User? && event.op.Add? && Allocatable(s, event.op.at) {
      AddIssues(s, event.op);
      assert Step(s, event) == Do(s, event.op);
      hide Inv, Do, Step;
    } else {
      OnlyAddIssues(s, event);
      hide Inv, Step;
    }
  }
}
