/** The timer queue as a state machine.

    The heap is explicit: an address names a timer only while the timer is allocated, and a freed
    address may be handed out again. Reading or freeing an address that names no timer sets
    `crashed`, which nothing clears. Callbacks are user code: every `User` step taken between two
    `RunNext` steps is part of the body of the callback that the first of them started. */
module TimerModel {
  import opened Timestamps
  import opened TimerEntries

  datatype TimerId = TimerId(timer: Address, sequence: nat)

  datatype Timer = Timer(expiration: int, interval: real, sequence: nat) {
    predicate Repeat() {
      interval > 0.0
    }

    function Restart(now: int): Timer {
      this.(expiration := if Repeat() then AddTime(now, interval) else 0)
    }
  }

  datatype TimerFd = Disarmed | Armed(deadline: int) | Fired

  /** One execution of a callback: at which batch time, and when the timer was due. */
  datatype Firing = Firing(id: TimerId, at: int, due: int, interval: real)

  datatype Phase =
    | Idle
    | Calling(now: int, batch: seq<Entry>, next: nat)
    | Resetting(now: int, batch: seq<Entry>)

  /** `born`, `freed`, `fired` and `armedAt` record history; no step looks at them. */
  datatype State = State(
    heap: map<Address, Timer>,
    timers: seq<Entry>,
    active: set<TimerId>,
    canceling: set<TimerId>,
    phase: Phase,
    fd: TimerFd,
    clock: int,
    created: nat,
    crashed: bool,
    armedAt: int,
    born: set<TimerId>,
    freed: multiset<TimerId>,
    fired: seq<Firing>)

  datatype Op =
    | Add(when: int, interval: real, at: Address)
    | Cancel(id: TimerId)
    | Tick(micros: nat)
    | AddElsewhere

  datatype Event = User(op: Op) | BeginRead | RunNext | EndRead

  function Init(clock: int): State {
    State(map[], [], {}, {}, Idle, Disarmed, clock, 0, false, clock, {}, multiset{}, [])
  }

  // ----- reading through a timer pointer

  const GARBAGE := Timer(0, 0.0, 0)

  function TimerAt(heap: map<Address, Timer>, a: Address): Timer {
    if a in heap then heap[a] else GARBAGE
  }

  function IdAt(heap: map<Address, Timer>, a: Address): TimerId {
    TimerId(a, TimerAt(heap, a).sequence)
  }

  function IdsOf(heap: map<Address, Timer>, es: seq<Entry>): set<TimerId> {
    set e | e in es :: IdAt(heap, e.timer)
  }

  predicate AllAllocated(heap: map<Address, Timer>, es: seq<Entry>) {
    forall e | e in es :: e.timer in heap
  }

  function Dereference(s: State, a: Address): State {
    s.(crashed := s.crashed || a !in s.heap)
  }

  function Delete(s: State, a: Address): State {
    s.(crashed := s.crashed || a !in s.heap,
       heap := s.heap - {a},
       freed := s.freed + multiset{IdAt(s.heap, a)})
  }

  // ----- the kernel timer

  /** `timerfd_settime` with a relative time: zero disarms, anything else arms once. */
  function SetTime(s: State, ts: Timespec): State {
    s.(fd := if ts == Timespec(0, 0) then Disarmed else Armed(s.clock + ts.Nanos() / 1000),
       armedAt := s.clock)
  }

  function ResetTimerFd(s: State, expiration: int): State {
    SetTime(s, HowMuchTimeFromNow(expiration, s.clock))
  }

  function Advance(s: State, micros: nat): State {
    var clock := s.clock + micros;
    s.(clock := clock, fd := if s.fd.Armed? && s.fd.deadline <= clock then Fired else s.fd)
  }

  // ----- the operations of the queue

  predicate EarliestChanged(s: State, when: int) {
    s.timers == [] || when < s.timers[0].when
  }

  function Insert(s: State, a: Address): State {
    var t := Dereference(s, a);
    t.(timers := InsertEntry(s.timers, Entry(TimerAt(s.heap, a).expiration, a)),
       active := s.active + {IdAt(s.heap, a)})
  }

  function AddTimerInLoop(s: State, a: Address): State {
    var when := TimerAt(s.heap, a).expiration;
    if EarliestChanged(s, when) then ResetTimerFd(Insert(s, a), when) else Insert(s, a)
  }

  /** What an allocator may return: not null, and not in use. */
  predicate Allocatable(s: State, a: Address) {
    0 < a < UINTPTR_MAX && a !in s.heap
  }

  function NewTimer(s: State, when: int, interval: real, at: Address): State {
    s.(heap := s.heap[at := Timer(when, interval, s.created + 1)],
       created := s.created + 1,
       born := s.born + {TimerId(at, s.created + 1)})
  }

  function CancelInLoop(s: State, id: TimerId): State {
    if id in s.active then
      var t := Dereference(s, id.timer);
      var entry := Entry(TimerAt(s.heap, id.timer).expiration, id.timer);
      Delete(t.(timers := EraseEntry(s.timers, entry)), id.timer).(active := s.active - {id})
    else if s.phase.Calling? then
      s.(canceling := s.canceling + {id})
    else
      s
  }

  function ExpiredCount(s: State): (n: nat)
    ensures n <= |s.timers|
  {
    LowerBound(s.timers, Entry(s.clock, UINTPTR_MAX))
  }

  function GetExpired(s: State): State {
    var n := ExpiredCount(s);
    var expired := s.timers[..n];
    s.(timers := s.timers[n..],
       active := s.active - IdsOf(s.heap, expired),
       crashed := s.crashed || !AllAllocated(s.heap, expired),
       phase := Calling(s.clock, expired, 0))
  }

  function StartRead(s: State): State {
    GetExpired(s.(fd := if s.fd.Fired? then Disarmed else s.fd))
  }

  function CallNext(s: State): State
    requires s.phase.Calling? && s.phase.next < |s.phase.batch|
  {
    var a := s.phase.batch[s.phase.next].timer;
    var timer := TimerAt(s.heap, a);
    Dereference(s, a).(
      phase := s.phase.(next := s.phase.next + 1),
      fired := s.fired + [Firing(IdAt(s.heap, a), s.phase.now, timer.expiration, timer.interval)])
  }

  /** One turn of the loop in `reset`: restart the first batch member, or delete it. */
  function ResetHead(s: State): State
    requires s.phase.Resetting? && s.phase.batch != []
  {
    var a := s.phase.batch[0].timer;
    var timer := TimerAt(s.heap, a);
    var t := Dereference(s, a).(phase := s.phase.(batch := s.phase.batch[1..]));
    if timer.Repeat() && IdAt(s.heap, a) !in s.canceling then
      Insert(t.(heap := s.heap[a := timer.Restart(s.phase.now)]), a)
    else
      Delete(t, a)
  }

  function ResetBatch(s: State): (r: State)
    requires s.phase.Resetting?
    ensures r.phase == Resetting(s.phase.now, [])
    decreases |s.phase.batch|
  {
    if s.phase.batch == [] then s else ResetBatch(ResetHead(s))
  }

  function Rearm(s: State): State {
    var t := if s.timers != [] then Dereference(s, s.timers[0].timer) else s;
    var nextExpire := if s.timers != [] then TimerAt(s.heap, s.timers[0].timer).expiration else 0;
    if ValidTime(nextExpire) then ResetTimerFd(t, nextExpire) else t
  }

  function Reset(s: State): State
    requires s.phase.Calling?
  {
    Rearm(ResetBatch(s.(phase := Resetting(s.phase.now, s.phase.batch)))).(phase := Idle)
  }

  // ----- steps and runs

  function Do(s: State, op: Op): (t: State)
    ensures t.phase == s.phase
  {
    match op
    case Add(when, interval, at) =>
      if Allocatable(s, at) then AddTimerInLoop(NewTimer(s, when, interval, at), at) else s
    case Cancel(id) => CancelInLoop(s, id)
    case Tick(micros) => Advance(s, micros)
    // the count of timers made is shared by all queues
    case AddElsewhere => s.(created := s.created + 1)
  }

  function Step(s: State, event: Event): State {
    match event
    case User(op) => Do(s, op)
    case BeginRead => if s.phase.Idle? then StartRead(s) else s
    case RunNext => if s.phase.Calling? && s.phase.next < |s.phase.batch| then CallNext(s) else s
    case EndRead => if s.phase.Calling? && s.phase.next == |s.phase.batch| then Reset(s) else s
  }

  function Run(s: State, events: seq<Event>): State
    decreases |events|
  {
    if events == [] then s else Run(Step(s, events[0]), events[1..])
  }

  lemma {:induction false} RunConcat(s: State, a: seq<Event>, b: seq<Event>)
    ensures Run(s, a + b) == Run(Run(s, a), b)
    decreases |a|
  {
    if a == [] {
      assert a + b == b;
    } else {
      assert (a + b)[1..] == a[1..] + b;
      RunConcat(Step(s, a[0]), a[1..], b);
    }
  }

  lemma RunOne(s: State, event: Event)
    ensures Run(s, [event]) == Step(s, event)
  {
    hide Step;
    assert [event][1..] == [];
    assert Run(Step(s, event), []) == Step(s, event);
  }

  // ----- handleRead as one call, the i-th batch member's callback doing script(i)

  function DoAll(s: State, ops: seq<Op>): (t: State)
    ensures t.phase == s.phase
    decreases |ops|
  {
    if ops == [] then s else DoAll(Do(s, ops[0]), ops[1..])
  }

  function CallAll(s: State, script: nat -> seq<Op>): (t: State)
    requires s.phase.Calling? && s.phase.next <= |s.phase.batch|
    ensures t.phase == s.phase.(next := |s.phase.batch|)
    decreases |s.phase.batch| - s.phase.next
  {
    if s.phase.next == |s.phase.batch| then s
    else CallAll(DoAll(CallNext(s), script(s.phase.next)), script)
  }

  function HandleRead(s: State, script: nat -> seq<Op>): State {
    Reset(CallAll(StartRead(s), script))
  }
}
