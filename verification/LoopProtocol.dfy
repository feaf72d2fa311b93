/** The event loop's queue of functors and its wakeup: one loop thread and any number of others,
    interleaved one action at a time. An action that is not possible in a state leaves it alone. */
module LoopProtocol {

  type Functor = nat
  type Thread = nat

  /** The largest value an eventfd counter holds; a write that would pass it fails. */
  const EVENTFD_MAX: nat := 0xFFFF_FFFF_FFFF_FFFE

  /** Where the loop thread is. `Handling` runs channel callbacks, `Running` runs functors. */
  datatype Pc =
    | Outside
    | AtCheck
    | AtPoll
    | Handling(wakeupActive: bool)
    | Swapping
    | Running(batch: seq<Functor>, done: nat)

  /** What another thread did before the wakeup it has yet to write. */
  datatype Errand = Pushed | Quitting

  /** `loopQueueing`: the loop thread is in queueInLoop, past the push and before the test that
      decides on a wakeup. `early`: it pushed outside loop(), and no swap took that push yet.
      `pushes`, `executed` and `iterations` record history. */
  datatype State = State(
    pc: Pc,
    quit: bool,
    callingPendingFunctors: bool,
    pending: seq<Functor>,
    counter: nat,
    errands: map<Thread, Errand>,
    loopQueueing: bool,
    early: bool,
    pushes: seq<Functor>,
    executed: seq<Functor>,
    iterations: nat)

  datatype Action =
    | Push(thread: Thread, f: Functor)
    | Quit(thread: Thread)
    | Wakeup(thread: Thread)
    | LoopPush(f: Functor)
    | LoopWakeupTest
    | LoopQuit
    | EnterLoop
    | CheckQuit
    | PollReturns
    | ReadWakeup
    | EndHandling
    | Swap
    | RunFunctor
    | EndFunctors

  const INITIAL := State(Outside, false, false, [], 0, map[], false, false, [], [], 0)

  /** The loop thread is where user code can run. */
  predicate InUserCode(s: State) {
    !s.loopQueueing && (s.pc.Outside? || s.pc.Handling? || (s.pc.Running? && s.pc.done > 0))
  }

  predicate Enabled(s: State, a: Action) {
    match a
    case Push(p, _) => p !in s.errands
    case Quit(p) => p !in s.errands
    case Wakeup(p) => p in s.errands
    case LoopPush(_) => InUserCode(s)
    case LoopWakeupTest => s.loopQueueing
    case LoopQuit => InUserCode(s)
    case EnterLoop => s.pc.Outside? && !s.loopQueueing
    case CheckQuit => s.pc.AtCheck?
    case PollReturns => s.pc.AtPoll?
    case ReadWakeup => s.pc.Handling? && s.pc.wakeupActive && !s.loopQueueing
    case EndHandling => s.pc.Handling? && !s.pc.wakeupActive && !s.loopQueueing
    case Swap => s.pc.Swapping?
    case RunFunctor => s.pc.Running? && s.pc.done < |s.pc.batch| && !s.loopQueueing
    case EndFunctors => s.pc.Running? && s.pc.done == |s.pc.batch| && !s.loopQueueing
  }

  function WriteEventFd(s: State): State {
    s.(counter := if s.counter < EVENTFD_MAX then s.counter + 1 else s.counter)
  }

  function PushBack(s: State, f: Functor): State {
    s.(pending := s.pending + [f], pushes := s.pushes + [f])
  }

  function Perform(s: State, a: Action): State
    requires Enabled(s, a)
  {
    match a
    case Push(p, f) => PushBack(s, f).(errands := s.errands[p := Pushed])
    case Quit(p) => s.(quit := true, errands := s.errands[p := Quitting])
    case Wakeup(p) => WriteEventFd(s).(errands := s.errands - {p})
    case LoopPush(f) => PushBack(s, f).(loopQueueing := true, early := s.early || s.pc.Outside?)
    case LoopWakeupTest =>
      (if s.callingPendingFunctors then WriteEventFd(s) else s).(loopQueueing := false)
    case LoopQuit => s.(quit := true)
    case EnterLoop => s.(pc := AtCheck, quit := false)
    case CheckQuit => if s.quit then s.(pc := Outside) else s.(pc := AtPoll, iterations := s.iterations + 1)
    case PollReturns => s.(pc := Handling(s.counter > 0))
    case ReadWakeup => s.(pc := Handling(false), counter := 0)
    case EndHandling => s.(pc := Swapping, callingPendingFunctors := true)
    case Swap => s.(pc := Running(s.pending, 0), pending := [], early := false)
    case RunFunctor => s.(pc := s.pc.(done := s.pc.done + 1), executed := s.executed + [s.pc.batch[s.pc.done]])
    case EndFunctors => s.(pc := AtCheck, callingPendingFunctors := false)
  }

  function Step(s: State, a: Action): State {
    if Enabled(s, a) then Perform(s, a) else s
  }

  function Run(s: State, actions: seq<Action>): State
    decreases |actions|
  {
    if actions == [] then s else Run(Step(s, actions[0]), actions[1..])
  }

  lemma {:induction false} RunConcat(s: State, a: seq<Action>, b: seq<Action>)
    ensures Run(s, a + b) == Run(Run(s, a), b)
    decreases |a|
  {
    if a == [] {
      assert a + b == b;
    } else {
      assert (a + b)[1..] == a[1..] + b;
      RunConcat(Step(s, a[0]), a[1..], b);
    }
  }

  lemma RunOne(s: State, a: Action)
    ensures Run(s, [a]) == Step(s, a)
  {
    hide Step;
    assert [a][1..] == [];
    assert Run(Step(s, a), []) == Step(s, a);
  }

  /** The history only grows. */
  lemma HistoryGrows(s: State, a: Action)
    ensures var t := Step(s, a); s.pushes <= t.pushes && s.executed <= t.executed
  {
  }

  /** An iteration begins only at the check, and functors run only later in it. */
  lemma IterationsGrow(s: State, a: Action)
    ensures var t := Step(s, a);
      && s.iterations <= t.iterations
      && (s.iterations < t.iterations ==> s.pc.AtCheck?)
      && (s.pc.AtCheck? || s.pc.Outside? ==> t.pc.AtCheck? || t.pc.Outside? || s.iterations < t.iterations)
  {
  }

  // ----- the invariant

  /** Swapped out and yet to start. */
  function Rest(s: State): seq<Functor>
    requires s.pc.Running? ==> s.pc.done <= |s.pc.batch|
  {
    if s.pc.Running? then s.pc.batch[s.pc.done..] else []
  }

  ghost predicate SomeoneIsWaking(s: State, why: Errand) {
    exists p :: p in s.errands && s.errands[p] == why
  }

  /** Queued functors will be noticed: poll will return, or the loop thread is short of a swap, or
      of a wakeup of its own. The exception is a push of the loop thread outside loop(). */
  ghost predicate QueueIsNoticed(s: State) {
    s.pending != [] ==>
      || s.counter > 0
      || SomeoneIsWaking(s, Pushed)
      || s.pc.Handling? || s.pc.Swapping?
      || (s.pc.Running? && s.loopQueueing)
      || s.early
  }

  ghost predicate QuitIsNoticed(s: State) {
    s.pc.AtPoll? && s.quit ==> s.counter > 0 || SomeoneIsWaking(s, Quitting)
  }

  /** The flags agree with the place of the loop thread, and no functor is lost or repeated. */
  ghost predicate Shape(s: State) {
    && (s.pc.Running? ==> s.pc.done <= |s.pc.batch|)
    && (s.callingPendingFunctors <==> s.pc.Swapping? || s.pc.Running?)
    && (s.loopQueueing ==> s.pc.Outside? || s.pc.Handling? || s.pc.Running?)
    && s.pushes == s.executed + Rest(s) + s.pending
    && (s.early ==> s.pending != [])
  }

  ghost predicate Inv(s: State) {
    Shape(s) && QueueIsNoticed(s) && QuitIsNoticed(s)
  }

  lemma ErrandsPersist(s: State, a: Action, why: Errand)
    requires SomeoneIsWaking(s, why)
    ensures var t := Step(s, a); SomeoneIsWaking(t, why) || t.counter > 0
  {
    var t := Step(s, a);
    var p :| p in s.errands && s.errands[p] == why;
    if !(a.Wakeup? && a.thread == p) {
      assert p in t.errands && t.errands[p] == why;
    }
  }

  /** Running the next functor moves it from the rest of the batch to the executed ones. */
  lemma RunFunctorMoves(s: State)
    requires Enabled(s, RunFunctor)
    ensures var t := Perform(s, RunFunctor); t.executed + Rest(t) == s.executed + Rest(s)
  {
    var batch, done := s.pc.batch, s.pc.done;
    assert batch[done..] == [batch[done]] + batch[done + 1..];
    assert Perform(s, RunFunctor).pc == Running(batch, done + 1);
  }

  lemma StepKeepsShape(s: State, a: Action)
    requires Shape(s)
    ensures Shape(Step(s, a))
  {
    if Enabled(s, a) {
      var t := Perform(s, a);
      match a
      case RunFunctor => RunFunctorMoves(s);
      case EndFunctors => assert Rest(s) == [];
      case Push(_, f) => assert t.executed + Rest(t) + t.pending == s.executed + Rest(s) + s.pending + [f];
      case LoopPush(f) => assert t.executed + Rest(t) + t.pending == s.executed + Rest(s) + s.pending + [f];
      case _ =>
    }
  }

  lemma StepKeepsInv(s: State, a: Action)
    requires Inv(s)
    ensures Inv(Step(s, a))
  {
    StepKeepsShape(s, a);
    var t := Step(s, a);
    if SomeoneIsWaking(s, Pushed) { ErrandsPersist(s, a, Pushed); }
    if SomeoneIsWaking(s, Quitting) { ErrandsPersist(s, a, Quitting); }
    if Enabled(s, a) {
      match a
      case Push(p, _) => assert p in t.errands && t.errands[p] == Pushed;
      case Quit(p) => assert p in t.errands && t.errands[p] == Quitting;
      case _ =>
    }
    assert QueueIsNoticed(t);
  }

  lemma {:induction false} RunKeepsInv(s: State, actions: seq<Action>)
    requires Inv(s)
    ensures Inv(Run(s, actions))
    decreases |actions|
  {
    if actions == [] {
    } else {
      StepKeepsInv(s, actions[0]);
      RunKeepsInv(Step(s, actions[0]), actions[1..]);
    }
  }

  // ----- no functor is stranded

  /** In every interleaving: at poll with functors queued, the poll is about to be woken, unless the
      loop thread itself queued one outside loop() that no swap has taken. */
  lemma NoStrandedFunctor(actions: seq<Action>)
    ensures var s := Run(INITIAL, actions);
      s.pc.AtPoll? && s.pending != [] && !s.early ==> s.counter > 0 || SomeoneIsWaking(s, Pushed)
  {
    RunKeepsInv(INITIAL, actions);
  }

  /** No wakeup has been written that is still unread, and nobody is on the way to one. */
  predicate Quiet(s: State) {
    s.counter == 0 && s.errands == map[]
  }

  /** Functors are queued and the poll is left to time out. */
  predicate Stranded(s: State) {
    s.pc.AtPoll? && s.pending != [] && Quiet(s)
  }

  /** In every interleaving the functors are stranded at poll exactly if the loop thread pushed
      outside loop(), no swap took that push yet, and no wakeup is there or under way. */
  lemma StrandedIffQueuedOutside(actions: seq<Action>)
    ensures var s := Run(INITIAL, actions);
      s.pc.AtPoll? ==> (Stranded(s) <==> s.early && Quiet(s))
  {
    RunKeepsInv(INITIAL, actions);
  }

  /** No other thread pushes or quits. */
  predicate OthersRest(actions: seq<Action>) {
    forall a | a in actions :: !a.Push? && !a.Quit?
  }

  /** Until a poll returns, only other threads can end the quiet, and nothing restores it. */
  lemma {:induction false} QuietUntilPollReturns(s: State, actions: seq<Action>)
    requires Inv(s) && (s.pc.Outside? || s.pc.AtCheck? || s.pc.AtPoll?)
    requires PollReturns !in actions
    ensures var t := Run(s, actions);
      (Quiet(t) <==> Quiet(s) && OthersRest(actions)) && s.pending <= t.pending
    decreases |actions|
  {
    if actions == [] {
    } else {
      var t := Step(s, actions[0]);
      StepKeepsInv(s, actions[0]);
      QuietStep(s, actions[0]);
      assert actions == [actions[0]] + actions[1..];
      hide Inv, Step, Quiet;
      QuietUntilPollReturns(t, actions[1..]);
    }
  }

  lemma QuietStep(s: State, a: Action)
    requires Inv(s) && (s.pc.Outside? || s.pc.AtCheck? || s.pc.AtPoll?) && a != PollReturns
    ensures var t := Step(s, a);
      && (t.pc.Outside? || t.pc.AtCheck? || t.pc.AtPoll?)
      && (Quiet(t) <==> Quiet(s) && !a.Push? && !a.Quit?)
      && s.pending <= t.pending
  {
    var t := Step(s, a);
    if Enabled(s, a) {
      match a
      case Push(p, _) => assert p in t.errands;
      case Quit(p) => assert p in t.errands;
      case Wakeup(p) => assert p in s.errands && t.counter > 0;
      case _ =>
    } else if a.Push? || a.Quit? {
      assert a.thread in s.errands;
    }
  }

  /** A functor that the loop thread queues outside loop(), from whatever state: at the poll that
      follows, with any interleaving on the way, it is stranded exactly if nothing was waking before
      the push and no other thread pushes or quits. */
  lemma EarlyPushIsStranded(s: State, f: Functor, actions: seq<Action>)
    requires Inv(s) && s.pc.Outside? && !s.loopQueueing
    requires PollReturns !in actions && Run(Step(s, LoopPush(f)), actions).pc.AtPoll?
    ensures var t := Run(Step(s, LoopPush(f)), actions);
      f in t.pending && (Stranded(t) <==> Quiet(s) && OthersRest(actions))
  {
    var p := Step(s, LoopPush(f));
    StepKeepsInv(s, LoopPush(f));
    QuietUntilPollReturns(p, actions);
    assert p.pending[|s.pending|] == f;
  }

  /** Such a run. */
  lemma EarlyPushHappens(f: Functor)
    ensures var s := Run(INITIAL, [LoopPush(f), LoopWakeupTest, EnterLoop, CheckQuit]);
      s.pc.AtPoll? && s.pending == [f] && s.counter == 0 && s.errands == map[]
  {
    RunOfFour(INITIAL, LoopPush(f), LoopWakeupTest, EnterLoop, CheckQuit);
  }

  lemma RunOfFour(s: State, a: Action, b: Action, c: Action, d: Action)
    ensures Run(s, [a, b, c, d]) == Step(Step(Step(Step(s, a), b), c), d)
  {
    hide Step, Run;
    RunOne(s, a);
    RunConcat(s, [a], [b]);
    RunOne(Run(s, [a]), b);
    RunConcat(s, [a] + [b], [c]);
    RunOne(Run(s, [a] + [b]), c);
    RunConcat(s, [a] + [b] + [c], [d]);
    RunOne(Run(s, [a] + [b] + [c]), d);
    assert [a, b, c, d] == [a] + [b] + [c] + [d];
  }

  // ----- the eventfd

  /** One more wakeup in the eventfd, unless it is full. */
  function OneMoreWakeup(counter: nat): nat {
    if counter < 0xFFFF_FFFF_FFFF_FFFE then counter + 1 else counter
  }

  /** The action writes to the eventfd. */
  predicate Writes(s: State, a: Action) {
    (a.Wakeup? && a.thread in s.errands) || (a.LoopWakeupTest? && s.loopQueueing && s.callingPendingFunctors)
  }

  /** The eventfd counts the wakeups written since it was last read, and poll reports it exactly if
      there is one; reading leaves none. */
  lemma EventFdCounts(s: State, a: Action)
    ensures var t := Step(s, a);
      && t.counter ==
           (if Writes(s, a) then OneMoreWakeup(s.counter)
            else if a.ReadWakeup? && s.pc == Handling(true) && !s.loopQueueing then 0
            else s.counter)
      && (a.PollReturns? && s.pc.AtPoll? ==> t.pc == Handling(s.counter > 0))
  {
  }

  predicate NothingWritten(s: State, actions: seq<Action>)
    decreases |actions|
  {
    actions == [] || (!Writes(s, actions[0]) && NothingWritten(Step(s, actions[0]), actions[1..]))
  }

  /** The wakeups that were there at poll in `start` are read before the next poll. */
  predicate ReadInTime(start: State, s: State) {
    && start.iterations <= s.iterations
    && (s.counter > 0 ==> s.pc == Handling(true) || (s.pc.AtPoll? && s.iterations == start.iterations))
  }

  lemma {:induction false} WakeupsAreReadInTime(start: State, s: State, actions: seq<Action>)
    requires ReadInTime(start, s) && NothingWritten(s, actions)
    ensures ReadInTime(start, Run(s, actions))
    decreases |actions|
  {
    if actions == [] {
    } else {
      WakeupIsReadInTime(start, s, actions[0]);
      hide Step, ReadInTime;
      WakeupsAreReadInTime(start, Step(s, actions[0]), actions[1..]);
    }
  }

  lemma WakeupIsReadInTime(start: State, s: State, a: Action)
    requires ReadInTime(start, s) && !Writes(s, a)
    ensures ReadInTime(start, Step(s, a))
  {
    EventFdCounts(s, a);
    IterationsGrow(s, a);
    if s.counter == 0 {
      hide Step, Writes;
    }
  }

  /** From one poll to any later one: if it finds the eventfd readable, somebody has written to it in
      between, so what was there before does not end a second poll. */
  lemma WakeupEndsOnePoll(s: State, actions: seq<Action>)
    requires s.pc.AtPoll? && NothingWritten(s, actions)
    ensures var t := Run(s, actions);
      t.pc.AtPoll? && t.iterations > s.iterations ==> t.counter == 0
  {
    WakeupsAreReadInTime(s, s, actions);
  }

  /** No functor is queued, and no other thread sets quit. */
  predicate NobodyAsks(actions: seq<Action>) {
    forall a | a in actions :: !a.Push? && !a.Quit? && !a.LoopPush?
  }

  lemma {:induction false} NobodyWrites(s: State, actions: seq<Action>)
    requires s.errands == map[] && !s.loopQueueing && NobodyAsks(actions)
    ensures NothingWritten(s, actions)
    decreases |actions|
  {
    if actions == [] {
    } else {
      assert actions[0] in actions;
      NobodyWrites(Step(s, actions[0]), actions[1..]);
    }
  }

  /** So the loop comes back to a poll that nothing ends, however many wakeups there were. */
  lemma QuietIterationComesBackToRest(s: State, actions: seq<Action>)
    requires s.pc.AtPoll? && s.errands == map[] && !s.loopQueueing && NobodyAsks(actions)
    ensures var t := Run(s, actions);
      t.pc.AtPoll? && t.iterations > s.iterations ==> t.counter == 0
  {
    NobodyWrites(s, actions);
    WakeupEndsOnePoll(s, actions);
  }

  /** queueInLoop on another thread, undisturbed: it leaves one functor more and one wakeup. */
  lemma QueueInLoopElsewhere(s: State, p: Thread, f: Functor)
    requires p !in s.errands
    ensures Run(s, [Push(p, f), Wakeup(p)])
         == s.(pending := s.pending + [f], pushes := s.pushes + [f], counter := OneMoreWakeup(s.counter))
  {
    RunOfTwo(s, Push(p, f), Wakeup(p));
    assert s.errands[p := Pushed] - {p} == s.errands;
  }

  /** quit on another thread, undisturbed. */
  lemma QuitElsewhere(s: State, p: Thread)
    requires p !in s.errands
    ensures Run(s, [Quit(p), Wakeup(p)]) == s.(quit := true, counter := OneMoreWakeup(s.counter))
  {
    RunOfTwo(s, Quit(p), Wakeup(p));
    assert s.errands[p := Quitting] - {p} == s.errands;
  }

  lemma RunOfTwo(s: State, a: Action, b: Action)
    ensures Run(s, [a, b]) == Step(Step(s, a), b)
  {
    hide Step;
    assert [a, b][1..] == [b];
    RunOne(Step(s, a), b);
  }

  /** queueInLoop on the loop thread: it wakes itself only while functors run. */
  lemma QueueInLoopHere(s: State, f: Functor)
    requires InUserCode(s)
    ensures Run(s, [LoopPush(f), LoopWakeupTest])
         == s.(pending := s.pending + [f], pushes := s.pushes + [f], early := s.early || s.pc.Outside?,
               counter := if s.callingPendingFunctors then OneMoreWakeup(s.counter) else s.counter)
  {
    RunOfTwo(s, LoopPush(f), LoopWakeupTest);
  }

  // ----- order, and exactly once

  /** The functor that an action queues, if it can act. */
  function Queued(s: State, a: Action): seq<Functor> {
    match a
    case Push(p, f) => if p in s.errands then [] else [f]
    case LoopPush(f) => if InUserCode(s) then [f] else []
    case _ => []
  }

  /** All that a run queues. */
  function QueuedBy(s: State, actions: seq<Action>): seq<Functor>
    decreases |actions|
  {
    if actions == [] then [] else Queued(s, actions[0]) + QueuedBy(Step(s, actions[0]), actions[1..])
  }

  lemma {:induction false} PushesAreWhatIsQueued(s: State, actions: seq<Action>)
    ensures Run(s, actions).pushes == s.pushes + QueuedBy(s, actions)
    decreases |actions|
  {
    if actions == [] {
    } else {
      PushesGrow(s, actions[0]);
      hide Step, Queued;
      PushesAreWhatIsQueued(Step(s, actions[0]), actions[1..]);
    }
  }

  lemma PushesGrow(s: State, a: Action)
    ensures Step(s, a).pushes == s.pushes + Queued(s, a)
  {
  }

  /** In every interleaving the functors run so far, the rest of the batch, and the queue are
      together the sequence of all that was queued. */
  lemma FunctorsRunInPushOrderOnce(actions: seq<Action>)
    ensures var s := Run(INITIAL, actions);
      (s.pc.Running? ==> s.pc.done <= |s.pc.batch|) && s.executed + Rest(s) + s.pending == QueuedBy(INITIAL, actions)
  {
    RunKeepsInv(INITIAL, actions);
    PushesAreWhatIsQueued(INITIAL, actions);
    hide Run, QueuedBy;
  }

  lemma BatchStep(s: State, a: Action)
    requires Inv(s) && s.pc.Running?
    ensures var t := Step(s, a);
      && t.iterations == s.iterations
      && (t.pc.Running? || t.pc.AtCheck?)
      && (t.pc.Running? ==> t.pc.batch == s.pc.batch && s.pc.done <= t.pc.done <= |t.pc.batch|)
      && t.executed + Rest(t) == s.executed + Rest(s)
  {
    if Enabled(s, a) {
      match a
      case RunFunctor => RunFunctorMoves(s);
      case EndFunctors => assert Rest(s) == [];
      case _ =>
    }
  }

  /** A batch is closed once it is swapped out: nothing that happens while it runs joins it, each of
      its functors starts once, in order, and then the loop moves on. */
  lemma {:induction false} BatchIsClosed(s: State, actions: seq<Action>)
    requires Inv(s) && s.pc.Running?
    ensures var t := Run(s, actions);
      && Inv(t)
      && if t.pc.Running? && t.iterations == s.iterations
         then t.pc.batch == s.pc.batch && t.executed + Rest(t) == s.executed + Rest(s)
         else s.executed + Rest(s) <= t.executed
    decreases |actions|
  {
    if actions != [] {
      var t := Step(s, actions[0]);
      StepKeepsInv(s, actions[0]);
      BatchStep(s, actions[0]);
      hide Inv, Step;
      if t.pc.Running? {
        BatchIsClosed(t, actions[1..]);
      } else {
        RunKeepsInv(t, actions[1..]);
        ExecutedGrows(t, actions[1..]);
        NextBatchIsLater(t, actions[1..]);
      }
    }
  }

  lemma {:induction false} ExecutedGrows(s: State, actions: seq<Action>)
    ensures var t := Run(s, actions);
      s.pushes <= t.pushes && s.executed <= t.executed && s.iterations <= t.iterations
    decreases |actions|
  {
    if actions == [] {
    } else {
      HistoryGrows(s, actions[0]);
      IterationsGrow(s, actions[0]);
      hide Step;
      ExecutedGrows(Step(s, actions[0]), actions[1..]);
    }
  }

  /** From the end of an iteration, functors run again only in a later one. */
  lemma {:induction false} NextBatchIsLater(s: State, actions: seq<Action>)
    requires s.pc.AtCheck? || s.pc.Outside?
    ensures var t := Run(s, actions);
      t.iterations == s.iterations ==> t.pc.AtCheck? || t.pc.Outside?
    decreases |actions|
  {
    if actions == [] {
    } else {
      var t := Step(s, actions[0]);
      IterationsGrow(s, actions[0]);
      hide Step;
      ExecutedGrows(t, actions[1..]);
      if t.iterations == s.iterations {
        NextBatchIsLater(t, actions[1..]);
      }
    }
  }

  /** What is queued when the loop is at poll, whoever queued it, has run when that iteration ends;
      whatever else happens meanwhile. */
  lemma OneIterationDrainsTheQueue(s: State, actions: seq<Action>)
    requires Inv(s) && s.pc.AtPoll?
    ensures var t := Run(s, actions);
      t.iterations > s.iterations || t.pc.AtCheck? || t.pc.Outside? ==> s.pushes <= t.executed
  {
    Drains(s, s, actions);
  }

  /** How far the iteration that began at poll in `start` has got with the functors queued then. */
  ghost predicate Draining(start: State, s: State) {
    && start.pushes <= s.pushes && start.iterations <= s.iterations
    && (s.iterations == start.iterations ==>
          match s.pc
          case Running(batch, done) => done <= |batch| && start.pushes <= s.executed + Rest(s)
          case AtCheck => start.pushes <= s.executed
          case Outside => start.pushes <= s.executed
          case _ => true)
    && (start.iterations < s.iterations ==> start.pushes <= s.executed)
  }

  lemma {:induction false} Drains(start: State, s: State, actions: seq<Action>)
    requires Inv(s) && Draining(start, s)
    ensures Draining(start, Run(s, actions))
    decreases |actions|
  {
    if actions == [] {
    } else {
      StepKeepsInv(s, actions[0]);
      DrainingStep(start, s, actions[0]);
      Drains(start, Step(s, actions[0]), actions[1..]);
    }
  }

  lemma DrainingStep(start: State, s: State, a: Action)
    requires Inv(s) && Draining(start, s)
    ensures Draining(start, Step(s, a))
  {
    HistoryGrows(s, a);
    IterationsGrow(s, a);
    if s.pc.Running? {
      BatchStep(s, a);
      hide Step, Inv;
    } else if s.pc.Swapping? {
      SwapTakesAll(s, a);
      hide Step, Inv;
    }
  }

  lemma SwapTakesAll(s: State, a: Action)
    requires Inv(s) && s.pc.Swapping?
    ensures var t := Step(s, a);
      t.pc.Swapping? || (t.pc.Running? && t.pc.done == 0 && t.executed + Rest(t) == t.pushes)
  {
    if a.Swap? {
      var t := Perform(s, a);
      assert Rest(t) == s.pending && s.executed + Rest(s) == s.executed;
    }
  }

  // ----- quit

  /** In every interleaving: at poll with quit set, the poll is about to be woken. */
  lemma QuitIsNotLost(actions: seq<Action>)
    ensures var s := Run(INITIAL, actions);
      s.pc.AtPoll? && s.quit ==> s.counter > 0 || SomeoneIsWaking(s, Quitting)
  {
    RunKeepsInv(INITIAL, actions);
  }

  /** Once quit is set inside loop(), this loop() begins no further iteration. */
  lemma {:induction false} QuitBeginsNoIteration(s: State, actions: seq<Action>)
    requires s.quit && EnterLoop !in actions
    ensures var t := Run(s, actions); t.quit && t.iterations == s.iterations
    decreases |actions|
  {
    if actions == [] {
    } else {
      assert actions[0] in actions;
      QuitBeginsNoIteration(Step(s, actions[0]), actions[1..]);
    }
  }

  predicate SetsQuit(s: State, a: Action) {
    (a.Quit? || a.LoopQuit?) && Enabled(s, a)
  }

  /** Step `i` of the run sets quit. */
  predicate SetsQuitAt(s: State, actions: seq<Action>, i: nat)
    requires i < |actions|
  {
    SetsQuit(Run(s, actions[..i]), actions[i])
  }

  lemma {:induction false} QuitIsSetByQuit(s: State, actions: seq<Action>)
    requires EnterLoop !in actions
    ensures Run(s, actions).quit <==> s.quit || exists i | 0 <= i < |actions| :: SetsQuitAt(s, actions, i)
    decreases |actions|
  {
    if actions == [] {
    } else {
      var n := |actions| - 1;
      var init, last := actions[..n], actions[n];
      assert last in actions;
      QuitIsSetByQuit(s, init);
      assert actions == init + [last];
      RunConcat(s, init, [last]);
      QuitStep(Run(s, init), last);
      hide Run, Step;
      forall i | 0 <= i < n ensures SetsQuitAt(s, actions, i) == SetsQuitAt(s, init, i) {
        assert init[..i] == actions[..i];
      }
      assert SetsQuitAt(s, actions, n) == SetsQuit(Run(s, init), last);
    }
  }

  lemma QuitStep(s: State, a: Action)
    requires a != EnterLoop
    ensures Run(s, [a]) == Step(s, a)
    ensures Step(s, a).quit <==> s.quit || SetsQuit(s, a)
  {
    RunOne(s, a);
  }

  /** From whatever state loop() is entered: a quit set before is forgotten, whether or not there was
      one; afterwards quit is set exactly if some quit() took effect since the entry; and from the
      first such quit() on, no iteration begins. */
  lemma QuitCountsFromEntry(s: State, actions: seq<Action>)
    requires Enabled(s, EnterLoop) && EnterLoop !in actions
    ensures var e := Step(s, EnterLoop);
      && (forall before :: Step(s.(quit := before), EnterLoop) == e)
      && (Run(e, actions).quit <==> exists i | 0 <= i < |actions| :: SetsQuitAt(e, actions, i))
      && (forall i | 0 <= i < |actions| && SetsQuitAt(e, actions, i) ::
            Run(e, actions).iterations == Run(e, actions[..i]).iterations)
  {
    var e := Step(s, EnterLoop);
    QuitIsSetByQuit(e, actions);
    forall i | 0 <= i < |actions| && SetsQuitAt(e, actions, i)
      ensures Run(e, actions).iterations == Run(e, actions[..i]).iterations
    {
      NoIterationAfterQuit(e, actions, i);
    }
  }

  lemma NoIterationAfterQuit(s: State, actions: seq<Action>, i: nat)
    requires i < |actions| && EnterLoop !in actions && SetsQuitAt(s, actions, i)
    ensures Run(s, actions).iterations == Run(s, actions[..i]).iterations
  {
    var t, rest := Run(s, actions[..i]), actions[i + 1..];
    assert actions == actions[..i] + ([actions[i]] + rest);
    RunConcat(s, actions[..i], [actions[i]] + rest);
    RunConcat(t, [actions[i]], rest);
    QuitStep(t, actions[i]);
    var q := Step(t, actions[i]);
    assert q.iterations == t.iterations;
    hide Step;
    QuitBeginsNoIteration(q, rest);
  }

  /** Such a run: quit is set, and the loop still goes to poll. */
  lemma QuitBeforeLoopHappens(p: Thread)
    ensures var s := Run(INITIAL, [Quit(p), Wakeup(p), EnterLoop, CheckQuit]);
      s.pc.AtPoll? && !s.quit && s.iterations == 1
  {
    RunOfFour(INITIAL, Quit(p), Wakeup(p), EnterLoop, CheckQuit);
  }
}
