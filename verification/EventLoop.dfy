/** The event loop with its fields updated in place. Each method is the loop thread's; what other
    threads do between its atomic sections is passed in. */
module EventLoops {
  import opened LoopProtocol

  /** What user code on the loop thread does, and what other threads do meanwhile. */
  datatype Call = QueueFunctor(f: Functor) | StopLoop | Meanwhile(other: Action)

  /** Actions of other threads. */
  predicate Foreign(a: Action) {
    a.Push? || a.Quit? || a.Wakeup?
  }

  function ActionsOf(call: Call): seq<Action> {
    match call
    case QueueFunctor(f) => [LoopPush(f), LoopWakeupTest]
    case StopLoop => [LoopQuit]
    case Meanwhile(a) => if Foreign(a) then [a] else []
  }

  function ActionsOfAll(calls: seq<Call>): seq<Action> {
    if calls == [] then [] else ActionsOf(calls[0]) + ActionsOfAll(calls[1..])
  }

  /** doPendingFunctors after the swap, with `count` functors still to run, the i-th of the batch
      doing `bodies(i)`. */
  function FunctorActions(bodies: nat -> seq<Call>, i: nat, count: nat): seq<Action>
    decreases count
  {
    if count == 0 then [EndFunctors]
    else [RunFunctor] + ActionsOfAll(bodies(i)) + FunctorActions(bodies, i + 1, count - 1)
  }

  /** One turn of the loop: what others do while it polls, what channel callbacks do before and after
      the one that reads the eventfd, what others do before the swap, and what functors do. */
  datatype Turn = Turn(
    polling: seq<Action>, before: seq<Call>, after: seq<Call>, swapping: seq<Action>, bodies: nat -> seq<Call>)

  predicate WellFormed(turn: Turn) {
    (forall a | a in turn.polling :: Foreign(a)) && (forall a | a in turn.swapping :: Foreign(a))
  }

  /** A turn from poll to the next check; reading the eventfd happens only if poll reported it. */
  function TurnActions(turn: Turn, batch: nat): seq<Action> {
    turn.polling + [PollReturns] + ActionsOfAll(turn.before) + [ReadWakeup] + ActionsOfAll(turn.after)
    + [EndHandling] + turn.swapping + [Swap] + FunctorActions(turn.bodies, 0, batch)
  }

  /** loop() up to its check number |turns| of quit, each turn with the functors it ran. */
  function LoopActions(turns: seq<Turn>, batches: seq<seq<Functor>>): seq<Action>
    requires |turns| == |batches|
    decreases |turns|
  {
    if turns == [] then [EnterLoop] else
      var n := |turns| - 1;
      LoopActions(turns[..n], batches[..n]) + ([CheckQuit] + TurnActions(turns[n], |batches[n]|))
  }

  function Flatten(batches: seq<seq<Functor>>): seq<Functor>
    decreases |batches|
  {
    if batches == [] then [] else Flatten(batches[..|batches| - 1]) + batches[|batches| - 1]
  }

  lemma NoTurns()
    ensures LoopActions([], []) == [EnterLoop] && Flatten([]) == []
  {
  }

  lemma NextTurn(start: State, turns: seq<Turn>, batches: seq<seq<Functor>>, batch: seq<Functor>)
    requires |batches| < |turns|
    ensures var n := |batches|;
      && Run(start, LoopActions(turns[..n + 1], batches + [batch]))
           == Run(Run(start, LoopActions(turns[..n], batches)), [CheckQuit] + TurnActions(turns[n], |batch|))
      && Flatten(batches + [batch]) == Flatten(batches) + batch
  {
    var n := |batches|;
    assert turns[..n + 1][..n] == turns[..n] && (batches + [batch])[..n] == batches;
    RunConcat(start, LoopActions(turns[..n], batches), [CheckQuit] + TurnActions(turns[n], |batch|));
  }

  /** User code leaves the loop thread where it found it. */
  lemma CallKeepsPlace(s: State, call: Call)
    requires !s.loopQueueing
    ensures var t := Run(s, ActionsOf(call)); t.pc == s.pc && !t.loopQueueing
  {
    match call
    case QueueFunctor(f) =>
      RunOne(Step(s, LoopPush(f)), LoopWakeupTest);
      assert [LoopPush(f), LoopWakeupTest][1..] == [LoopWakeupTest];
    case StopLoop => RunOne(s, LoopQuit);
    case Meanwhile(a) => if Foreign(a) { RunOne(s, a); }
  }

  class EventLoop {
    var quit: bool
    var callingPendingFunctors: bool
    var pendingFunctors: seq<Functor>
    /** The value of the eventfd. */
    var wakeupFd: nat
    /** The other threads that are on their way to a wakeup. */
    var errands: map<Thread, Errand>
    ghost var pc: Pc
    ghost var loopQueueing: bool
    ghost var early: bool
    ghost var pushes: seq<Functor>
    ghost var executed: seq<Functor>
    ghost var iterations: nat

    ghost function Snapshot(): State
      reads this
    {
      State(pc, quit, callingPendingFunctors, pendingFunctors, wakeupFd, errands, loopQueueing, early,
            pushes, executed, iterations)
    }

    constructor ()
      ensures Snapshot() == INITIAL
    {
      quit, callingPendingFunctors, pendingFunctors, wakeupFd := false, false, [], 0;
      errands := map[];
      pc, loopQueueing, early := Outside, false, false;
      pushes, executed, iterations := [], [], 0;
    }

    method Wakeup()
      modifies this`wakeupFd
      ensures Snapshot() == WriteEventFd(old(Snapshot()))
      ensures wakeupFd == OneMoreWakeup(old(wakeupFd))
    {
      if wakeupFd < EVENTFD_MAX {
        wakeupFd := wakeupFd + 1;
      }
    }

    method HandleRead()
      requires Enabled(Snapshot(), ReadWakeup)
      modifies this`wakeupFd, this`pc
      ensures Snapshot() == Step(old(Snapshot()), ReadWakeup)
      ensures wakeupFd == 0 && pc == Handling(false)
    {
      wakeupFd := 0;
      pc := Handling(false);
    }

    /** quit() on the loop thread: no wakeup is needed, since it is not at poll. */
    method QuitInLoop()
      requires InUserCode(Snapshot())
      modifies this`quit
      ensures Snapshot() == Step(old(Snapshot()), LoopQuit)
      ensures quit
    {
      quit := true;
    }

    /** The section of queueInLoop under the lock. */
    method PushBack(cb: Functor)
      modifies this`pendingFunctors, this`pushes
      ensures Snapshot() == LoopProtocol.PushBack(old(Snapshot()), cb)
    {
      pendingFunctors := pendingFunctors + [cb];
      pushes := pushes + [cb];
    }

    /** queueInLoop on the loop thread. */
    method QueueInLoop(cb: Functor)
      requires InUserCode(Snapshot())
      modifies this`pendingFunctors, this`pushes, this`early, this`wakeupFd
      ensures Snapshot() == Run(old(Snapshot()), [LoopPush(cb), LoopWakeupTest])
      ensures pendingFunctors == old(pendingFunctors) + [cb]
      ensures wakeupFd == if callingPendingFunctors then OneMoreWakeup(old(wakeupFd)) else old(wakeupFd)
    {
      ghost var s := Snapshot();
      PushBack(cb);
      early := early || pc.Outside?;
      assert Snapshot().(loopQueueing := true) == Step(s, LoopPush(cb));
      if callingPendingFunctors {
        Wakeup();
      }
      assert [LoopPush(cb), LoopWakeupTest][1..] == [LoopWakeupTest];
      RunOne(Step(s, LoopPush(cb)), LoopWakeupTest);
    }

    /** The atomic sections of queueInLoop, quit and wakeup on another thread. */
    method Other(a: Action)
      requires Foreign(a)
      modifies this`pendingFunctors, this`pushes, this`errands, this`quit, this`wakeupFd
      ensures Snapshot() == Step(old(Snapshot()), a)
      ensures a.Push? && a.thread !in old(errands) ==> pendingFunctors == old(pendingFunctors) + [a.f]
      ensures a.Quit? && a.thread !in old(errands) ==> quit
      ensures a.Wakeup? && a.thread in old(errands) ==> wakeupFd == OneMoreWakeup(old(wakeupFd))
    {
      match a {
        case Push(p, f) =>
          if p !in errands {
            PushBack(f);
            errands := errands[p := Pushed];
          }
        case Quit(p) =>
          if p !in errands {
            quit := true;
            errands := errands[p := Quitting];
          }
        case Wakeup(p) =>
          if p in errands {
            Wakeup();
            errands := errands - {p};
          }
      }
    }

    method OtherAll(actions: seq<Action>)
      requires forall a | a in actions :: Foreign(a)
      modifies this`pendingFunctors, this`pushes, this`errands, this`quit, this`wakeupFd
      ensures Snapshot() == Run(old(Snapshot()), actions)
    {
      ghost var s := Snapshot();
      for i := 0 to |actions|
        invariant Run(Snapshot(), actions[i..]) == Run(s, actions)
        invariant pc == s.pc && callingPendingFunctors == s.callingPendingFunctors && loopQueueing == s.loopQueueing
      {
        hide Step;
        assert actions[i..][0] == actions[i] && actions[i..][1..] == actions[i + 1..];
        Other(actions[i]);
      }
      assert actions[|actions|..] == [];
    }

    method Perform(call: Call)
      requires InUserCode(Snapshot())
      modifies this`quit, this`pendingFunctors, this`wakeupFd, this`errands, this`early, this`pushes
      ensures Snapshot() == Run(old(Snapshot()), ActionsOf(call))
    {
      match call
      case QueueFunctor(f) =>
        CallKeepsPlace(Snapshot(), call);
        QueueInLoop(f);
      case StopLoop =>
        RunOne(Snapshot(), LoopQuit);
        QuitInLoop();
      case Meanwhile(a) =>
        if Foreign(a) {
          RunOne(Snapshot(), a);
          Other(a);
        }
    }

    method PerformAll(calls: seq<Call>)
      requires InUserCode(Snapshot())
      modifies this`quit, this`pendingFunctors, this`wakeupFd, this`errands, this`early, this`pushes
      ensures Snapshot() == Run(old(Snapshot()), ActionsOfAll(calls))
    {
      ghost var s := Snapshot();
      for i := 0 to |calls|
        invariant Run(Snapshot(), ActionsOfAll(calls[i..])) == Run(s, ActionsOfAll(calls))
      {
        hide Step, ActionsOf;
        assert calls[i..][0] == calls[i] && calls[i..][1..] == calls[i + 1..];
        RunConcat(Snapshot(), ActionsOf(calls[i]), ActionsOfAll(calls[i + 1..]));
        Perform(calls[i]);
      }
      assert calls[|calls|..] == [];
    }

    /** The loop of doPendingFunctors: each functor of the batch is run, once and in order. */
    method RunFunctors(functors: seq<Functor>, bodies: nat -> seq<Call>)
      requires pc == Running(functors, 0) && !loopQueueing
      modifies this`quit, this`pendingFunctors, this`wakeupFd, this`errands, this`early, this`pushes
      modifies this`callingPendingFunctors, this`pc, this`executed
      ensures Snapshot() == Run(old(Snapshot()), FunctorActions(bodies, 0, |functors|))
      ensures executed == old(executed) + functors && pc == AtCheck
    {
      hide Step, Run, FunctorActions;
      ghost var start := Snapshot();
      for i := 0 to |functors|
        invariant pc == Running(functors, i) && !loopQueueing
        invariant executed == old(executed) + functors[..i]
        invariant Run(Snapshot(), FunctorActions(bodies, i, |functors| - i))
               == Run(start, FunctorActions(bodies, 0, |functors|))
      {
        ghost var s := Snapshot();
        executed := executed + [functors[i]];
        pc := Running(functors, i + 1);
        StepRunFunctor(s);
        UnfoldFunctor(s, bodies, i, |functors| - i);
        PerformAll(bodies(i));
        assert functors[..i + 1] == functors[..i] + [functors[i]];
      }
      StepEndFunctors(Snapshot(), bodies, |functors|);
      callingPendingFunctors := false;
      pc := AtCheck;
      assert functors[..|functors|] == functors;
    }

    /** The functors queued when the swap takes the lock are run, all of them, once and in order,
        whatever they queue themselves and whatever other threads do. `gap` is what those do before
        the swap. */
    method DoPendingFunctors(gap: seq<Action>, bodies: nat -> seq<Call>)
      requires pc == Handling(false) && !loopQueueing
      requires forall a | a in gap :: Foreign(a)
      modifies this`quit, this`pendingFunctors, this`wakeupFd, this`errands, this`early, this`pushes
      modifies this`callingPendingFunctors, this`pc, this`executed
      ensures var taken := Run(Step(old(Snapshot()), EndHandling), gap);
        && Snapshot() == Run(Step(taken, Swap), FunctorActions(bodies, 0, |taken.pending|))
        && executed == old(executed) + taken.pending
        && pc == AtCheck
    {
      hide Step, Run, FunctorActions;
      StepEndHandling(Snapshot());
      callingPendingFunctors := true;
      pc := Swapping;
      OthersKeepPlace(Snapshot(), gap);
      OtherAll(gap);
      ghost var taken := Snapshot();
      StepSwap(taken);
      var functors := pendingFunctors;
      pendingFunctors := [];
      early := false;
      pc := Running(functors, 0);
      RunFunctors(functors, bodies);
    }

    /** The first half of a turn: poll returns, and channel callbacks run, the eventfd's among them. */
    method PollAndHandle(turn: Turn)
      requires pc == AtPoll && !loopQueueing && WellFormed(turn)
      modifies this`quit, this`pendingFunctors, this`wakeupFd, this`errands, this`early, this`pushes, this`pc
      ensures var s := old(Snapshot());
        Snapshot() == Run(Run(Run(Run(Run(s, turn.polling), [PollReturns]), ActionsOfAll(turn.before)), [ReadWakeup]),
                          ActionsOfAll(turn.after))
      ensures pc == Handling(false)
    {
      hide Run, ActionsOfAll;
      OthersKeepPlace(Snapshot(), turn.polling);
      OtherAll(turn.polling);
      RunOne(Snapshot(), PollReturns);
      var wakeupActive := wakeupFd > 0;
      pc := Handling(wakeupActive);
      PerformAll(turn.before);
      RunOne(Snapshot(), ReadWakeup);
      if wakeupActive {
        HandleRead();
      }
      PerformAll(turn.after);
    }

    /** One turn of loop(), from poll to the next check of quit: a run of the protocol, in which all
        that was pushed before has been executed at the end. */
    method OneTurn(turn: Turn) returns (ghost batch: seq<Functor>)
      requires pc == AtPoll && !loopQueueing && WellFormed(turn) && Inv(Snapshot())
      modifies this`quit, this`pendingFunctors, this`wakeupFd, this`errands, this`early, this`pushes
      modifies this`callingPendingFunctors, this`pc, this`executed
      ensures Snapshot() == Run(old(Snapshot()), TurnActions(turn, |batch|)) && Inv(Snapshot())
      ensures executed == old(executed) + batch && old(pushes) <= executed
      ensures pc == AtCheck
    {
      ghost var s := Snapshot();
      PollAndHandle(turn);
      ghost var handled := Snapshot();
      DoPendingFunctors(turn.swapping, turn.bodies);
      batch := Run(Step(handled, EndHandling), turn.swapping).pending;
      TurnIsARun(s, handled, turn, |batch|);
      RunKeepsInv(s, TurnActions(turn, |batch|));
      OneIterationDrainsTheQueue(s, TurnActions(turn, |batch|));
      hide Inv, Step, Run, TurnActions, FunctorActions;
    }

    /** A check that finds quit unset, and the turn that follows. */
    method CheckedTurn(turn: Turn) returns (ghost batch: seq<Functor>)
      requires pc == AtCheck && !quit && !loopQueueing && WellFormed(turn) && Inv(Snapshot())
      modifies this
      ensures Snapshot() == Run(old(Snapshot()), [CheckQuit] + TurnActions(turn, |batch|)) && Inv(Snapshot())
      ensures executed == old(executed) + batch && old(pushes) <= executed && old(pushes) <= pushes
      ensures pc == AtCheck && !loopQueueing && iterations == old(iterations) + 1
    {
      hide Step, Run, Inv, TurnActions;
      ghost var s := Snapshot();
      PassCheck(s);
      pc := AtPoll;
      iterations := iterations + 1;
      batch := OneTurn(turn);
      RunConcat(s, [CheckQuit], TurnActions(turn, |batch|));
      ExecutedGrows(s, [CheckQuit] + TurnActions(turn, |batch|));
    }

    /** loop(), for as many turns as are given: it stops at the first check that finds quit set, and
        all checks before that one began an iteration. */
    method Loop(turns: seq<Turn>) returns (n: nat, ghost batches: seq<seq<Functor>>)
      requires pc == Outside && !loopQueueing && Inv(Snapshot())
      requires forall turn | turn in turns :: WellFormed(turn)
      modifies this
      ensures |batches| == n <= |turns| && (n < |turns| ==> pc == Outside)
      ensures if pc == Outside then quit else pc == AtCheck && !quit
      ensures Snapshot()
           == Run(old(Snapshot()), LoopActions(turns[..n], batches) + if pc == Outside then [CheckQuit] else [])
      ensures iterations == old(iterations) + n && executed == old(executed) + Flatten(batches)
      ensures Inv(Snapshot()) && (n > 0 ==> old(pushes) <= executed)
    {
      hide Step, Run, Inv, TurnActions, LoopActions, Flatten;
      ghost var start := Snapshot();
      n, batches := 0, [];
      NoTurns();
      Enter(start);
      quit := false;
      pc := AtCheck;
      while !quit && n < |turns|
        invariant |batches| == n <= |turns| && pc == AtCheck && !loopQueueing
        invariant Snapshot() == Run(start, LoopActions(turns[..n], batches)) && Inv(Snapshot())
        invariant iterations == start.iterations + n && executed == start.executed + Flatten(batches)
        invariant start.pushes <= pushes && (n > 0 ==> start.pushes <= executed)
      {
        ghost var batch := CheckedTurn(turns[n]);
        NextTurn(start, turns, batches, batch);
        batches := batches + [batch];
        n := n + 1;
      }
      if quit {
        LeaveLoop(Snapshot());
        RunConcat(start, LoopActions(turns[..n], batches), [CheckQuit]);
        pc := Outside;
      } else {
        assert LoopActions(turns[..n], batches) + [] == LoopActions(turns[..n], batches);
      }
    }
  }

  lemma TurnIsARun(s: State, handled: State, turn: Turn, batch: nat)
    requires handled == Run(Run(Run(Run(Run(s, turn.polling), [PollReturns]), ActionsOfAll(turn.before)), [ReadWakeup]),
                            ActionsOfAll(turn.after))
    ensures Run(s, TurnActions(turn, batch))
         == Run(Step(Run(Step(handled, EndHandling), turn.swapping), Swap), FunctorActions(turn.bodies, 0, batch))
  {
    hide Step, Run, FunctorActions, ActionsOfAll;
    var a := turn.polling + [PollReturns];
    var b := a + ActionsOfAll(turn.before);
    var c := b + [ReadWakeup];
    var d := c + ActionsOfAll(turn.after);
    var e := d + [EndHandling];
    var f := e + turn.swapping;
    RunConcat(s, turn.polling, [PollReturns]);
    RunConcat(s, a, ActionsOfAll(turn.before));
    RunConcat(s, b, [ReadWakeup]);
    RunConcat(s, c, ActionsOfAll(turn.after));
    RunConcat(s, d, [EndHandling]);
    RunOne(handled, EndHandling);
    RunConcat(s, e, turn.swapping);
    RunConcat(s, f, [Swap]);
    RunOne(Run(s, f), Swap);
    RunConcat(s, f + [Swap], FunctorActions(turn.bodies, 0, batch));
  }

  lemma Enter(s: State)
    requires s.pc == Outside && !s.loopQueueing && Inv(s)
    ensures Run(s, [EnterLoop]) == s.(pc := AtCheck, quit := false) && Inv(Run(s, [EnterLoop]))
  {
    RunOne(s, EnterLoop);
    StepKeepsInv(s, EnterLoop);
  }

  lemma PassCheck(s: State)
    requires s.pc == AtCheck && !s.quit && Inv(s)
    ensures Run(s, [CheckQuit]) == s.(pc := AtPoll, iterations := s.iterations + 1) && Inv(Run(s, [CheckQuit]))
  {
    RunOne(s, CheckQuit);
    StepKeepsInv(s, CheckQuit);
  }

  lemma LeaveLoop(s: State)
    requires s.pc == AtCheck && s.quit && Inv(s)
    ensures Run(s, [CheckQuit]) == s.(pc := Outside) && Inv(Run(s, [CheckQuit]))
  {
    RunOne(s, CheckQuit);
    StepKeepsInv(s, CheckQuit);
  }

  lemma StepEndHandling(s: State)
    requires s.pc == Handling(false) && !s.loopQueueing
    ensures Step(s, EndHandling) == s.(pc := Swapping, callingPendingFunctors := true)
  {
  }

  lemma StepSwap(s: State)
    requires s.pc == Swapping
    ensures Step(s, Swap) == s.(pc := Running(s.pending, 0), pending := [], early := false)
  {
  }

  lemma StepRunFunctor(s: State)
    requires s.pc.Running? && s.pc.done < |s.pc.batch| && !s.loopQueueing
    ensures Step(s, RunFunctor)
         == s.(pc := Running(s.pc.batch, s.pc.done + 1), executed := s.executed + [s.pc.batch[s.pc.done]])
  {
  }

  lemma StepEndFunctors(s: State, bodies: nat -> seq<Call>, i: nat)
    requires s.pc.Running? && s.pc.done == |s.pc.batch| && !s.loopQueueing
    ensures Run(s, FunctorActions(bodies, i, 0)) == s.(pc := AtCheck, callingPendingFunctors := false)
  {
  }

  lemma UnfoldFunctor(s: State, bodies: nat -> seq<Call>, i: nat, n: nat)
    requires 0 < n
    ensures Run(s, FunctorActions(bodies, i, n))
         == Run(Run(Step(s, RunFunctor), ActionsOfAll(bodies(i))), FunctorActions(bodies, i + 1, n - 1))
  {
    hide Step;
    var body, rest := ActionsOfAll(bodies(i)), FunctorActions(bodies, i + 1, n - 1);
    RunConcat(s, [RunFunctor] + body, rest);
    RunConcat(s, [RunFunctor], body);
    RunOne(s, RunFunctor);
  }

  lemma {:induction false} OthersKeepPlace(s: State, actions: seq<Action>)
    requires forall a | a in actions :: Foreign(a)
    ensures var t := Run(s, actions);
      && t.pc == s.pc && t.loopQueueing == s.loopQueueing && t.executed == s.executed
      && t.callingPendingFunctors == s.callingPendingFunctors
    decreases |actions|
  {
    if actions == [] {
    } else {
      assert Foreign(actions[0]);
      OthersKeepPlace(Step(s, actions[0]), actions[1..]);
    }
  }
}
