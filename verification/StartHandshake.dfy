/** The handshake of EventLoopThread: `startLoop` waits on a condition until the new thread has
    published its loop. The two threads are interleaved one action at a time; a wait may also end
    for no reason. An action that is not possible in a state leaves it alone. */
module StartHandshake {

  datatype Starter = Starting | Locking | Testing | Waiting | Relocking | Unlocking | Returned
  datatype Child = NotStarted | Constructing | ChildLocking | Publishing | Notifying | ChildUnlocking | Looping

  datatype Owner = Nobody | TheStarter | TheChild

  datatype State = State(starter: Starter, child: Child, mutex: Owner, published: bool)

  datatype Action =
    | StartThread
    | LockStarter
    | TestLoop
    | WakeSpuriously
    | Relock
    | UnlockStarter
    | Construct
    | LockChild
    | Publish
    | Notify
    | UnlockChild

  const INITIAL := State(Starting, NotStarted, Nobody, false)

  predicate Enabled(s: State, a: Action) {
    match a
    case StartThread => s.starter.Starting?
    case LockStarter => s.starter.Locking? && s.mutex.Nobody?
    case TestLoop => s.starter.Testing?
    case WakeSpuriously => s.starter.Waiting?
    case Relock => s.starter.Relocking? && s.mutex.Nobody?
    case UnlockStarter => s.starter.Unlocking?
    case Construct => s.child.Constructing?
    case LockChild => s.child.ChildLocking? && s.mutex.Nobody?
    case Publish => s.child.Publishing?
    case Notify => s.child.Notifying?
    case UnlockChild => s.child.ChildUnlocking?
  }

  function Perform(s: State, a: Action): State
    requires Enabled(s, a)
  {
    match a
    case StartThread => s.(starter := Locking, child := Constructing)
    case LockStarter => s.(starter := Testing, mutex := TheStarter)
    // seeing no loop, `wait` enters the wait set and gives the mutex up in one go
    case TestLoop => if s.published then s.(starter := Unlocking) else s.(starter := Waiting, mutex := Nobody)
    case WakeSpuriously => s.(starter := Relocking)
    case Relock => s.(starter := Testing, mutex := TheStarter)
    case UnlockStarter => s.(starter := Returned, mutex := Nobody)
    case Construct => s.(child := ChildLocking)
    case LockChild => s.(child := Publishing, mutex := TheChild)
    case Publish => s.(child := Notifying, published := true)
    // a signal moves a waiting thread on, and is lost when nobody waits
    case Notify => s.(child := ChildUnlocking, starter := if s.starter.Waiting? then Relocking else s.starter)
    case UnlockChild => s.(child := Looping, mutex := Nobody)
  }

  function Step(s: State, a: Action): State {
    if Enabled(s, a) then Perform(s, a) else s
  }

  function Run(s: State, actions: seq<Action>): State
    decreases |actions|
  {
    if actions == [] then s else Run(Step(s, actions[0]), actions[1..])
  }

  predicate Inv(s: State) {
    && (s.starter.Starting? <==> s.child.NotStarted?)
    && (s.mutex.TheStarter? <==> s.starter.Testing? || s.starter.Unlocking?)
    && (s.mutex.TheChild? <==> s.child.Publishing? || s.child.Notifying? || s.child.ChildUnlocking?)
    && (s.published <==> s.child.Notifying? || s.child.ChildUnlocking? || s.child.Looping?)
    && (s.starter.Unlocking? || s.starter.Returned? ==> s.published)
    && (s.starter.Waiting? ==> !s.child.ChildUnlocking? && !s.child.Looping?)
  }

  lemma StepKeepsInv(s: State, a: Action)
    requires Inv(s)
    ensures Inv(Step(s, a))
  {
  }

  lemma {:induction false} RunKeepsInv(s: State, actions: seq<Action>)
    requires Inv(s)
    ensures Inv(Run(s, actions))
    decreases |actions|
  {
    if actions == [] {
    } else {
      RunKeepsInv(Step(s, actions[0]), actions[1..]);
    }
  }

  /** In every interleaving: `startLoop` returns only a published loop, and once the notification
      has taken effect it is not in the wait set, nor does it ever enter it. */
  lemma StartLoopIsSafe(actions: seq<Action>)
    ensures var s := Run(INITIAL, actions);
      && (s.starter.Returned? ==> s.published)
      && (s.child.ChildUnlocking? || s.child.Looping? ==> !s.starter.Waiting?)
      && !(s.starter.Testing? && s.child.Publishing?)
  {
    RunKeepsInv(INITIAL, actions);
  }

  // ----- and it returns

  function StarterSteps(s: State): nat {
    match s.starter
    case Starting => 6
    case Locking => if s.published then 3 else 5
    case Testing => if s.published then 2 else 4
    case Waiting => 3
    case Relocking => if s.published then 3 else 5
    case Unlocking => 1
    case Returned => 0
  }

  function ChildSteps(s: State): nat {
    match s.child
    case NotStarted => 6
    case Constructing => 5
    case ChildLocking => 4
    case Publishing => 3
    case Notifying => 2
    case ChildUnlocking => 1
    case Looping => 0
  }

  /** Work left: what the child still has to do counts for more than anything of the starter. */
  function Left(s: State): nat {
    10 * ChildSteps(s) + StarterSteps(s)
  }

  /** No deadlock and no livelock: short of the end some thread can act other than by a spurious
      wakeup, and every such action brings the end nearer. */
  lemma AlwaysProgress(actions: seq<Action>, a: Action)
    ensures var s := Run(INITIAL, actions);
      && (Left(s) > 0 ==> exists b: Action :: !b.WakeSpuriously? && Enabled(s, b))
      && (Left(s) == 0 ==> s.starter.Returned? && s.child.Looping? && s.mutex.Nobody?)
      && (Enabled(s, a) && !a.WakeSpuriously? ==> Left(Step(s, a)) < Left(s))
  {
    RunKeepsInv(INITIAL, actions);
    var s := Run(INITIAL, actions);
    if Left(s) > 0 {
      var b := Possible(s);
    }
  }

  lemma Possible(s: State) returns (b: Action)
    requires Inv(s) && Left(s) > 0
    ensures !b.WakeSpuriously? && Enabled(s, b)
  {
    b := match s.child
      case NotStarted => StartThread
      case Constructing => Construct
      case ChildLocking =>
        (if s.mutex.Nobody? then LockChild else if s.starter.Testing? then TestLoop else UnlockStarter)
      case Publishing => Publish
      case Notifying => Notify
      case ChildUnlocking => UnlockChild
      case Looping =>
        (match s.starter
         case Locking => LockStarter
         case Testing => TestLoop
         case Relocking => Relock
         case _ => UnlockStarter);
  }
}
