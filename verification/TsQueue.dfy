/** The blocking queue of sources/ts_queue/ts_queue.h as a transition system over any
    number of threads.

    Every thread has a program counter.  A region under `queue_protector_` is split where it
    reads `stopping_`, because that flag is written without the mutex: a write may land
    between the check and the container operation that follows it.  Taking the mutex and
    the flag read that follows it are one step, since nothing but a flag write can happen in
    between and that write could as well have happened before the mutex was taken. */
module TsQueue {
  import opened Common

  type Tid = nat
  type Task = nat

  /** Where a thread is.  `...Lock` waits for the mutex, `...Signalled` has been notified (or woke
      spuriously) and waits for the mutex again; PushCommit, PopTest, TryTest and WaitSleep hold it. */
  datatype Pc =
    | Idle
    | PushLock(val: Task)
    | PushCommit(val: Task)
    | PopLock
    | PopTest
    | PopAsleep
    | PopSignalled
    | TryLock
    | TryTest
    | WaitLock
    | WaitSleep
    | WaitAsleep
    | WaitSignalled
    | StopNotify
    | FlushNotify

  /** The public methods a thread can enter. */
  datatype Call = CallPush(val: Task) | CallWaitPop | CallTsPop | CallWait | CallStop | CallStopProcessing

  /** What a step returns to the caller of the method, if the method returns in that step. */
  datatype Event =
    | NoReturn
    | PushReturned(accepted: bool)
    | PopReturned(task: Option<Task>)
    | WaitReturned
    | StopReturned

  /** How an element left the list: handed to a caller, or deleted by `stop_processing`. */
  datatype Removal = Popped(task: Task) | Deleted(task: Task)

  /** `accepted`, `removed` and `stopReturned` are history: the pushes in mutex order, the
      removals in mutex order, and whether some stop call has returned. */
  datatype State = State(
    queue: seq<Task>,
    stopping: bool,
    holder: Option<Tid>,
    pc: map<Tid, Pc>,
    accepted: seq<Task>,
    removed: seq<Removal>,
    stopReturned: bool)

  datatype Outcome = Outcome(state: State, event: Event)

  /** `Advance` carries the thread that `notify_one` picks, used only if that step notifies one. */
  datatype Action = Begin(t: Tid, call: Call) | Advance(t: Tid, wake: Tid) | Spurious(t: Tid)

  function Init(threads: set<Tid>): State {
    State([], false, None, map t | t in threads :: Idle, [], [], false)
  }

  predicate Holding(p: Pc) {
    p.PushCommit? || p.PopTest? || p.TryTest? || p.WaitSleep?
  }

  predicate NeedsMutex(p: Pc) {
    || p.PushLock? || p.PopLock? || p.PopSignalled? || p.TryLock?
    || p.WaitLock? || p.WaitSignalled? || p.StopNotify? || p.FlushNotify?
  }

  predicate Asleep(p: Pc) {
    p.PopAsleep? || p.WaitAsleep?
  }

  function PopSleepers(pc: map<Tid, Pc>): set<Tid> {
    set t | t in pc && pc[t].PopAsleep?
  }

  function Signalled(pc: map<Tid, Pc>): set<Tid> {
    set t | t in pc && pc[t].PopSignalled?
  }

  predicate Enabled(s: State, a: Action) {
    a.t in s.pc &&
    match a
    case Begin(t, call) => s.pc[t].Idle?
    case Advance(t, wake) =>
      && (Holding(s.pc[t]) || (NeedsMutex(s.pc[t]) && s.holder == None))
      && (s.pc[t].PushCommit? && PopSleepers(s.pc) != {} ==> wake in PopSleepers(s.pc))
    case Spurious(t) => Asleep(s.pc[t])
  }

  function Move(s: State, t: Tid, p: Pc): State {
    s.(pc := s.pc[t := p])
  }

  /** Notifying all threads asleep in `wait()`. */
  function WakeWaiters(pc: map<Tid, Pc>): map<Tid, Pc> {
    map t | t in pc :: if pc[t].WaitAsleep? then WaitSignalled else pc[t]
  }

  /** Notifying all threads asleep on either condition variable. */
  function WakeAll(pc: map<Tid, Pc>): map<Tid, Pc> {
    map t | t in pc ::
      if pc[t].PopAsleep? then PopSignalled
      else if pc[t].WaitAsleep? then WaitSignalled
      else pc[t]
  }

  function DeleteAll(queue: seq<Task>): seq<Removal> {
    seq(|queue|, i requires 0 <= i < |queue| => Deleted(queue[i]))
  }

  function TasksOf(rs: seq<Removal>): (ts: seq<Task>)
    ensures |ts| == |rs|
  {
    seq(|rs|, i requires 0 <= i < |rs| => rs[i].task)
  }

  // ----- entering a method: its first, unlocked, access to the flag -----

  function BeginStep(s: State, t: Tid, call: Call): Outcome
    requires t in s.pc
  {
    match call
    case CallPush(v) =>
      if s.stopping then Outcome(s, PushReturned(false)) else Outcome(Move(s, t, PushLock(v)), NoReturn)
    case CallWaitPop =>
      if s.stopping then Outcome(s, PopReturned(None)) else Outcome(Move(s, t, PopLock), NoReturn)
    case CallTsPop =>
      if s.stopping then Outcome(s, PopReturned(None)) else Outcome(Move(s, t, TryLock), NoReturn)
    case CallWait =>
      if s.stopping then Outcome(s, WaitReturned) else Outcome(Move(s, t, WaitLock), NoReturn)
    case CallStop =>
      Outcome(Move(s, t, StopNotify).(stopping := true), NoReturn)
    case CallStopProcessing =>
      Outcome(Move(s, t, FlushNotify).(stopping := true), NoReturn)
  }

  // ----- steps inside a method -----

  function PushLockStep(s: State, t: Tid): Outcome
    requires t in s.pc && s.pc[t].PushLock?
  {
    if s.stopping then Outcome(Move(s, t, Idle), PushReturned(false))
    else Outcome(Move(s, t, PushCommit(s.pc[t].val)).(holder := Some(t)), NoReturn)
  }

  function PushCommitStep(s: State, t: Tid, wake: Tid): Outcome
    requires t in s.pc && s.pc[t].PushCommit?
    requires PopSleepers(s.pc) != {} ==> wake in PopSleepers(s.pc)
  {
    var v := s.pc[t].val;
    var idle := s.pc[t := Idle];
    var woken := if PopSleepers(s.pc) == {} then idle else idle[wake := PopSignalled];
    Outcome(s.(queue := s.queue + [v], accepted := s.accepted + [v], holder := None, pc := woken),
            PushReturned(true))
  }

  /** `wait_pop` with the mutex just taken, either on entry or after `push_.wait`. */
  function PopLockStep(s: State, t: Tid): Outcome
    requires t in s.pc
  {
    if s.stopping then Outcome(Move(s, t, Idle), PopReturned(None))
    else Outcome(Move(s, t, PopTest).(holder := Some(t)), NoReturn)
  }

  /** Taking the front element, and notifying the waiters if it was the last one. */
  function TakeFront(s: State, t: Tid): Outcome
    requires t in s.pc && s.queue != []
  {
    var rest := s.queue[1..];
    var idle := s.pc[t := Idle];
    Outcome(s.(queue := rest, removed := s.removed + [Popped(s.queue[0])], holder := None,
               pc := if rest == [] then WakeWaiters(idle) else idle),
            PopReturned(Some(s.queue[0])))
  }

  function PopTestStep(s: State, t: Tid): Outcome
    requires t in s.pc
  {
    if s.queue == [] then Outcome(Move(s, t, PopAsleep).(holder := None), NoReturn)
    else TakeFront(s, t)
  }

  function TryLockStep(s: State, t: Tid): Outcome
    requires t in s.pc
  {
    if s.stopping then Outcome(Move(s, t, Idle), PopReturned(None))
    else Outcome(Move(s, t, TryTest).(holder := Some(t)), NoReturn)
  }

  function TryTestStep(s: State, t: Tid): Outcome
    requires t in s.pc
  {
    if s.queue == [] then Outcome(Move(s, t, Idle).(holder := None), PopReturned(None))
    else TakeFront(s, t)
  }

  /** `wait` with the mutex just taken: its checks of the flag and of the list. */
  function WaitLockStep(s: State, t: Tid): Outcome
    requires t in s.pc
  {
    if s.stopping || s.queue == [] then Outcome(Move(s, t, Idle), WaitReturned)
    else Outcome(Move(s, t, WaitSleep).(holder := Some(t)), NoReturn)
  }

  function WaitSleepStep(s: State, t: Tid): Outcome
    requires t in s.pc
  {
    Outcome(Move(s, t, WaitAsleep).(holder := None), NoReturn)
  }

  function StopNotifyStep(s: State, t: Tid): Outcome
    requires t in s.pc
  {
    Outcome(s.(pc := WakeAll(s.pc[t := Idle]), stopReturned := true), StopReturned)
  }

  function FlushNotifyStep(s: State, t: Tid): Outcome
    requires t in s.pc
  {
    Outcome(s.(pc := WakeAll(s.pc[t := Idle]), stopReturned := true,
               removed := s.removed + DeleteAll(s.queue), queue := []),
            StopReturned)
  }

  function AdvanceStep(s: State, t: Tid, wake: Tid): Outcome
    requires Enabled(s, Advance(t, wake))
  {
    match s.pc[t]
    case PushLock(_) => PushLockStep(s, t)
    case PushCommit(_) => PushCommitStep(s, t, wake)
    case PopLock => PopLockStep(s, t)
    case PopSignalled => PopLockStep(s, t)
    case PopTest => PopTestStep(s, t)
    case TryLock => TryLockStep(s, t)
    case TryTest => TryTestStep(s, t)
    case WaitLock => WaitLockStep(s, t)
    case WaitSignalled => WaitLockStep(s, t)
    case WaitSleep => WaitSleepStep(s, t)
    case StopNotify => StopNotifyStep(s, t)
    case FlushNotify => FlushNotifyStep(s, t)
  }

  function SpuriousStep(s: State, t: Tid): Outcome
    requires t in s.pc && Asleep(s.pc[t])
  {
    Outcome(Move(s, t, if s.pc[t].PopAsleep? then PopSignalled else WaitSignalled), NoReturn)
  }

  function Step(s: State, a: Action): Outcome
    requires Enabled(s, a)
  {
    match a
    case Begin(t, call) => BeginStep(s, t, call)
    case Advance(t, wake) => AdvanceStep(s, t, wake)
    case Spurious(t) => SpuriousStep(s, t)
  }

  // ----- runs -----

  ghost predicate Feasible(s: State, run: seq<Action>)
    decreases |run|
  {
    run == [] || (Enabled(s, run[0]) && Feasible(Step(s, run[0]).state, run[1..]))
  }

  ghost function After(s: State, run: seq<Action>): State
    requires Feasible(s, run)
    decreases |run|
  {
    if run == [] then s else After(Step(s, run[0]).state, run[1..])
  }
}
