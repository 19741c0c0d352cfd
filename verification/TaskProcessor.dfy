/** The worker pool of sources/task_processor/task_processor.h as a transition system: threads
    0 .. workers-1 run `processing`, every other thread is a client that may call `add_task`,
    `wait`, `stop` and the destructor, any number of times and in any interleaving.

    The pool's queue is the machine of module TsQueue; a pool step either moves one thread inside a
    queue method, or touches the pool's own fields.  A region under the pool's mutex `wait_` is a
    single step, since everything it reads and writes is guarded by that mutex. */
module TaskProcessor {
  import opened Common
  import Q = TsQueue

  type Tid = Q.Tid
  type Task = Q.Task

  datatype Pc =
    // workers: in `wait_pop`; between it and `++working_threads_`; before and after the task's body; gone
    | Fetch
    | Got(task: Task)
    | Counted(task: Task)
    | Ran(task: Task)
    | Exited
    // clients: `add_task` before and inside `push`
    | Free
    | Adding(task: Task)
    | Pushing(task: Task)
    // `wait`: inside the queue's wait; at the test of `working_threads_`; asleep on `wait_condition_`
    | WaitQueue(mark: nat)
    | WaitCount(mark: nat)
    | CountAsleep(mark: nat)
    // `stop`, called by itself or by the destructor
    | StopFlagged(destroy: bool)
    | StopWait(destroy: bool)
    | StopCall(destroy: bool)
    | StopQueue(destroy: bool)
    // the rest of the destructor: `join_all`, then the queue's own destructor
    | Joining
    | TearDown
    | Destroyed

  /** `created`, `rejected`, `ran`, `finished` and `lateAdds` are history: the tasks handed to
      `add_task`, those it refused, the tasks whose body has run, those also counted out again, and
      whether some `add_task` was between its check of the pool's flag and its push when a stop first
      set that flag. */
  datatype State = State(
    q: Q.State,
    workers: nat,
    processOnStop: bool,
    stopping: bool,
    working: int,
    pc: map<Tid, Pc>,
    created: set<Task>,
    rejected: set<Task>,
    ran: seq<Task>,
    finished: seq<Task>,
    lateAdds: bool)

  datatype Action =
    | AddTask(t: Tid, task: Task)
    | AddPush(t: Tid)
    | CallWait(t: Tid)
    | CallStop(t: Tid, destroy: bool)
    | StopBeginWait(t: Tid)
    | StopBeginStop(t: Tid)
    | FetchBegin(t: Tid)
    | InQueue(t: Tid, wake: Tid)
    | QueueSpurious(t: Tid)
    | CountIn(t: Tid)
    | RunBody(t: Tid)
    | CountOut(t: Tid)
    | TestCount(t: Tid)
    | CountSpurious(t: Tid)
    | Join(t: Tid)

  function Init(workers: nat, processOnStop: bool, clients: set<Tid>): State {
    var threads := Below(workers) + clients;
    State(Q.Init(threads), workers, processOnStop, false, 0,
          map t | t in threads :: if t < workers then Fetch else Free,
          {}, {}, [], [], false)
  }

  predicate AddInFlight(p: Pc) {
    p.Adding? || p.Pushing?
  }

  predicate HasTask(p: Pc) {
    p.Got? || p.Counted? || p.Ran?
  }

  /** Between `++working_threads_` and `--working_threads_`. */
  predicate InCount(p: Pc) {
    p.Counted? || p.Ran?
  }

  predicate AllExited(s: State) {
    forall w :: w in s.pc && w < s.workers ==> s.pc[w].Exited?
  }

  /** The threads of the pool counted in `working_threads_`. */
  function CountedSet(pc: map<Tid, Pc>): set<Tid> {
    set t | t in pc && InCount(pc[t])
  }

  /** The tasks workers hold, by worker. */
  function Held(pc: map<Tid, Pc>): map<Tid, Task> {
    map t | t in pc && HasTask(pc[t]) :: pc[t].task
  }

  /** The clients past `add_task`'s check of the pool's flag that have not passed the queue's check
      under the mutex yet. */
  function LateAdds(pc: map<Tid, Pc>, qpc: map<Tid, Q.Pc>): set<Tid> {
    set t | t in pc && t in qpc && AddInFlight(pc[t]) && !qpc[t].PushCommit?
  }

  /** The tasks inside `add_task`, by client. */
  function InFlight(pc: map<Tid, Pc>): map<Tid, Task> {
    map t | t in pc && AddInFlight(pc[t]) :: pc[t].task
  }

  predicate Enabled(s: State, a: Action) {
    a.t in s.pc && a.t in s.q.pc &&
    match a
    case AddTask(t, x) => s.pc[t].Free? && x !in s.created
    case AddPush(t) => s.pc[t].Adding?
    case CallWait(t) => s.pc[t].Free?
    case CallStop(t, destroy) => s.pc[t].Free?
    case StopBeginWait(t) => s.pc[t].StopFlagged?
    case StopBeginStop(t) => s.pc[t].StopCall?
    case FetchBegin(t) => s.pc[t].Fetch? && s.q.pc[t].Idle?
    case InQueue(t, wake) => !s.q.pc[t].Idle? && Q.Enabled(s.q, Q.Advance(t, wake))
    case QueueSpurious(t) => Q.Enabled(s.q, Q.Spurious(t))
    case CountIn(t) => s.pc[t].Got?
    case RunBody(t) => s.pc[t].Counted?
    case CountOut(t) => s.pc[t].Ran?
    case TestCount(t) => s.pc[t].WaitCount?
    case CountSpurious(t) => s.pc[t].CountAsleep?
    case Join(t) => s.pc[t].Joining? && AllExited(s)
  }

  /** Where a thread continues once its queue method has returned. */
  function Resume(p: Pc, e: Q.Event): Pc {
    match p
    case Fetch => if e.PopReturned? && e.task.Some? then Got(e.task.value) else Exited
    case Pushing(_) => Free
    case WaitQueue(mark) => WaitCount(mark)
    case StopWait(destroy) => StopCall(destroy)
    case StopQueue(destroy) => if destroy then Joining else Free
    case TearDown => Destroyed
    case _ => p
  }

  /** A queue step of thread t, which is (or is from now on) at `inside` while the method runs. */
  function QueueStep(s: State, t: Tid, inside: Pc, o: Q.Outcome): State {
    var p := if o.event.NoReturn? then inside else Resume(inside, o.event);
    s.(q := o.state,
       pc := s.pc[t := p],
       rejected := if inside.Pushing? && o.event == Q.PushReturned(false) then s.rejected + {inside.task}
                   else s.rejected)
  }

  function Move(s: State, t: Tid, p: Pc): State {
    s.(pc := s.pc[t := p])
  }

  function WakeCounters(pc: map<Tid, Pc>): map<Tid, Pc> {
    map t | t in pc :: if pc[t].CountAsleep? then WaitCount(pc[t].mark) else pc[t]
  }

  function AddTaskStep(s: State, t: Tid, x: Task): State {
    if s.stopping then s.(created := s.created + {x}, rejected := s.rejected + {x})
    else Move(s, t, Adding(x)).(created := s.created + {x})
  }

  function CallStopStep(s: State, t: Tid, destroy: bool): State {
    if s.processOnStop then
      Move(s, t, StopFlagged(destroy)).(
        stopping := true,
        lateAdds := s.lateAdds || (!s.stopping && LateAdds(s.pc, s.q.pc) != {}))
    else Move(s, t, StopCall(destroy))
  }

  function CountOutStep(s: State, t: Tid): State
    requires t in s.pc && s.pc[t].Ran?
  {
    var s' := Move(s, t, Fetch).(working := s.working - 1, finished := s.finished + [s.pc[t].task]);
    if s'.working == 0 then s'.(pc := WakeCounters(s'.pc)) else s'
  }

  function Step(s: State, a: Action): State
    requires Enabled(s, a)
  {
    match a
    case AddTask(t, x) => AddTaskStep(s, t, x)
    case AddPush(t) => QueueStep(s, t, Pushing(s.pc[t].task), Q.BeginStep(s.q, t, Q.CallPush(s.pc[t].task)))
    case CallWait(t) => QueueStep(s, t, WaitQueue(|s.q.accepted|), Q.BeginStep(s.q, t, Q.CallWait))
    case CallStop(t, destroy) => CallStopStep(s, t, destroy)
    case StopBeginWait(t) => QueueStep(s, t, StopWait(s.pc[t].destroy), Q.BeginStep(s.q, t, Q.CallWait))
    case StopBeginStop(t) => QueueStep(s, t, StopQueue(s.pc[t].destroy), Q.BeginStep(s.q, t, Q.CallStop))
    case FetchBegin(t) => QueueStep(s, t, Fetch, Q.BeginStep(s.q, t, Q.CallWaitPop))
    case InQueue(t, wake) => QueueStep(s, t, s.pc[t], Q.AdvanceStep(s.q, t, wake))
    case QueueSpurious(t) => QueueStep(s, t, s.pc[t], Q.SpuriousStep(s.q, t))
    case CountIn(t) => Move(s, t, Counted(s.pc[t].task)).(working := s.working + 1)
    case RunBody(t) => Move(s, t, Ran(s.pc[t].task)).(ran := s.ran + [s.pc[t].task])
    case CountOut(t) => CountOutStep(s, t)
    case TestCount(t) => Move(s, t, if s.working != 0 then CountAsleep(s.pc[t].mark) else Free)
    case CountSpurious(t) => Move(s, t, WaitCount(s.pc[t].mark))
    case Join(t) => QueueStep(s, t, TearDown, Q.BeginStep(s.q, t, Q.CallStopProcessing))
  }

  ghost predicate Feasible(s: State, run: seq<Action>)
    decreases |run|
  {
    run == [] || (Enabled(s, run[0]) && Feasible(Step(s, run[0]), run[1..]))
  }

  ghost function After(s: State, run: seq<Action>): State
    requires Feasible(s, run)
    decreases |run|
  {
    if run == [] then s else After(Step(s, run[0]), run[1..])
  }
}
