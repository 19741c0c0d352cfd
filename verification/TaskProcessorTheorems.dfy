/** What holds of every run of the pool, for any number of workers and clients and any interleaving. */
module TaskProcessorTheorems {
  import opened Common
  import Q = TsQueue
  import QI = TsQueueInvariant
  import QT = TsQueueTheorems
  import opened TaskProcessor
  import opened TaskProcessorQueue
  import opened TaskProcessorInvariant

  lemma {:induction false} RunKeepsInvariant(s: State, run: seq<Action>)
    requires Invariant(s) && Feasible(s, run)
    ensures Invariant(After(s, run))
    ensures After(s, run).workers == s.workers && After(s, run).processOnStop == s.processOnStop
    decreases |run|
  {
    if run == [] {
    } else {
      StepKeepsInvariant(s, run[0]);
      StepKeepsSettings(s, run[0]);
      RunKeepsInvariant(Step(s, run[0]), run[1..]);
    }
  }

  lemma StepKeepsSettings(s: State, a: Action)
    requires Enabled(s, a)
    ensures Step(s, a).workers == s.workers && Step(s, a).processOnStop == s.processOnStop
  {
  }

  ghost predicate Reached(s: State, workers: nat, processOnStop: bool, clients: set<Tid>, run: seq<Action>) {
    Feasible(Init(workers, processOnStop, clients), run) && s == After(Init(workers, processOnStop, clients), run)
  }

  lemma ReachedHolds(s: State, workers: nat, processOnStop: bool, clients: set<Tid>, run: seq<Action>)
    requires Reached(s, workers, processOnStop, clients, run)
    ensures Invariant(s) && s.workers == workers && s.processOnStop == processOnStop
  {
    InitHolds(workers, processOnStop, clients);
    RunKeepsInvariant(Init(workers, processOnStop, clients), run);
  }

  // ----- exact accounting -----

  ghost predicate HeldUncounted(s: State, x: Task) {
    exists w :: w in s.pc && s.pc[w] == Got(x)
  }

  ghost predicate HeldCounted(s: State, x: Task) {
    exists w :: w in s.pc && InCount(s.pc[w]) && s.pc[w].task == x
  }

  function Bit(b: bool): nat {
    if b then 1 else 0
  }

  /** In how many of the five places an accepted task can be it is. */
  ghost function Places(s: State, x: Task): nat {
    Bit(x in s.q.queue) + Bit(HeldUncounted(s, x)) + Bit(HeldCounted(s, x)) + Bit(x in s.finished)
    + Bit(Q.Deleted(x) in s.q.removed)
  }

  lemma AcceptedParts(s: State, x: Task)
    requires Invariant(s)
    ensures x in s.q.accepted <==> x in s.q.queue || Q.Popped(x) in s.q.removed || Q.Deleted(x) in s.q.removed
    ensures Bit(x in s.q.queue) + Bit(Q.Popped(x) in s.q.removed) + Bit(Q.Deleted(x) in s.q.removed) <= 1
  {
    QT.SplitNoDup(s.q.accepted, Q.TasksOf(s.q.removed), s.q.queue, x);
    QT.RemovalOf(s.q.removed, x);
  }

  /** A popped task is with one worker, uncounted or counted, or finished. */
  lemma PoppedParts(s: State, x: Task)
    requires Custody(s)
    ensures Bit(HeldUncounted(s, x)) + Bit(HeldCounted(s, x)) + Bit(x in s.finished) == Bit(Q.Popped(x) in s.q.removed)
  {
    if Q.Popped(x) in s.q.removed && x !in s.finished {
      var w :| w in s.pc && HasTask(s.pc[w]) && s.pc[w].task == x;
      assert s.pc[w] == Got(x) || InCount(s.pc[w]);
    }
  }

  /** Every accepted task is in exactly one place: queued, popped and not counted, counted, finished,
      or deleted with the queue; other tasks are in none, and no two workers hold the same task. */
  lemma ExactAccounting(s: State, workers: nat, processOnStop: bool, clients: set<Tid>, run: seq<Action>, x: Task)
    requires Reached(s, workers, processOnStop, clients, run)
    ensures Places(s, x) == Bit(x in s.q.accepted)
    ensures forall w, u :: w in Held(s.pc) && u in Held(s.pc) && Held(s.pc)[w] == Held(s.pc)[u] ==> w == u
  {
    ReachedHolds(s, workers, processOnStop, clients, run);
    AcceptedParts(s, x);
    PoppedParts(s, x);
  }

  /** Every task handed to `add_task` is accepted, refused, or still inside the call, and only one of these. */
  lemma EveryAddAnswered(s: State, workers: nat, processOnStop: bool, clients: set<Tid>, run: seq<Action>, x: Task)
    requires Reached(s, workers, processOnStop, clients, run)
    ensures Bit(x in s.q.accepted) + Bit(x in s.rejected) + Bit(x in InFlight(s.pc).Values) == Bit(x in s.created)
  {
    ReachedHolds(s, workers, processOnStop, clients, run);
    if x in InFlight(s.pc).Values {
      var t :| t in InFlight(s.pc) && InFlight(s.pc)[t] == x;
      assert t in s.pc && AddInFlight(s.pc[t]);
    }
    if x in s.created && x !in s.q.accepted && x !in s.rejected {
      var t :| t in s.pc && AddInFlight(s.pc[t]) && s.pc[t].task == x;
      assert t in InFlight(s.pc) && InFlight(s.pc)[t] == x;
    }
  }

  /** `working_threads_` counts the workers between the two locked blocks, is positive at every
      decrement, and is not zero while anybody sleeps on `wait_condition_`. */
  lemma CounterExact(s: State, workers: nat, processOnStop: bool, clients: set<Tid>, run: seq<Action>)
    requires Reached(s, workers, processOnStop, clients, run)
    ensures s.working == |CountedSet(s.pc)| && 0 <= s.working <= workers
    ensures forall t :: t in s.pc && s.pc[t].Ran? ==> s.working >= 1
    ensures forall t :: t in s.pc && s.pc[t].CountAsleep? ==> s.working >= 1
  {
    ReachedHolds(s, workers, processOnStop, clients, run);
    forall t | t in CountedSet(s.pc) ensures t in Below(workers) {
      assert Agree(s.workers, t, s.pc[t], s.q.pc[t]);
    }
    SubsetSize(CountedSet(s.pc), Below(workers));
    forall t | t in s.pc && s.pc[t].Ran? ensures s.working >= 1 {
      assert t in CountedSet(s.pc);
    }
  }

  // ----- what `wait` guarantees -----

  /** Inside the pool's `wait`: in the queue's wait, or in the loop on the counter. */
  predicate InWaitCall(p: Pc) {
    p.WaitQueue? || p.WaitCount? || p.CountAsleep?
  }

  /** Thread t is inside one call of `wait` all along the run. */
  ghost predicate Waiting(s: State, run: seq<Action>, t: Tid)
    requires Feasible(s, run)
    decreases |run|
  {
    t in s.pc && InWaitCall(s.pc[t]) && (run != [] ==> Waiting(Step(s, run[0]), run[1..], t))
  }

  /** The tasks among those given that are not finished. */
  ghost function Unfinished(s: State, tasks: seq<Task>): set<Task> {
    set x | x in tasks && x !in s.finished
  }

  lemma HeldByWorkers(s: State)
    requires Shape(s)
    ensures Held(s.pc).Keys <= Below(s.workers)
  {
    forall t | t in Held(s.pc) ensures t in Below(s.workers) {
      assert Agree(s.workers, t, s.pc[t], s.q.pc[t]);
    }
  }

  lemma UnstoppedAllPopped(s: State, i: nat)
    requires QI.Conserved(s.q) && Deletions(s) && !s.q.stopping && i < |s.q.removed|
    ensures i < |s.q.accepted| && Q.Popped(s.q.accepted[i]) in s.q.removed
  {
    assert s.q.accepted[i] == Q.TasksOf(s.q.removed)[i] == s.q.removed[i].task;
    assert s.q.removed[i].Popped?;
    assert s.q.removed[i] in s.q.removed;
  }

  /** The tasks are each finished or held by a worker that has not counted itself. */
  ghost predicate WaitedFor(s: State, tasks: seq<Task>) {
    forall x :: x in tasks ==> x in s.finished || HeldUncounted(s, x)
  }

  lemma PoppedAreWaitedFor(s: State, tasks: seq<Task>)
    requires QI.Conserved(s.q) && Deletions(s) && Custody(s)
    requires !s.q.stopping && |tasks| <= |s.q.removed| && tasks <= s.q.accepted && CountedSet(s.pc) == {}
    ensures WaitedFor(s, tasks)
  {
    forall x | x in tasks && x !in s.finished ensures HeldUncounted(s, x) {
      var i :| 0 <= i < |tasks| && tasks[i] == x;
      UnstoppedAllPopped(s, i);
      var w :| w in s.pc && HasTask(s.pc[w]) && s.pc[w].task == x;
      assert w !in CountedSet(s.pc);
      assert s.pc[w] == Got(x);
    }
  }

  lemma WaitedForFew(s: State, tasks: seq<Task>)
    requires Shape(s) && WaitedFor(s, tasks)
    ensures |Unfinished(s, tasks)| <= s.workers
  {
    forall x | x in Unfinished(s, tasks) ensures x in Held(s.pc).Values {
      var w :| w in s.pc && s.pc[w] == Got(x);
      assert w in Held(s.pc) && Held(s.pc)[w] == x;
    }
    CoveredSize(Unfinished(s, tasks), Held(s.pc));
    HeldByWorkers(s);
    SubsetSize(Held(s.pc).Keys, Below(s.workers));
  }

  /** A thread leaves `wait` only by its own test of the counter, and only if that is zero. */
  lemma LeavesAtZero(s: State, a: Action, t: Tid)
    requires Base(s) && Enabled(s, a) && t in s.pc && InWaitCall(s.pc[t])
    ensures t in Step(s, a).pc
    ensures if InWaitCall(Step(s, a).pc[t]) then Step(s, a).pc[t].mark == s.pc[t].mark
            else a == TestCount(t) && s.pc[t].WaitCount? && s.working == 0
    ensures s.q.accepted <= Step(s, a).q.accepted
  {
    hide Step, Q.Step, Enabled, Inside, Base;
    if QueueAction(s, a).Some? {
      QueueStepIsMove(s, a);
      InsideOrigin(s, a);
    } else {
      LocalStepEffect(s, a);
      OnlyTestLeaves(s, a);
    }
  }

  lemma OnlyTestLeaves(s: State, a: Action)
    requires Enabled(s, a) && QueueAction(s, a).None?
    ensures a.t in s.pc && (s.pc[a.t].WaitCount? ==> a == TestCount(a.t))
  {
  }

  /** The call of `wait` notes how many tasks have been accepted. */
  lemma WaitEnters(s: State, t: Tid)
    requires Base(s) && Enabled(s, CallWait(t))
    ensures var s1 := Step(s, CallWait(t));
      t in s1.pc && InWaitCall(s1.pc[t]) && s1.pc[t].mark == |s.q.accepted| && s.q.accepted <= s1.q.accepted
  {
    hide Step, Q.Step, Enabled, Base;
    QueueStepIsMove(s, CallWait(t));
  }

  lemma {:induction false} WaitingKeepsMark(s: State, run: seq<Action>, t: Tid)
    requires Invariant(s) && Feasible(s, run) && Waiting(s, run, t)
    ensures var e := After(s, run);
      && Invariant(e) && e.workers == s.workers
      && t in e.pc && InWaitCall(e.pc[t]) && e.pc[t].mark == s.pc[t].mark
      && s.q.accepted <= e.q.accepted
    decreases |run|
  {
    hide Invariant, Enabled, Step, InWaitCall;
    if run != [] {
      BaseOf(s);
      LeavesAtZero(s, run[0], t);
      StepKeepsInvariant(s, run[0]);
      StepKeepsSettings(s, run[0]);
      WaitingKeepsMark(Step(s, run[0]), run[1..], t);
    }
  }

  /** Let thread t call `wait` in state s and leave it, by whatever step, in a state e in which nobody has stopped
      the queue.  Then every task accepted before the call is finished in e or held by a worker that has popped
      it and not counted itself yet; so at most `workers` of them are unfinished. */
  lemma WaitGuarantee(s: State, workers: nat, processOnStop: bool, clients: set<Tid>, before: seq<Action>,
                      t: Tid, during: seq<Action>, a: Action)
    requires Reached(s, workers, processOnStop, clients, before) && Enabled(s, CallWait(t))
    requires Feasible(Step(s, CallWait(t)), during) && Waiting(Step(s, CallWait(t)), during, t)
    requires var e := After(Step(s, CallWait(t)), during);
      && !e.q.stopping && Enabled(e, a)
      && t in Step(e, a).pc && !InWaitCall(Step(e, a).pc[t])
    ensures var e := After(Step(s, CallWait(t)), during);
      && e.working == 0
      && (forall x :: x in s.q.accepted ==> x in e.finished || HeldUncounted(e, x))
      && |Unfinished(e, s.q.accepted)| <= workers
  {
    hide Invariant, Enabled, Step, InWaitCall, Unfinished, Waiting;
    ReachedHolds(s, workers, processOnStop, clients, before);
    BaseOf(s);
    var s1 := Step(s, CallWait(t));
    WaitEnters(s, t);
    StepKeepsInvariant(s, CallWait(t));
    StepKeepsSettings(s, CallWait(t));
    WaitingKeepsMark(s1, during, t);
    var e := After(s1, during);
    BaseOf(e);
    LeavesAtZero(e, a, t);
    WaitFinished(e, t, s.q.accepted);
  }

  lemma WaitFinished(s: State, t: Tid, tasks: seq<Task>)
    requires Invariant(s) && t in s.pc && s.pc[t].WaitCount? && s.working == 0 && !s.q.stopping
    requires s.pc[t].mark == |tasks| && tasks <= s.q.accepted
    ensures WaitedFor(s, tasks) && |Unfinished(s, tasks)| <= s.workers
  {
    hide Draining, Flagged, Fresh, Traced, RunOnce, Owing, Deletions, Ending, Custody;
    assert CountedSet(s.pc) == {};
    PoppedAreWaitedFor(s, tasks);
    WaitedForFew(s, tasks);
  }

  /** A thread asleep on `wait_condition_` is woken, spurious wakeups aside, only by the worker that brings the counter
      to zero. */
  lemma WokenAtZero(s: State, a: Action, u: Tid)
    requires Base(s) && Enabled(s, a) && u in s.pc && s.pc[u].CountAsleep? && !a.CountSpurious?
    ensures u in Step(s, a).pc
    ensures !Step(s, a).pc[u].CountAsleep? ==> a.CountOut? && Step(s, a).working == 0
  {
    hide Step, Q.Step, Enabled, Inside, Base;
    if QueueAction(s, a).Some? {
      QueueStepIsMove(s, a);
      InsideOrigin(s, a);
    } else {
      LocalStepEffect(s, a);
      LocalActor(s, a);
    }
  }

  lemma LocalActor(s: State, a: Action)
    requires Enabled(s, a) && QueueAction(s, a).None?
    ensures a.t in s.pc && (s.pc[a.t].Ran? ==> a.CountOut?) && (s.pc[a.t].CountAsleep? ==> a.CountSpurious?)
  {
  }

  /** And with the counter at zero it does leave. */
  lemma ZeroLeaves(s: State, t: Tid)
    requires Base(s) && t in s.pc && s.pc[t].WaitCount? && s.working == 0
    ensures Enabled(s, TestCount(t)) && t in Step(s, TestCount(t)).pc && Step(s, TestCount(t)).pc[t] == Free
  {
    hide QI.Invariant;
  }

  // ----- stopping with `process_on_stop` -----

  /** In process-on-stop mode, if no `add_task` was between its check and its push when a stop first set
      the flag, then once `join_all` has returned every accepted task has been run exactly once and
      finished, nothing is left in the queue and nothing is ever deleted. */
  lemma DestructorRunsEverything(s: State, workers: nat, clients: set<Tid>, run: seq<Action>, d: Tid)
    requires Reached(s, workers, true, clients, run)
    requires d in s.pc && Joined(s.pc[d]) && !s.lateAdds
    ensures NoDup(s.ran) && |s.ran| == |s.q.accepted|
    ensures forall x :: x in s.q.accepted <==> x in s.ran
    ensures forall x :: x in s.ran <==> x in s.finished
    ensures s.q.queue == [] && forall x :: Q.Deleted(x) !in s.q.removed
  {
    hide Traced, Marks, Counting, Owing, Base;
    ReachedHolds(s, workers, true, clients, run);
    JoinedRanEverything(s, d);
    SameElements(s.ran, s.q.accepted);
  }

  lemma JoinedRanEverything(s: State, d: Tid)
    requires Invariant(s) && s.processOnStop && d in s.pc && Joined(s.pc[d]) && !s.lateAdds
    ensures forall x :: x in s.q.accepted <==> x in s.ran
    ensures forall x :: x in s.ran <==> x in s.finished
    ensures s.q.queue == [] && forall x :: Q.Deleted(x) !in s.q.removed
  {
    hide Traced, Marks, Counting, Owing, Base;
    NothingHeld(s);
    forall x ensures x in s.q.accepted <==> x in s.ran {
      AcceptedParts(s, x);
    }
  }

  lemma NothingHeld(s: State)
    requires Invariant(s) && AllExited(s)
    ensures forall x :: !Holds(s, x)
  {
    forall w | w in s.pc ensures !HasTask(s.pc[w]) {
      assert Agree(s.workers, w, s.pc[w], s.q.pc[w]);
    }
  }

  /** In either mode, once `join_all` has returned the accepted tasks are exactly those that ran (each
      once) and those left for the queue's destructor. */
  lemma DestructorSplits(s: State, workers: nat, processOnStop: bool, clients: set<Tid>, run: seq<Action>,
                         d: Tid, x: Task)
    requires Reached(s, workers, processOnStop, clients, run)
    requires d in s.pc && Joined(s.pc[d])
    ensures NoDup(s.ran)
    ensures Bit(x in s.ran) + Bit(x in s.q.queue) + Bit(Q.Deleted(x) in s.q.removed) == Bit(x in s.q.accepted)
  {
    ReachedHolds(s, workers, processOnStop, clients, run);
    NothingHeld(s);
    AcceptedParts(s, x);
  }

  lemma {:induction false} SameElements<T>(a: seq<T>, b: seq<T>)
    requires NoDup(a) && NoDup(b) && forall x :: x in a <==> x in b
    ensures |a| == |b|
  {
    SeqSetSize(a);
    SeqSetSize(b);
    assert (set x | x in a) == (set x | x in b);
  }

  lemma {:induction false} SeqSetSize<T>(a: seq<T>)
    requires NoDup(a)
    ensures |set x | x in a| == |a|
    decreases |a|
  {
    if a == [] {
      assert (set x | x in a) == {};
    } else {
      var l := a[..|a| - 1];
      SeqSetSize(l);
      assert a == l + [a[|a| - 1]];
      assert (set x | x in a) == (set x | x in l) + {a[|a| - 1]};
    }
  }

  // ----- work never stalls before a stop -----

  /** A step of a worker that is not asleep. */
  predicate WorkerStep(s: State, a: Action) {
    a.t < s.workers && a.t in s.q.pc && !Q.Asleep(s.q.pc[a.t]) && !a.QueueSpurious? && !a.CountSpurious?
  }

  /** A step of the thread that holds the queue's mutex. */
  predicate HolderStep(s: State, a: Action) {
    a.InQueue? && s.q.holder == Some(a.t)
  }

  /** The step in which a stop call gives the notify it owes. */
  predicate NotifyStep(s: State, a: Action) {
    a.InQueue? && a.t in s.q.pc && QI.OwesNotify(s.q.pc[a.t])
  }

  /** With at least one worker and a non-empty queue before the queue is stopped, some worker is awake and can
      move unless the queue's mutex is held, and then its holder can. */
  lemma NonEmptyQueueMoves(s: State, workers: nat, processOnStop: bool, clients: set<Tid>, run: seq<Action>)
    requires Reached(s, workers, processOnStop, clients, run)
    requires workers > 0 && s.q.queue != [] && !s.q.stopping
    ensures exists a :: Enabled(s, a) && (if s.q.holder == None then WorkerStep(s, a) else HolderStep(s, a))
  {
    hide Enabled, WorkerStep, HolderStep;
    ReachedHolds(s, workers, processOnStop, clients, run);
    var a := MovingAction(s);
  }

  lemma MovingAction(s: State) returns (a: Action)
    requires Base(s) && Ending(s) && s.workers > 0 && s.q.queue != [] && !s.q.stopping
    ensures Enabled(s, a)
    ensures if s.q.holder == None then WorkerStep(s, a) else HolderStep(s, a)
  {
    hide Enabled, Ending, WorkerStep;
    if s.q.holder.Some? {
      a := HolderAction(s);
    } else {
      assert 0 in Below(s.workers);
      var w := AwakeWorker(s);
      WorkerMoves(s, w);
      a := WorkerAction(s, w);
    }
  }

  lemma SameThreads(s: State)
    requires Shape(s)
    ensures s.pc.Keys == s.q.pc.Keys
  {
  }

  lemma HolderAction(s: State) returns (a: Action)
    requires Base(s) && s.q.holder.Some?
    ensures a.InQueue? && s.q.holder == Some(a.t) && Enabled(s, a)
  {
    QT.HolderMoves(s.q);
    var t := s.q.holder.value;
    var wake :| Q.Enabled(s.q, Q.Advance(t, wake));
    a := InQueue(t, wake);
  }

  /** If worker 0 sleeps on a non-empty queue, another worker has been signalled. */
  lemma AwakeWorker(s: State) returns (w: Tid)
    requires Base(s) && Ending(s) && s.q.holder == None && s.q.queue != [] && !s.q.stopping
    requires s.workers > 0 && 0 in s.pc
    ensures w < s.workers && w in s.pc && !s.pc[w].Exited? && !Q.Asleep(s.q.pc[w])
  {
    hide Ending, Shape, QI.Invariant, Q.PopSleepers, Q.Signalled;
    w := 0;
    WorkerPlaces(s, 0);
    if s.q.pc[0].PopAsleep? {
      w := SignalledThread(s.q, 0);
      InWaitPopIsWorker(s, w);
    }
  }

  lemma SignalledThread(q: Q.State, t: Tid) returns (w: Tid)
    requires QI.Invariant(q) && q.holder == None && q.queue != [] && !q.stopping && t in q.pc && q.pc[t].PopAsleep?
    ensures w in q.pc && q.pc[w].PopSignalled?
  {
    assert t in Q.PopSleepers(q.pc);
    w :| w in Q.Signalled(q.pc);
  }

  lemma WorkerPlaces(s: State, w: Tid)
    requires Shape(s) && Ending(s) && !s.q.stopping && w < s.workers && w in s.pc
    ensures w in s.q.pc && !s.pc[w].Exited? && (Q.Asleep(s.q.pc[w]) ==> s.q.pc[w].PopAsleep?)
  {
    assert Agree(s.workers, w, s.pc[w], s.q.pc[w]);
  }

  lemma InWaitPopIsWorker(s: State, w: Tid)
    requires Shape(s) && w in s.q.pc && s.q.pc[w].PopSignalled?
    ensures w in s.pc && w < s.workers && s.pc[w].Fetch?
  {
    assert Agree(s.workers, w, s.pc[w], s.q.pc[w]);
  }

  function WorkerAction(s: State, w: Tid): Action
    requires w in s.pc && w in s.q.pc
  {
    match s.pc[w]
    case Got(_) => CountIn(w)
    case Counted(_) => RunBody(w)
    case Ran(_) => CountOut(w)
    case _ => if s.q.pc[w].Idle? then FetchBegin(w) else InQueue(w, w)
  }

  /** With the queue's mutex free, a worker that is neither asleep nor gone has a step. */
  lemma WorkerMoves(s: State, w: Tid)
    requires Shape(s) && QI.MutualExclusion(s.q) && s.q.holder == None
    requires w < s.workers && w in s.pc && !s.pc[w].Exited? && !Q.Asleep(s.q.pc[w])
    ensures Enabled(s, WorkerAction(s, w)) && WorkerStep(s, WorkerAction(s, w))
  {
    assert Agree(s.workers, w, s.pc[w], s.q.pc[w]);
    assert !Q.Holding(s.q.pc[w]);
  }

  /** Who sleeps in the queue's `wait` or on `wait_condition_` never waits for nobody: the mutex holder, a
      worker that is awake, or a stop call that owes its notify can move. */
  lemma WaitersNotStuck(s: State, workers: nat, processOnStop: bool, clients: set<Tid>, run: seq<Action>, t: Tid)
    requires Reached(s, workers, processOnStop, clients, run) && workers > 0
    requires t in s.pc && t in s.q.pc && (s.q.pc[t].WaitAsleep? || s.pc[t].CountAsleep?)
    ensures exists a :: Enabled(s, a) && a.t != t && (WorkerStep(s, a) || HolderStep(s, a) || NotifyStep(s, a))
  {
    hide Enabled, WorkerStep, HolderStep, NotifyStep;
    ReachedHolds(s, workers, processOnStop, clients, run);
    if s.pc[t].CountAsleep? {
      var a := CountedMoves(s, t);
    } else {
      var a := WaitedMoves(s, t);
    }
  }

  lemma CountedMoves(s: State, t: Tid) returns (a: Action)
    requires Counting(s) && Shape(s) && t in s.pc && s.pc[t].CountAsleep?
    ensures Enabled(s, a) && a.t != t && WorkerStep(s, a)
  {
    var u :| u in CountedSet(s.pc);
    assert Agree(s.workers, u, s.pc[u], s.q.pc[u]);
    a := if s.pc[u].Counted? then RunBody(u) else CountOut(u);
  }

  lemma WaitedMoves(s: State, t: Tid) returns (a: Action)
    requires Base(s) && Ending(s) && s.workers > 0 && t in s.pc && t in s.q.pc && s.q.pc[t].WaitAsleep?
    ensures Enabled(s, a) && a.t != t && (WorkerStep(s, a) || HolderStep(s, a) || NotifyStep(s, a))
  {
    hide Enabled, Ending, Shape, QI.Invariant;
    WaiterIsClient(s, t);
    if s.q.holder.Some? {
      a := HolderAction(s);
    } else if s.q.stopping {
      a := OwedAction(s, t);
    } else {
      a := MovingAction(s);
    }
  }

  lemma WaiterIsClient(s: State, t: Tid)
    requires Base(s) && t in s.pc && t in s.q.pc && s.q.pc[t].WaitAsleep?
    ensures t >= s.workers && s.q.holder != Some(t) && s.q.queue != []
  {
    assert Agree(s.workers, t, s.pc[t], s.q.pc[t]);
  }

  /** The stop call that owes the sleeper its notify can give it. */
  lemma OwedAction(s: State, t: Tid) returns (a: Action)
    requires Base(s) && s.q.stopping && s.q.holder == None && t in s.q.pc && s.q.pc[t].WaitAsleep?
    ensures Enabled(s, a) && a.t != t && NotifyStep(s, a)
  {
    hide Shape;
    assert t in QI.Committing(s.q);
    var u :| u in QI.Owing(s.q);
    a := InQueue(u, u);
    SameThreads(s);
  }

  // ----- shutdown terminates -----

  /** How many steps a worker has left once the queue's stop has returned. */
  function StepsLeft(p: Pc): nat {
    match p
    case Fetch => 1
    case Ran(_) => 2
    case Counted(_) => 3
    case Got(_) => 4
    case _ => 0
  }

  ghost function Rank(s: State, n: nat): nat {
    if n == 0 then 0 else Rank(s, n - 1) + (if n - 1 in s.pc then StepsLeft(s.pc[n - 1]) else 0)
  }

  lemma {:induction false} RankBound(s: State, n: nat)
    ensures Rank(s, n) <= 4 * n
  {
    if n > 0 {
      RankBound(s, n - 1);
    }
  }

  lemma NoStepsLeft(workers: nat, t: Tid, p: Pc, qp: Q.Pc)
    requires Agree(workers, t, p, qp) && t < workers
    ensures StepsLeft(p) == 0 <==> p.Exited?
  {
  }

  /** The rank is zero exactly when all workers are gone. */
  lemma {:induction false} RankZero(s: State, n: nat)
    requires Shape(s) && n <= s.workers
    ensures Rank(s, n) == 0 <==> forall w :: 0 <= w < n ==> w in s.pc && s.pc[w].Exited?
  {
    hide StepsLeft, Agree;
    if n > 0 {
      RankZero(s, n - 1);
      assert n - 1 in Below(s.workers);
      NoStepsLeft(s.workers, n - 1, s.pc[n - 1], s.q.pc[n - 1]);
    }
  }

  /** Changing one thread changes the rank by that thread's share. */
  lemma {:induction false} RankMove(s: State, s': State, t: Tid, n: nat)
    requires t in s.pc && t in s'.pc && s'.pc.Keys == s.pc.Keys
    requires forall u :: u in s.pc && u != t ==> StepsLeft(s'.pc[u]) == StepsLeft(s.pc[u])
    ensures Rank(s', n) == Rank(s, n) + (if t < n then StepsLeft(s'.pc[t]) - StepsLeft(s.pc[t]) else 0)
  {
    if n > 0 {
      RankMove(s, s', t, n - 1);
    }
  }

  /** A step of t lowers t's share of the rank by one if t is a worker, and leaves all other shares alone. */
  ghost predicate Lowers(s: State, s': State, t: Tid) {
    && t in s.pc
    && s'.pc.Keys == s.pc.Keys
    && (forall u :: u in s.pc && u != t ==> StepsLeft(s'.pc[u]) == StepsLeft(s.pc[u]))
    && StepsLeft(s'.pc[t]) == StepsLeft(s.pc[t]) - (if t < s.workers then 1 else 0)
  }

  lemma StoppedStep(s: State, a: Action)
    requires Invariant(s) && s.q.stopReturned && Enabled(s, a)
    ensures Step(s, a).q.stopReturned && Lowers(s, Step(s, a), a.t)
  {
    if QueueAction(s, a).Some? {
      StepByQueue(s, a);
      QT.QuietStep(s.q, QueueAction(s, a).value);
      StoppedQueueStep(s, a);
    } else {
      StoppedLocalStep(s, a);
    }
  }

  lemma StoppedQueueStep(s: State, a: Action)
    requires Base(s) && s.q.stopReturned && Enabled(s, a) && QueueAction(s, a).Some?
    ensures Lowers(s, Step(s, a), a.t)
  {
    hide Step, Inside, Q.Step, QueueAction;
    assert Agree(s.workers, a.t, s.pc[a.t], s.q.pc[a.t]);
    if a.t < s.workers {
      StoppedWorkerReturns(s, a);
      StepKeepsSettings(s, a);
    } else {
      StoppedClientStep(s, a);
    }
  }

  lemma StoppedClientStep(s: State, a: Action)
    requires Base(s) && Enabled(s, a) && QueueAction(s, a).Some? && a.t >= s.workers && !WorkerPc(s.pc[a.t])
    ensures Lowers(s, Step(s, a), a.t)
  {
    hide Step, Inside, Q.Step, Enabled, Base;
    QueueStepIsMove(s, a);
    ClientMoves(s, Step(s, a), a.t, Inside(s, a), Q.Step(s.q, QueueAction(s, a).value).event);
  }

  lemma StoppedLocalStep(s: State, a: Action)
    requires Shape(s) && Enabled(s, a) && QueueAction(s, a).None?
    ensures Step(s, a).q == s.q && Lowers(s, Step(s, a), a.t)
  {
    hide WorkEffect, AddEffect, FlagEffect, LocalMove;
    hide Step, Enabled, QueueAction;
    LocalStepEffect(s, a);
    LocalMoveLowers(s.workers, a.t, s.pc[a.t], s.q.pc[a.t], Step(s, a).pc[a.t]);
  }

  lemma LocalMoveLowers(workers: nat, t: Tid, p: Pc, qp: Q.Pc, p': Pc)
    requires Agree(workers, t, p, qp) && LocalMove(p, p')
    ensures StepsLeft(p') == StepsLeft(p) - (if t < workers then 1 else 0)
  {
  }

  lemma ClientMoves(s: State, s': State, t: Tid, inside: Pc, e: Q.Event)
    requires QueueMove(s, s', t, inside, e) && !WorkerPc(s.pc[t])
    ensures s'.pc == s.pc[t := s'.pc[t]]
    ensures StepsLeft(s.pc[t]) == StepsLeft(s'.pc[t]) == 0
  {
  }

  /** After the stop `wait_pop` returns NULL in its next step. */
  lemma QuietWaitPop(q: Q.State, a: Q.Action)
    requires QI.Invariant(q) && q.stopReturned && Q.Enabled(q, a) && MethodEntered(q, a).InWaitPop?
    ensures Q.Step(q, a).event == Q.PopReturned(None)
  {
  }

  lemma StoppedWorkerReturns(s: State, a: Action)
    requires Base(s) && s.q.stopReturned && Enabled(s, a) && QueueAction(s, a).Some? && a.t < s.workers
    ensures Step(s, a).pc == s.pc[a.t := Exited]
    ensures s.pc[a.t].Fetch?
  {
    hide Step, Q.Step, Enabled, QueueAction, Inside;
    StepByQueue(s, a);
    InsideOrigin(s, a);
    InsideFits(s, a);
    FetchingWorker(s, a.t, Inside(s, a));
    QuietWaitPop(s.q, QueueAction(s, a).value);
    QueueStepIsMove(s, a);
  }

  /** A worker runs no queue method but `wait_pop`. */
  lemma FetchingWorker(s: State, w: Tid, inside: Pc)
    requires Shape(s) && w in s.pc && w < s.workers && Origin(s, w, inside) && MethodAt(inside) != NoMethod
    requires WorkerPc(inside) <==> WorkerPc(s.pc[w])
    ensures inside == s.pc[w] == Fetch
  {
    assert Agree(s.workers, w, s.pc[w], s.q.pc[w]);
  }

  ghost function WorkerSteps(s: State, run: seq<Action>): nat
    requires Feasible(s, run)
    decreases |run|
  {
    if run == [] then 0
    else (if run[0].t < s.workers then 1 else 0) + WorkerSteps(Step(s, run[0]), run[1..])
  }

  /** Shutdown terminates: after `stop` has returned the workers take at most 4 steps each in any run,
      whatever the clients do; the rank left over is zero exactly when `join_all` can return. */
  lemma {:induction false} ShutdownTerminates(s: State, run: seq<Action>)
    requires Invariant(s) && s.q.stopReturned && Feasible(s, run)
    ensures WorkerSteps(s, run) + Rank(After(s, run), s.workers) == Rank(s, s.workers) <= 4 * s.workers
    ensures AllExited(After(s, run)) <==> Rank(After(s, run), s.workers) == 0
    decreases |run|
  {
    RankBound(s, s.workers);
    if run == [] {
      RankZero(s, s.workers);
      ExitedBelow(s);
    } else {
      var s' := Step(s, run[0]);
      StoppedStep(s, run[0]);
      StepKeepsInvariant(s, run[0]);
      StepKeepsSettings(s, run[0]);
      RankMove(s, s', run[0].t, s.workers);
      ShutdownTerminates(s', run[1..]);
    }
  }

  lemma ExitedBelow(s: State)
    requires Shape(s)
    ensures AllExited(s) <==> forall w :: 0 <= w < s.workers ==> w in s.pc && s.pc[w].Exited?
  {
    assert forall w :: 0 <= w < s.workers ==> w in Below(s.workers);
  }

  /** And until then every worker that is not gone has a step, so nothing but the workers' own
      progress is needed for `join_all` to return. */
  lemma StoppedWorkersMove(s: State, w: Tid)
    requires Invariant(s) && s.q.stopReturned && w < s.workers
    requires w in s.pc && !s.pc[w].Exited?
    ensures Enabled(s, WorkerAction(s, w))
  {
    WorkerMoves(s, w);
  }
}
