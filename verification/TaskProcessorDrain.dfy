/** The draining phase of a process-on-stop stop of sources/task_processor/task_processor.h: the pool's flag is
    set, no `add_task` is late, and the queue has not been stopped yet.  The workers have only so much to do. */
module TaskProcessorDrain {
  import opened Common
  import Q = TsQueue
  import QI = TsQueueInvariant
  import opened TaskProcessor
  import opened TaskProcessorQueue
  import opened TaskProcessorInvariant
  import opened TaskProcessorTheorems

  // ----- the work left -----

  /** How many steps a worker is away from taking an element or falling asleep. */
  function Distance(p: Pc, qp: Q.Pc): nat {
    match p
    case Got(_) => 6
    case Counted(_) => 5
    case Ran(_) => 4
    case Fetch => if qp.Idle? then 3 else if qp.PopTest? then 1 else if qp.PopAsleep? then 0 else 2
    case _ => 0
  }

  function At(s: State, u: Tid): nat {
    if u in s.pc && u in s.q.pc then Distance(s.pc[u], s.q.pc[u]) else 0
  }

  ghost function Load(s: State, n: nat): nat {
    if n == 0 then 0 else Load(s, n - 1) + At(s, n - 1)
  }

  /** One if a push is certain: its thread holds the mutex past the queue's check. */
  function Commits(q: Q.State): nat {
    if q.holder.Some? && q.holder.value in q.pc && q.pc[q.holder.value].PushCommit? then 1 else 0
  }

  ghost function Work(s: State): nat {
    Load(s, s.workers) + 7 * |s.q.queue| + 9 * Commits(s.q)
  }

  lemma {:induction false} LoadBound(s: State, n: nat)
    ensures Load(s, n) <= 6 * n
  {
    if n > 0 {
      LoadBound(s, n - 1);
    }
  }

  /** Changing one thread changes the load by that thread's share. */
  lemma {:induction false} LoadMove(s: State, s': State, t: Tid, n: nat)
    requires forall u :: u != t ==> At(s', u) == At(s, u)
    ensures Load(s', n) == Load(s, n) + (if t < n then At(s', t) - At(s, t) else 0)
  {
    if n > 0 {
      LoadMove(s, s', t, n - 1);
    }
  }

  // ----- what a step of the queue does -----

  predicate IsCommit(q: Q.State, a: Q.Action) {
    a.Advance? && a.t in q.pc && q.pc[a.t].PushCommit?
  }

  /** Before a stop no step but a commit wakes a consumer, and a commit wakes one only. */
  lemma SleepersKept(q: Q.State, a: Q.Action, u: Tid)
    requires Q.Enabled(q, a) && u in q.pc && u != a.t && q.pc[u].PopAsleep?
    requires !q.stopping && QI.OwingMeansStopping(q)
    ensures u in Q.Step(q, a).state.pc
    ensures !(IsCommit(q, a) && u == a.wake) ==> Q.Step(q, a).state.pc[u].PopAsleep?
  {
    assert !QI.OwesNotify(q.pc[a.t]);
  }

  /** A commit turns a certain push into an element; other steps of a thread that is not about to lock the mutex
      for a push make no push certain, and only consumers shorten the queue. */
  lemma QueueShrinks(q: Q.State, a: Q.Action)
    requires Q.Enabled(q, a) && !q.stopping && QI.OwingMeansStopping(q) && QI.MutualExclusion(q)
    requires a.Advance? ==> !q.pc[a.t].PushLock?
    ensures var q' := Q.Step(q, a).state;
      if IsCommit(q, a) then |q'.queue| == |q.queue| + 1 && Commits(q) == 1 && Commits(q') == 0
      else
        && Commits(q') <= Commits(q)
        && (q'.queue == q.queue || (a.Advance? && (q.pc[a.t].PopTest? || q.pc[a.t].TryTest?)))
  {
    assert !QI.OwesNotify(q.pc[a.t]);
  }

  // ----- what a step of the pool does to the other threads -----

  /** The consumer that the step wakes, if it is a commit. */
  function Woken(s: State, a: Action): Option<Tid>
    requires Enabled(s, a)
  {
    if a.InQueue? && s.q.pc[a.t].PushCommit? then Some(a.wake) else None
  }

  /** The other threads keep their distance, but for the consumer that is woken. */
  lemma OthersAt(s: State, a: Action, u: Tid)
    requires Base(s) && Enabled(s, a) && !s.q.stopping && u != a.t
    ensures At(Step(s, a), u) <= At(s, u) + 2
    ensures Woken(s, a) != Some(u) ==> At(Step(s, a), u) == At(s, u)
  {
    hide Step, Q.Step, Enabled, Inside, Shape;
    if QueueAction(s, a).Some? {
      var qa := QueueAction(s, a).value;
      StepByQueue(s, a);
      QueueStepIsMove(s, a);
      QI.StepFrame(s.q, qa);
      ActionKind(s, a);
      if u in s.q.pc && s.q.pc[u].PopAsleep? {
        SleepersKept(s.q, qa, u);
      }
      OtherMoved(s, Step(s, a), a.t, u);
    } else {
      LocalStepEffect(s, a);
    }
  }

  lemma ActionKind(s: State, a: Action)
    requires Enabled(s, a) && QueueAction(s, a).Some?
    ensures IsCommit(s.q, QueueAction(s, a).value) <==> Woken(s, a).Some?
    ensures Woken(s, a).Some? ==> QueueAction(s, a).value.wake == Woken(s, a).value
  {
  }

  lemma OtherMoved(s: State, s': State, t: Tid, u: Tid)
    requires Shape(s) && u != t && t in s.pc && t in s'.pc && s'.pc == s.pc[t := s'.pc[t]]
    requires QI.OthersKept(s.q, s'.q, t)
    ensures At(s', u) <= At(s, u) + 2
    ensures (u in s.q.pc && s.q.pc[u].PopAsleep? && !s'.q.pc[u].PopAsleep?) || At(s', u) == At(s, u)
  {
    if u in s.pc {
      assert Agree(s.workers, u, s.pc[u], s.q.pc[u]);
    }
  }

  // ----- and to its own -----

  /** A worker's own step brings it nearer, or it takes an element. */
  ghost predicate Worked(s: State, s': State, w: Tid) {
    || (s'.q.queue == s.q.queue && At(s', w) < At(s, w))
    || (|s.q.queue| == |s'.q.queue| + 1 && At(s', w) == 6 && At(s, w) == 1)
  }

  lemma WorkerOutside(s: State, s': State, w: Tid)
    requires Shape(s) && LocalEffect(s, s', w) && w < s.workers
    ensures Worked(s, s', w)
  {
    assert Agree(s.workers, w, s.pc[w], s.q.pc[w]);
  }

  lemma WorkerInside(s: State, a: Action)
    requires Shape(s) && Enabled(s, a) && QueueAction(s, a).Some? && !a.QueueSpurious? && a.t < s.workers
    requires !s.q.stopping
    ensures Worked(s, Step(s, a), a.t)
  {
    hide Worked, Step;
    assert Agree(s.workers, a.t, s.pc[a.t], s.q.pc[a.t]);
    if a.FetchBegin? {
      WorkerEnters(s, a.t);
    } else {
      WorkerAdvances(s, a.t, a.wake);
    }
  }

  lemma WorkerEnters(s: State, w: Tid)
    requires Enabled(s, FetchBegin(w)) && !s.q.stopping
    ensures Worked(s, Step(s, FetchBegin(w)), w)
  {
  }

  lemma WorkerAdvances(s: State, w: Tid, wake: Tid)
    requires Enabled(s, InQueue(w, wake)) && s.pc[w].Fetch? && MethodOf(s.q.pc[w]).InWaitPop? && !s.q.stopping
    ensures Worked(s, Step(s, InQueue(w, wake)), w)
  {
    match s.q.pc[w]
    case PopLock =>
    case PopSignalled =>
    case PopTest =>
  }

  lemma SpuriousAt(s: State, a: Action)
    requires Enabled(s, a) && a.QueueSpurious?
    ensures At(Step(s, a), a.t) <= At(s, a.t) + 2 && Step(s, a).q.queue == s.q.queue
  {
  }

  lemma ClientAt(s: State, t: Tid)
    requires Shape(s) && t in s.pc && t >= s.workers
    ensures At(s, t) == 0
  {
    assert Agree(s.workers, t, s.pc[t], s.q.pc[t]);
  }

  // ----- the phase -----

  ghost predicate InDrain(s: State) {
    Invariant(s) && s.processOnStop && s.stopping && !s.lateAdds && !s.q.stopping
  }

  predicate OwnStep(s: State, a: Action) {
    a.t < s.workers && !a.QueueSpurious?
  }

  /** Workers do not push, clients do not pop, and no client is about to lock the mutex for a push. */
  lemma Places(s: State, t: Tid)
    requires Shape(s) && OnlyCommits(s) && t in s.pc && t in s.q.pc
    ensures !s.q.pc[t].PushLock?
    ensures if t < s.workers then !s.q.pc[t].PushCommit? else !s.q.pc[t].PopTest? && !s.q.pc[t].TryTest?
  {
    hide Agree;
    assert Agree(s.workers, t, s.pc[t], s.q.pc[t]);
    PlacesOf(s.workers, t, s.pc[t], s.q.pc[t]);
  }

  lemma PlacesOf(workers: nat, t: Tid, p: Pc, qp: Q.Pc)
    requires Agree(workers, t, p, qp)
    ensures qp.PushLock? ==> AddInFlight(p)
    ensures if t < workers then !qp.PushCommit? else !qp.PopTest? && !qp.TryTest?
  {
  }

  /** What a step does to the work left, but for the shares of the threads. */
  lemma QueueWork(s: State, a: Action)
    requires Base(s) && OnlyCommits(s) && Enabled(s, a) && !s.q.stopping
    ensures var q' := Step(s, a).q;
      if Woken(s, a).Some? then
        a.t >= s.workers && 7 * |q'.queue| + 9 * Commits(q') + 2 <= 7 * |s.q.queue| + 9 * Commits(s.q)
      else
        Commits(q') <= Commits(s.q) && (a.t >= s.workers ==> q'.queue == s.q.queue)
  {
    hide Step, Inside, Shape, Q.Step, QI.Invariant, Commits, OnlyCommits;
    Places(s, a.t);
    if QueueAction(s, a).Some? {
      StepByQueue(s, a);
      ActionKind(s, a);
      QueueInvariants(s.q);
      QueueShrinks(s.q, QueueAction(s, a).value);
    } else {
      LocalStepEffect(s, a);
    }
  }

  lemma QueueInvariants(q: Q.State)
    requires QI.Invariant(q)
    ensures QI.OwingMeansStopping(q) && QI.MutualExclusion(q)
  {
  }

  lemma SameActor(s: State, a: Action)
    requires Base(s) && Enabled(s, a)
    ensures a.t in s.pc && a.t in Step(s, a).pc
  {
    hide Step, Inside, Shape, Q.Step, QI.Invariant;
    if QueueAction(s, a).Some? {
      QueueStepIsMove(s, a);
    } else {
      LocalStepEffect(s, a);
    }
  }

  lemma WorkerAt(s: State, a: Action)
    requires Base(s) && Enabled(s, a) && !s.q.stopping && a.t < s.workers
    ensures if a.QueueSpurious? then At(Step(s, a), a.t) <= At(s, a.t) + 2 && Step(s, a).q.queue == s.q.queue
            else Worked(s, Step(s, a), a.t)
  {
    hide Step, Worked, Shape, QI.Invariant, At;
    if a.QueueSpurious? {
      SpuriousAt(s, a);
    } else if QueueAction(s, a).Some? {
      WorkerInside(s, a);
    } else {
      LocalStepEffect(s, a);
      WorkerOutside(s, Step(s, a), a.t);
    }
  }

  /** Every step of a worker but a spurious wakeup takes something off the work left, and no other step but such
      a wakeup adds any. */
  lemma DrainStep(s: State, a: Action)
    requires Base(s) && OnlyCommits(s) && Enabled(s, a) && !s.q.stopping
    ensures Work(Step(s, a)) + (if OwnStep(s, a) then 1 else 0) <= Work(s) + (if a.QueueSpurious? then 2 else 0)
  {
    hide Step, Enabled, Inside, At, Commits, Shape, QI.Invariant, OnlyCommits;
    var s' := Step(s, a);
    StepKeepsSettings(s, a);
    forall u | u != a.t
      ensures At(s', u) <= At(s, u) + 2
      ensures Woken(s, a) != Some(u) ==> At(s', u) == At(s, u)
    {
      OthersAt(s, a, u);
    }
    QueueWork(s, a);
    if a.t < s.workers {
      WorkerAt(s, a);
      LoadMove(s, s', a.t, s.workers);
    } else {
      StepKeepsBase(s, a);
      SameActor(s, a);
      ClientAt(s, a.t);
      ClientAt(s', a.t);
      LoadMove(s, s', if Woken(s, a).Some? then Woken(s, a).value else a.t, s.workers);
    }
  }

  // ----- whole runs -----

  lemma InDrainParts(s: State)
    requires InDrain(s)
    ensures Base(s) && OnlyCommits(s)
  {
  }

  lemma StepKeepsQueueStop(s: State, a: Action)
    requires Base(s) && Enabled(s, a) && s.q.stopping
    ensures Step(s, a).q.stopping
  {
    hide Step, Inside, Shape, Q.Step, QI.Invariant;
    if QueueAction(s, a).Some? {
      StepByQueue(s, a);
      QI.StoppingStays(s.q, QueueAction(s, a).value);
    } else {
      LocalStepEffect(s, a);
    }
  }

  lemma {:induction false} RunKeepsQueueStop(s: State, run: seq<Action>)
    requires Base(s) && Feasible(s, run) && s.q.stopping
    ensures After(s, run).q.stopping
    decreases |run|
  {
    hide Step, Enabled, Base;
    if run != [] {
      StepKeepsBase(s, run[0]);
      StepKeepsQueueStop(s, run[0]);
      RunKeepsQueueStop(Step(s, run[0]), run[1..]);
    }
  }

  lemma StepKeepsLate(s: State, a: Action)
    requires s.stopping && Enabled(s, a)
    ensures Step(s, a).stopping && Step(s, a).lateAdds == s.lateAdds
  {
  }

  lemma StepKeepsDrain(s: State, a: Action)
    requires InDrain(s) && Enabled(s, a) && !Step(s, a).q.stopping
    ensures InDrain(Step(s, a))
  {
    hide Step, Enabled, Invariant;
    StepKeepsInvariant(s, a);
    StepKeepsSettings(s, a);
    StepKeepsLate(s, a);
  }

  /** The steps of workers along a run, spurious wakeups aside. */
  ghost function OwnSteps(s: State, run: seq<Action>): nat
    requires Feasible(s, run)
    decreases |run|
  {
    if run == [] then 0 else (if OwnStep(s, run[0]) then 1 else 0) + OwnSteps(Step(s, run[0]), run[1..])
  }

  function Spurious(run: seq<Action>): nat {
    if run == [] then 0 else (if run[0].QueueSpurious? then 1 else 0) + Spurious(run[1..])
  }

  /** Draining terminates: until the queue is stopped the workers take at most 6 steps each, 7 for each queued
      element and 9 for a push under way, whatever the clients do; each spurious wakeup costs two more. */
  lemma {:induction false} DrainTerminates(s: State, run: seq<Action>)
    requires InDrain(s) && Feasible(s, run) && !After(s, run).q.stopping
    ensures InDrain(After(s, run))
    ensures OwnSteps(s, run) + Work(After(s, run)) <= Work(s) + 2 * Spurious(run)
    ensures Work(s) <= 6 * s.workers + 7 * |s.q.queue| + 9
    decreases |run|
  {
    hide Step, Enabled, InDrain, OwnStep;
    LoadBound(s, s.workers);
    if run != [] {
      var s' := Step(s, run[0]);
      InDrainParts(s);
      StepKeepsBase(s, run[0]);
      if s'.q.stopping {
        RunKeepsQueueStop(s', run[1..]);
      }
      NotStopped(s);
      DrainStep(s, run[0]);
      StepKeepsDrain(s, run[0]);
      DrainTerminates(s', run[1..]);
    }
  }

  lemma NotStopped(s: State)
    requires InDrain(s)
    ensures !s.q.stopping
  {
  }

  /** The next step of thread d is the one in which its stop's wait returns. */
  ghost predicate WaitReturns(s: State, d: Tid)
    requires d in s.pc && s.pc[d].StopWait?
  {
    && Enabled(s, InQueue(d, d))
    && d in Step(s, InQueue(d, d)).pc
    && Step(s, InQueue(d, d)).pc[d] == StopCall(s.pc[d].destroy)
  }

  /** Until the queue is empty a worker that is awake, or the holder of the mutex, can move; and once it is, nobody
      sleeps in the queue's `wait`, and with the mutex free a stop call there goes on to stop the queue. */
  lemma DrainMoves(s: State, d: Tid)
    requires InDrain(s) && s.workers > 0
    ensures s.q.queue != [] ==>
              exists a :: Enabled(s, a) && (if s.q.holder == None then WorkerStep(s, a) else HolderStep(s, a))
    ensures s.q.queue == [] && s.q.holder == None && d in s.pc && s.pc[d].StopWait? ==> WaitReturns(s, d)
  {
    hide WaitReturns, Enabled, Step, WorkerStep, HolderStep, Invariant;
    BaseOf(s);
    EndingOf(s);
    if s.q.queue != [] {
      var a := MovingAction(s);
    } else if s.q.holder == None && d in s.pc && s.pc[d].StopWait? {
      StopWaitReturns(s, d);
    }
  }

  lemma EndingOf(s: State)
    requires Invariant(s)
    ensures Ending(s)
  {
  }

  lemma StopWaitReturns(s: State, d: Tid)
    requires Base(s) && s.q.queue == [] && s.q.holder == None && d in s.pc && s.pc[d].StopWait?
    ensures WaitReturns(s, d)
  {
    hide WaitReturns;
    AwakeInWait(s, d);
    WaitStep(s, d);
  }

  lemma AwakeInWait(s: State, d: Tid)
    requires Base(s) && s.q.queue == [] && s.q.holder == None && d in s.pc && s.pc[d].StopWait?
    ensures d in s.q.pc && (s.q.pc[d].WaitLock? || s.q.pc[d].WaitSignalled?)
  {
    assert Agree(s.workers, d, s.pc[d], s.q.pc[d]);
  }

  lemma WaitStep(s: State, d: Tid)
    requires d in s.pc && s.pc[d].StopWait? && d in s.q.pc && (s.q.pc[d].WaitLock? || s.q.pc[d].WaitSignalled?)
    requires s.q.queue == [] && s.q.holder == None
    ensures WaitReturns(s, d)
  {
  }
}
