/** Exactly when `process_on_stop` keeps its promise.  Whether the destructor can return with an accepted
    task that was never run is decided at the moment the first stop sets the pool's flag: it can if and
    only if some `add_task` is then past its check of that flag and has not got past the queue's check. */
module TaskProcessorStop {
  import opened Common
  import Q = TsQueue
  import QI = TsQueueInvariant
  import QT = TsQueueTheorems
  import opened TaskProcessor
  import opened TaskProcessorQueue
  import opened TaskProcessorInvariant
  import opened TaskProcessorTheorems
  import opened TaskProcessorDrain
  import opened TaskProcessorRuns

  /** What can follow a state. */
  ghost function Future(s: State): iset<State> {
    iset run | Feasible(s, run) :: After(s, run)
  }

  /** States of a pool with at least one worker in which the invariant holds. */
  ghost predicate Sound(r: iset<State>) {
    forall s :: s in r ==> Invariant(s) && s.workers > 0
  }

  lemma FutureSound(s: State)
    requires Invariant(s) && s.workers > 0
    ensures Sound(Future(s))
  {
    hide Invariant, Step, Enabled;
    forall s1 | s1 in Future(s) ensures Invariant(s1) && s1.workers > 0 {
      var run :| Feasible(s, run) && s1 == After(s, run);
      RunKeepsInvariant(s, run);
    }
  }

  lemma FutureClosed(s: State)
    ensures Closed(Future(s)) && s in Future(s)
  {
    hide Step, Enabled;
    var r := Future(s);
    assert Feasible(s, []) && s == After(s, []);
    forall s1, a | s1 in r && Enabled(s1, a) ensures Step(s1, a) in r {
      var run :| Feasible(s, run) && s1 == After(s, run);
      Extend(s, run, a);
    }
  }

  /** One step further. */
  lemma Next(r: iset<State>, s: State, a: Action) returns (s': State)
    requires Closed(r) && s in r && Enabled(s, a)
    ensures s' == Step(s, a) && s' in r
  {
    s' := Step(s, a);
  }

  lemma Known(r: iset<State>, s: State)
    requires Sound(r) && s in r
    ensures Invariant(s) && Base(s) && s.workers > 0
  {
  }

  // ----- while the stopping thread d waits for the queue and the late add of u is kept waiting -----

  ghost predicate Pending(s: State, u: Tid, d: Tid) {
    && u in LateAdds(s.pc, s.q.pc)
    && d in s.pc && s.pc[d].StopFlagged?
    && !s.q.stopping
  }

  lemma StepPending(r: iset<State>, s: State, u: Tid, d: Tid, a: Action) returns (s': State)
    requires Closed(r) && Sound(r) && s in r && Pending(s, u, d)
    requires Enabled(s, a) && a.t != u && a.t != d && !s.pc[a.t].StopCall?
    ensures s' == Step(s, a) && s' in r && Pending(s', u, d)
    ensures s'.pc[u] == s.pc[u] && s'.pc[d] == s.pc[d]
  {
    s' := Next(r, s, a);
    if QueueAction(s, a).Some? {
      var qa := QueueAction(s, a).value;
      StepByQueue(s, a);
      QueueStepIsMove(s, a);
      QI.StepFrame(s.q, qa);
      MovePending(s, s', u, d, a.t, Inside(s, a), Q.Step(s.q, qa).event);
    } else {
      LocalStepEffect(s, a);
      LocalPending(s, s', u, d, a.t);
    }
  }

  lemma MovePending(s: State, s': State, u: Tid, d: Tid, t: Tid, inside: Pc, e: Q.Event)
    requires Pending(s, u, d) && Base(s) && Ending(s) && Owing(s) && QueueMove(s, s', t, inside, e)
    requires QI.OthersKept(s.q, s'.q, t) && t != u && t != d && !s.pc[t].StopCall?
    ensures Pending(s', u, d) && s'.pc[u] == s.pc[u] && s'.pc[d] == s.pc[d]
  {
    MoveUncounted(s, s', t, inside, e);
    MoveStops(s, s', t, inside, e);
    LateIsIdleOrLocking(s, u);
  }

  lemma LateIsIdleOrLocking(s: State, u: Tid)
    requires Shape(s) && u in LateAdds(s.pc, s.q.pc)
    ensures s.q.pc[u] == if s.pc[u].Adding? then Q.Idle else Q.PushLock(s.pc[u].task)
  {
    assert Agree(s.workers, u, s.pc[u], s.q.pc[u]);
  }

  lemma LocalPending(s: State, s': State, u: Tid, d: Tid, t: Tid)
    requires Pending(s, u, d) && LocalEffect(s, s', t) && t != u && t != d
    ensures Pending(s', u, d) && s'.pc[u] == s.pc[u] && s'.pc[d] == s.pc[d]
  {
  }

  // ----- the queue's mutex is released -----

  lemma HolderReleases(q: Q.State, t: Tid, wake: Tid)
    requires Q.Enabled(q, Q.Advance(t, wake)) && Q.Holding(q.pc[t])
    ensures Q.AdvanceStep(q, t, wake).state.holder == None
  {
  }

  lemma ReleaseMutex(r: iset<State>, s: State, u: Tid, d: Tid) returns (s': State)
    requires Closed(r) && Sound(r) && s in r && Pending(s, u, d)
    ensures s' in r && Pending(s', u, d) && s'.q.holder == None && s'.pc[u] == s.pc[u] && s'.pc[d] == s.pc[d]
  {
    if s.q.holder == None {
      s' := s;
    } else {
      var a := HolderAction(s);
      HolderIsOther(s, u, d, a.t);
      s' := StepPending(r, s, u, d, a);
      HolderReleases(s.q, a.t, a.wake);
    }
  }

  lemma HolderIsOther(s: State, u: Tid, d: Tid, t: Tid)
    requires Shape(s) && QI.MutualExclusion(s.q) && Pending(s, u, d) && s.q.holder == Some(t)
    ensures t != u && t != d && t in s.pc && !s.pc[t].StopCall? && Q.Holding(s.q.pc[t])
  {
    hide LateAdds, Agree;
    LateIsIdleOrLocking(s, u);
    OutsideIdle(s, d);
    assert t in s.q.pc && Q.Holding(s.q.pc[t]);
    if s.pc[t].StopCall? {
      OutsideIdle(s, t);
    }
  }

  // ----- the workers empty the queue -----

  /** One step of a worker towards the front element: it takes it, or comes nearer. */
  ghost predicate Nearer(s: State, s': State, w: Tid)
    requires w in s.pc && w in s.q.pc
  {
    && w in s'.pc && w in s'.q.pc
    && if s.q.pc[w].PopTest? then
         s.q.queue != [] && s'.q.queue == s.q.queue[1..] && s'.q.holder == None
       else
         && s'.q.queue == s.q.queue
         && (s'.q.holder == None || s'.q.holder == Some(w))
         && !s'.pc[w].Exited? && !Q.Asleep(s'.q.pc[w])
         && Distance(s'.pc[w], s'.q.pc[w]) < Distance(s.pc[w], s.q.pc[w])
  }

  lemma WorkerNearer(s: State, w: Tid)
    requires Base(s) && w in s.pc && w in s.q.pc && w < s.workers && !s.pc[w].Exited? && !Q.Asleep(s.q.pc[w])
    requires s.q.queue != [] && !s.q.stopping && (s.q.holder == None || s.q.holder == Some(w))
    ensures Enabled(s, WorkerAction(s, w)) && Nearer(s, Step(s, WorkerAction(s, w)), w)
  {
    assert Agree(s.workers, w, s.pc[w], s.q.pc[w]);
    if HasTask(s.pc[w]) {
      WorkerNearerOutside(s, w);
    } else {
      WorkerNearerInside(s, w);
    }
  }

  lemma WorkerNearerOutside(s: State, w: Tid)
    requires w in s.pc && w in s.q.pc && HasTask(s.pc[w]) && s.q.pc[w].Idle?
    requires s.q.holder == None || s.q.holder == Some(w)
    ensures Enabled(s, WorkerAction(s, w)) && Nearer(s, Step(s, WorkerAction(s, w)), w)
  {
  }

  lemma WorkerNearerInside(s: State, w: Tid)
    requires w in s.pc && w in s.q.pc && s.pc[w].Fetch? && QI.MutualExclusion(s.q)
    requires s.q.pc[w].Idle? || s.q.pc[w].PopLock? || s.q.pc[w].PopSignalled? || s.q.pc[w].PopTest?
    requires s.q.queue != [] && !s.q.stopping && (s.q.holder == None || s.q.holder == Some(w))
    ensures Enabled(s, WorkerAction(s, w)) && Nearer(s, Step(s, WorkerAction(s, w)), w)
  {
    match s.q.pc[w]
    case Idle =>
    case PopLock =>
    case PopSignalled =>
    case PopTest =>
  }

  lemma {:induction false} TakeOne(r: iset<State>, s: State, u: Tid, d: Tid, w: Tid) returns (s': State)
    requires Closed(r) && Sound(r) && s in r && Pending(s, u, d)
    requires w in s.pc && w in s.q.pc && w < s.workers && !s.pc[w].Exited? && !Q.Asleep(s.q.pc[w])
    requires s.q.queue != [] && (s.q.holder == None || s.q.holder == Some(w))
    ensures s' in r && Pending(s', u, d) && s'.q.holder == None && s'.q.queue == s.q.queue[1..]
    ensures s'.pc[u] == s.pc[u] && s'.pc[d] == s.pc[d]
    decreases Distance(s.pc[w], s.q.pc[w])
  {
    WorkerNearer(s, w);
    WorkerIsOther(s, u, d, w);
    var s1 := StepPending(r, s, u, d, WorkerAction(s, w));
    StepKeepsSettings(s, WorkerAction(s, w));
    if s.q.pc[w].PopTest? {
      s' := s1;
    } else {
      s' := TakeOne(r, s1, u, d, w);
    }
  }

  lemma WorkerIsOther(s: State, u: Tid, d: Tid, w: Tid)
    requires Shape(s) && Pending(s, u, d) && w in s.pc && w < s.workers
    ensures WorkerAction(s, w).t == w && w != u && w != d && !s.pc[w].StopCall?
  {
    assert Agree(s.workers, w, s.pc[w], s.q.pc[w]);
  }

  lemma {:induction false} EmptyQueue(r: iset<State>, s: State, u: Tid, d: Tid) returns (s': State)
    requires Closed(r) && Sound(r) && s in r && Pending(s, u, d) && s.q.holder == None
    ensures s' in r && Pending(s', u, d) && s'.q.holder == None && s'.q.queue == []
    ensures s'.pc[u] == s.pc[u] && s'.pc[d] == s.pc[d]
    decreases |s.q.queue|
  {
    if s.q.queue == [] {
      s' := s;
    } else {
      assert 0 in Below(s.workers);
      var w := AwakeWorker(s);
      s' := TakeOne(r, s, u, d, w);
      s' := EmptyQueue(r, s', u, d);
    }
  }

  // ----- the stop overtakes the add -----

  /** The wait of the stop has found the queue empty, and the add has not moved. */
  lemma OvertakeAdd(r: iset<State>, s: State, u: Tid, d: Tid) returns (s': State)
    requires Closed(r) && Sound(r) && s in r && Pending(s, u, d)
    ensures s' in r && u in LateAdds(s'.pc, s'.q.pc) && s'.pc[u] == s.pc[u]
    ensures d in s'.pc && s'.pc[d] == StopCall(s.pc[d].destroy)
    ensures s'.q.holder == None && s'.q.queue == [] && !s'.q.stopping
  {
    hide Closed, Sound, Invariant, Step, Enabled, Shape;
    s' := ReleaseMutex(r, s, u, d);
    s' := EmptyQueue(r, s', u, d);
    Known(r, s');
    OutsideIdle(s', d);
    s' := DoStopBeginWait(r, s', d);
    s' := DoWaitReturn(r, s', d);
  }

  /** Then the add completes. */
  lemma CompleteAdd(r: iset<State>, s: State, u: Tid, d: Tid) returns (s': State)
    requires Closed(r) && Sound(r) && s in r && u in LateAdds(s.pc, s.q.pc) && u != d
    requires d in s.pc && s.pc[d].StopCall?
    requires s.q.holder == None && s.q.queue == [] && !s.q.stopping
    ensures s' in r && d in s'.pc && s'.pc[d] == s.pc[d]
    ensures s'.q.holder == None && s'.q.queue == [s.pc[u].task] && !s'.q.stopping
  {
    hide Closed, Sound, Invariant, Step, Enabled, Shape;
    Known(r, s);
    LateIsIdleOrLocking(s, u);
    var x := s.pc[u].task;
    s' := s;
    if s.pc[u].Adding? {
      s' := DoAddPush(r, s, u);
    }
    s' := DoLock(r, s', u, Q.PushCommit(x));
    s' := Commit(r, s', u);
  }

  lemma Commit(r: iset<State>, s: State, u: Tid) returns (s': State)
    requires Closed(r) && s in r && u in s.pc && u in s.q.pc && s.q.pc[u].PushCommit? && s.pc[u].Pushing?
    ensures s' in r && s'.pc == s.pc[u := Free]
    ensures s'.q.holder == None && s'.q.queue == s.q.queue + [s.q.pc[u].val] && s'.q.stopping == s.q.stopping
  {
    hide Closed;
    var wake := u;
    if Q.PopSleepers(s.q.pc) != {} {
      wake :| wake in Q.PopSleepers(s.q.pc);
    }
    s' := Next(r, s, InQueue(u, wake));
  }

  // ----- and stays behind when the workers leave -----

  /** The queue's stop returns; a destructor goes on to `join_all`, a plain `stop` returns. */
  lemma FinishStop(r: iset<State>, s: State, d: Tid) returns (s': State)
    requires Closed(r) && Sound(r) && s in r && d in s.pc && s.pc[d].StopCall? && s.q.holder == None
    ensures s' in r && d in s'.pc && s'.pc[d] == (if s.pc[d].destroy then Joining else Free)
    ensures s'.q.stopReturned && s'.q.holder == None && s'.q.queue == s.q.queue
  {
    hide Closed, Sound, Invariant, Step, Enabled, Shape;
    Known(r, s);
    OutsideIdle(s, d);
    s' := DoStopBeginStop(r, s, d);
    s' := Notify(r, s', d);
  }

  lemma Notify(r: iset<State>, s: State, d: Tid) returns (s': State)
    requires Closed(r) && s in r && d in s.pc && s.pc[d].StopQueue? && s.q.holder == None
    requires d in s.q.pc && s.q.pc[d].StopNotify?
    ensures s' in r && d in s'.pc && s'.pc[d] == (if s.pc[d].destroy then Joining else Free)
    ensures s'.q.stopReturned && s'.q.holder == None && s'.q.queue == s.q.queue
  {
    hide Closed;
    s' := Next(r, s, InQueue(d, d));
  }

  /** A destructor called after a stop has returned finds nothing to wait for and leaves the queue alone. */
  lemma DestroyLater(r: iset<State>, s: State, d: Tid) returns (s': State)
    requires Closed(r) && Sound(r) && s in r && d in s.pc && s.pc[d] == Free
    requires s.q.stopReturned && s.q.holder == None
    ensures s' in r && d in s'.pc && s'.pc[d] == Joining && s'.q.stopReturned && s'.q.queue == s.q.queue
  {
    hide Closed, Sound, Invariant, Shape;
    Known(r, s);
    OutsideIdle(s, d);
    s' := Next(r, s, CallStop(d, true));
    if s.processOnStop {
      s' := DoStopBeginWait(r, s', d);
    }
    s' := FinishStop(r, s', d);
  }

  /** A worker leaving after the stop takes nothing with it. */
  lemma StoppedWorkerStep(s: State, w: Tid, d: Tid)
    requires Invariant(s) && s.q.stopReturned && w < s.workers && w in s.pc && !s.pc[w].Exited?
    requires d in s.pc && s.pc[d] == Joining
    ensures var a := WorkerAction(s, w);
      && Enabled(s, a)
      && d in Step(s, a).pc && Step(s, a).pc[d] == Joining
      && Step(s, a).q.queue == s.q.queue
      && Step(s, a).q.stopReturned
      && Rank(Step(s, a), s.workers) < Rank(s, s.workers)
  {
    hide Step, Q.Step, Enabled, Inside, QueueAction, Invariant, Rank;
    BaseOf(s);
    WorkerNotJoining(s, w, d);
    var a := WorkerAction(s, w);
    StoppedWorkersMove(s, w);
    StoppedStep(s, a);
    RankMove(s, Step(s, a), w, s.workers);
    StepKeepsBase(s, a);
    if QueueAction(s, a).Some? {
      StoppedQueueKept(s, a);
      StoppedWorkerReturns(s, a);
    } else {
      LocalStepEffect(s, a);
    }
  }

  lemma WorkerNotJoining(s: State, w: Tid, d: Tid)
    requires Shape(s) && w < s.workers && w in s.pc && d in s.pc && s.pc[d] == Joining
    ensures w in s.q.pc && w != d && WorkerAction(s, w).t == w
  {
    assert Agree(s.workers, d, s.pc[d], s.q.pc[d]);
  }

  lemma StoppedQueueKept(s: State, a: Action)
    requires Invariant(s) && s.q.stopReturned && Enabled(s, a) && QueueAction(s, a).Some? && a.t < s.workers
    requires Base(Step(s, a))
    ensures Step(s, a).q.queue == s.q.queue
  {
    hide Enabled, Inside;
    assert Agree(s.workers, a.t, s.pc[a.t], s.q.pc[a.t]);
    QueueStepIsMove(s, a);
    InsideOrigin(s, a);
    QT.QuietStep(s.q, QueueAction(s, a).value);
    QuietKeepsQueue(s, Step(s, a), a.t, Inside(s, a), Q.Step(s.q, QueueAction(s, a).value).event);
  }

  lemma QuietKeepsQueue(s: State, s': State, t: Tid, inside: Pc, e: Q.Event)
    requires QueueMove(s, s', t, inside, e) && WorkerPc(inside)
    requires QI.Conserved(s.q) && QI.Conserved(s'.q)
    requires !(e.PopReturned? && e.task.Some?)
    ensures s'.q.queue == s.q.queue
  {
    var n := |s.q.removed|;
    assert s'.q.removed == s.q.removed && s'.q.accepted == s.q.accepted;
    assert s.q.queue == s.q.accepted[n..] && s'.q.queue == s'.q.accepted[n..];
  }

  lemma {:induction false} WorkersLeave(r: iset<State>, s: State, d: Tid) returns (s': State)
    requires Closed(r) && Sound(r) && s in r && s.q.stopReturned && d in s.pc && s.pc[d] == Joining
    ensures s' in r && AllExited(s') && d in s'.pc && s'.pc[d] == Joining && s'.q.queue == s.q.queue
    decreases Rank(s, s.workers)
  {
    if AllExited(s) {
      s' := s;
    } else {
      var w :| w in s.pc && w < s.workers && !s.pc[w].Exited?;
      var a := WorkerAction(s, w);
      StoppedWorkerStep(s, w, d);
      StepKeepsSettings(s, a);
      s' := WorkersLeave(r, Step(s, a), d);
    }
  }

  // ----- the exact condition -----

  predicate JoinReturned(s: State) {
    exists t :: t in s.pc && Joined(s.pc[t])
  }

  /** The destructor is past `join_all` although task x was accepted and has not been run. */
  predicate LostTask(s: State, x: Task) {
    JoinReturned(s) && x in s.q.accepted && x !in s.ran
  }

  ghost predicate Lost(s: State) {
    exists x :: LostTask(s, x)
  }

  lemma QueuedIsUnrun(s: State, x: Task)
    requires Invariant(s) && x in s.q.queue
    ensures x in s.q.accepted && x !in s.ran
  {
    AcceptedParts(s, x);
    assert forall w :: w in s.pc && HasTask(s.pc[w]) ==> s.pc[w].task != x;
  }

  /** The task of any late add can be lost: the stop overtakes it, the add completes, the workers leave, and the
      destructor, be it the stopping call itself or a later one, returns from `join_all`. */
  lemma LateAddCanBeLost(r: iset<State>, s: State, u: Tid, d: Tid) returns (s': State)
    requires Closed(r) && Sound(r) && s in r && Pending(s, u, d)
    ensures s' in r && LostTask(s', s.pc[u].task)
  {
    hide Closed, Sound, Step, Enabled, Invariant, Shape;
    s' := OvertakeAdd(r, s, u, d);
    s' := CompleteAdd(r, s', u, d);
    s' := FinishStop(r, s', d);
    if s'.pc[d] == Free {
      s' := DestroyLater(r, s', d);
    }
    s' := LeaveBehind(r, s', d, s.pc[u].task);
  }

  lemma LeaveBehind(r: iset<State>, s: State, d: Tid, x: Task) returns (s': State)
    requires Closed(r) && Sound(r) && s in r && s.q.stopReturned && d in s.pc && s.pc[d] == Joining && x in s.q.queue
    ensures s' in r && LostTask(s', x)
  {
    hide Closed, Sound, Step, Enabled, Invariant, Shape;
    s' := WorkersLeave(r, s, d);
    Known(r, s');
    OutsideIdle(s', d);
    s' := DoJoin(r, s', d);
    Known(r, s');
    QueuedIsUnrun(s', x);
    assert Joined(s'.pc[d]);
  }

  lemma {:induction false} RunKeepsLate(s: State, run: seq<Action>)
    requires s.stopping && Feasible(s, run)
    ensures After(s, run).stopping && After(s, run).lateAdds == s.lateAdds
    decreases |run|
  {
    if run != [] {
      StepKeepsLate(s, run[0]);
      RunKeepsLate(Step(s, run[0]), run[1..]);
    }
  }

  /** Let a call of `stop` by thread d, made by itself or by the destructor, be the first to set the flag of a
      pool with workers, in process-on-stop mode.  Some continuation ends with `join_all` returned and an accepted
      task not run if and only if some `add_task` is then between its check of the flag and its push; and it
      can be the task of any such call. */
  lemma ProcessOnStopExactly(s: State, workers: nat, clients: set<Tid>, run: seq<Action>, d: Tid, destroy: bool)
    requires Reached(s, workers, true, clients, run) && workers > 0
    requires !s.stopping && Enabled(s, CallStop(d, destroy))
    ensures (exists e :: e in Future(Step(s, CallStop(d, destroy))) && Lost(e)) <==> LateAdds(s.pc, s.q.pc) != {}
    ensures forall u :: u in LateAdds(s.pc, s.q.pc) ==>
              exists e :: e in Future(Step(s, CallStop(d, destroy))) && LostTask(e, s.pc[u].task)
  {
    hide Future, Invariant, LostTask;
    ReachedHolds(s, workers, true, clients, run);
    var s1 := Step(s, CallStop(d, destroy));
    StepKeepsInvariant(s, CallStop(d, destroy));
    FlagClear(s);
    forall u | u in LateAdds(s.pc, s.q.pc) ensures exists e :: e in Future(s1) && LostTask(e, s.pc[u].task) {
      assert Pending(s1, u, d) && s1.pc[u] == s.pc[u];
      var e := LoseFrom(s1, u, d);
    }
    if LateAdds(s.pc, s.q.pc) != {} {
      var u :| u in LateAdds(s.pc, s.q.pc);
      var e :| e in Future(s1) && LostTask(e, s.pc[u].task);
      assert Lost(e);
    } else {
      forall e | e in Future(s1) ensures !Lost(e) {
        NothingLost(s1, e);
      }
    }
  }

  lemma LoseFrom(s: State, u: Tid, d: Tid) returns (e: State)
    requires Invariant(s) && s.workers > 0 && Pending(s, u, d)
    ensures e in Future(s) && LostTask(e, s.pc[u].task)
  {
    hide Closed, Future, Sound, Invariant, Pending, LostTask, LateAdds;
    FutureSound(s);
    FutureClosed(s);
    PendingAdds(s, u, d);
    e := LateAddCanBeLost(Future(s), s, u, d);
  }

  lemma PendingAdds(s: State, u: Tid, d: Tid)
    requires Pending(s, u, d)
    ensures u in s.pc && AddInFlight(s.pc[u])
  {
  }

  lemma FlagClear(s: State)
    requires Invariant(s) && s.processOnStop && !s.stopping
    ensures !s.q.stopping && !s.lateAdds
  {
  }

  lemma NothingLost(s: State, e: State)
    requires Invariant(s) && s.processOnStop && s.stopping && !s.lateAdds && e in Future(s)
    ensures !Lost(e)
  {
    var run :| Feasible(s, run) && e == After(s, run);
    RunKeepsInvariant(s, run);
    RunKeepsLate(s, run);
    if JoinReturned(e) {
      var t :| t in e.pc && Joined(e.pc[t]);
      JoinedRanEverything(e, t);
    }
  }
}
