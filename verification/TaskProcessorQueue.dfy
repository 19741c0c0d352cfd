/** How the pool uses its queue: every pool step is a step of the queue machine or leaves the queue
    alone, so all theorems about the queue hold of a pool's queue too. */
module TaskProcessorQueue {
  import opened Common
  import Q = TsQueue
  import QI = TsQueueInvariant
  import QT = TsQueueTheorems
  import opened TaskProcessor

  /** The queue method a program counter of the queue belongs to. */
  datatype Method = NoMethod | InPush(val: Task) | InWaitPop | InTsPop | InWait | InStop | InStopProcessing

  function MethodOf(p: Q.Pc): Method {
    match p
    case Idle => NoMethod
    case PushLock(v) => InPush(v)
    case PushCommit(v) => InPush(v)
    case PopLock => InWaitPop
    case PopTest => InWaitPop
    case PopAsleep => InWaitPop
    case PopSignalled => InWaitPop
    case TryLock => InTsPop
    case TryTest => InTsPop
    case WaitLock => InWait
    case WaitSleep => InWait
    case WaitAsleep => InWait
    case WaitSignalled => InWait
    case StopNotify => InStop
    case FlushNotify => InStopProcessing
  }

  function MethodOfCall(c: Q.Call): Method {
    match c
    case CallPush(v) => InPush(v)
    case CallWaitPop => InWaitPop
    case CallTsPop => InTsPop
    case CallWait => InWait
    case CallStop => InStop
    case CallStopProcessing => InStopProcessing
  }

  /** The queue method a pool thread is in. */
  function MethodAt(p: Pc): Method {
    match p
    case Fetch => InWaitPop
    case Pushing(x) => InPush(x)
    case WaitQueue(_) => InWait
    case StopWait(_) => InWait
    case StopQueue(_) => InStop
    case TearDown => InStopProcessing
    case _ => NoMethod
  }

  predicate WorkerPc(p: Pc) {
    p.Fetch? || HasTask(p) || p.Exited?
  }

  /** The two program counters of a thread agree, and only the first `workers` threads are workers. */
  predicate Agree(workers: nat, t: Tid, p: Pc, qp: Q.Pc) {
    && (MethodOf(qp) == MethodAt(p) || (p.Fetch? && qp.Idle?))
    && (t < workers <==> WorkerPc(p))
  }

  ghost predicate Shape(s: State) {
    && s.pc.Keys == s.q.pc.Keys
    && Below(s.workers) <= s.pc.Keys
    && forall t :: t in s.pc ==> Agree(s.workers, t, s.pc[t], s.q.pc[t])
  }

  /** The queue step behind a pool step, if there is one. */
  function QueueAction(s: State, a: Action): Option<Q.Action>
    requires Enabled(s, a)
  {
    match a
    case AddPush(t) => Some(Q.Begin(t, Q.CallPush(s.pc[t].task)))
    case CallWait(t) => Some(Q.Begin(t, Q.CallWait))
    case StopBeginWait(t) => Some(Q.Begin(t, Q.CallWait))
    case StopBeginStop(t) => Some(Q.Begin(t, Q.CallStop))
    case FetchBegin(t) => Some(Q.Begin(t, Q.CallWaitPop))
    case InQueue(t, wake) => Some(Q.Advance(t, wake))
    case QueueSpurious(t) => Some(Q.Spurious(t))
    case Join(t) => Some(Q.Begin(t, Q.CallStopProcessing))
    case _ => None
  }

  /** Where the thread is while its queue method runs. */
  function Inside(s: State, a: Action): Pc
    requires Enabled(s, a)
  {
    match a
    case AddPush(t) => Pushing(s.pc[t].task)
    case CallWait(t) => WaitQueue(|s.q.accepted|)
    case StopBeginWait(t) => StopWait(s.pc[t].destroy)
    case StopBeginStop(t) => StopQueue(s.pc[t].destroy)
    case FetchBegin(t) => Fetch
    case InQueue(t, wake) => s.pc[t]
    case QueueSpurious(t) => s.pc[t]
    case Join(t) => TearDown
    case _ => s.pc[a.t]
  }

  /** A thread outside the queue's methods is idle in the queue. */
  lemma OutsideIdle(s: State, t: Tid)
    requires Shape(s) && t in s.pc && MethodAt(s.pc[t]).NoMethod?
    ensures t in s.q.pc && s.q.pc[t].Idle?
  {
    assert Agree(s.workers, t, s.pc[t], s.q.pc[t]);
  }

  /** A pool step with a queue action is that step of the queue's machine. */
  lemma StepByQueue(s: State, a: Action)
    requires Shape(s) && Enabled(s, a) && QueueAction(s, a).Some?
    ensures var qa := QueueAction(s, a).value;
      && qa.t == a.t
      && Q.Enabled(s.q, qa)
      && Step(s, a) == QueueStep(s, a.t, Inside(s, a), Q.Step(s.q, qa))
  {
    hide Shape, QueueStep, Q.BeginStep, Q.AdvanceStep, Q.SpuriousStep, Q.Holding, Q.NeedsMutex, Q.PopSleepers, MethodAt;
    if !a.InQueue? && !a.QueueSpurious? && !a.FetchBegin? {
      BeginsOutside(s, a);
      OutsideIdle(s, a.t);
    }
  }

  lemma BeginsOutside(s: State, a: Action)
    requires Enabled(s, a) && QueueAction(s, a).Some? && !a.InQueue? && !a.QueueSpurious? && !a.FetchBegin?
    ensures MethodAt(s.pc[a.t]).NoMethod?
  {
  }

  /** What can be returned from a method. */
  predicate Fits(m: Method, e: Q.Event) {
    match m
    case InPush(_) => e.PushReturned?
    case InWaitPop => e.PopReturned?
    case InTsPop => e.PopReturned?
    case InWait => e.WaitReturned?
    case InStop => e.StopReturned?
    case InStopProcessing => e.StopReturned?
    case NoMethod => false
  }

  /** A queue step keeps its thread in its method until the method returns. */
  lemma StepStaysInside(q: Q.State, a: Q.Action)
    requires Q.Enabled(q, a)
    ensures StaysInside(q, a, Q.Step(q, a))
  {
    if a.Advance? {
      hide Q.AdvanceStep;
      AdvanceStaysInside(q, a.t, a.wake);
    }
  }

  ghost predicate StaysInside(q: Q.State, a: Q.Action, o: Q.Outcome) {
    && a.t in q.pc
    && a.t in o.state.pc
    && if o.event.NoReturn? then MethodOf(o.state.pc[a.t]) == MethodEntered(q, a)
       else Fits(MethodEntered(q, a), o.event) && o.state.pc[a.t].Idle?
  }

  lemma AdvanceStaysInside(q: Q.State, t: Tid, wake: Tid)
    requires Q.Enabled(q, Q.Advance(t, wake))
    ensures StaysInside(q, Q.Advance(t, wake), Q.AdvanceStep(q, t, wake))
  {
    match q.pc[t] {
      case PopTest =>
      case TryTest =>
      case PushCommit(_) =>
      case _ =>
    }
  }

  /** What a queue step changes, seen from outside the queue. */
  ghost predicate QueueEffect(q: Q.State, q': Q.State, m: Method, e: Q.Event) {
    && q'.accepted == q.accepted + (if e == Q.PushReturned(true) && m.InPush? then [m.val] else [])
    && q'.removed == q.removed +
         (if e.PopReturned? && e.task.Some? then [Q.Popped(e.task.value)]
          else if m.InStopProcessing? && e.StopReturned? then Q.DeleteAll(q.queue)
          else [])
    && (q'.stopping <==> q.stopping || m.InStop? || m.InStopProcessing?)
    && (e.WaitReturned? ==> q.stopping || (q.queue == [] && q.holder == None))
    && (e == Q.PopReturned(None) && m.InWaitPop? ==> q.stopping)
  }

  lemma StepEffect(q: Q.State, a: Q.Action)
    requires Q.Enabled(q, a) && QI.OwingMeansStopping(q)
    ensures var m := MethodEntered(q, a);
      QueueEffect(q, Q.Step(q, a).state, m, Q.Step(q, a).event)
  {
    match a
    case Begin(t, call) =>
    case Advance(t, wake) =>
      match q.pc[t] {
        case PopTest =>
        case TryTest =>
        case PushCommit(_) =>
        case StopNotify => assert QI.OwesNotify(q.pc[t]);
        case FlushNotify => assert QI.OwesNotify(q.pc[t]);
        case _ =>
      }
    case Spurious(t) =>
  }

  /** A pool step through the queue, with everything the pool can observe of it. */
  ghost predicate QueueMove(s: State, s': State, t: Tid, inside: Pc, e: Q.Event) {
    && t in s.pc
    && s' == s.(q := s'.q,
                pc := s.pc[t := if e.NoReturn? then inside else Resume(inside, e)],
                rejected := if inside.Pushing? && e == Q.PushReturned(false) then s.rejected + {inside.task}
                            else s.rejected)
    && MethodAt(inside) != NoMethod
    && (e.NoReturn? || Fits(MethodAt(inside), e))
    && QueueEffect(s.q, s'.q, MethodAt(inside), e)
    && Origin(s, t, inside)
  }

  /** Where a thread can come from when it is at `inside` during a queue step. */
  ghost predicate Origin(s: State, t: Tid, inside: Pc)
    requires t in s.pc
  {
    match inside
    case Pushing(x) => s.pc[t] == inside || s.pc[t] == Adding(x)
    case WaitQueue(mark) => s.pc[t] == inside || (s.pc[t] == Free && mark == |s.q.accepted|)
    case StopWait(d) => s.pc[t] == inside || s.pc[t] == StopFlagged(d)
    case StopQueue(d) => s.pc[t] == inside || s.pc[t] == StopCall(d)
    case TearDown => s.pc[t] == inside || (s.pc[t] == Joining && AllExited(s))
    case _ => s.pc[t] == inside
  }

  ghost predicate Base(s: State) {
    Shape(s) && QI.Invariant(s.q)
  }

  function MethodEntered(q: Q.State, a: Q.Action): Method
    requires a.t in q.pc
  {
    if a.Begin? then MethodOfCall(a.call) else MethodOf(q.pc[a.t])
  }

  lemma InsideOrigin(s: State, a: Action)
    requires Enabled(s, a) && QueueAction(s, a).Some?
    ensures Origin(s, a.t, Inside(s, a))
    ensures WorkerPc(Inside(s, a)) <==> WorkerPc(s.pc[a.t])
  {
    hide Q.Enabled;
  }

  lemma InsideFits(s: State, a: Action)
    requires Shape(s) && Enabled(s, a) && QueueAction(s, a).Some?
    ensures var qa := QueueAction(s, a).value;
      && qa.t == a.t
      && MethodAt(Inside(s, a)) != NoMethod
      && MethodAt(Inside(s, a)) == MethodEntered(s.q, qa)
  {
    hide Shape, MethodAt, MethodOf, MethodOfCall, Q.Holding, Q.NeedsMutex, AllExited;
    if a.InQueue? || a.QueueSpurious? {
      RunFits(s, a.t, a);
    } else {
      BeginFits(s, a);
    }
  }

  lemma BeginFits(s: State, a: Action)
    requires Enabled(s, a) && QueueAction(s, a).Some? && !a.InQueue? && !a.QueueSpurious?
    ensures MethodAt(Inside(s, a)) == MethodEntered(s.q, QueueAction(s, a).value) != NoMethod
  {
  }

  lemma RunFits(s: State, t: Tid, a: Action)
    requires Shape(s) && Enabled(s, a) && (a.InQueue? || a.QueueSpurious?) && t == a.t
    ensures MethodOf(s.q.pc[t]) == MethodAt(s.pc[t]) != NoMethod
  {
    hide Agree, MethodOf, MethodAt, Q.Holding, Q.NeedsMutex;
    assert Agree(s.workers, t, s.pc[t], s.q.pc[t]);
    BusyAgrees(s.workers, t, s.pc[t], s.q.pc[t]);
  }

  lemma BusyAgrees(workers: nat, t: Tid, p: Pc, qp: Q.Pc)
    requires Agree(workers, t, p, qp) && !qp.Idle?
    ensures MethodOf(qp) == MethodAt(p) != NoMethod
  {
  }

  lemma QueueStepIsMove(s: State, a: Action)
    requires Base(s) && Enabled(s, a) && QueueAction(s, a).Some?
    ensures Q.Enabled(s.q, QueueAction(s, a).value)
    ensures QueueMove(s, Step(s, a), a.t, Inside(s, a), Q.Step(s.q, QueueAction(s, a).value).event)
  {
    StepByQueue(s, a);
    InsideOrigin(s, a);
    InsideFits(s, a);
    StepStaysInside(s.q, QueueAction(s, a).value);
    StepEffect(s.q, QueueAction(s, a).value);
    StepOfOutcome(s, a, Q.Step(s.q, QueueAction(s, a).value));
  }

  lemma StepOfOutcome(s: State, a: Action, o: Q.Outcome)
    requires Base(s) && Enabled(s, a)
    requires Step(s, a) == QueueStep(s, a.t, Inside(s, a), o)
    requires Origin(s, a.t, Inside(s, a)) && MethodAt(Inside(s, a)) != NoMethod
    requires o.event.NoReturn? || Fits(MethodAt(Inside(s, a)), o.event)
    requires QueueEffect(s.q, o.state, MethodAt(Inside(s, a)), o.event)
    ensures QueueMove(s, Step(s, a), a.t, Inside(s, a), o.event)
  {
  }

  lemma SignalledAgrees(workers: nat, t: Tid, p: Pc, qp: Q.Pc, qp': Q.Pc)
    requires Agree(workers, t, p, qp)
    requires qp' == qp || (qp.PopAsleep? && qp'.PopSignalled?) || (qp.WaitAsleep? && qp'.WaitSignalled?)
    ensures Agree(workers, t, p, qp')
  {
  }

  /** Returning from its method, a thread is at a place outside the queue again. */
  lemma ResumeAgrees(workers: nat, t: Tid, inside: Pc, e: Q.Event, qp: Q.Pc)
    requires MethodAt(inside) != NoMethod && Fits(MethodAt(inside), e) && qp.Idle?
    requires t < workers <==> WorkerPc(inside)
    ensures Agree(workers, t, Resume(inside, e), qp)
  {
  }

  /** A queue move keeps the shape if the queue step kept its thread inside the method. */
  lemma MoveKeepsShape(s: State, s': State, t: Tid, inside: Pc, e: Q.Event)
    requires Shape(s) && QueueMove(s, s', t, inside, e)
    requires QI.OthersKept(s.q, s'.q, t)
    requires t in s'.q.pc && (WorkerPc(inside) <==> WorkerPc(s.pc[t]))
    requires if e.NoReturn? then MethodOf(s'.q.pc[t]) == MethodAt(inside) else s'.q.pc[t].Idle?
    ensures Shape(s')
  {
    assert Agree(s.workers, t, s.pc[t], s.q.pc[t]);
    forall u | u in s'.pc ensures Agree(s'.workers, u, s'.pc[u], s'.q.pc[u]) {
      if u != t {
        assert Agree(s.workers, u, s.pc[u], s.q.pc[u]);
        SignalledAgrees(s.workers, u, s.pc[u], s.q.pc[u], s'.q.pc[u]);
      } else if !e.NoReturn? {
        ResumeAgrees(s.workers, t, inside, e, s'.q.pc[t]);
      }
    }
  }

  // ----- steps that leave the queue alone -----

  /** The moves a thread can make without the queue. */
  predicate LocalMove(p: Pc, p': Pc) {
    match p
    case Free => p'.Free? || p'.Adding? || p'.StopFlagged? || p'.StopCall?
    case Got(x) => p' == Counted(x)
    case Counted(x) => p' == Ran(x)
    case Ran(_) => p' == Fetch
    case WaitCount(mark) => p' == CountAsleep(mark) || p' == Free
    case CountAsleep(mark) => p' == WaitCount(mark)
    case _ => false
  }

  /** The other threads stay where they are, or are woken from `wait_condition_`. */
  ghost predicate OthersLocal(pc: map<Tid, Pc>, pc': map<Tid, Pc>, t: Tid) {
    && pc'.Keys == pc.Keys
    && forall u :: u in pc && u != t ==>
         pc'[u] == pc[u] || (pc[u].CountAsleep? && pc'[u] == WaitCount(pc[u].mark))
  }

  /** What a move changes of the counter and of the histories of tasks. */
  ghost predicate WorkEffect(s: State, s': State, p: Pc, p': Pc) {
    && s'.working == s.working + (if p.Got? then 1 else if p.Ran? then -1 else 0)
    && s'.ran == s.ran + (if p.Counted? then [p.task] else [])
    && s'.finished == s.finished + (if p.Ran? then [p.task] else [])
    && (p.Ran? && s'.working == 0 ==> forall u :: u in s'.pc ==> !s'.pc[u].CountAsleep?)
    && (p'.CountAsleep? ==> s.working != 0)
    && (p.WaitCount? && p'.Free? ==> s.working == 0)
    && (forall u :: u in s.pc && u in s'.pc && s.pc[u].CountAsleep? && !s'.pc[u].CountAsleep? ==>
          p.CountAsleep? || (p.Ran? && s'.working == 0))
  }

  /** What a move changes of the record of `add_task` calls: a task is let in, or refused. */
  ghost predicate AddEffect(s: State, s': State, p': Pc) {
    if p'.Adding? then
      !s.stopping && p'.task !in s.created && s'.created == s.created + {p'.task} && s'.rejected == s.rejected
    else
      || (s'.created == s.created && s'.rejected == s.rejected)
      || (s.stopping && exists x :: x !in s.created && s'.created == s.created + {x} && s'.rejected == s.rejected + {x})
  }

  /** What a move changes of the pool's flag. */
  ghost predicate FlagEffect(s: State, s': State, p: Pc, p': Pc) {
    && s'.stopping == (s.stopping || p'.StopFlagged?)
    && s'.lateAdds == (s.lateAdds || (p'.StopFlagged? && !s.stopping && LateAdds(s.pc, s.q.pc) != {}))
    && (p'.StopFlagged? ==> s.processOnStop)
    && (p'.StopCall? ==> !s.processOnStop)
  }

  /** A pool step outside the queue, with everything it changes. */
  ghost predicate LocalEffect(s: State, s': State, t: Tid) {
    && t in s.pc && t in s'.pc
    && s'.q == s.q && s'.workers == s.workers && s'.processOnStop == s.processOnStop
    && OthersLocal(s.pc, s'.pc, t)
    && LocalMove(s.pc[t], s'.pc[t])
    && WorkEffect(s, s', s.pc[t], s'.pc[t])
    && AddEffect(s, s', s'.pc[t])
    && FlagEffect(s, s', s.pc[t], s'.pc[t])
  }

  lemma LocalStepEffect(s: State, a: Action)
    requires Enabled(s, a) && QueueAction(s, a).None?
    ensures LocalEffect(s, Step(s, a), a.t)
  {
    hide LocalEffect, AddTaskStep, CallStopStep, CountOutStep;
    match a
    case AddTask(t, x) => AddTaskEffect(s, t, x);
    case CallStop(t, destroy) => CallStopEffect(s, t, destroy);
    case CountOut(t) => CountOutEffect(s, t);
    case CountIn(t) => OwnMoveEffect(s, a);
    case RunBody(t) => OwnMoveEffect(s, a);
    case TestCount(t) => OwnMoveEffect(s, a);
    case CountSpurious(t) => OwnMoveEffect(s, a);
  }

  lemma AddTaskEffect(s: State, t: Tid, x: Task)
    requires t in s.pc && s.pc[t].Free? && x !in s.created
    ensures LocalEffect(s, AddTaskStep(s, t, x), t)
  {
  }

  lemma CallStopEffect(s: State, t: Tid, destroy: bool)
    requires t in s.pc && s.pc[t].Free?
    ensures LocalEffect(s, CallStopStep(s, t, destroy), t)
  {
  }

  lemma CountOutEffect(s: State, t: Tid)
    requires t in s.pc && s.pc[t].Ran?
    ensures LocalEffect(s, CountOutStep(s, t), t)
  {
  }

  lemma OwnMoveEffect(s: State, a: Action)
    requires Enabled(s, a) && (a.CountIn? || a.RunBody? || a.TestCount? || a.CountSpurious?)
    ensures LocalEffect(s, Step(s, a), a.t)
  {
  }

  lemma LocalMoveAgrees(workers: nat, t: Tid, p: Pc, p': Pc, qp: Q.Pc)
    requires Agree(workers, t, p, qp) && LocalMove(p, p')
    ensures Agree(workers, t, p', qp)
  {
  }

  lemma WokenAgrees(workers: nat, t: Tid, p: Pc, qp: Q.Pc)
    requires Agree(workers, t, p, qp) && p.CountAsleep?
    ensures Agree(workers, t, WaitCount(p.mark), qp)
  {
  }

  lemma LocalKeepsShape(s: State, s': State, t: Tid)
    requires Shape(s) && LocalEffect(s, s', t)
    ensures Shape(s')
  {
    hide Agree, LocalMove, WorkEffect, AddEffect, FlagEffect;
    forall u | u in s'.pc ensures Agree(s'.workers, u, s'.pc[u], s'.q.pc[u]) {
      assert Agree(s.workers, u, s.pc[u], s.q.pc[u]);
      if u == t {
        LocalMoveAgrees(s.workers, u, s.pc[u], s'.pc[u], s.q.pc[u]);
      } else if s.pc[u].CountAsleep? {
        WokenAgrees(s.workers, u, s.pc[u], s.q.pc[u]);
      }
    }
  }

  lemma StepKeepsBase(s: State, a: Action)
    requires Base(s) && Enabled(s, a)
    ensures Base(Step(s, a))
  {
    if QueueAction(s, a).Some? {
      var qa := QueueAction(s, a).value;
      StepByQueue(s, a);
      InsideOrigin(s, a);
      InsideFits(s, a);
      QI.StepKeepsInvariant(s.q, qa);
      QI.StepFrame(s.q, qa);
      StepStaysInside(s.q, qa);
      QueueStepIsMove(s, a);
      MoveKeepsShape(s, Step(s, a), a.t, Inside(s, a), Q.Step(s.q, qa).event);
    } else {
      LocalStepEffect(s, a);
      LocalKeepsShape(s, Step(s, a), a.t);
    }
  }
}
