/** What every step of the queue keeps. */
module TsQueueInvariant {
  import opened Common
  import opened TsQueue

  /** A thread that, having seen the flag clear, sleeps or is about to sleep or take an element. */
  predicate Committed(p: Pc) {
    p.PopTest? || p.WaitSleep? || p.PopAsleep? || p.WaitAsleep?
  }

  /** A stop call that has set the flag and has not notified yet. */
  predicate OwesNotify(p: Pc) {
    p.StopNotify? || p.FlushNotify?
  }

  function Committing(s: State): set<Tid> {
    set t | t in s.pc && Committed(s.pc[t])
  }

  function Owing(s: State): set<Tid> {
    set t | t in s.pc && OwesNotify(s.pc[t])
  }

  ghost predicate MutualExclusion(s: State) {
    && (s.holder.Some? ==> s.holder.value in s.pc)
    && forall t :: t in s.pc ==> (Holding(s.pc[t]) <==> s.holder == Some(t))
  }

  /** First in, first out, and nothing lost: the accepted pushes are what was removed, in removal
      order, followed by what is queued. */
  ghost predicate Conserved(s: State) {
    s.accepted == TasksOf(s.removed) + s.queue
  }

  /** One if the mutex holder is a consumer about to look at the list. */
  function Testing(s: State): nat {
    if s.holder.Some? && s.holder.value in s.pc && s.pc[s.holder.value].PopTest? then 1 else 0
  }

  /** Before any stop, a sleeping consumer means every queued element has a consumer on its way. */
  ghost predicate PushesSignalled(s: State) {
    !s.stopping && PopSleepers(s.pc) != {} ==> |s.queue| <= |Signalled(s.pc)| + Testing(s)
  }

  /** After a stop, a thread can be asleep (or about to be) only while a stop call owes its notify. */
  ghost predicate StopsSignalled(s: State) {
    s.stopping && Committing(s) != {} ==> Owing(s) != {}
  }

  /** Nobody sleeps in `wait()` on an empty queue. */
  ghost predicate WaitersBlocked(s: State) {
    forall t :: t in s.pc && (s.pc[t].WaitSleep? || s.pc[t].WaitAsleep?) ==> s.queue != []
  }

  ghost predicate OwingMeansStopping(s: State) {
    forall t :: t in s.pc && OwesNotify(s.pc[t]) ==> s.stopping
  }

  /** Once a stop call has returned nobody is asleep and nobody is past a flag check. */
  ghost predicate Quiet(s: State) {
    s.stopReturned ==>
      && s.stopping
      && s.holder == None
      && forall t :: t in s.pc ==> !Asleep(s.pc[t])
  }

  ghost predicate Invariant(s: State) {
    && MutualExclusion(s)
    && Conserved(s)
    && PushesSignalled(s)
    && StopsSignalled(s)
    && WaitersBlocked(s)
    && OwingMeansStopping(s)
    && Quiet(s)
  }

  lemma InitHolds(threads: set<Tid>)
    ensures Invariant(Init(threads))
  {
  }

  // ----- what a step does to the other threads -----

  /** The other threads stay where they are, except that sleepers may be signalled. */
  ghost predicate OthersKept(s: State, s': State, t: Tid) {
    && s'.pc.Keys == s.pc.Keys
    && forall u :: u in s.pc && u != t ==>
         || s'.pc[u] == s.pc[u]
         || (s.pc[u].PopAsleep? && s'.pc[u].PopSignalled?)
         || (s.pc[u].WaitAsleep? && s'.pc[u].WaitSignalled?)
  }

  /** The stepping thread holds the mutex afterwards exactly if it is inside a split region, and the
      mutex changes hands only through it. */
  ghost predicate MutexKept(s: State, s': State, t: Tid)
    requires t in s.pc && t in s'.pc
  {
    if s'.holder == s.holder then Holding(s.pc[t]) <==> Holding(s'.pc[t])
    else (s.holder == None && s'.holder == Some(t) && Holding(s'.pc[t]))
         || (Holding(s.pc[t]) && s'.holder == None && !Holding(s'.pc[t]))
  }

  lemma StepFrame(s: State, a: Action)
    requires Enabled(s, a)
    ensures OthersKept(s, Step(s, a).state, a.t)
  {
    match a
    case Begin(t, call) =>
    case Advance(t, wake) =>
      match s.pc[t] {
        case PopTest =>
        case TryTest =>
        case PushCommit(_) =>
        case _ =>
      }
    case Spurious(t) =>
  }

  lemma StepMutex(s: State, a: Action)
    requires MutualExclusion(s) && Enabled(s, a)
    ensures a.t in Step(s, a).state.pc && MutexKept(s, Step(s, a).state, a.t)
  {
    match a
    case Begin(t, call) =>
    case Advance(t, wake) =>
      match s.pc[t] {
        case PopTest =>
        case TryTest =>
        case PushCommit(_) =>
        case _ =>
      }
    case Spurious(t) =>
  }

  /** Only `restart`, which is not part of the machine, clears the flag. */
  lemma StoppingStays(s: State, a: Action)
    requires Enabled(s, a) && s.stopping
    ensures Step(s, a).state.stopping
  {
  }

  // ----- one lemma per conjunct -----

  lemma StepKeepsMutualExclusion(s: State, a: Action)
    requires MutualExclusion(s) && Enabled(s, a)
    ensures MutualExclusion(Step(s, a).state)
  {
    var s' := Step(s, a).state;
    StepFrame(s, a);
    StepMutex(s, a);
    forall u | u in s'.pc ensures Holding(s'.pc[u]) <==> s'.holder == Some(u) {
      assert u in s.pc;
    }
  }

  /** A step leaves the list alone, or it pushes, or takes the front, or deletes everything. */
  ghost predicate ListMove(s: State, s': State) {
    || (s'.queue == s.queue && s'.accepted == s.accepted && s'.removed == s.removed)
    || (exists v :: s'.queue == s.queue + [v] && s'.accepted == s.accepted + [v] && s'.removed == s.removed)
    || (s.queue != [] && s'.queue == s.queue[1..] && s'.accepted == s.accepted
        && s'.removed == s.removed + [Popped(s.queue[0])])
    || (s'.queue == [] && s'.accepted == s.accepted && s'.removed == s.removed + DeleteAll(s.queue))
  }

  lemma StepMovesList(s: State, a: Action)
    requires Enabled(s, a)
    ensures ListMove(s, Step(s, a).state)
  {
    if a.Advance? && s.pc[a.t].PushCommit? {
      var v := s.pc[a.t].val;
      assert Step(s, a).state.queue == s.queue + [v];
    }
  }

  lemma TasksOfSum(a: seq<Removal>, b: seq<Removal>)
    ensures TasksOf(a + b) == TasksOf(a) + TasksOf(b)
  {
  }

  lemma ListMoveConserves(s: State, s': State)
    requires Conserved(s) && ListMove(s, s')
    ensures Conserved(s')
  {
    hide TasksOf;
    if s'.removed != s.removed {
      if s.queue != [] && s'.removed == s.removed + [Popped(s.queue[0])] && s'.queue == s.queue[1..] {
        TasksOfSum(s.removed, [Popped(s.queue[0])]);
        OneTask(s.queue[0]);
        assert s.queue == [s.queue[0]] + s.queue[1..];
      } else {
        TasksOfSum(s.removed, DeleteAll(s.queue));
        DeletedTasks(s.queue);
      }
    }
  }

  lemma OneTask(x: Task)
    ensures TasksOf([Popped(x)]) == [x]
  {
  }

  lemma DeletedTasks(queue: seq<Task>)
    ensures TasksOf(DeleteAll(queue)) == queue
  {
  }

  lemma StepKeepsConserved(s: State, a: Action)
    requires Conserved(s) && Enabled(s, a)
    ensures Conserved(Step(s, a).state)
  {
    hide Step, ListMove, Conserved;
    StepMovesList(s, a);
    ListMoveConserves(s, Step(s, a).state);
  }

  /** With the flag set, no step makes its thread committed. */
  lemma CommittedStays(s: State, a: Action)
    requires Enabled(s, a) && Step(s, a).state.stopping && !OwesNotify(s.pc[a.t])
    ensures a.t in Owing(Step(s, a).state)
         || (s.stopping && (a.t in Committing(Step(s, a).state) ==> a.t in Committing(s)))
  {
    match a
    case Begin(t, call) =>
    case Advance(t, wake) =>
    case Spurious(t) =>
  }

  lemma StepKeepsStopsSignalled(s: State, a: Action)
    requires MutualExclusion(s) && StopsSignalled(s) && OwingMeansStopping(s) && Enabled(s, a)
    ensures StopsSignalled(Step(s, a).state)
  {
    var s', t := Step(s, a).state, a.t;
    StepFrame(s, a);
    if t in Owing(s) {
      assert a.Advance? && s.holder == None;
      forall u | u in s'.pc ensures !Committed(s'.pc[u]) {
        assert u in s.pc && !Holding(s.pc[u]);
      }
    } else if s'.stopping && Committing(s') != {} {
      CommittedStays(s, a);
      if t !in Owing(s') {
        var u :| u in Committing(s');
        assert u in Committing(s);
        var w :| w in Owing(s);
        assert w in Owing(s');
      }
    }
  }

  lemma StepKeepsWaitersBlocked(s: State, a: Action)
    requires MutualExclusion(s) && WaitersBlocked(s) && Enabled(s, a)
    ensures WaitersBlocked(Step(s, a).state)
  {
    match a
    case Begin(t, call) =>
    case Advance(t, wake) =>
      match s.pc[t] {
        case PopTest =>
        case TryTest =>
        case PushCommit(_) =>
        case _ =>
      }
    case Spurious(t) =>
  }

  lemma StepKeepsOwing(s: State, a: Action)
    requires OwingMeansStopping(s) && Enabled(s, a)
    ensures OwingMeansStopping(Step(s, a).state)
  {
  }

  lemma StepKeepsQuiet(s: State, a: Action)
    requires MutualExclusion(s) && Quiet(s) && OwingMeansStopping(s) && Enabled(s, a)
    ensures Quiet(Step(s, a).state)
  {
  }

  /** How moving one thread changes the two sets that the push signal bound counts. */
  lemma MoveSets(pc: map<Tid, Pc>, t: Tid, p: Pc)
    requires t in pc
    ensures PopSleepers(pc[t := p]) == if p.PopAsleep? then PopSleepers(pc) + {t} else PopSleepers(pc) - {t}
    ensures Signalled(pc[t := p]) == if p.PopSignalled? then Signalled(pc) + {t} else Signalled(pc) - {t}
  {
  }

  lemma WakeWaitersSets(pc: map<Tid, Pc>)
    ensures PopSleepers(WakeWaiters(pc)) == PopSleepers(pc)
    ensures Signalled(WakeWaiters(pc)) == Signalled(pc)
  {
  }

  lemma PushCommitKeepsSignals(s: State, t: Tid, wake: Tid)
    requires MutualExclusion(s) && PushesSignalled(s) && Enabled(s, Advance(t, wake)) && s.pc[t].PushCommit?
    ensures PushesSignalled(PushCommitStep(s, t, wake).state)
  {
    MoveSets(s.pc, t, Idle);
    if PopSleepers(s.pc) != {} {
      MoveSets(s.pc[t := Idle], wake, PopSignalled);
      assert wake !in Signalled(s.pc);
    }
  }

  lemma TakeFrontKeepsSignals(s: State, t: Tid)
    requires MutualExclusion(s) && PushesSignalled(s) && t in s.pc && s.queue != []
    requires s.pc[t].PopTest? || s.pc[t].TryTest?
    ensures PushesSignalled(TakeFront(s, t).state)
  {
    MoveSets(s.pc, t, Idle);
    WakeWaitersSets(s.pc[t := Idle]);
  }

  /** A change of one thread's place that leaves the list alone. */
  ghost predicate PlainMove(s: State, s': State, t: Tid) {
    && t in s.pc
    && t in s'.pc
    && s'.pc == s.pc[t := s'.pc[t]]
    && s'.queue == s.queue
    && (s'.pc[t].PopAsleep? ==> s.pc[t].PopAsleep? || s.queue == [])
    && (s.pc[t].PopSignalled? ==> s'.holder == Some(t) && s'.pc[t].PopTest?)
    && (s.pc[t].PopTest? ==> s.queue == [])
    && (s'.holder == s.holder || s.holder == None || s.holder == Some(t))
  }

  /** Every step but a push, a removal or a notify is such a change. */
  lemma OtherStepsMovePlainly(s: State, a: Action)
    requires MutualExclusion(s) && Enabled(s, a) && !Step(s, a).state.stopping
    requires !OwesNotify(s.pc[a.t])
    requires a.Advance? ==> !s.pc[a.t].PushCommit?
    requires a.Advance? && (s.pc[a.t].PopTest? || s.pc[a.t].TryTest?) ==> s.queue == []
    ensures PlainMove(s, Step(s, a).state, a.t)
  {
  }

  lemma PlainMoveKeepsSignals(s: State, s': State, t: Tid)
    requires MutualExclusion(s) && PushesSignalled(s) && !s.stopping
    requires PlainMove(s, s', t)
    ensures PushesSignalled(s')
  {
    MoveSets(s.pc, t, s'.pc[t]);
  }

  lemma StepKeepsPushesSignalled(s: State, a: Action)
    requires MutualExclusion(s) && PushesSignalled(s) && OwingMeansStopping(s) && Enabled(s, a)
    ensures PushesSignalled(Step(s, a).state)
  {
    var t := a.t;
    if s.stopping {
      StoppingStays(s, a);
    }
    if !Step(s, a).state.stopping {
      if a.Advance? && s.pc[t].PushCommit? {
        PushCommitKeepsSignals(s, t, a.wake);
      } else if a.Advance? && (s.pc[t].PopTest? || s.pc[t].TryTest?) && s.queue != [] {
        TakeFrontKeepsSignals(s, t);
      } else {
        OtherStepsMovePlainly(s, a);
        PlainMoveKeepsSignals(s, Step(s, a).state, t);
      }
    }
  }

  lemma StepKeepsInvariant(s: State, a: Action)
    requires Invariant(s) && Enabled(s, a)
    ensures Invariant(Step(s, a).state)
  {
    StepKeepsMutualExclusion(s, a);
    StepKeepsConserved(s, a);
    StepKeepsPushesSignalled(s, a);
    StepKeepsStopsSignalled(s, a);
    StepKeepsWaitersBlocked(s, a);
    StepKeepsOwing(s, a);
    StepKeepsQuiet(s, a);
  }
}
