/** What holds of every run of the queue, for any number of threads and any interleaving. */
module TsQueueTheorems {
  import opened Common
  import opened TsQueue
  import opened TsQueueInvariant

  lemma {:induction false} RunKeepsInvariant(s: State, run: seq<Action>)
    requires Invariant(s) && Feasible(s, run)
    ensures Invariant(After(s, run))
    decreases |run|
  {
    if run == [] {
    } else {
      StepKeepsInvariant(s, run[0]);
      RunKeepsInvariant(Step(s, run[0]).state, run[1..]);
    }
  }

  lemma RunFromInit(threads: set<Tid>, run: seq<Action>)
    requires Feasible(Init(threads), run)
    ensures Invariant(After(Init(threads), run))
  {
    InitHolds(threads);
    RunKeepsInvariant(Init(threads), run);
  }

  // ----- first in, first out -----

  /** What a step adds to the queue as far as its caller is told: the value of a `push` that returns true. */
  function PushedBy(p: Pc, e: Event): seq<Task> {
    if e == PushReturned(true) && p.PushCommit? then [p.val] else []
  }

  /** What a step hands to its caller. */
  function TakenBy(e: Event): seq<Task> {
    if e.PopReturned? && e.task.Some? then [e.task.value] else []
  }

  /** The values of the `push` calls that returned true along a run, in the order they committed. */
  ghost function Pushes(s: State, run: seq<Action>): seq<Task>
    requires Feasible(s, run)
    decreases |run|
  {
    if run == [] then []
    else PushedBy(s.pc[run[0].t], Step(s, run[0]).event) + Pushes(Step(s, run[0]).state, run[1..])
  }

  /** The elements handed out by `wait_pop` and `ts_pop` along a run, in order. */
  ghost function Takes(s: State, run: seq<Action>): seq<Task>
    requires Feasible(s, run)
    decreases |run|
  {
    if run == [] then [] else TakenBy(Step(s, run[0]).event) + Takes(Step(s, run[0]).state, run[1..])
  }

  /** The elements among the removals that went to a caller. */
  ghost function PoppedOf(rs: seq<Removal>): seq<Task> {
    if rs == [] then []
    else PoppedOf(rs[..|rs| - 1]) + (if rs[|rs| - 1].Popped? then [rs[|rs| - 1].task] else [])
  }

  lemma {:induction false} PoppedOfDeletes(rs: seq<Removal>, queue: seq<Task>)
    ensures PoppedOf(rs + DeleteAll(queue)) == PoppedOf(rs)
    decreases |queue|
  {
    var all := rs + DeleteAll(queue);
    if queue == [] {
      assert all == rs;
    } else {
      var n := |queue| - 1;
      assert all[..|all| - 1] == rs + DeleteAll(queue[..n]);
      PoppedOfDeletes(rs, queue[..n]);
    }
  }

  /** One step extends the accepted pushes by exactly the push that returns true in it. */
  lemma StepAccepts(s: State, a: Action)
    requires Enabled(s, a)
    ensures Step(s, a).state.accepted == s.accepted + PushedBy(s.pc[a.t], Step(s, a).event)
    ensures Step(s, a).event == PushReturned(true) ==> a.Advance? && s.pc[a.t].PushCommit?
  {
  }

  /** One step extends the removals by what it hands out, or by deletions. */
  lemma StepRemoves(s: State, a: Action)
    requires Enabled(s, a)
    ensures var o := Step(s, a);
      if o.event.PopReturned? && o.event.task.Some?
      then o.state.removed == s.removed + [Popped(o.event.task.value)]
      else o.state.removed == s.removed || o.state.removed == s.removed + DeleteAll(s.queue)
  {
  }

  lemma StepPops(s: State, a: Action)
    requires Enabled(s, a)
    ensures PoppedOf(Step(s, a).state.removed) == PoppedOf(s.removed) + TakenBy(Step(s, a).event)
  {
    StepRemoves(s, a);
    PoppedOfDeletes(s.removed, s.queue);
    var e := Step(s, a).event;
    if e.PopReturned? && e.task.Some? {
      assert (s.removed + [Popped(e.task.value)])[..|s.removed|] == s.removed;
    }
  }

  lemma {:induction false} RunAccepts(s: State, run: seq<Action>)
    requires Feasible(s, run)
    ensures After(s, run).accepted == s.accepted + Pushes(s, run)
    decreases |run|
  {
    if run == [] {
    } else {
      StepAccepts(s, run[0]);
      RunAccepts(Step(s, run[0]).state, run[1..]);
    }
  }

  lemma {:induction false} RunPops(s: State, run: seq<Action>)
    requires Feasible(s, run)
    ensures PoppedOf(After(s, run).removed) == PoppedOf(s.removed) + Takes(s, run)
    decreases |run|
  {
    hide Step, Enabled, PoppedOf, TakenBy;
    if run == [] {
    } else {
      StepPops(s, run[0]);
      RunPops(Step(s, run[0]).state, run[1..]);
    }
  }

  /** Conservation over all interleavings: the pushes that returned true, in order, are the elements
      removed so far in removal order followed by the queue; the removed elements that were not
      handed to a caller are those `stop_processing` deleted. */
  lemma FifoConservation(threads: set<Tid>, run: seq<Action>)
    requires Feasible(Init(threads), run)
    ensures var s := After(Init(threads), run);
      && Pushes(Init(threads), run) == TasksOf(s.removed) + s.queue
      && Takes(Init(threads), run) == PoppedOf(s.removed)
  {
    RunFromInit(threads, run);
    RunAccepts(Init(threads), run);
    RunPops(Init(threads), run);
  }

  lemma {:induction false} PoppedOfAll(rs: seq<Removal>)
    requires forall i :: 0 <= i < |rs| ==> rs[i].Popped?
    ensures PoppedOf(rs) == TasksOf(rs)
    decreases |rs|
  {
    if rs != [] {
      PoppedOfAll(rs[..|rs| - 1]);
      assert TasksOf(rs) == TasksOf(rs[..|rs| - 1]) + [rs[|rs| - 1].task];
    }
  }

  /** While nothing has been deleted, consumers have received exactly a prefix of what was pushed. */
  lemma DeliveredInOrder(threads: set<Tid>, run: seq<Action>)
    requires Feasible(Init(threads), run)
    requires forall i :: 0 <= i < |After(Init(threads), run).removed| ==> After(Init(threads), run).removed[i].Popped?
    ensures Pushes(Init(threads), run) == Takes(Init(threads), run) + After(Init(threads), run).queue
  {
    FifoConservation(threads, run);
    PoppedOfAll(After(Init(threads), run).removed);
  }

  /** Distinct elements of a concatenation lie in exactly one of its parts. */
  lemma SplitNoDup<T>(all: seq<T>, l: seq<T>, r: seq<T>, x: T)
    requires all == l + r && NoDup(all)
    ensures NoDup(l) && NoDup(r)
    ensures x in all <==> x in l || x in r
    ensures !(x in l && x in r)
  {
    assert forall i :: 0 <= i < |l| ==> all[i] == l[i];
    assert forall i :: 0 <= i < |r| ==> all[|l| + i] == r[i];
  }

  lemma RemovalOf(rs: seq<Removal>, x: Task)
    requires NoDup(TasksOf(rs))
    ensures x in TasksOf(rs) <==> Popped(x) in rs || Deleted(x) in rs
    ensures !(Popped(x) in rs && Deleted(x) in rs)
  {
    assert forall i :: 0 <= i < |rs| ==> TasksOf(rs)[i] == rs[i].task;
    if x in TasksOf(rs) {
      var i :| 0 <= i < |rs| && TasksOf(rs)[i] == x;
      assert rs[i] in rs;
    }
  }

  /** With distinct elements, each is in exactly one place: still queued, popped once, or deleted once. */
  lemma EachElementOnce(threads: set<Tid>, run: seq<Action>, x: Task)
    requires Feasible(Init(threads), run)
    requires NoDup(Pushes(Init(threads), run))
    ensures var s := After(Init(threads), run);
      && NoDup(TasksOf(s.removed))
      && NoDup(s.queue)
      && (x in Pushes(Init(threads), run) <==> (x in s.queue || Popped(x) in s.removed || Deleted(x) in s.removed))
      && !(x in s.queue && Popped(x) in s.removed)
      && !(x in s.queue && Deleted(x) in s.removed)
      && !(Popped(x) in s.removed && Deleted(x) in s.removed)
  {
    FifoConservation(threads, run);
    var s := After(Init(threads), run);
    SplitNoDup(Pushes(Init(threads), run), TasksOf(s.removed), s.queue, x);
    RemovalOf(s.removed, x);
  }

  // ----- answers -----

  /** What each method may answer.  `push` refuses and `wait_pop` gives nothing only with the flag set, `ts_pop` also
      on an empty queue; `wait` returns only with the flag set or on an empty queue; stop calls set the flag. */
  lemma AnswersJustified(s: State, a: Action)
    requires OwingMeansStopping(s) && Enabled(s, a)
    ensures var e := Step(s, a).event;
      && (e == PushReturned(false) ==> s.stopping)
      && (e == PopReturned(None) ==> s.stopping || (s.queue == [] && a.Advance? && s.pc[a.t].TryTest?))
      && (e == WaitReturned ==> s.stopping || s.queue == [])
      && (e == StopReturned ==> s.stopping)
      && (e.PopReturned? && e.task.Some? ==> s.queue != [] && e.task.value == s.queue[0])
  {
    assert a.Advance? && OwesNotify(s.pc[a.t]) ==> s.stopping;
  }

  /** Whoever holds the mutex next returns or falls asleep: no method spins. */
  lemma ReturnsOrSleeps(s: State, t: Tid, wake: Tid)
    requires Enabled(s, Advance(t, wake)) && Holding(s.pc[t])
    ensures var o := Step(s, Advance(t, wake));
      t in o.state.pc && if o.event.NoReturn? then Asleep(o.state.pc[t]) else o.state.pc[t].Idle?
  {
  }

  /** A step that takes the front element. */
  predicate TakesFront(s: State, a: Action) {
    a.Advance? && a.t in s.pc && (s.pc[a.t].PopTest? || s.pc[a.t].TryTest?) && s.queue != []
  }

  /** Who wakes a sleeper, itself aside: a stop call giving its notify; or, for a consumer, the push that picks it, and
      for a thread in `wait`, whoever takes the last element. */
  lemma WakesJustified(s: State, a: Action, u: Tid)
    requires Enabled(s, a) && u in s.pc && Asleep(s.pc[u]) && a.t != u
    requires u in Step(s, a).state.pc && !Asleep(Step(s, a).state.pc[u])
    ensures a.Advance? &&
            (OwesNotify(s.pc[a.t])
             || (s.pc[u].PopAsleep? && s.pc[a.t].PushCommit? && a.wake == u)
             || (s.pc[u].WaitAsleep? && TakesFront(s, a) && Step(s, a).state.queue == []))
  {
  }

  /** With the flag set every method but the two stops returns as soon as it is called. */
  lemma StoppedReturnsAtOnce(s: State, t: Tid, call: Call)
    requires s.stopping && Enabled(s, Begin(t, call)) && !call.CallStop? && !call.CallStopProcessing?
    ensures !Step(s, Begin(t, call)).event.NoReturn? && Step(s, Begin(t, call)).state == s
  {
  }

  // ----- no push wakeup is lost -----

  /** Whenever the mutex is free before a stop, a sleeping consumer means that at least as many
      signalled consumers are on their way as there are elements. */
  lemma NoPushWakeupLost(threads: set<Tid>, run: seq<Action>)
    requires Feasible(Init(threads), run)
    ensures var s := After(Init(threads), run);
      !s.stopping && PopSleepers(s.pc) != {} ==>
        && |s.queue| <= |Signalled(s.pc)| + Testing(s)
        && (s.holder == None ==> |s.queue| <= |Signalled(s.pc)|)
  {
    RunFromInit(threads, run);
  }

  predicate InWaitPop(p: Pc) {
    p.PopLock? || p.PopTest? || p.PopAsleep? || p.PopSignalled?
  }

  /** Hence a non-empty queue never leaves all consumers asleep: the mutex holder can move, and with
      the mutex free a consumer can. */
  lemma NonEmptyQueueMoves(threads: set<Tid>, run: seq<Action>, c: Tid)
    requires Feasible(Init(threads), run)
    requires var s := After(Init(threads), run);
      !s.stopping && s.queue != [] && c in s.pc && InWaitPop(s.pc[c])
    ensures var s := After(Init(threads), run);
      exists t, wake :: t in s.pc && Enabled(s, Advance(t, wake))
        && (if s.holder == None then InWaitPop(s.pc[t]) else s.holder == Some(t))
  {
    RunFromInit(threads, run);
    var s := After(Init(threads), run);
    if s.holder.Some? {
      HolderMoves(s);
    } else if s.pc[c].PopAsleep? {
      assert c in PopSleepers(s.pc);
      var t :| t in Signalled(s.pc);
      assert Enabled(s, Advance(t, t));
    } else {
      assert Enabled(s, Advance(c, c));
    }
  }

  /** Whoever holds the mutex has a step, so the mutex is never held for good. */
  lemma HolderMoves(s: State)
    requires MutualExclusion(s) && s.holder.Some?
    ensures exists wake :: Enabled(s, Advance(s.holder.value, wake))
  {
    var t := s.holder.value;
    if PopSleepers(s.pc) != {} {
      var w :| w in PopSleepers(s.pc);
      assert Enabled(s, Advance(t, w));
    } else {
      assert Enabled(s, Advance(t, t));
    }
  }

  // ----- no stop is lost -----

  /** A thread asleep although the flag is set is still owed a notify by a stop call under way;
      and nobody ever sleeps in `wait()` while the queue is empty. */
  lemma NoStopLost(threads: set<Tid>, run: seq<Action>, t: Tid)
    requires Feasible(Init(threads), run)
    requires t in After(Init(threads), run).pc && Asleep(After(Init(threads), run).pc[t])
    ensures var s := After(Init(threads), run);
      && (s.stopping ==> exists u :: u in s.pc && OwesNotify(s.pc[u]))
      && (s.pc[t].WaitAsleep? ==> s.queue != [])
  {
    RunFromInit(threads, run);
    var s := After(Init(threads), run);
    assert t in Committing(s);
    if s.stopping {
      var u :| u in Owing(s);
      assert u in s.pc && OwesNotify(s.pc[u]);
    }
  }

  lemma QuietStep(s: State, a: Action)
    requires Invariant(s) && s.stopReturned && Enabled(s, a)
    ensures var o := Step(s, a);
      && o.state.stopReturned
      && o.state.accepted == s.accepted
      && o.event != PushReturned(true)
      && !(o.event.PopReturned? && o.event.task.Some?)
  {
  }

  /** Once a stop call has returned: nobody is asleep, no push is accepted, and no `wait_pop` or
      `ts_pop` yields an element, whatever runs afterwards. */
  lemma {:induction false} StopIsFinal(s: State, run: seq<Action>)
    requires Invariant(s) && s.stopReturned && Feasible(s, run)
    ensures Pushes(s, run) == [] && Takes(s, run) == []
    ensures forall t :: t in After(s, run).pc ==> !Asleep(After(s, run).pc[t])
    decreases |run|
  {
    if run == [] {
    } else {
      QuietStep(s, run[0]);
      StepKeepsInvariant(s, run[0]);
      StopIsFinal(Step(s, run[0]).state, run[1..]);
    }
  }

  /** The step in which `stop` or `stop_processing` returns is what starts that final phase. */
  lemma StopReturnedStep(s: State, a: Action)
    requires Enabled(s, a)
    ensures Step(s, a).event == StopReturned ==> Step(s, a).state.stopReturned
    ensures Step(s, a).state.stopReturned ==> s.stopReturned || Step(s, a).event == StopReturned
  {
  }
}
