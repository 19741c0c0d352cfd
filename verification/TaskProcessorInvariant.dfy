/** What every step of the pool keeps. */
module TaskProcessorInvariant {
  import opened Common
  import Q = TsQueue
  import QI = TsQueueInvariant
  import opened TaskProcessor
  import opened TaskProcessorQueue

  // ----- the counter -----

  /** `working_threads_` is the number of workers between the two counted blocks, and nobody sleeps
      on `wait_condition_` when it is zero. */
  ghost predicate Counting(s: State) {
    && s.working == |CountedSet(s.pc)|
    && forall t :: t in s.pc && s.pc[t].CountAsleep? ==> s.working != 0
  }

  lemma CountedMove(pc: map<Tid, Pc>, t: Tid, p: Pc)
    requires t in pc
    ensures CountedSet(pc[t := p]) == if InCount(p) then CountedSet(pc) + {t} else CountedSet(pc) - {t}
  {
  }

  /** No method of the queue is entered, run or left inside a counted block or asleep in `wait`. */
  lemma MoveUncounted(s: State, s': State, t: Tid, inside: Pc, e: Q.Event)
    requires QueueMove(s, s', t, inside, e)
    ensures s'.working == s.working && t in s'.pc && s'.pc == s.pc[t := s'.pc[t]]
    ensures !InCount(s.pc[t]) && !InCount(s'.pc[t]) && !s'.pc[t].CountAsleep?
  {
  }

  lemma MoveKeepsCounting(s: State, s': State, t: Tid, inside: Pc, e: Q.Event)
    requires Counting(s) && QueueMove(s, s', t, inside, e)
    ensures Counting(s')
  {
    MoveUncounted(s, s', t, inside, e);
    CountedMove(s.pc, t, s'.pc[t]);
    assert CountedSet(s'.pc) == CountedSet(s.pc);
  }

  lemma CountedLocal(pc: map<Tid, Pc>, pc': map<Tid, Pc>, t: Tid)
    requires OthersLocal(pc, pc', t) && t in pc
    ensures CountedSet(pc') == if InCount(pc'[t]) then CountedSet(pc) + {t} else CountedSet(pc) - {t}
  {
  }

  lemma MoveCounts(p: Pc, p': Pc)
    requires LocalMove(p, p')
    ensures InCount(p) <==> p.Ran? || (!p.Got? && InCount(p'))
    ensures InCount(p') <==> p.Got? || (!p.Ran? && InCount(p))
  {
  }

  lemma LocalCounter(s: State, s': State, t: Tid)
    requires s.working == |CountedSet(s.pc)| && LocalEffect(s, s', t)
    ensures s'.working == |CountedSet(s'.pc)|
  {
    hide OthersLocal, LocalMove, AddEffect, FlagEffect;
    CountedLocal(s.pc, s'.pc, t);
    MoveCounts(s.pc[t], s'.pc[t]);
    assert t in CountedSet(s.pc) <==> InCount(s.pc[t]);
  }

  lemma LocalKeepsCounting(s: State, s': State, t: Tid)
    requires Counting(s) && LocalEffect(s, s', t)
    ensures Counting(s')
  {
    hide AddEffect, FlagEffect, CountedSet;
    LocalCounter(s, s', t);
  }

  // ----- every task is added once -----

  ghost predicate Fresh(s: State) {
    && NoDup(s.q.accepted)
    && s.rejected <= s.created
    && (forall x :: x in s.q.accepted ==> x in s.created && x !in s.rejected)
    && (forall t :: t in s.pc && AddInFlight(s.pc[t]) ==>
          s.pc[t].task in s.created && s.pc[t].task !in s.q.accepted && s.pc[t].task !in s.rejected)
    && (forall t, u :: t in s.pc && u in s.pc && t != u && AddInFlight(s.pc[t]) && AddInFlight(s.pc[u])
          ==> s.pc[t].task != s.pc[u].task)
  }

  lemma MoveKeepsFresh(s: State, s': State, t: Tid, inside: Pc, e: Q.Event)
    requires Fresh(s) && QueueMove(s, s', t, inside, e)
    ensures Fresh(s')
  {
    assert AddInFlight(s'.pc[t]) ==> AddInFlight(s.pc[t]) && s'.pc[t].task == s.pc[t].task;
    if inside.Pushing? {
      assert AddInFlight(s.pc[t]) && s.pc[t].task == inside.task;
    }
  }

  lemma LocalKeepsFresh(s: State, s': State, t: Tid)
    requires Fresh(s) && LocalEffect(s, s', t)
    ensures Fresh(s')
  {
    assert forall u :: u in s.pc && u != t && AddInFlight(s'.pc[u]) ==> s'.pc[u] == s.pc[u];
    assert AddInFlight(s'.pc[t]) ==> s'.pc[t].Adding?;
  }

  /** Every task handed to `add_task` is accepted, refused, or still inside the call. */
  ghost predicate Traced(s: State) {
    forall x :: x in s.created ==>
      x in s.q.accepted || x in s.rejected || exists t :: t in s.pc && AddInFlight(s.pc[t]) && s.pc[t].task == x
  }

  lemma MoveKeepsTraced(s: State, s': State, t: Tid, inside: Pc, e: Q.Event)
    requires Traced(s) && QueueMove(s, s', t, inside, e)
    ensures Traced(s')
  {
    forall x | x in s'.created && x !in s'.q.accepted && x !in s'.rejected
      ensures exists u :: u in s'.pc && AddInFlight(s'.pc[u]) && s'.pc[u].task == x
    {
      var u :| u in s.pc && AddInFlight(s.pc[u]) && s.pc[u].task == x;
      assert u in s'.pc;
    }
  }

  lemma LocalKeepsTraced(s: State, s': State, t: Tid)
    requires Traced(s) && LocalEffect(s, s', t)
    ensures Traced(s')
  {
    forall x | x in s'.created && x !in s'.q.accepted && x !in s'.rejected
      ensures exists u :: u in s'.pc && AddInFlight(s'.pc[u]) && s'.pc[u].task == x
    {
      if x in s.created {
        var u :| u in s.pc && AddInFlight(s.pc[u]) && s.pc[u].task == x;
        assert u in s'.pc;
      } else {
        assert s'.pc[t] == Adding(x);
      }
    }
  }

  // ----- every accepted task is in one place -----

  ghost predicate Holds(s: State, x: Task) {
    exists w :: w in s.pc && HasTask(s.pc[w]) && s.pc[w].task == x
  }

  /** Each task taken from the queue is held by one worker or finished, never both, and once. */
  ghost predicate Custody(s: State) {
    && (forall w :: w in s.pc && HasTask(s.pc[w]) ==>
          Q.Popped(s.pc[w].task) in s.q.removed && s.pc[w].task !in s.finished)
    && (forall w, u :: w in s.pc && u in s.pc && w != u && HasTask(s.pc[w]) && HasTask(s.pc[u])
          ==> s.pc[w].task != s.pc[u].task)
    && (forall x :: Q.Popped(x) in s.q.removed ==> x in s.finished || Holds(s, x))
    && (forall x :: x in s.finished ==> Q.Popped(x) in s.q.removed)
    && NoDup(s.finished)
  }

  /** The bodies run are those of the finished tasks and of the tasks not counted out yet, each once. */
  ghost predicate RunOnce(s: State) {
    && NoDup(s.ran)
    && (forall x :: x in s.finished ==> x in s.ran)
    && (forall w :: w in s.pc && s.pc[w].Ran? ==> s.pc[w].task in s.ran)
    && (forall w :: w in s.pc && (s.pc[w].Got? || s.pc[w].Counted?) ==> s.pc[w].task !in s.ran)
    && (forall x :: x in s.ran ==> x in s.finished || Holds(s, x))
  }

  /** An element that has just been popped was not popped before. */
  lemma NewlyPopped(q: Q.State, q': Q.State, x: Task)
    requires QI.Conserved(q') && NoDup(q'.accepted)
    requires q'.removed == q.removed + [Q.Popped(x)]
    ensures Q.Popped(x) !in q.removed
  {
    var n := |q.removed|;
    assert q'.accepted[n] == Q.TasksOf(q'.removed)[n] == x;
    forall i | 0 <= i < n ensures q.removed[i] != Q.Popped(x) {
      assert q'.accepted[i] == Q.TasksOf(q'.removed)[i] == q.removed[i].task;
    }
  }

  lemma HoldsKept(s: State, s': State, t: Tid, x: Task)
    requires Holds(s, x) && t in s.pc
    requires s'.pc.Keys == s.pc.Keys
    requires forall u :: u in s.pc && u != t && HasTask(s.pc[u]) ==> s'.pc[u] == s.pc[u]
    requires HasTask(s.pc[t]) ==> HasTask(s'.pc[t]) && s'.pc[t].task == s.pc[t].task
    ensures Holds(s', x)
  {
    var w :| w in s.pc && HasTask(s.pc[w]) && s.pc[w].task == x;
    assert w in s'.pc && HasTask(s'.pc[w]) && s'.pc[w].task == x;
  }

  lemma MoveHolds(s: State, s': State, t: Tid, inside: Pc, e: Q.Event)
    requires QueueMove(s, s', t, inside, e)
    ensures !HasTask(s.pc[t])
    ensures forall x :: Holds(s, x) ==> Holds(s', x)
    ensures if e.PopReturned? && e.task.Some? then s'.pc[t] == Got(e.task.value) else !HasTask(s'.pc[t])
    ensures e.PopReturned? && e.task.Some? ==> s'.q.removed == s.q.removed + [Q.Popped(e.task.value)]
    ensures forall x :: Q.Popped(x) in s.q.removed ==> Q.Popped(x) in s'.q.removed
    ensures !(e.PopReturned? && e.task.Some?) ==>
              forall x :: Q.Popped(x) in s'.q.removed ==> Q.Popped(x) in s.q.removed
  {
    forall x | Holds(s, x) ensures Holds(s', x) {
      HoldsKept(s, s', t, x);
    }
  }

  lemma MoveKeepsCustody(s: State, s': State, t: Tid, inside: Pc, e: Q.Event)
    requires Custody(s) && QueueMove(s, s', t, inside, e)
    requires QI.Conserved(s'.q) && NoDup(s'.q.accepted)
    ensures Custody(s')
  {
    MoveHolds(s, s', t, inside, e);
    if e.PopReturned? && e.task.Some? {
      NewlyPopped(s.q, s'.q, e.task.value);
      assert s'.pc[t] == Got(e.task.value) && t in s'.pc;
      assert Holds(s', e.task.value);
    }
  }

  lemma MoveKeepsRunOnce(s: State, s': State, t: Tid, inside: Pc, e: Q.Event)
    requires RunOnce(s) && Custody(s) && QueueMove(s, s', t, inside, e)
    requires QI.Conserved(s'.q) && NoDup(s'.q.accepted)
    ensures RunOnce(s')
  {
    MoveHolds(s, s', t, inside, e);
    if e.PopReturned? && e.task.Some? {
      NewlyPopped(s.q, s'.q, e.task.value);
      assert e.task.value !in s.ran;
    }
  }

  lemma LocalHolds(s: State, s': State, t: Tid, x: Task)
    requires LocalEffect(s, s', t) && Holds(s, x)
    ensures Holds(s', x) || (s.pc[t].Ran? && x == s.pc[t].task && x in s'.finished)
  {
    var w :| w in s.pc && HasTask(s.pc[w]) && s.pc[w].task == x;
    assert w in s'.pc;
    if w == t && s.pc[t].Ran? {
      assert s'.finished[|s.finished|] == x;
    } else {
      assert HasTask(s'.pc[w]) && s'.pc[w].task == x;
    }
  }

  /** A worker holding a task after the move held it before; and who counts out holds none. */
  lemma LocalHolders(s: State, s': State, t: Tid, w: Tid)
    requires LocalEffect(s, s', t) && w in s'.pc && HasTask(s'.pc[w])
    ensures HasTask(s.pc[w]) && s.pc[w].task == s'.pc[w].task
    ensures s.pc[t].Ran? ==> w != t
  {
  }

  lemma LocalKeepsCustody(s: State, s': State, t: Tid)
    requires Custody(s) && LocalEffect(s, s', t)
    ensures Custody(s')
  {
    forall w | w in s'.pc && HasTask(s'.pc[w])
      ensures HasTask(s.pc[w]) && s.pc[w].task == s'.pc[w].task && (s.pc[t].Ran? ==> w != t)
    {
      LocalHolders(s, s', t, w);
    }
    forall x | Holds(s, x) ensures x in s'.finished || Holds(s', x) {
      LocalHolds(s, s', t, x);
    }
  }

  lemma LocalKeepsRunOnce(s: State, s': State, t: Tid)
    requires RunOnce(s) && Custody(s) && LocalEffect(s, s', t)
    ensures RunOnce(s')
  {
    forall x | x in s'.ran ensures x in s'.finished || Holds(s', x) {
      if x in s.ran {
        if Holds(s, x) {
          LocalHolds(s, s', t, x);
        }
      } else {
        assert s'.pc[t] == Ran(x);
      }
    }
  }

  // ----- what `wait` has seen -----

  /** Past the queue's `wait` and before a stop, the tasks accepted before the call are all popped. */
  ghost predicate Marks(s: State) {
    forall t :: t in s.pc ==>
      && (s.pc[t].WaitQueue? ==> s.pc[t].mark <= |s.q.accepted|)
      && (s.pc[t].WaitCount? || s.pc[t].CountAsleep? ==> s.q.stopping || s.pc[t].mark <= |s.q.removed|)
  }

  lemma MoveKeepsMarks(s: State, s': State, t: Tid, inside: Pc, e: Q.Event)
    requires Marks(s) && QI.Conserved(s.q) && QueueMove(s, s', t, inside, e)
    ensures Marks(s')
  {
    assert |s'.q.accepted| >= |s.q.accepted| && |s'.q.removed| >= |s.q.removed|;
    assert s.q.queue == [] ==> |s.q.accepted| == |s.q.removed|;
  }

  lemma LocalKeepsMarks(s: State, s': State, t: Tid)
    requires Marks(s) && LocalEffect(s, s', t)
    ensures Marks(s')
  {
  }

  // ----- how the pool ends -----

  predicate Joined(p: Pc) {
    p.TearDown? || p.Destroyed?
  }

  /** Removals come in the order: popped ones, then deleted ones. */
  ghost predicate DeletesLast(rs: seq<Q.Removal>) {
    forall i, j :: 0 <= i < j < |rs| && rs[i].Deleted? ==> rs[j].Deleted?
  }

  ghost predicate Ending(s: State) {
    && (forall t :: t in s.pc && (s.pc[t].Exited? || s.pc[t].Joining? || Joined(s.pc[t])) ==> s.q.stopping)
    && (forall t :: t in s.pc && Joined(s.pc[t]) ==> AllExited(s))
  }

  /** Only the queue's destructor deletes, after every worker has gone. */
  ghost predicate Deletions(s: State) {
    && (forall i :: 0 <= i < |s.q.removed| && s.q.removed[i].Deleted? ==> s.q.stopping && AllExited(s))
    && DeletesLast(s.q.removed)
  }

  lemma MoveEnds(s: State, s': State, t: Tid, inside: Pc, e: Q.Event)
    requires QueueMove(s, s', t, inside, e) && (t < s.workers <==> WorkerPc(s.pc[t])) && Ending(s)
    ensures s.q.stopping ==> s'.q.stopping
    ensures s'.pc[t].Exited? || s'.pc[t].Joining? || Joined(s'.pc[t]) ==> s'.q.stopping
    ensures Joined(s'.pc[t]) || inside.TearDown? ==> AllExited(s)
    ensures AllExited(s) ==> t >= s.workers && !inside.Fetch?
  {
  }

  lemma MoveKeepsExited(s: State, s': State, t: Tid)
    requires AllExited(s) && s'.workers == s.workers && t >= s.workers && t in s'.pc && s'.pc == s.pc[t := s'.pc[t]]
    ensures AllExited(s')
  {
  }

  lemma MoveKeepsEnding(s: State, s': State, t: Tid, inside: Pc, e: Q.Event)
    requires Shape(s) && Ending(s) && QueueMove(s, s', t, inside, e)
    ensures Ending(s')
  {
    assert Agree(s.workers, t, s.pc[t], s.q.pc[t]);
    MoveEnds(s, s', t, inside, e);
    MoveUncounted(s, s', t, inside, e);
    if AllExited(s) {
      MoveKeepsExited(s, s', t);
    }
  }

  lemma MoveKeepsDeletions(s: State, s': State, t: Tid, inside: Pc, e: Q.Event)
    requires Shape(s) && Ending(s) && Deletions(s) && QueueMove(s, s', t, inside, e)
    ensures Deletions(s')
  {
    assert Agree(s.workers, t, s.pc[t], s.q.pc[t]);
    MoveEnds(s, s', t, inside, e);
    MoveUncounted(s, s', t, inside, e);
    if AllExited(s) {
      MoveKeepsExited(s, s', t);
    }
  }

  /** A worker that has exited stays exited. */
  lemma LocalKeepsExited(s: State, s': State, t: Tid)
    requires AllExited(s) && LocalEffect(s, s', t)
    ensures AllExited(s')
  {
  }

  lemma LocalKeepsEnding(s: State, s': State, t: Tid)
    requires Ending(s) && LocalEffect(s, s', t)
    ensures Ending(s')
  {
    if AllExited(s) {
      LocalKeepsExited(s, s', t);
    }
  }

  lemma LocalKeepsDeletions(s: State, s': State, t: Tid)
    requires Deletions(s) && LocalEffect(s, s', t)
    ensures Deletions(s')
  {
    if AllExited(s) {
      LocalKeepsExited(s, s', t);
    }
  }

  // ----- stopping with `process_on_stop` -----

  predicate InStopCall(p: Pc) {
    p.StopFlagged? || p.StopWait? || p.StopCall? || p.StopQueue?
  }

  /** In process-on-stop mode the pool's flag is set before the queue's. */
  ghost predicate Flagged(s: State) {
    && (s.lateAdds ==> s.stopping)
    && (s.processOnStop ==>
          && (forall t :: t in s.pc && InStopCall(s.pc[t]) ==> s.stopping)
          && (s.q.stopping ==> s.stopping))
  }

  /** Nothing is queued and no `add_task` is past its check. */
  ghost predicate Drained(s: State) {
    s.q.queue == [] && forall t :: t in s.pc ==> !AddInFlight(s.pc[t])
  }

  /** An `add_task` can be under way only where its push is certain. */
  ghost predicate OnlyCommits(s: State) {
    forall t :: t in s.pc && t in s.q.pc && AddInFlight(s.pc[t]) ==> s.q.pc[t].PushCommit?
  }

  ghost predicate AllPopped(rs: seq<Q.Removal>) {
    forall i :: 0 <= i < |rs| ==> rs[i].Popped?
  }

  /** With `process_on_stop` and no late add when the flag was set, the queue is empty for good before
      anybody stops it. */
  ghost predicate Draining(s: State) {
    s.processOnStop && !s.lateAdds ==>
      && (s.stopping ==> OnlyCommits(s))
      && (s.q.stopping || (exists t :: t in s.pc && s.pc[t].StopCall?) ==> Drained(s))
      && AllPopped(s.q.removed)
  }

  lemma MoveKeepsFlagged(s: State, s': State, t: Tid, inside: Pc, e: Q.Event)
    requires Ending(s) && Owing(s) && Flagged(s) && QueueMove(s, s', t, inside, e)
    ensures Flagged(s')
  {
    MoveUncounted(s, s', t, inside, e);
    assert inside.TearDown? ==> s.pc[t].Joining? || s.pc[t].TearDown?;
  }

  lemma LocalKeepsFlagged(s: State, s': State, t: Tid)
    requires Flagged(s) && LocalEffect(s, s', t)
    ensures Flagged(s')
  {
  }

  /** A queue move of a thread that is not adding neither lengthens the queue nor starts an add, and
      only a destructor's move deletes. */
  lemma MoveDrains(s: State, s': State, t: Tid, inside: Pc, e: Q.Event)
    requires QueueMove(s, s', t, inside, e)
    requires QI.Conserved(s.q) && QI.Conserved(s'.q)
    ensures AddInFlight(s'.pc[t]) ==> AddInFlight(s.pc[t])
    ensures !AddInFlight(s.pc[t]) ==> |s'.q.queue| <= |s.q.queue|
    ensures AllPopped(s.q.removed) && s.q.queue == [] ==> AllPopped(s'.q.removed)
    ensures AllPopped(s.q.removed) && !inside.TearDown? ==> AllPopped(s'.q.removed)
  {
    assert |s'.q.accepted| == |s'.q.removed| + |s'.q.queue|;
    assert |s.q.accepted| == |s.q.removed| + |s.q.queue|;
  }

  /** How a thread comes to stop the queue: it was about to, or its wait returned. */
  lemma MoveStops(s: State, s': State, t: Tid, inside: Pc, e: Q.Event)
    requires Ending(s) && Owing(s) && QueueMove(s, s', t, inside, e)
    ensures s'.q.stopping ==> s.q.stopping || s.pc[t].StopCall?
    ensures s'.pc[t].StopCall? ==>
              && (s.pc[t].StopFlagged? || s.pc[t].StopWait?)
              && (s.q.stopping || (s.q.queue == [] && s.q.holder == None))
  {
  }

  /** A commit under way holds the mutex; so with the mutex free none is. */
  lemma FreeMutexDrained(s: State)
    requires Shape(s) && QI.MutualExclusion(s.q) && OnlyCommits(s) && s.q.holder == None && s.q.queue == []
    ensures Drained(s)
  {
  }

  lemma MoveKeepsDrained(s: State, s': State, t: Tid, inside: Pc, e: Q.Event)
    requires QueueMove(s, s', t, inside, e) && Drained(s)
    requires QI.Conserved(s.q) && QI.Conserved(s'.q)
    ensures Drained(s')
  {
    MoveUncounted(s, s', t, inside, e);
    MoveDrains(s, s', t, inside, e);
  }

  /** A thread committing its push leaves `push` in its next step; and no other thread gets past the check. */
  lemma MoveKeepsOnlyCommits(s: State, s': State, t: Tid, inside: Pc, e: Q.Event)
    requires Shape(s) && OnlyCommits(s) && QueueMove(s, s', t, inside, e)
    requires QI.OthersKept(s.q, s'.q, t)
    requires t in s.q.pc && s.q.pc[t].PushCommit? ==> e.PushReturned?
    ensures OnlyCommits(s')
  {
    MoveUncounted(s, s', t, inside, e);
    assert !AddInFlight(s'.pc[t]);
  }

  lemma MoveKeepsDraining(s: State, s': State, t: Tid, inside: Pc, e: Q.Event)
    requires Shape(s) && QI.MutualExclusion(s.q) && QI.Conserved(s.q) && QI.Conserved(s'.q)
    requires Ending(s) && Owing(s) && Flagged(s) && Draining(s) && QueueMove(s, s', t, inside, e)
    requires QI.OthersKept(s.q, s'.q, t)
    requires t in s.q.pc && s.q.pc[t].PushCommit? ==> e.PushReturned?
    ensures Draining(s')
  {
    if s.processOnStop && !s.lateAdds {
      MoveUncounted(s, s', t, inside, e);
      MoveDrains(s, s', t, inside, e);
      MoveStops(s, s', t, inside, e);
      if s.stopping {
        MoveKeepsOnlyCommits(s, s', t, inside, e);
      }
      if s'.q.stopping || exists u :: u in s'.pc && s'.pc[u].StopCall? {
        if !(s.q.stopping || exists u :: u in s.pc && s.pc[u].StopCall?) {
          FreeMutexDrained(s);
        }
        MoveKeepsDrained(s, s', t, inside, e);
      }
    }
  }

  lemma LocalKeepsDraining(s: State, s': State, t: Tid)
    requires Shape(s) && Flagged(s) && Draining(s) && LocalEffect(s, s', t)
    ensures Draining(s')
  {
    if s.processOnStop && !s'.lateAdds {
      if s'.stopping && !s.stopping {
        forall u | u in s.pc && AddInFlight(s.pc[u]) ensures s.q.pc[u].PushCommit? {
          assert u !in LateAdds(s.pc, s.q.pc);
        }
        assert OnlyCommits(s);
      }
      assert forall u :: u in s'.pc && s.stopping && AddInFlight(s'.pc[u]) ==> s'.pc[u] == s.pc[u];
    }
  }

  /** A stop call inside the queue's `stop` has set the queue's flag. */
  ghost predicate Owing(s: State) {
    forall t :: t in s.pc && s.pc[t].StopQueue? ==> s.q.stopping
  }

  lemma MoveKeepsOwing(s: State, s': State, t: Tid, inside: Pc, e: Q.Event)
    requires Owing(s) && QueueMove(s, s', t, inside, e)
    ensures Owing(s')
  {
  }

  lemma LocalKeepsOwing(s: State, s': State, t: Tid)
    requires Owing(s) && LocalEffect(s, s', t)
    ensures Owing(s')
  {
  }

  // ----- all of it -----

  ghost predicate Invariant(s: State) {
    && Base(s)
    && Counting(s)
    && Fresh(s)
    && Traced(s)
    && Custody(s)
    && RunOnce(s)
    && Marks(s)
    && Ending(s)
    && Deletions(s)
    && Owing(s)
    && Flagged(s)
    && Draining(s)
  }

  lemma BaseOf(s: State)
    requires Invariant(s)
    ensures Base(s)
  {
  }

  lemma InitShape(workers: nat, processOnStop: bool, clients: set<Tid>)
    ensures Shape(Init(workers, processOnStop, clients))
  {
    var s := Init(workers, processOnStop, clients);
    forall t | t in s.pc ensures Agree(s.workers, t, s.pc[t], s.q.pc[t]) {
    }
  }

  lemma InitHolds(workers: nat, processOnStop: bool, clients: set<Tid>)
    ensures Invariant(Init(workers, processOnStop, clients))
  {
    var s := Init(workers, processOnStop, clients);
    QI.InitHolds(Below(workers) + clients);
    InitShape(workers, processOnStop, clients);
    InitPlaces(s);
    InitStops(s);
  }

  /** A pool in which nothing has happened yet. */
  ghost predicate Untouched(s: State) {
    && (forall t :: t in s.pc ==> s.pc[t].Fetch? || s.pc[t].Free?)
    && s.q.accepted == [] && s.q.removed == [] && s.q.queue == [] && !s.q.stopping
    && s.created == {} && s.rejected == {} && s.ran == [] && s.finished == [] && s.working == 0
    && !s.stopping && !s.lateAdds
  }

  lemma InitPlaces(s: State)
    requires Untouched(s)
    ensures Counting(s) && Fresh(s) && Traced(s) && Custody(s) && RunOnce(s)
  {
    assert CountedSet(s.pc) == {};
  }

  lemma InitStops(s: State)
    requires Untouched(s)
    ensures Marks(s) && Ending(s) && Deletions(s) && Owing(s) && Flagged(s) && Draining(s)
  {
  }

  lemma StepKeepsInvariant(s: State, a: Action)
    requires Invariant(s) && Enabled(s, a)
    ensures Invariant(Step(s, a))
  {
    hide *;
    BaseOf(s);
    StepKeepsBase(s, a);
    if QueueAction(s, a).Some? {
      QueueStepKeepsInvariant(s, a);
    } else {
      LocalStepEffect(s, a);
      LocalKeepsAll(s, Step(s, a), a.t);
    }
  }

  lemma QueueStepKeepsInvariant(s: State, a: Action)
    requires Invariant(s) && Enabled(s, a) && QueueAction(s, a).Some? && Base(Step(s, a))
    ensures Invariant(Step(s, a))
  {
    hide Step, Q.Step, Inside, QueueAction, Invariant, Shape, QueueMove, QI.Invariant, QI.OthersKept;
    var qa := QueueAction(s, a).value;
    BaseOf(s);
    QueueStepIsMove(s, a);
    StepByQueue(s, a);
    QI.StepFrame(s.q, qa);
    if s.q.pc[a.t].PushCommit? {
      CommitReturns(s.q, qa);
    }
    MoveKeepsAll(s, Step(s, a), a.t, Inside(s, a), Q.Step(s.q, qa).event);
  }

  /** The step in which a thread holding the mutex for its push moves is the one in which `push` returns. */
  lemma CommitReturns(q: Q.State, a: Q.Action)
    requires Q.Enabled(q, a) && q.pc[a.t].PushCommit?
    ensures Q.Step(q, a).event.PushReturned?
  {
  }

  lemma MoveKeepsAll(s: State, s': State, t: Tid, inside: Pc, e: Q.Event)
    requires Invariant(s) && Base(s') && QueueMove(s, s', t, inside, e)
    requires QI.OthersKept(s.q, s'.q, t)
    requires t in s.q.pc && s.q.pc[t].PushCommit? ==> e.PushReturned?
    ensures Invariant(s')
  {
    MoveKeepsCounting(s, s', t, inside, e);
    MoveKeepsFresh(s, s', t, inside, e);
    MoveKeepsTraced(s, s', t, inside, e);
    MoveKeepsCustody(s, s', t, inside, e);
    MoveKeepsRunOnce(s, s', t, inside, e);
    MoveKeepsMarks(s, s', t, inside, e);
    MoveKeepsEnding(s, s', t, inside, e);
    MoveKeepsDeletions(s, s', t, inside, e);
    MoveKeepsOwing(s, s', t, inside, e);
    MoveKeepsFlagged(s, s', t, inside, e);
    MoveKeepsDraining(s, s', t, inside, e);
  }

  lemma LocalKeepsAll(s: State, s': State, t: Tid)
    requires Invariant(s) && Base(s') && LocalEffect(s, s', t)
    ensures Invariant(s')
  {
    LocalKeepsCounting(s, s', t);
    LocalKeepsFresh(s, s', t);
    LocalKeepsTraced(s, s', t);
    LocalKeepsCustody(s, s', t);
    LocalKeepsRunOnce(s, s', t);
    LocalKeepsMarks(s, s', t);
    LocalKeepsEnding(s, s', t);
    LocalKeepsDeletions(s, s', t);
    LocalKeepsOwing(s, s', t);
    LocalKeepsFlagged(s, s', t);
    LocalKeepsDraining(s, s', t);
  }
}
