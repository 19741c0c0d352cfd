/** Concrete runs of the pool showing that the windows named by the theorems are real: none of the
    conditions in them can be dropped. */
module TaskProcessorRuns {
  import opened Common
  import Q = TsQueue
  import opened TaskProcessor
  import opened TaskProcessorTheorems
  import opened TaskProcessorInvariant
  import QueueLogger

  // ----- reachability -----

  ghost predicate Reachable(s: State, workers: nat, processOnStop: bool, clients: set<Tid>) {
    exists run :: Reached(s, workers, processOnStop, clients, run)
  }

  lemma {:induction false} Extend(s: State, run: seq<Action>, a: Action)
    requires Feasible(s, run) && Enabled(After(s, run), a)
    ensures Feasible(s, run + [a]) && After(s, run + [a]) == Step(After(s, run), a)
    decreases |run|
  {
    var longer := run + [a];
    if run == [] {
      assert longer[0] == a && longer[1..] == [];
      var s1 := Step(s, a);
      assert Feasible(s1, longer[1..]);
    } else {
      assert longer[0] == run[0] && longer[1..] == run[1..] + [a];
      var s1 := Step(s, run[0]);
      Extend(s1, run[1..], a);
    }
  }

  /** A set of states that no step leaves. */
  ghost predicate Closed(r: iset<State>) {
    forall s, a :: s in r && Enabled(s, a) ==> Step(s, a) in r
  }

  ghost function ReachableStates(workers: nat, processOnStop: bool, clients: set<Tid>): iset<State> {
    iset s | Reachable(s, workers, processOnStop, clients)
  }

  lemma ReachableClosed(workers: nat, processOnStop: bool, clients: set<Tid>)
    ensures Closed(ReachableStates(workers, processOnStop, clients))
    ensures Init(workers, processOnStop, clients) in ReachableStates(workers, processOnStop, clients)
  {
    assert Reached(Init(workers, processOnStop, clients), workers, processOnStop, clients, []);
    var r := ReachableStates(workers, processOnStop, clients);
    forall s, a | s in r && Enabled(s, a) ensures Step(s, a) in r {
      var run :| Reached(s, workers, processOnStop, clients, run);
      Extend(Init(workers, processOnStop, clients), run, a);
      assert Reached(Step(s, a), workers, processOnStop, clients, run + [a]);
    }
  }

  // ----- single steps in a state where nobody sleeps -----

  lemma DoAddTask(r: iset<State>, s: State, t: Tid, x: Task) returns (s': State)
    requires Closed(r) && s in r
    requires t in s.pc && t in s.q.pc && s.pc[t].Free? && x !in s.created && !s.stopping
    ensures s' in r && s' == s.(pc := s.pc[t := Adding(x)], created := s.created + {x})
  {
    assert Enabled(s, AddTask(t, x));
    s' := Step(s, AddTask(t, x));
  }

  lemma DoAddPush(r: iset<State>, s: State, t: Tid) returns (s': State)
    requires Closed(r) && s in r
    requires t in s.pc && t in s.q.pc && s.pc[t].Adding? && !s.q.stopping
    ensures s' in r
    ensures s' == s.(pc := s.pc[t := Pushing(s.pc[t].task)], q := s.q.(pc := s.q.pc[t := Q.PushLock(s.pc[t].task)]))
  {
    assert Enabled(s, AddPush(t));
    s' := Step(s, AddPush(t));
  }

  /** A thread in the queue takes the mutex, finds the flag clear and goes on. */
  lemma DoLock(r: iset<State>, s: State, t: Tid, next: Q.Pc) returns (s': State)
    requires Closed(r) && s in r
    requires t in s.pc && t in s.q.pc && !s.q.stopping && s.q.holder == None
    requires (s.q.pc[t].PushLock? && next == Q.PushCommit(s.q.pc[t].val)) || (s.q.pc[t].PopLock? && next.PopTest?)
    ensures s' in r && s' == s.(q := s.q.(pc := s.q.pc[t := next], holder := Some(t)))
  {
    assert Enabled(s, InQueue(t, t));
    s' := Step(s, InQueue(t, t));
    assert s'.pc == s.pc;
  }

  lemma DoPushCommit(r: iset<State>, s: State, t: Tid) returns (s': State)
    requires Closed(r) && s in r
    requires t in s.pc && t in s.q.pc && s.q.pc[t].PushCommit? && s.pc[t].Pushing? && Q.PopSleepers(s.q.pc) == {}
    ensures s' in r
    ensures s' == s.(pc := s.pc[t := Free],
                     q := s.q.(pc := s.q.pc[t := Q.Idle], holder := None,
                               queue := s.q.queue + [s.q.pc[t].val], accepted := s.q.accepted + [s.q.pc[t].val]))
  {
    assert Enabled(s, InQueue(t, t));
    s' := Step(s, InQueue(t, t));
  }

  lemma DoFetchBegin(r: iset<State>, s: State, w: Tid) returns (s': State)
    requires Closed(r) && s in r
    requires w in s.pc && w in s.q.pc && s.pc[w].Fetch? && s.q.pc[w].Idle?
    ensures s' in r
    ensures s' == if s.q.stopping then s.(pc := s.pc[w := Exited])
                  else s.(q := s.q.(pc := s.q.pc[w := Q.PopLock]))
  {
    assert Enabled(s, FetchBegin(w));
    s' := Step(s, FetchBegin(w));
    assert !s.q.stopping ==> s'.pc == s.pc;
  }

  lemma DoPopTest(r: iset<State>, s: State, w: Tid) returns (s': State)
    requires Closed(r) && s in r
    requires w in s.pc && w in s.q.pc && s.q.pc[w].PopTest? && s.pc[w].Fetch? && s.q.queue != []
    requires forall u :: u in s.q.pc ==> !s.q.pc[u].WaitAsleep?
    ensures s' in r
    ensures s' == s.(pc := s.pc[w := Got(s.q.queue[0])],
                     q := s.q.(pc := s.q.pc[w := Q.Idle], holder := None,
                               queue := s.q.queue[1..], removed := s.q.removed + [Q.Popped(s.q.queue[0])]))
  {
    assert Enabled(s, InQueue(w, w));
    s' := Step(s, InQueue(w, w));
    assert s'.q.pc == s.q.pc[w := Q.Idle];
  }

  lemma DoCallWait(r: iset<State>, s: State, t: Tid) returns (s': State)
    requires Closed(r) && s in r
    requires t in s.pc && t in s.q.pc && s.pc[t].Free? && !s.q.stopping
    ensures s' in r
    ensures s' == s.(pc := s.pc[t := WaitQueue(|s.q.accepted|)], q := s.q.(pc := s.q.pc[t := Q.WaitLock]))
  {
    assert Enabled(s, CallWait(t));
    s' := Step(s, CallWait(t));
  }

  /** The queue's `wait` finds the queue empty. */
  lemma DoWaitReturn(r: iset<State>, s: State, t: Tid) returns (s': State)
    requires Closed(r) && s in r
    requires t in s.pc && t in s.q.pc && s.q.pc[t].WaitLock? && s.q.holder == None && s.q.queue == []
    ensures s' in r
    ensures s' == s.(pc := s.pc[t := Resume(s.pc[t], Q.WaitReturned)], q := s.q.(pc := s.q.pc[t := Q.Idle]))
  {
    assert Enabled(s, InQueue(t, t));
    s' := Step(s, InQueue(t, t));
  }

  lemma DoStopBeginWait(r: iset<State>, s: State, t: Tid) returns (s': State)
    requires Closed(r) && s in r
    requires t in s.pc && t in s.q.pc && s.pc[t].StopFlagged?
    ensures s' in r
    ensures s' == if s.q.stopping then s.(pc := s.pc[t := StopCall(s.pc[t].destroy)])
                  else s.(pc := s.pc[t := StopWait(s.pc[t].destroy)], q := s.q.(pc := s.q.pc[t := Q.WaitLock]))
  {
    assert Enabled(s, StopBeginWait(t));
    s' := Step(s, StopBeginWait(t));
  }

  lemma DoStopBeginStop(r: iset<State>, s: State, t: Tid) returns (s': State)
    requires Closed(r) && s in r
    requires t in s.pc && t in s.q.pc && s.pc[t].StopCall?
    ensures s' in r
    ensures s' == s.(pc := s.pc[t := StopQueue(s.pc[t].destroy)],
                     q := s.q.(pc := s.q.pc[t := Q.StopNotify], stopping := true))
  {
    assert Enabled(s, StopBeginStop(t));
    s' := Step(s, StopBeginStop(t));
  }

  lemma DoJoin(r: iset<State>, s: State, t: Tid) returns (s': State)
    requires Closed(r) && s in r
    requires t in s.pc && t in s.q.pc && s.pc[t].Joining? && AllExited(s)
    ensures s' in r
    ensures s' == s.(pc := s.pc[t := TearDown], q := s.q.(pc := s.q.pc[t := Q.FlushNotify], stopping := true))
  {
    assert Enabled(s, Join(t));
    s' := Step(s, Join(t));
  }

  lemma DoCountIn(r: iset<State>, s: State, w: Tid) returns (s': State)
    requires Closed(r) && s in r
    requires w in s.pc && w in s.q.pc && s.pc[w].Got?
    ensures s' in r && s' == s.(pc := s.pc[w := Counted(s.pc[w].task)], working := s.working + 1)
  {
    assert Enabled(s, CountIn(w));
    s' := Step(s, CountIn(w));
  }

  // ----- whole calls -----

  /** Nobody is asleep and nobody holds the queue's mutex, which is not stopped. */
  ghost predicate Calm(s: State) {
    && s.pc.Keys == s.q.pc.Keys
    && s.q.holder == None
    && !s.q.stopping
    && forall t :: t in s.q.pc ==> !Q.Asleep(s.q.pc[t])
  }

  /** An `add_task` that has passed the pool's check completes its push. */
  lemma PushRun(r: iset<State>, s: State, t: Tid) returns (s': State)
    requires Closed(r) && s in r
    requires Calm(s) && t in s.pc && s.pc[t].Adding? && s.q.pc[t].Idle?
    ensures s' in r
    ensures var x := s.pc[t].task;
      s' == s.(pc := s.pc[t := Free], q := s.q.(queue := s.q.queue + [x], accepted := s.q.accepted + [x]))
  {
    s' := DoAddPush(r, s, t);
    s' := DoLock(r, s', t, Q.PushCommit(s.pc[t].task));
    s' := DoPushCommit(r, s', t);
    assert s'.q.pc == s.q.pc;
    assert s'.pc == s.pc[t := Free];
  }

  lemma AddRun(r: iset<State>, s: State, t: Tid, x: Task) returns (s': State)
    requires Closed(r) && s in r
    requires Calm(s) && !s.stopping && t in s.pc && s.pc[t].Free? && s.q.pc[t].Idle? && x !in s.created
    ensures s' in r
    ensures s' ==
      s.(created := s.created + {x}, q := s.q.(queue := s.q.queue + [x], accepted := s.q.accepted + [x]))
  {
    var s1 := DoAddTask(r, s, t, x);
    s' := PushRun(r, s1, t);
    assert s1.pc[t := Free] == s.pc;
  }

  /** A worker pops the front element and stops before counting itself. */
  lemma PopRun(r: iset<State>, s: State, w: Tid) returns (s': State)
    requires Closed(r) && s in r
    requires Calm(s) && w in s.pc && s.pc[w].Fetch? && s.q.pc[w].Idle? && s.q.queue != []
    ensures s' in r
    ensures var x := s.q.queue[0];
      s' == s.(pc := s.pc[w := Got(x)], q := s.q.(queue := s.q.queue[1..], removed := s.q.removed + [Q.Popped(x)]))
  {
    s' := DoFetchBegin(r, s, w);
    s' := DoLock(r, s', w, Q.PopTest);
    s' := DoPopTest(r, s', w);
    assert s'.q.pc == s.q.pc;
  }

  // ----- `wait` can return with an accepted task unfinished -----

  lemma WaitWindowRun(r: iset<State>) returns (s: State)
    requires Closed(r) && Init(1, false, {1}) in r
    ensures s in r
    ensures 1 in s.pc && 1 in s.q.pc && s.pc[1] == WaitCount(1) && s.working == 0 && !s.q.stopping
    ensures s.q.accepted == [7] && s.ran == [] && s.finished == []
  {
    s := Init(1, false, {1});
    assert 0 in Below(1);
    s := AddRun(r, s, 1, 7);
    s := PopRun(r, s, 0);
    s := DoCallWait(r, s, 1);
    s := DoWaitReturn(r, s, 1);
  }

  /** One worker, one client: the client adds a task and calls `wait`, which may return although the
      worker, having popped the task, has not started it. */
  lemma WaitWindowIsReachable() returns (s: State)
    ensures Reachable(s, 1, false, {1})
    ensures 1 in s.pc && s.pc[1] == WaitCount(1) && s.working == 0 && !s.q.stopping
    ensures Enabled(s, TestCount(1)) && Step(s, TestCount(1)).pc == s.pc[1 := Free]
    ensures s.q.accepted == [7] && s.ran == [] && Unfinished(s, s.q.accepted) == {7}
  {
    ReachableClosed(1, false, {1});
    s := WaitWindowRun(ReachableStates(1, false, {1}));
    assert 7 in s.q.accepted;
  }

  // ----- the window of a late `add_task` -----

  lemma LateAddRun(r: iset<State>) returns (s: State)
    requires Closed(r) && Init(1, true, {1, 2}) in r
    ensures s in r && 1 in LateAdds(s.pc, s.q.pc) && !s.stopping && Enabled(s, CallStop(2, true))
  {
    s := Init(1, true, {1, 2});
    s := DoAddTask(r, s, 1, 7);
  }

  /** One worker and two clients: one client can be past `add_task`'s check while the other's destructor
      call is about to set the flag. */
  lemma LateAddIsReachable() returns (s: State)
    ensures Reachable(s, 1, true, {1, 2})
    ensures LateAdds(s.pc, s.q.pc) != {} && !s.stopping && Enabled(s, CallStop(2, true))
  {
    ReachableClosed(1, true, {1, 2});
    s := LateAddRun(ReachableStates(1, true, {1, 2}));
  }

  // ----- two workers can write out of order -----

  lemma OvertakingRun(r: iset<State>) returns (s: State)
    requires Closed(r) && Init(2, false, {2}) in r
    ensures s in r && s.q.accepted == [7, 8] && s.ran == []
    ensures 1 in s.pc && 1 in s.q.pc && s.pc[1] == Counted(8)
  {
    s := Init(2, false, {2});
    assert Below(2) == {0, 1};
    s := AddRun(r, s, 2, 7);
    s := AddRun(r, s, 2, 8);
    s := PopRun(r, s, 0);
    s := PopRun(r, s, 1);
    s := DoCountIn(r, s, 1);
  }

  /** With two workers the second message can be written first, so the bound N-1 is reached. */
  lemma OvertakingIsReachable() returns (s: State)
    ensures Reachable(s, 2, false, {2})
    ensures s.q.accepted == [7, 8]
    ensures Enabled(s, RunBody(1)) && Step(s, RunBody(1)).ran == [8]
    ensures QueueLogger.UnwrittenBefore(s, 1) == {7}
  {
    hide Closed, Reachable;
    ReachableClosed(2, false, {2});
    s := OvertakingRun(ReachableStates(2, false, {2}));
    assert s.q.accepted[..1] == [7];
    assert 7 in s.q.accepted[..1];
  }
}
