/** sources/queue_logger/queue_logger.h: `write` hands a message to the pool as a task, and the task's
    body writes it to the logger's stream under `protect_write_`.  The order of the bodies, `ran`, is
    therefore the order in which messages are written. */
module QueueLogger {
  import opened Common
  import Q = TsQueue
  import QI = TsQueueInvariant
  import QT = TsQueueTheorems
  import opened TaskProcessor
  import opened TaskProcessorQueue
  import opened TaskProcessorInvariant
  import opened TaskProcessorTheorems

  // ----- how far the output can lag behind -----

  /** The messages accepted before position i that are not written yet. */
  ghost function UnwrittenBefore(s: State, i: nat): set<Task>
    requires i <= |s.q.accepted|
  {
    set x | x in s.q.accepted[..i] && x !in s.ran
  }

  /** A worker still at work means nothing has been deleted, so a prefix of the accepted messages has
      been popped, and a popped message is written or held. */
  lemma EarlierArePopped(s: State, w: Tid, i: nat, j: nat)
    requires Invariant(s) && w in s.pc && s.pc[w].Counted?
    requires j <= i < |s.q.accepted| && s.q.accepted[i] == s.pc[w].task
    ensures Q.Popped(s.q.accepted[j]) in s.q.removed
  {
    hide Traced, Marks, Counting, Owing, RunOnce, Draining, Flagged;
    var x := s.pc[w].task;
    assert Agree(s.workers, w, s.pc[w], s.q.pc[w]);
    assert !AllExited(s);
    var k :| 0 <= k < |s.q.removed| && s.q.removed[k] == Q.Popped(x);
    assert s.q.accepted[k] == Q.TasksOf(s.q.removed)[k] == x;
    assert i == k;
    assert s.q.accepted[j] == Q.TasksOf(s.q.removed)[j] == s.q.removed[j].task;
    assert s.q.removed[j].Popped?;
    assert s.q.removed[j] in s.q.removed;
  }

  /** An earlier message that is unwritten is in the hands of another worker. */
  lemma EarlierIsHeld(s: State, w: Tid, i: nat, j: nat)
    requires Invariant(s) && w in s.pc && s.pc[w].Counted?
    requires j < i < |s.q.accepted| && s.q.accepted[i] == s.pc[w].task
    requires s.q.accepted[j] !in s.ran
    ensures s.q.accepted[j] in (Held(s.pc) - {w}).Values
  {
    hide Shape, Traced, Marks, Counting, Owing, Ending, Deletions, Draining;
    EarlierArePopped(s, w, i, j);
    var y := s.q.accepted[j];
    var u :| u in s.pc && HasTask(s.pc[u]) && s.pc[u].task == y;
    assert y != s.q.accepted[i];
    assert u in Held(s.pc) - {w} && (Held(s.pc) - {w})[u] == y;
  }

  /** The other workers hold at most one task each. */
  lemma OthersHoldFew(s: State, w: Tid, tasks: set<Task>)
    requires Shape(s) && w < s.workers && tasks <= (Held(s.pc) - {w}).Values
    ensures |tasks| <= s.workers - 1
  {
    var others := Held(s.pc) - {w};
    CoveredSize(tasks, others);
    HeldByWorkers(s);
    assert others.Keys == Held(s.pc).Keys - {w};
    SubsetSize(others.Keys, Below(s.workers) - {w});
  }

  /** Whenever a message is written, at most N-1 earlier accepted messages are still unwritten, N being
      the number of workers. */
  lemma BoundedOvertaking(s: State, workers: nat, processOnStop: bool, clients: set<Tid>, run: seq<Action>,
                          w: Tid, i: nat)
    requires Reached(s, workers, processOnStop, clients, run)
    requires Enabled(s, RunBody(w)) && i < |s.q.accepted| && s.q.accepted[i] == s.pc[w].task
    ensures |UnwrittenBefore(s, i)| <= workers - 1
  {
    ReachedHolds(s, workers, processOnStop, clients, run);
    assert Agree(s.workers, w, s.pc[w], s.q.pc[w]);
    forall y | y in UnwrittenBefore(s, i) ensures y in (Held(s.pc) - {w}).Values {
      var j :| 0 <= j < i && s.q.accepted[j] == y;
      EarlierIsHeld(s, w, i, j);
    }
    OthersHoldFew(s, w, UnwrittenBefore(s, i));
  }

  /** No message is written twice, and none that was not accepted. */
  lemma WrittenAtMostOnce(s: State, workers: nat, processOnStop: bool, clients: set<Tid>, run: seq<Action>)
    requires Reached(s, workers, processOnStop, clients, run)
    ensures NoDup(s.ran)
    ensures forall x :: x in s.ran ==> x in s.q.accepted && x !in s.q.queue && x !in s.rejected
  {
    ReachedHolds(s, workers, processOnStop, clients, run);
    forall x | x in s.ran ensures x in s.q.accepted && x !in s.q.queue && x !in s.rejected {
      if x !in s.finished {
        var w :| w in s.pc && HasTask(s.pc[w]) && s.pc[w].task == x;
      }
      AcceptedParts(s, x);
    }
  }

  // ----- one worker: the output is in order -----

  /** The task the only worker has popped and not run yet. */
  function Unrun(s: State): seq<Task> {
    if 0 in s.pc && (s.pc[0].Got? || s.pc[0].Counted?) then [s.pc[0].task] else []
  }

  /** What was popped is what was written, followed by what the worker is about to write. */
  ghost predicate InOrder(s: State) {
    QT.PoppedOf(s.q.removed) == s.ran + Unrun(s)
  }

  lemma MoveKeepsOrder(s: State, s': State, t: Tid, inside: Pc, e: Q.Event)
    requires InOrder(s) && QueueMove(s, s', t, inside, e) && (t < 1 <==> WorkerPc(s.pc[t]))
    requires QT.PoppedOf(s'.q.removed) == QT.PoppedOf(s.q.removed) + QT.TakenBy(e)
    ensures InOrder(s')
  {
    MoveHolds(s, s', t, inside, e);
    if e.PopReturned? && e.task.Some? {
      assert t == 0;
    }
  }

  lemma LocalKeepsOrder(s: State, s': State, t: Tid)
    requires InOrder(s) && LocalEffect(s, s', t) && (t < 1 <==> WorkerPc(s.pc[t]))
    ensures InOrder(s')
  {
    assert s.pc[t].Counted? ==> t == 0;
  }

  lemma StepKeepsOrder(s: State, a: Action)
    requires Invariant(s) && s.workers == 1 && InOrder(s) && Enabled(s, a)
    ensures InOrder(Step(s, a))
  {
    assert Agree(s.workers, a.t, s.pc[a.t], s.q.pc[a.t]);
    if QueueAction(s, a).Some? {
      var qa := QueueAction(s, a).value;
      StepByQueue(s, a);
      QueueStepIsMove(s, a);
      QT.StepPops(s.q, qa);
      MoveKeepsOrder(s, Step(s, a), a.t, Inside(s, a), Q.Step(s.q, qa).event);
    } else {
      LocalStepEffect(s, a);
      LocalKeepsOrder(s, Step(s, a), a.t);
    }
  }

  lemma {:induction false} RunKeepsOrder(s: State, run: seq<Action>)
    requires Invariant(s) && s.workers == 1 && InOrder(s) && Feasible(s, run)
    ensures InOrder(After(s, run))
    decreases |run|
  {
    if run == [] {
    } else {
      StepKeepsInvariant(s, run[0]);
      StepKeepsSettings(s, run[0]);
      StepKeepsOrder(s, run[0]);
      RunKeepsOrder(Step(s, run[0]), run[1..]);
    }
  }

  /** Popped removals come first, so what was popped is a prefix of what was removed. */
  lemma {:induction false} PoppedIsPrefix(rs: seq<Q.Removal>)
    requires DeletesLast(rs)
    ensures QT.PoppedOf(rs) <= Q.TasksOf(rs)
    ensures rs != [] && rs[|rs| - 1].Popped? ==> QT.PoppedOf(rs) == Q.TasksOf(rs)
    decreases |rs|
  {
    if rs != [] {
      var init := rs[..|rs| - 1];
      PoppedIsPrefix(init);
      assert Q.TasksOf(rs) == Q.TasksOf(init) + [rs[|rs| - 1].task];
    }
  }

  /** With one worker the output is always a prefix of the acceptance order. */
  lemma SingleWorkerInOrder(s: State, processOnStop: bool, clients: set<Tid>, run: seq<Action>)
    requires Reached(s, 1, processOnStop, clients, run)
    ensures s.ran <= s.q.accepted
  {
    ReachedHolds(s, 1, processOnStop, clients, run);
    InitHolds(1, processOnStop, clients);
    RunKeepsOrder(Init(1, processOnStop, clients), run);
    PoppedIsPrefix(s.q.removed);
    PrefixOfSum(s.ran, Unrun(s), QT.PoppedOf(s.q.removed), Q.TasksOf(s.q.removed), s.q.queue, s.q.accepted);
  }

  lemma PrefixOfSum<T>(a: seq<T>, r: seq<T>, popped: seq<T>, removed: seq<T>, queue: seq<T>, all: seq<T>)
    requires popped == a + r && popped <= removed && all == removed + queue
    ensures a <= all
  {
  }

  // ----- several loggers on one pool -----

  datatype Message = Message(level: nat, text: string)

  /** What one logger's stream receives when these tasks run, `messages` being the tasks of that logger. */
  ghost function Lines(messages: map<Task, Message>, tasks: seq<Task>): seq<Message> {
    if tasks == [] then []
    else
      var last := tasks[|tasks| - 1];
      Lines(messages, tasks[..|tasks| - 1]) + (if last in messages then [messages[last]] else [])
  }

  /** A task that has not run does not matter. */
  lemma {:induction false} LinesOfOthers(messages: map<Task, Message>, x: Task, m: Message, tasks: seq<Task>)
    requires x !in tasks
    ensures Lines(messages[x := m], tasks) == Lines(messages, tasks)
    ensures Lines(messages - {x}, tasks) == Lines(messages, tasks)
  {
    if tasks != [] {
      LinesOfOthers(messages, x, m, tasks[..|tasks| - 1]);
    }
  }

  lemma {:induction false} LinesOfPrefix(messages: map<Task, Message>, a: seq<Task>, b: seq<Task>)
    requires a <= b
    ensures Lines(messages, a) <= Lines(messages, b)
    decreases |b|
  {
    if |a| == |b| {
      assert a == b;
    } else {
      assert a == b[..|b| - 1][..|a|];
      LinesOfPrefix(messages, a, b[..|b| - 1]);
    }
  }

  /** With one worker each logger's own stream is a prefix of what was accepted for that logger,
      however many loggers share the pool. */
  lemma SingleWorkerLogsInOrder(s: State, processOnStop: bool, clients: set<Tid>, run: seq<Action>,
                                messages: map<Task, Message>)
    requires Reached(s, 1, processOnStop, clients, run)
    ensures Lines(messages, s.ran) <= Lines(messages, s.q.accepted)
  {
    SingleWorkerInOrder(s, processOnStop, clients, run);
    LinesOfPrefix(messages, s.ran, s.q.accepted);
  }

  /** Only tasks handed to `add_task`, and not refused, run. */
  lemma RanAreAccepted(s: State)
    requires Invariant(s)
    ensures forall x :: x in s.ran ==> x in s.created && x !in s.rejected
  {
    forall x | x in s.ran ensures x in s.created && x !in s.rejected {
      if x !in s.finished {
        var w :| w in s.pc && HasTask(s.pc[w]) && s.pc[w].task == x;
      }
      AcceptedParts(s, x);
    }
  }

  /** The stream holds the messages of one logger whose tasks have run, in the order in which they ran. */
  ghost predicate Consistent(s: State, messages: map<Task, Message>, stream: seq<Message>) {
    messages.Keys <= s.created && stream == Lines(messages, s.ran)
  }

  /** No step of the pool but running one of the logger's own tasks concerns its stream. */
  lemma OtherStepsKeep(s: State, a: Action, messages: map<Task, Message>, stream: seq<Message>)
    requires Enabled(s, a) && Consistent(s, messages, stream)
    requires a.RunBody? ==> s.pc[a.t].task !in messages
    ensures Consistent(Step(s, a), messages, stream)
  {
    hide Step, Enabled;
    StepRuns(s, a);
    var s' := Step(s, a);
    if a.RunBody? {
      assert s'.ran[..|s'.ran| - 1] == s.ran;
    }
  }

  lemma StepRuns(s: State, a: Action)
    requires Enabled(s, a)
    ensures a.RunBody? ==> a.t in s.pc && s.pc[a.t].Counted?
    ensures Step(s, a).ran == if a.RunBody? then s.ran + [s.pc[a.t].task] else s.ran
    ensures s.created <= Step(s, a).created
  {
  }
}
