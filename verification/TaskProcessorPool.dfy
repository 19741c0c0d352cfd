/** The pool object of sources/task_processor/task_processor.h: its fields, its queue object, and its
    methods region by region.  Each region changes the objects in place and is proved to be the corresponding
    step of module TaskProcessor and to keep that machine's invariant. */
module TaskProcessorPool {
  import opened Common
  import Q = TsQueue
  import QI = TsQueueInvariant
  import TsQueueMonitor
  import opened TaskProcessor
  import opened TaskProcessorQueue
  import opened TaskProcessorInvariant

  /** The step of the queue returns e. */
  ghost predicate Answers(q: Q.State, a: Q.Action, e: Q.Event) {
    Q.Enabled(q, a) && Q.Step(q, a).event == e
  }

  class Pool {
    const taskQueue: TsQueueMonitor.Monitor
    const workers: nat
    const processOnStop: bool
    var stopping: bool
    var working: int
    var pc: map<Tid, Pc>
    ghost var created: set<Task>
    ghost var rejected: set<Task>
    ghost var ran: seq<Task>
    ghost var finished: seq<Task>
    ghost var lateAdds: bool

    ghost function Abs(): State
      reads this, taskQueue
    {
      State(taskQueue.Abs(), workers, processOnStop, stopping, working, pc,
            created, rejected, ran, finished, lateAdds)
    }

    ghost predicate Valid()
      reads this, taskQueue
    {
      Invariant(Abs())
    }

    /** Starts `threads` workers, all before their first `wait_pop`. */
    constructor (threads: nat, drain: bool, clients: set<Tid>)
      ensures Valid() && Abs() == Init(threads, drain, clients) && fresh(taskQueue)
    {
      hide Invariant, QI.Invariant;
      taskQueue := new TsQueueMonitor.Monitor(Below(threads) + clients);
      workers, processOnStop, stopping, working := threads, drain, false, 0;
      pc := map t | t in Below(threads) + clients :: if t < threads then Fetch else Free;
      created, rejected, ran, finished, lateAdds := {}, {}, [], [], false;
      new;
      InitHolds(threads, drain, clients);
    }

    // ----- add_task -----

    method AddTask(t: Tid, task: Task) returns (refused: bool)
      requires Valid() && Enabled(Abs(), Action.AddTask(t, task))
      modifies this
      ensures Valid()
      ensures Abs() == Step(old(Abs()), Action.AddTask(t, task)) && refused == old(stopping)
    {
      hide Invariant;
      StepKeepsInvariant(Abs(), Action.AddTask(t, task));
      created := created + {task};
      if stopping {
        rejected := rejected + {task};
        return true;
      }
      pc := pc[t := Adding(task)];
      return false;
    }

    /** The answer is Some(false) if `push` refuses at once, and None while it is under way. */
    method AddTaskPush(t: Tid) returns (result: Option<bool>)
      requires Valid() && Enabled(Abs(), AddPush(t))
      modifies this, taskQueue
      ensures Valid()
      ensures Abs() == Step(old(Abs()), AddPush(t))
      ensures result == if old(taskQueue.stopping) then Some(false) else None
    {
      hide Invariant, Shape, QI.Invariant, AllExited;
      StepKeepsInvariant(Abs(), AddPush(t));
      BaseOf(Abs());
      OutsideIdle(Abs(), t);
      var task := pc[t].task;
      result := taskQueue.PushEnter(t, task);
      if result == Some(false) {
        rejected := rejected + {task};
      }
      pc := pc[t := if result.Some? then Free else Pushing(task)];
    }

    // ----- processing -----

    method FetchTask(w: Tid)
      requires Valid() && Enabled(Abs(), FetchBegin(w))
      modifies this, taskQueue
      ensures Valid()
      ensures Abs() == Step(old(Abs()), FetchBegin(w))
    {
      hide Invariant, Shape, QI.Invariant, AllExited;
      StepKeepsInvariant(Abs(), FetchBegin(w));
      BaseOf(Abs());
      var none := taskQueue.WaitPopEnter(w);
      pc := pc[w := if none then Exited else Fetch];
    }

    method CountTaskIn(w: Tid)
      requires Valid() && Enabled(Abs(), CountIn(w))
      modifies this
      ensures Valid()
      ensures Abs() == Step(old(Abs()), CountIn(w))
    {
      hide Invariant;
      StepKeepsInvariant(Abs(), CountIn(w));
      working := working + 1;
      pc := pc[w := Counted(pc[w].task)];
    }

    method RunTask(w: Tid)
      requires Valid() && Enabled(Abs(), RunBody(w))
      modifies this
      ensures Valid()
      ensures Abs() == Step(old(Abs()), RunBody(w))
    {
      hide Invariant;
      StepKeepsInvariant(Abs(), RunBody(w));
      ran := ran + [pc[w].task];
      pc := pc[w := Ran(pc[w].task)];
    }

    method CountTaskOut(w: Tid)
      requires Valid() && Enabled(Abs(), CountOut(w))
      modifies this
      ensures Valid()
      ensures Abs() == Step(old(Abs()), CountOut(w))
    {
      hide Invariant;
      StepKeepsInvariant(Abs(), CountOut(w));
      finished := finished + [pc[w].task];
      pc := pc[w := Fetch];
      working := working - 1;
      if working == 0 {
        pc := WakeCounters(pc);
      }
    }

    // ----- wait -----

    method WaitForQueue(t: Tid)
      requires Valid() && Enabled(Abs(), CallWait(t))
      modifies this, taskQueue
      ensures Valid()
      ensures Abs() == Step(old(Abs()), CallWait(t))
    {
      hide Invariant, Shape, QI.Invariant, AllExited;
      StepKeepsInvariant(Abs(), CallWait(t));
      BaseOf(Abs());
      OutsideIdle(Abs(), t);
      var mark := |taskQueue.accepted|;
      var done := taskQueue.WaitEnter(t);
      pc := pc[t := if done then WaitCount(mark) else WaitQueue(mark)];
    }

    method WaitForWorkers(t: Tid) returns (done: bool)
      requires Valid() && Enabled(Abs(), TestCount(t))
      modifies this
      ensures Valid()
      ensures Abs() == Step(old(Abs()), TestCount(t)) && done == (old(working) == 0)
    {
      hide Invariant;
      StepKeepsInvariant(Abs(), TestCount(t));
      if working != 0 {
        pc := pc[t := CountAsleep(pc[t].mark)];
        return false;
      }
      pc := pc[t := Free];
      return true;
    }

    method WakeWaiter(t: Tid)
      requires Valid() && Enabled(Abs(), CountSpurious(t))
      modifies this
      ensures Valid()
      ensures Abs() == Step(old(Abs()), CountSpurious(t))
    {
      hide Invariant;
      StepKeepsInvariant(Abs(), CountSpurious(t));
      pc := pc[t := WaitCount(pc[t].mark)];
    }

    // ----- stop and the destructor -----

    method Stop(t: Tid, destroy: bool)
      requires Valid() && Enabled(Abs(), CallStop(t, destroy))
      modifies this
      ensures Valid()
      ensures Abs() == Step(old(Abs()), CallStop(t, destroy))
    {
      hide Invariant;
      StepKeepsInvariant(Abs(), CallStop(t, destroy));
      if processOnStop {
        lateAdds := lateAdds || (!stopping && LateAdds(pc, taskQueue.pc) != {});
        stopping := true;
        pc := pc[t := StopFlagged(destroy)];
      } else {
        pc := pc[t := StopCall(destroy)];
      }
    }

    method StopDrain(t: Tid)
      requires Valid() && Enabled(Abs(), StopBeginWait(t))
      modifies this, taskQueue
      ensures Valid()
      ensures Abs() == Step(old(Abs()), StopBeginWait(t))
    {
      hide Invariant, Shape, QI.Invariant, AllExited;
      StepKeepsInvariant(Abs(), StopBeginWait(t));
      BaseOf(Abs());
      OutsideIdle(Abs(), t);
      var done := taskQueue.WaitEnter(t);
      pc := pc[t := if done then StopCall(pc[t].destroy) else StopWait(pc[t].destroy)];
    }

    method StopTaskQueue(t: Tid)
      requires Valid() && Enabled(Abs(), StopBeginStop(t))
      modifies this, taskQueue
      ensures Valid()
      ensures Abs() == Step(old(Abs()), StopBeginStop(t))
    {
      hide Invariant, Shape, QI.Invariant, AllExited;
      StepKeepsInvariant(Abs(), StopBeginStop(t));
      BaseOf(Abs());
      OutsideIdle(Abs(), t);
      taskQueue.StopEnter(t);
      pc := pc[t := StopQueue(pc[t].destroy)];
    }

    /** `join_all` has returned; the members' destructors follow. */
    method JoinAll(t: Tid)
      requires Valid() && Enabled(Abs(), Join(t))
      modifies this, taskQueue
      ensures Valid()
      ensures Abs() == Step(old(Abs()), Join(t))
    {
      hide Invariant, Shape, QI.Invariant, AllExited;
      StepKeepsInvariant(Abs(), Join(t));
      BaseOf(Abs());
      OutsideIdle(Abs(), t);
      taskQueue.StopProcessingEnter(t);
      pc := pc[t := TearDown];
    }

    // ----- inside the queue -----

    /** Runs thread t's queue method on; when it returns, t goes on in the pool. */
    method RunInQueue(t: Tid, wake: Tid) returns (e: Q.Event)
      requires Valid() && Enabled(Abs(), InQueue(t, wake))
      modifies this, taskQueue
      ensures Valid()
      ensures Abs() == Step(old(Abs()), InQueue(t, wake))
      ensures Answers(old(taskQueue.Abs()), Q.Advance(t, wake), e)
    {
      hide Invariant, Shape, QI.Invariant, AllExited;
      StepKeepsInvariant(Abs(), InQueue(t, wake));
      BaseOf(Abs());
      e := taskQueue.Run(t, wake);
      if pc[t].Pushing? && e == Q.PushReturned(false) {
        rejected := rejected + {pc[t].task};
      }
      if !e.NoReturn? {
        pc := pc[t := Resume(pc[t], e)];
      }
      assert pc[t := pc[t]] == pc;
    }

    method WakeInQueue(t: Tid)
      requires Valid() && Enabled(Abs(), QueueSpurious(t))
      modifies this, taskQueue
      ensures Valid()
      ensures Abs() == Step(old(Abs()), QueueSpurious(t))
    {
      hide Invariant, Shape, QI.Invariant, AllExited;
      StepKeepsInvariant(Abs(), QueueSpurious(t));
      BaseOf(Abs());
      taskQueue.WakeSpuriously(t);
      assert pc[t := pc[t]] == pc;
    }
  }
}
