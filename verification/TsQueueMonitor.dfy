/** The queue object of sources/ts_queue/ts_queue.h: its fields, and its methods region by region, in
    the order of the source's statements.  Each region changes the object in place and is proved to be the
    corresponding step of module TsQueue and to keep that machine's invariant. */
module TsQueueMonitor {
  import opened Common
  import opened TsQueue
  import opened TsQueueInvariant

  class Monitor {
    var queue: seq<Task>
    var stopping: bool
    var holder: Option<Tid>
    var pc: map<Tid, Pc>
    // history; `accepted` is not ghost because the pool records its length when `wait` is called
    var accepted: seq<Task>
    ghost var removed: seq<Removal>
    ghost var stopReturned: bool

    ghost function Abs(): State
      reads this
    {
      State(queue, stopping, holder, pc, accepted, removed, stopReturned)
    }

    ghost predicate Valid()
      reads this
    {
      Invariant(Abs())
    }

    constructor (threads: set<Tid>)
      ensures Valid() && Abs() == Init(threads)
    {
      queue := [];
      stopping := false;
      holder := None;
      pc := map t | t in threads :: Idle;
      accepted, removed, stopReturned := [], [], false;
    }

    // ----- push -----

    method PushEnter(t: Tid, val: Task) returns (result: Option<bool>)
      requires Valid() && t in pc && pc[t].Idle?
      modifies this
      ensures Valid()
      ensures Step(old(Abs()), Begin(t, CallPush(val)))
           == Outcome(Abs(), if result.Some? then PushReturned(result.value) else NoReturn)
    {
      hide Invariant;
      StepKeepsInvariant(Abs(), Begin(t, CallPush(val)));
      if stopping {
        return Some(false);
      }
      pc := pc[t := PushLock(val)];
      return None;
    }

    method PushLocked(t: Tid) returns (result: Option<bool>)
      requires Valid() && t in pc && pc[t].PushLock? && holder == None
      modifies this
      ensures Valid()
      ensures Step(old(Abs()), Advance(t, t))
           == Outcome(Abs(), if result.Some? then PushReturned(result.value) else NoReturn)
    {
      hide Invariant;
      StepKeepsInvariant(Abs(), Advance(t, t));
      if stopping {
        pc := pc[t := Idle];
        return Some(false);
      }
      holder := Some(t);
      pc := pc[t := PushCommit(pc[t].val)];
      return None;
    }

    /** `push_back`, `notify_one` waking `wake` if anybody sleeps, and the end of the lock's scope. */
    method PushBack(t: Tid, wake: Tid) returns (result: bool)
      requires Valid() && t in pc && pc[t].PushCommit?
      requires PopSleepers(pc) != {} ==> wake in PopSleepers(pc)
      modifies this
      ensures Valid()
      ensures Step(old(Abs()), Advance(t, wake)) == Outcome(Abs(), PushReturned(result))
    {
      hide Invariant;
      StepKeepsInvariant(Abs(), Advance(t, wake));
      var sleepers := PopSleepers(pc);
      queue := queue + [pc[t].val];
      accepted := accepted + [pc[t].val];
      pc := pc[t := Idle];
      if sleepers != {} {
        pc := pc[wake := PopSignalled];
      }
      holder := None;
      return true;
    }

    // ----- wait_pop and ts_pop -----

    method WaitPopEnter(t: Tid) returns (finished: bool)
      requires Valid() && t in pc && pc[t].Idle?
      modifies this
      ensures Valid()
      ensures Step(old(Abs()), Begin(t, CallWaitPop))
           == Outcome(Abs(), if finished then PopReturned(None) else NoReturn)
    {
      hide Invariant;
      StepKeepsInvariant(Abs(), Begin(t, CallWaitPop));
      if stopping {
        return true;
      }
      pc := pc[t := PopLock];
      return false;
    }

    /** With the mutex taken, on entry or after `push_.wait`. */
    method WaitPopLocked(t: Tid) returns (finished: bool)
      requires Valid() && t in pc && (pc[t].PopLock? || pc[t].PopSignalled?) && holder == None
      modifies this
      ensures Valid()
      ensures Step(old(Abs()), Advance(t, t)) == Outcome(Abs(), if finished then PopReturned(None) else NoReturn)
    {
      hide Invariant;
      StepKeepsInvariant(Abs(), Advance(t, t));
      if stopping {
        pc := pc[t := Idle];
        return true;
      }
      holder := Some(t);
      pc := pc[t := PopTest];
      return false;
    }

    /** The head of the `while` loop: sleep on an empty list, otherwise take the front. */
    method WaitPopTest(t: Tid) returns (result: Option<Task>)
      requires Valid() && t in pc && pc[t].PopTest?
      modifies this
      ensures Valid()
      ensures Step(old(Abs()), Advance(t, t))
           == Outcome(Abs(), if result.Some? then PopReturned(result) else NoReturn)
    {
      hide Invariant;
      StepKeepsInvariant(Abs(), Advance(t, t));
      if queue == [] {
        pc := pc[t := PopAsleep];
        holder := None;
        return None;
      }
      var front := PopFront(t);
      return Some(front);
    }

    method TsPopEnter(t: Tid) returns (finished: bool)
      requires Valid() && t in pc && pc[t].Idle?
      modifies this
      ensures Valid()
      ensures Step(old(Abs()), Begin(t, CallTsPop))
           == Outcome(Abs(), if finished then PopReturned(None) else NoReturn)
    {
      hide Invariant;
      StepKeepsInvariant(Abs(), Begin(t, CallTsPop));
      if stopping {
        return true;
      }
      pc := pc[t := TryLock];
      return false;
    }

    method TsPopLocked(t: Tid) returns (finished: bool)
      requires Valid() && t in pc && pc[t].TryLock? && holder == None
      modifies this
      ensures Valid()
      ensures Step(old(Abs()), Advance(t, t)) == Outcome(Abs(), if finished then PopReturned(None) else NoReturn)
    {
      hide Invariant;
      StepKeepsInvariant(Abs(), Advance(t, t));
      if stopping {
        pc := pc[t := Idle];
        return true;
      }
      holder := Some(t);
      pc := pc[t := TryTest];
      return false;
    }

    method TsPopTest(t: Tid) returns (result: Option<Task>)
      requires Valid() && t in pc && pc[t].TryTest?
      modifies this
      ensures Valid()
      ensures Step(old(Abs()), Advance(t, t)) == Outcome(Abs(), PopReturned(result))
    {
      hide Invariant;
      StepKeepsInvariant(Abs(), Advance(t, t));
      if queue == [] {
        pc := pc[t := Idle];
        holder := None;
        return None;
      }
      var front := PopFront(t);
      return Some(front);
    }

    /** Takes the front, notifies `wait_` if the list is empty then, and leaves the lock's scope. */
    method PopFront(t: Tid) returns (front: Task)
      requires t in pc && (pc[t].PopTest? || pc[t].TryTest?) && queue != []
      modifies this
      ensures Step(old(Abs()), Advance(t, t)) == Outcome(Abs(), PopReturned(Some(front)))
    {
      front := queue[0];
      queue := queue[1..];
      removed := removed + [Popped(front)];
      pc := pc[t := Idle];
      if queue == [] {
        pc := WakeWaiters(pc);
      }
      holder := None;
    }

    // ----- wait -----

    method WaitEnter(t: Tid) returns (finished: bool)
      requires Valid() && t in pc && pc[t].Idle?
      modifies this
      ensures Valid()
      ensures Step(old(Abs()), Begin(t, CallWait)) == Outcome(Abs(), if finished then WaitReturned else NoReturn)
    {
      hide Invariant;
      StepKeepsInvariant(Abs(), Begin(t, CallWait));
      if stopping {
        return true;
      }
      pc := pc[t := WaitLock];
      return false;
    }

    method WaitLocked(t: Tid) returns (finished: bool)
      requires Valid() && t in pc && (pc[t].WaitLock? || pc[t].WaitSignalled?) && holder == None
      modifies this
      ensures Valid()
      ensures Step(old(Abs()), Advance(t, t)) == Outcome(Abs(), if finished then WaitReturned else NoReturn)
    {
      hide Invariant;
      StepKeepsInvariant(Abs(), Advance(t, t));
      if queue != [] && !stopping {
        holder := Some(t);
        pc := pc[t := WaitSleep];
        return false;
      }
      pc := pc[t := Idle];
      return true;
    }

    method WaitFallAsleep(t: Tid)
      requires Valid() && t in pc && pc[t].WaitSleep?
      modifies this
      ensures Valid()
      ensures Step(old(Abs()), Advance(t, t)) == Outcome(Abs(), NoReturn)
    {
      hide Invariant;
      StepKeepsInvariant(Abs(), Advance(t, t));
      pc := pc[t := WaitAsleep];
      holder := None;
    }

    // ----- stop and stop_processing -----

    method StopEnter(t: Tid)
      requires Valid() && t in pc && pc[t].Idle?
      modifies this
      ensures Valid()
      ensures Step(old(Abs()), Begin(t, CallStop)) == Outcome(Abs(), NoReturn)
    {
      hide Invariant;
      StepKeepsInvariant(Abs(), Begin(t, CallStop));
      stopping := true;
      pc := pc[t := StopNotify];
    }

    method StopNotifyAll(t: Tid)
      requires Valid() && t in pc && pc[t].StopNotify? && holder == None
      modifies this
      ensures Valid()
      ensures Step(old(Abs()), Advance(t, t)) == Outcome(Abs(), StopReturned)
    {
      hide Invariant;
      StepKeepsInvariant(Abs(), Advance(t, t));
      pc := WakeAll(pc[t := Idle]);
      stopReturned := true;
    }

    method StopProcessingEnter(t: Tid)
      requires Valid() && t in pc && pc[t].Idle?
      modifies this
      ensures Valid()
      ensures Step(old(Abs()), Begin(t, CallStopProcessing)) == Outcome(Abs(), NoReturn)
    {
      hide Invariant;
      StepKeepsInvariant(Abs(), Begin(t, CallStopProcessing));
      stopping := true;
      pc := pc[t := FlushNotify];
    }

    /** Deletes the elements one by one from the front, then notifies everybody. */
    method StopProcessingFlush(t: Tid)
      requires Valid() && t in pc && pc[t].FlushNotify? && holder == None
      modifies this
      ensures Valid()
      ensures Step(old(Abs()), Advance(t, t)) == Outcome(Abs(), StopReturned)
    {
      hide Invariant;
      StepKeepsInvariant(Abs(), Advance(t, t));
      while queue != []
        invariant removed + DeleteAll(queue) == old(removed) + DeleteAll(old(queue))
        invariant stopping == old(stopping) && holder == old(holder) && pc == old(pc)
        invariant accepted == old(accepted) && stopReturned == old(stopReturned)
        decreases |queue|
      {
        assert DeleteAll(queue) == [Deleted(queue[0])] + DeleteAll(queue[1..]);
        removed := removed + [Deleted(queue[0])];
        queue := queue[1..];
      }
      assert removed + DeleteAll(queue) == removed;
      pc := WakeAll(pc[t := Idle]);
      stopReturned := true;
    }

    // ----- the scheduler -----

    /** Runs thread t, which is inside a method and not asleep, up to its next region's end. */
    method Run(t: Tid, wake: Tid) returns (e: Event)
      requires Valid() && Enabled(Abs(), Advance(t, wake))
      modifies this
      ensures Valid()
      ensures Step(old(Abs()), Advance(t, wake)) == Outcome(Abs(), e)
    {
      hide Invariant;
      StepKeepsInvariant(Abs(), Advance(t, wake));
      match pc[t] {
        case PushLock(_) =>
          var r := PushLocked(t);
          e := if r.Some? then PushReturned(r.value) else NoReturn;
        case PushCommit(_) =>
          var r := PushBack(t, wake);
          e := PushReturned(r);
        case PopLock =>
          var done := WaitPopLocked(t);
          e := if done then PopReturned(None) else NoReturn;
        case PopSignalled =>
          var done := WaitPopLocked(t);
          e := if done then PopReturned(None) else NoReturn;
        case PopTest =>
          var r := WaitPopTest(t);
          e := if r.Some? then PopReturned(r) else NoReturn;
        case TryLock =>
          var done := TsPopLocked(t);
          e := if done then PopReturned(None) else NoReturn;
        case TryTest =>
          var r := TsPopTest(t);
          e := PopReturned(r);
        case WaitLock =>
          var done := WaitLocked(t);
          e := if done then WaitReturned else NoReturn;
        case WaitSignalled =>
          var done := WaitLocked(t);
          e := if done then WaitReturned else NoReturn;
        case WaitSleep =>
          WaitFallAsleep(t);
          e := NoReturn;
        case StopNotify =>
          StopNotifyAll(t);
          e := StopReturned;
        case FlushNotify =>
          StopProcessingFlush(t);
          e := StopReturned;
      }
    }

    method WakeSpuriously(t: Tid)
      requires Valid() && t in pc && Asleep(pc[t])
      modifies this
      ensures Valid()
      ensures Step(old(Abs()), Spurious(t)) == Outcome(Abs(), NoReturn)
    {
      hide Invariant;
      StepKeepsInvariant(Abs(), Spurious(t));
      pc := pc[t := if pc[t].PopAsleep? then PopSignalled else WaitSignalled];
    }
  }
}
