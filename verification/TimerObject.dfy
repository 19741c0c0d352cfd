/** The timer object of sources/timer/timer.cpp: its fields, and its methods region by region, each changing the
    object in place.  Every method is proved to be a step of module Timer and to keep that machine's invariant. */
module TimerObject {
  import opened Timer

  const SECOND: nat := 1_000_000_000
  const MILLISECOND: nat := 1_000_000

  class TimerPrototype {
    const sleepMicroseconds: nat
    var started: bool
    var shouldStop: bool
    var timer: TimerPc
    var enders: map<Tid, EndPc>
    // history
    ghost var calls: nat
    ghost var callsAtStop: nat
    ghost var late: bool
    ghost var early: bool
    ghost var returned: bool

    ghost function Abs(): State
      reads this
    {
      State(started, shouldStop, timer, enders, calls, callsAtStop, late, early, returned)
    }

    ghost predicate Valid()
      reads this
    {
      Invariant(Abs())
    }

    constructor (sleepMicroseconds: nat, threads: set<Tid>)
      ensures Valid() && Abs() == Init(threads) && this.sleepMicroseconds == sleepMicroseconds
    {
      this.sleepMicroseconds := sleepMicroseconds;
      started, shouldStop := false, false;
      timer, enders := NotBegun, map t | t in threads :: Out;
      calls, callsAtStop, late, early, returned := 0, 0, false, false, false;
    }

    // ----- begin -----

    method BeginStarted()
      requires Valid() && Enabled(Abs(), Begin)
      modifies this
      ensures Valid() && Abs() == Step(old(Abs()), Begin)
    {
      hide Invariant;
      StepKeepsInvariant(Abs(), Begin);
      started := true;
      timer := Starting;
    }

    /** The second write, and the start of the thread. */
    method BeginRunning()
      requires Valid() && Enabled(Abs(), BeginThread)
      modifies this
      ensures Valid() && Abs() == Step(old(Abs()), BeginThread)
    {
      hide Invariant;
      StepKeepsInvariant(Abs(), BeginThread);
      shouldStop := false;
      timer := TopCheck;
    }

    // ----- end -----

    /** The first check of `end`, for which the caller goes on or returns. */
    method EndCheck(t: Tid) returns (finished: bool)
      requires Valid() && t in enders && enders[t].Out?
      modifies this
      ensures Valid()
      ensures finished <==> !Enabled(old(Abs()), End(t))
      ensures Abs() == if finished then old(Abs()) else Step(old(Abs()), End(t))
    {
      hide Invariant;
      if !started {
        return true;
      }
      StepKeepsInvariant(Abs(), End(t));
      enders := enders[t := Checking];
      return false;
    }

    /** A later region of `end` on the object's own fields, whoever runs it. */
    method EndRegion(p: EndPc)
      modifies this
      ensures Abs() == EndEffect(old(Abs()), p)
    {
      match p {
        case Out =>
        case Checking =>
        case Passed =>
          if !shouldStop {
            callsAtStop, late, early := calls, timer.TopLock?, early || timer.Starting?;
          }
          shouldStop := true;
        case Notifying =>
          if timer.Sleeping? {
            timer := Waking;
          }
        case Clearing =>
          started := false;
          returned := true;
      }
    }

    method EndFurther(t: Tid)
      requires Valid() && Enabled(Abs(), End(t)) && !enders[t].Out?
      modifies this
      ensures Valid() && Abs() == Step(old(Abs()), End(t))
    {
      hide Invariant;
      StepKeepsInvariant(Abs(), End(t));
      var next := NextEnd(enders[t], shouldStop);
      EndRegion(enders[t]);
      enders := enders[t := next];
    }

    /** `end` called by the method itself. */
    method EndInside()
      requires Valid() && Enabled(Abs(), InnerEnd)
      modifies this
      ensures Valid() && Abs() == Step(old(Abs()), InnerEnd)
    {
      hide Invariant;
      StepKeepsInvariant(Abs(), InnerEnd);
      var p, next := timer.inner, NextEnd(timer.inner, shouldStop);
      EndRegion(p);
      timer := InMethod(next);
    }

    // ----- the thread -----

    /** `processing_`, from one read of the flag to the next. */
    method Processing()
      requires Valid() && Enabled(Abs(), Loop)
      modifies this
      ensures Valid() && Abs() == Step(old(Abs()), Loop)
    {
      hide Invariant;
      StepKeepsInvariant(Abs(), Loop);
      match timer {
        case TopCheck =>
          timer := if shouldStop then Exited else TopLock;
        case TopLock =>
          timer := InMethod(Out);
          calls := calls + 1;
        case AfterMethod =>
          timer := if shouldStop then Exited else AboutToSleep;
        case AboutToSleep =>
          timer := Sleeping;
        case Waking =>
          timer := LastCheck;
        case LastCheck =>
          timer := if shouldStop then Exited else TopCheck;
      }
    }

    /** The method returns, or throws, which ends the thread. */
    method MethodEnds(throws: bool)
      requires Valid() && timer == InMethod(Out)
      modifies this
      ensures Valid() && Abs() == Step(old(Abs()), if throws then MethodThrow else MethodReturn)
    {
      hide Invariant;
      StepKeepsInvariant(Abs(), if throws then MethodThrow else MethodReturn);
      timer := if throws then Exited else AfterMethod;
    }

    method WakeByTime()
      requires Valid() && Enabled(Abs(), TimeOut)
      modifies this
      ensures Valid() && Abs() == Step(old(Abs()), TimeOut)
    {
      hide Invariant;
      StepKeepsInvariant(Abs(), TimeOut);
      timer := Waking;
    }

    /** `sleep_interval_` on the current time: the wake-up is `sleepMicroseconds` milliseconds later, and
        the nanoseconds, which always fit 32 bits, stay below a second exactly if the sum does. */
    method SleepInterval(now: nat, nowNsec: nat) returns (sec: nat, nsec: nat)
      requires nowNsec < SECOND
      ensures sec * SECOND + nsec == now * SECOND + nowNsec + sleepMicroseconds * MILLISECOND
      ensures nsec < 0x8000_0000
      ensures nsec < SECOND <==> nowNsec + sleepMicroseconds % 1000 * MILLISECOND < SECOND
    {
      sec, nsec := now, nowNsec;
      if sleepMicroseconds >= 1000 {
        var inc := sleepMicroseconds / 1000;
        sec := sec + inc;
        nsec := nsec + (sleepMicroseconds - inc * 1000) * MILLISECOND;
      } else {
        nsec := nsec + sleepMicroseconds * MILLISECOND;
      }
    }
  }
}
