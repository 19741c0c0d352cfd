/** The stop protocol of sources/timer/timer.cpp as a transition system: one thread calls `begin`, the timer's
    thread runs `processing_`, any number of other threads call `end`, and the method the timer calls may call
    `end` itself.  The destructor is one more caller of `end`, followed by a join.

    `begin` and `end` read and write the two flags without a mutex, so every read and every write is a step of
    its own; only the start of the thread is one step with `begin`'s last write.  `should_stop_protector_` is
    held by the timer's thread at the places named by HoldsMutex, and otherwise only inside one step of `end`. */
module Timer {

  type Tid = nat

  /** A call of `end`: past its read of `started_`; past its read of `should_stop_`; the flag set and the notify
      owed; notified. */
  datatype EndPc = Out | Checking | Passed | Notifying | Clearing

  /** The timer's thread; Starting is `begin` between its two writes.  `inner` is a call of `end` made by the
      method itself. */
  datatype TimerPc =
    | NotBegun
    | Starting
    | TopCheck
    | TopLock
    | InMethod(inner: EndPc)
    | AfterMethod
    | AboutToSleep
    | Sleeping
    | Waking
    | LastCheck
    | Exited

  /** The last fields are history.  `calls` counts the calls of the method that have begun; `callsAtStop` and
      `late` record that number and whether the thread was between its check and its call when the flag was
      last set; `early` says that some `end` set the flag while `begin` was between its two writes, and
      `returned` that some `end` that set the flag has returned. */
  datatype State = State(
    started: bool,
    shouldStop: bool,
    timer: TimerPc,
    enders: map<Tid, EndPc>,
    calls: nat,
    callsAtStop: nat,
    late: bool,
    early: bool,
    returned: bool)

  datatype Action =
    | Begin
    | BeginThread
    | Loop
    | TimeOut
    | MethodReturn
    | MethodThrow
    | InnerEnd
    | End(t: Tid)

  function Init(threads: set<Tid>): State {
    State(false, false, NotBegun, map t | t in threads :: Out, 0, 0, false, false, false)
  }

  predicate HoldsMutex(p: TimerPc) {
    p.InMethod? || p.AfterMethod? || p.AboutToSleep? || p.LastCheck?
  }

  /** A call of `end` that finds the timer unstarted returns at once: that is no step, it changes nothing. */
  predicate EndEnabled(s: State, p: EndPc, locked: bool) {
    match p
    case Out => s.started
    case Notifying => !locked
    case _ => true
  }

  predicate Enabled(s: State, a: Action) {
    match a
    case Begin => s.timer.NotBegun?
    case BeginThread => s.timer.Starting?
    case Loop =>
      s.timer.TopCheck? || s.timer.TopLock? || s.timer.AfterMethod? || s.timer.AboutToSleep? || s.timer.Waking?
      || s.timer.LastCheck?
    case TimeOut => s.timer.Sleeping?
    case MethodReturn => s.timer == InMethod(Out)
    case MethodThrow => s.timer == InMethod(Out)
    case InnerEnd => s.timer.InMethod? && EndEnabled(s, s.timer.inner, false)
    case End(t) => t in s.enders && EndEnabled(s, s.enders[t], HoldsMutex(s.timer))
  }

  /** One iteration of the loop in `processing_`, cut at its reads of the flag. */
  function LoopStep(s: State): State {
    match s.timer
    case TopCheck => s.(timer := if s.shouldStop then Exited else TopLock)
    case TopLock => s.(timer := InMethod(Out), calls := s.calls + 1)
    case AfterMethod => s.(timer := if s.shouldStop then Exited else AboutToSleep)
    case AboutToSleep => s.(timer := Sleeping)
    case Waking => s.(timer := LastCheck)
    case LastCheck => s.(timer := if s.shouldStop then Exited else TopCheck)
    case _ => s
  }

  function NextEnd(p: EndPc, shouldStop: bool): EndPc {
    match p
    case Out => Checking
    case Checking => if shouldStop then Out else Passed
    case Passed => Notifying
    case Notifying => Clearing
    case Clearing => Out
  }

  /** What a step of `end` does to the timer: it sets the flag, wakes the thread, or marks it unstarted. */
  function EndEffect(s: State, p: EndPc): State {
    match p
    case Out => s
    case Checking => s
    case Passed =>
      if s.shouldStop then s
      else s.(shouldStop := true, callsAtStop := s.calls, late := s.timer.TopLock?,
              early := s.early || s.timer.Starting?)
    case Notifying => if s.timer.Sleeping? then s.(timer := Waking) else s
    case Clearing => s.(started := false, returned := true)
  }

  function Step(s: State, a: Action): State
    requires Enabled(s, a)
  {
    match a
    case Begin => s.(started := true, timer := Starting)
    case BeginThread => s.(shouldStop := false, timer := TopCheck)
    case Loop => LoopStep(s)
    case TimeOut => s.(timer := Waking)
    case MethodReturn => s.(timer := AfterMethod)
    case MethodThrow => s.(timer := Exited)
    case InnerEnd => EndEffect(s, s.timer.inner).(timer := InMethod(NextEnd(s.timer.inner, s.shouldStop)))
    case End(t) => EndEffect(s, s.enders[t]).(enders := s.enders[t := NextEnd(s.enders[t], s.shouldStop)])
  }

  ghost predicate Feasible(s: State, run: seq<Action>)
    decreases |run|
  {
    run == [] || (Enabled(s, run[0]) && Feasible(Step(s, run[0]), run[1..]))
  }

  ghost function After(s: State, run: seq<Action>): State
    requires Feasible(s, run)
    decreases |run|
  {
    if run == [] then s else After(Step(s, run[0]), run[1..])
  }

  // ----- what every step keeps -----

  predicate FlagSet(p: EndPc) {
    p.Notifying? || p.Clearing?
  }

  /** The thread has been started and has not exited. */
  predicate Running(p: TimerPc) {
    !p.NotBegun? && !p.Starting? && !p.Exited?
  }

  /** Before `begin` nothing has happened. */
  ghost predicate Untouched(s: State) {
    s.timer.NotBegun? ==>
      && !s.started && !s.shouldStop && s.calls == 0 && !s.early && !s.returned
      && forall t :: t in s.enders ==> s.enders[t].Out?
  }

  /** Between `begin`'s writes the flag is set exactly if some `end` has set it there, and that call is still
      under way or has returned. */
  ghost predicate Between(s: State) {
    s.timer.Starting? ==>
      && s.calls == 0
      && (s.shouldStop <==> s.early)
      && (s.early ==> s.returned || exists t :: t in s.enders && FlagSet(s.enders[t]))
  }

  /** Unless `begin` has cleared it again, the flag stays set from the moment some `end` sets it. */
  ghost predicate Remembered(s: State) {
    s.timer.Starting? || !s.early ==>
      && (forall t :: t in s.enders && FlagSet(s.enders[t]) ==> s.shouldStop)
      && (s.timer.InMethod? && FlagSet(s.timer.inner) ==> s.shouldStop)
      && (s.returned ==> s.shouldStop)
      && (!s.started && !s.timer.NotBegun? ==> s.shouldStop)
  }

  /** While the flag is set, the calls begun since are exactly the late one. */
  ghost predicate Overshoot(s: State) {
    s.shouldStop ==>
      && s.calls == s.callsAtStop + (if s.late && !s.timer.TopLock? then 1 else 0)
      && (s.timer.TopLock? ==> s.late)
  }

  /** A sleeper that should stop is owed a notify. */
  ghost predicate Owed(s: State) {
    s.shouldStop && (s.timer.Sleeping? || s.timer.AboutToSleep?) ==> exists t :: t in s.enders && s.enders[t].Notifying?
  }

  /** Once an `end` that set the flag has returned the timer is unstarted. */
  ghost predicate Unstarted(s: State) {
    s.returned ==> !s.started && !s.timer.NotBegun?
  }

  ghost predicate Invariant(s: State) {
    Untouched(s) && Between(s) && Remembered(s) && Overshoot(s) && Owed(s) && Unstarted(s)
  }

  lemma StepKeepsUntouched(s: State, a: Action)
    requires Untouched(s) && Enabled(s, a)
    ensures Untouched(Step(s, a))
  {
  }

  lemma StepKeepsBetween(s: State, a: Action)
    requires Untouched(s) && Between(s) && Enabled(s, a)
    ensures Between(Step(s, a))
  {
    var s' := Step(s, a);
    if s'.timer.Starting? && s'.early && !s'.returned {
      if s.early {
        var t :| t in s.enders && FlagSet(s.enders[t]);
        assert t in s'.enders && FlagSet(s'.enders[t]);
      } else {
        assert FlagSet(s'.enders[a.t]);
      }
    }
  }

  lemma StepKeepsRemembered(s: State, a: Action)
    requires Untouched(s) && Between(s) && Remembered(s) && Enabled(s, a)
    ensures Remembered(Step(s, a))
  {
  }

  lemma StepKeepsOvershoot(s: State, a: Action)
    requires Untouched(s) && Overshoot(s) && Enabled(s, a)
    ensures Overshoot(Step(s, a))
  {
  }

  lemma StepKeepsOwed(s: State, a: Action)
    requires Owed(s) && Enabled(s, a)
    ensures Owed(Step(s, a))
  {
    var s' := Step(s, a);
    if s'.shouldStop && (s'.timer.Sleeping? || s'.timer.AboutToSleep?) {
      if a.End? && s.enders[a.t].Passed? {
        assert s'.enders[a.t].Notifying?;
      } else {
        var t :| t in s.enders && s.enders[t].Notifying?;
        assert s'.enders[t].Notifying?;
      }
    }
  }

  lemma StepKeepsUnstarted(s: State, a: Action)
    requires Untouched(s) && Unstarted(s) && Enabled(s, a)
    ensures Unstarted(Step(s, a))
  {
  }

  lemma StepKeepsInvariant(s: State, a: Action)
    requires Invariant(s) && Enabled(s, a)
    ensures Invariant(Step(s, a))
  {
    hide Step, Enabled, Untouched, Between, Remembered, Overshoot, Owed, Unstarted;
    StepKeepsUnstarted(s, a);
    StepKeepsUntouched(s, a);
    StepKeepsBetween(s, a);
    StepKeepsRemembered(s, a);
    StepKeepsOvershoot(s, a);
    StepKeepsOwed(s, a);
  }

  lemma {:induction false} RunKeepsInvariant(s: State, run: seq<Action>)
    requires Invariant(s) && Feasible(s, run)
    ensures Invariant(After(s, run))
    decreases |run|
  {
    if run != [] {
      StepKeepsInvariant(s, run[0]);
      RunKeepsInvariant(Step(s, run[0]), run[1..]);
    }
  }

  lemma InitHolds(threads: set<Tid>)
    ensures Invariant(Init(threads))
  {
  }

  ghost predicate Reached(s: State, threads: set<Tid>, run: seq<Action>) {
    Feasible(Init(threads), run) && s == After(Init(threads), run)
  }

  lemma ReachedHolds(s: State, threads: set<Tid>, run: seq<Action>)
    requires Reached(s, threads, run)
    ensures Invariant(s)
  {
    InitHolds(threads);
    RunKeepsInvariant(Init(threads), run);
  }

  // ----- what can follow a state -----

  ghost function Future(s: State): iset<State> {
    iset run | Feasible(s, run) :: After(s, run)
  }

  lemma {:induction false} Extend(s: State, run: seq<Action>, a: Action)
    requires Feasible(s, run) && Enabled(After(s, run), a)
    ensures Feasible(s, run + [a]) && After(s, run + [a]) == Step(After(s, run), a)
    decreases |run|
  {
    hide Enabled, Step;
    var longer := run + [a];
    if run == [] {
      assert longer[0] == a && longer[1..] == [];
      assert Feasible(Step(s, a), longer[1..]);
    } else {
      assert longer[0] == run[0] && longer[1..] == run[1..] + [a];
      Extend(Step(s, run[0]), run[1..], a);
    }
  }

  lemma FutureStarts(s: State)
    ensures s in Future(s)
  {
    assert Feasible(s, []) && After(s, []) == s;
  }

  lemma Next(r: State, s: State, a: Action) returns (s': State)
    requires s in Future(r) && Enabled(s, a)
    ensures s' == Step(s, a) && s' in Future(r)
  {
    hide Enabled, Step;
    var run :| Feasible(r, run) && s == After(r, run);
    Extend(r, run, a);
    s' := Step(s, a);
  }

  // ----- the loop -----

  /** What is counted is the thread's entering the method; it leaves it by returning or throwing. */
  lemma CallsAreCounted(s: State, a: Action)
    requires Enabled(s, a)
    ensures Step(s, a).calls == s.calls + (if Step(s, a).timer.InMethod? && !s.timer.InMethod? then 1 else 0)
    ensures s.timer.InMethod? && !Step(s, a).timer.InMethod? ==> a.MethodReturn? || a.MethodThrow?
  {
    if a.End? || a.InnerEnd? {
      hide Step, Enabled;
      EndersKeep(s, a);
      InnerStays(s, a);
    }
  }

  lemma InnerStays(s: State, a: Action)
    requires Enabled(s, a) && (a.End? || a.InnerEnd?)
    ensures Step(s, a).timer.InMethod? <==> s.timer.InMethod?
  {
    hide NextEnd, EndEnabled;
  }

  /** The method has been called and the thread has not slept since, or it has exited. */
  predicate Unrested(p: TimerPc) {
    p.InMethod? || p.AfterMethod? || p.AboutToSleep? || p.Exited?
  }

  lemma UnrestedStep(s: State, a: Action)
    requires Unrested(s.timer) && Enabled(s, a)
    ensures Step(s, a).calls == s.calls && (Unrested(Step(s, a).timer) || Step(s, a).timer.Sleeping?)
    ensures s.timer.Exited? ==> Step(s, a).timer.Exited?
  {
    if a.End? || a.InnerEnd? {
      hide Step, Enabled;
      EndersKeep(s, a);
    }
  }

  /** Between two calls of the method the thread sleeps: if in a run from state s, in which the method is running,
      another call begins, then the thread was asleep after some prefix of the run. */
  lemma {:induction false} SleepsBetweenCalls(s: State, run: seq<Action>) returns (k: nat)
    requires Unrested(s.timer) && Feasible(s, run) && After(s, run).calls > s.calls
    ensures k <= |run| && Feasible(s, run[..k]) && After(s, run[..k]).timer.Sleeping?
    decreases |run|
  {
    hide Step, Enabled, Unrested;
    k := 0;
    if run != [] {
      var s' := Step(s, run[0]);
      UnrestedStep(s, run[0]);
      if s'.timer.Sleeping? {
        k := 1;
        assert run[..1][0] == run[0] && run[..1][1..] == [];
        assert Feasible(s', run[..1][1..]);
      } else {
        var rest := SleepsBetweenCalls(s', run[1..]);
        k := rest + 1;
        assert run[..k][0] == run[0] && run[..k][1..] == run[1..][..rest];
      }
    }
  }

  /** The sleep ends by time or by the notify of an `end`, and the thread then takes the mutex again. */
  lemma SleepEnds(s: State, a: Action)
    requires s.timer.Sleeping? && Enabled(s, a) && !Step(s, a).timer.Sleeping?
    ensures Step(s, a).timer.Waking?
    ensures a.TimeOut? || (a.End? && s.enders[a.t].Notifying?)
    ensures Enabled(Step(s, a), Loop) && HoldsMutex(Step(Step(s, a), Loop).timer)
  {
  }

  /** An exception thrown by the method ends the thread: no further call begins. */
  lemma {:induction false} ExitIsFinal(s: State, run: seq<Action>)
    requires s.timer.Exited? && Feasible(s, run)
    ensures After(s, run).timer.Exited? && After(s, run).calls == s.calls
    decreases |run|
  {
    hide Step, Enabled;
    if run != [] {
      UnrestedStep(s, run[0]);
      ExitIsFinal(Step(s, run[0]), run[1..]);
    }
  }

  lemma ThrowIsFinal(s: State, run: seq<Action>)
    requires Enabled(s, MethodThrow) && Feasible(Step(s, MethodThrow), run)
    ensures After(Step(s, MethodThrow), run).calls == s.calls
    ensures After(Step(s, MethodThrow), run).timer.Exited?
  {
    ExitIsFinal(Step(s, MethodThrow), run);
  }

  // ----- a stop that `begin` does not undo -----

  /** Whether the timer's thread is between its check of the flag and its call of the method. */
  predicate InWindow(s: State) {
    s.timer.TopLock?
  }

  /** What a step of `end` leaves alone. */
  lemma EndKeeps(s: State, p: EndPc)
    ensures var s' := EndEffect(s, p);
      && s'.enders == s.enders && s'.calls == s.calls
      && (s'.timer == s.timer || (s.timer.Sleeping? && s'.timer.Waking?))
      && (s.shouldStop ==> s'.shouldStop && s'.callsAtStop == s.callsAtStop && s'.late == s.late)
      && (!s.timer.Starting? ==> s'.early == s.early)
      && (!s.shouldStop && s'.shouldStop ==> s'.callsAtStop == s.calls && (s'.late <==> InWindow(s)))
  {
  }

  lemma EndersKeep(s: State, a: Action)
    requires Enabled(s, a) && (a.End? || a.InnerEnd?)
    ensures var s' := Step(s, a);
      && s'.calls == s.calls
      && (s'.timer == s.timer || (s.timer.Sleeping? && s'.timer.Waking?) || (s.timer.InMethod? && s'.timer.InMethod?))
      && (s.shouldStop ==> s'.shouldStop && s'.callsAtStop == s.callsAtStop && s'.late == s.late)
      && (!s.timer.Starting? ==> s'.early == s.early)
      && (!s.shouldStop && s'.shouldStop ==> s'.callsAtStop == s.calls && (s'.late <==> InWindow(s)))
  {
    hide EndEffect, NextEnd, EndEnabled;
    EndKeeps(s, if a.End? then s.enders[a.t] else s.timer.inner);
  }

  lemma StepKeepsRecord(s: State, a: Action)
    requires s.shouldStop && !s.timer.Starting? && !s.timer.NotBegun? && Enabled(s, a)
    ensures var s' := Step(s, a);
      && s'.shouldStop && s'.callsAtStop == s.callsAtStop && s'.late == s.late
      && !s'.timer.Starting? && !s'.timer.NotBegun?
  {
    if a.End? || a.InnerEnd? {
      hide Step, Enabled;
      EndersKeep(s, a);
    }
  }

  lemma {:induction false} RunKeepsRecord(s: State, run: seq<Action>)
    requires Invariant(s) && s.shouldStop && !s.timer.Starting? && !s.timer.NotBegun? && Feasible(s, run)
    ensures var e := After(s, run);
      Invariant(e) && e.shouldStop && e.callsAtStop == s.callsAtStop && e.late == s.late
    decreases |run|
  {
    if run != [] {
      StepKeepsRecord(s, run[0]);
      StepKeepsInvariant(s, run[0]);
      RunKeepsRecord(Step(s, run[0]), run[1..]);
    }
  }

  lemma FlagRecorded(s: State, a: Action)
    requires !s.shouldStop && Enabled(s, a) && Step(s, a).shouldStop
    ensures Step(s, a).callsAtStop == s.calls && (Step(s, a).late <==> InWindow(s))
    ensures (a.InnerEnd? || a.End?) && (Step(s, a).timer.Starting? <==> s.timer.Starting?)
  {
    if a.End? || a.InnerEnd? {
      hide Step, Enabled;
      EndersKeep(s, a);
    }
  }

  /** Let `end`, called by any thread or by the method itself, set the flag in state s, `begin` not being between
      its two writes.  Then at most one more call of the method begins; and by the time the thread has exited,
      exactly one has if it was between its check and its call in s, and none otherwise. */
  lemma CallsAfterStop(s: State, threads: set<Tid>, before: seq<Action>, a: Action, run: seq<Action>)
    requires Reached(s, threads, before) && !s.shouldStop && !s.timer.Starting?
    requires Enabled(s, a) && Step(s, a).shouldStop && Feasible(Step(s, a), run)
    ensures var e := After(Step(s, a), run);
      && s.calls <= e.calls <= s.calls + (if InWindow(s) then 1 else 0)
      && (e.timer.Exited? ==> e.calls == s.calls + (if InWindow(s) then 1 else 0))
      && (a.InnerEnd? ==> e.calls == s.calls)
  {
    ReachedHolds(s, threads, before);
    StepKeepsInvariant(s, a);
    FlagRecorded(s, a);
    RunKeepsRecord(Step(s, a), run);
  }

  /** The window is real: the flag can be set there and the method called once more. */
  lemma WindowIsReachable() returns (s: State)
    ensures s in Future(Init({1})) && InWindow(s) && !s.shouldStop
    ensures Enabled(s, End(1)) && Step(s, End(1)).shouldStop
  {
    var r := Init({1});
    FutureStarts(r);
    s := Next(r, r, Begin);
    s := Next(r, s, BeginThread);
    s := Next(r, s, Loop);
    s := Next(r, s, End(1));
    s := Next(r, s, End(1));
  }

  /** The thread is asleep with the flag set only while some `end` owes its notify, which it can then give:
      it is not waiting for the time-out. */
  lemma NeverForgotten(s: State, threads: set<Tid>, run: seq<Action>)
    requires Reached(s, threads, run) && s.shouldStop && s.timer.Sleeping?
    ensures exists t :: t in s.enders && s.enders[t].Notifying? && Enabled(s, End(t)) && Step(s, End(t)).timer.Waking?
  {
    ReachedHolds(s, threads, run);
    var t :| t in s.enders && s.enders[t].Notifying?;
    assert Enabled(s, End(t));
  }

  /** If no `end` has set the flag between `begin`'s two writes, then whenever a call of `end` returns after
      `begin`, at either of its checks or at its end, the flag is set. */
  lemma EndStops(s: State, threads: set<Tid>, run: seq<Action>, t: Tid)
    requires Reached(s, threads, run) && !s.timer.NotBegun? && !s.early && t in s.enders
    ensures s.enders[t].Out? && !Enabled(s, End(t)) ==> s.shouldStop
    ensures s.enders[t].Checking? && Step(s, End(t)).enders[t].Out? ==> s.shouldStop
    ensures s.enders[t].Clearing? ==> s.shouldStop && Step(s, End(t)).enders[t].Out?
    ensures s.returned ==> s.shouldStop
  {
    ReachedHolds(s, threads, run);
  }

  // ----- the thread exits -----

  function EndLeft(p: EndPc): nat {
    match p
    case Passed => 3
    case Notifying => 2
    case Clearing => 1
    case _ => 0
  }

  /** How many steps the thread has left once the flag is set for good, the method's own body aside. */
  function Rank(p: TimerPc): nat {
    match p
    case NotBegun => 0
    case Starting => 0
    case TopCheck => 1
    case TopLock => 3
    case InMethod(inner) => 2 + EndLeft(inner)
    case AfterMethod => 1
    case AboutToSleep => 4
    case Sleeping => 3
    case Waking => 2
    case LastCheck => 1
    case Exited => 0
  }

  /** A check at the head of an `end` that the method's body calls. */
  predicate InnerCheck(s: State, a: Action) {
    a.InnerEnd? && s.timer.InMethod? && (s.timer.inner.Out? || s.timer.inner.Checking?)
  }

  /** A step of the timer's thread that is not part of the method's body, except to finish an `end` there. */
  predicate TimerAction(s: State, a: Action) {
    !a.End? && !a.Begin? && !a.BeginThread? && !InnerCheck(s, a)
  }

  /** With the flag set for good, each step of the thread lowers its rank and no other step raises it. */
  lemma StoppedStep(s: State, a: Action)
    requires s.shouldStop && !s.timer.Starting? && !s.timer.NotBegun? && Enabled(s, a)
    ensures TimerAction(s, a) ==> Rank(Step(s, a).timer) < Rank(s.timer)
    ensures !TimerAction(s, a) ==> Rank(Step(s, a).timer) <= Rank(s.timer)
    ensures Step(s, a).shouldStop && !Step(s, a).timer.Starting? && !Step(s, a).timer.NotBegun?
  {
  }

  ghost function TimerSteps(s: State, run: seq<Action>): nat
    requires Feasible(s, run)
    decreases |run|
  {
    if run == [] then 0
    else (if TimerAction(s, run[0]) then 1 else 0) + TimerSteps(Step(s, run[0]), run[1..])
  }

  /** So the thread takes at most five steps after that, in any run. */
  lemma {:induction false} StopTerminates(s: State, run: seq<Action>)
    requires s.shouldStop && !s.timer.Starting? && !s.timer.NotBegun? && Feasible(s, run)
    ensures TimerSteps(s, run) + Rank(After(s, run).timer) <= Rank(s.timer) <= 5
    ensures Rank(After(s, run).timer) == 0 <==> After(s, run).timer.Exited?
    decreases |run|
  {
    if run != [] {
      StoppedStep(s, run[0]);
      StopTerminates(Step(s, run[0]), run[1..]);
    }
  }

  /** And until it has exited something brings it nearer: its own step, or the notify it is owed; or the method's
      body is at its second check and, finding the flag set, goes on. */
  lemma StoppedMoves(s: State, threads: set<Tid>, run: seq<Action>)
    requires Reached(s, threads, run) && s.shouldStop && Running(s.timer)
    ensures exists a :: Enabled(s, a) && !a.TimeOut? &&
              (if s.timer == InMethod(Checking) then a.InnerEnd? && Step(s, a).timer == InMethod(Out)
               else Rank(Step(s, a).timer) < Rank(s.timer))
  {
    ReachedHolds(s, threads, run);
    if s.timer.Sleeping? {
      NeverForgotten(s, threads, run);
      var t :| t in s.enders && s.enders[t].Notifying? && Enabled(s, End(t)) && Step(s, End(t)).timer.Waking?;
      assert Rank(Step(s, End(t)).timer) < Rank(s.timer);
    } else {
      var a := if s.timer == InMethod(Out) then MethodReturn else if s.timer.InMethod? then InnerEnd else Loop;
      assert Enabled(s, a);
      StoppedStep(s, a);
    }
  }
}
