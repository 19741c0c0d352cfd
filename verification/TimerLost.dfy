/** The stop that `begin` undoes.  sources/timer/timer.cpp:22-23 sets `started_` before it clears `should_stop_`, so
    a call of `end` can pass its checks and set the flag in between, and lose it. */
module TimerLost {
  import opened Timer

  /** A call of `end` that set the flag has returned, and the thread runs on with the flag clear. */
  predicate Lost(s: State) {
    s.returned && !s.shouldStop && Running(s.timer)
  }

  // ----- it happens -----

  /** One `begin` and one `end`: the flag is set between `begin`'s two writes. */
  lemma EarlyIsReachable() returns (s: State)
    ensures s in Future(Init({1})) && s.timer.Starting? && s.early
  {
    var r := Init({1});
    FutureStarts(r);
    s := Next(r, r, Begin);
    s := Next(r, s, End(1));
    s := Next(r, s, End(1));
    s := Next(r, s, End(1));
  }

  /** The call that set the flag goes on and returns, nothing being in its way. */
  lemma EarlyReturns(s: State) returns (e: State)
    requires Invariant(s) && s.timer.Starting? && s.early
    ensures e in Future(Step(s, BeginThread)) && Lost(e) && e.timer.TopCheck?
  {
    var r := Step(s, BeginThread);
    FutureStarts(r);
    e := r;
    if !s.returned {
      var t :| t in s.enders && FlagSet(s.enders[t]);
      if e.enders[t].Notifying? {
        e := Next(r, e, End(t));
      }
      e := Next(r, e, End(t));
    }
  }

  lemma StepKeepsEarly(s: State, a: Action)
    requires !s.timer.Starting? && !s.timer.NotBegun? && Enabled(s, a)
    ensures !Step(s, a).timer.Starting? && !Step(s, a).timer.NotBegun? && Step(s, a).early == s.early
  {
    if a.End? || a.InnerEnd? {
      hide Step, Enabled;
      EndersKeep(s, a);
    }
  }

  lemma {:induction false} RunKeepsEarly(s: State, run: seq<Action>)
    requires Invariant(s) && !s.timer.Starting? && !s.timer.NotBegun? && Feasible(s, run)
    ensures Invariant(After(s, run)) && After(s, run).early == s.early
    decreases |run|
  {
    hide Step, Enabled, Invariant;
    if run != [] {
      StepKeepsEarly(s, run[0]);
      StepKeepsInvariant(s, run[0]);
      RunKeepsEarly(Step(s, run[0]), run[1..]);
    }
  }

  lemma NotEarlyNotLost(s: State, e: State)
    requires Invariant(s) && s.timer.Starting? && !s.early && e in Future(Step(s, BeginThread))
    ensures !Lost(e)
  {
    var r := Step(s, BeginThread);
    StepKeepsInvariant(s, BeginThread);
    var run :| Feasible(r, run) && e == After(r, run);
    RunKeepsEarly(r, run);
  }

  /** A stop is lost in some continuation of `begin`'s second write if and only if, in the state s before that
      write, some `end` has set the flag since the first. */
  lemma StopLostExactly(s: State, threads: set<Tid>, run: seq<Action>)
    requires Reached(s, threads, run) && s.timer.Starting?
    ensures (exists e :: e in Future(Step(s, BeginThread)) && Lost(e)) <==> s.early
    ensures s.early <==> s.shouldStop
  {
    ReachedHolds(s, threads, run);
    if s.early {
      var e := EarlyReturns(s);
    } else {
      forall e | e in Future(Step(s, BeginThread)) ensures !Lost(e) {
        NotEarlyNotLost(s, e);
      }
    }
  }

  // ----- and is not made good -----

  /** No call of `end` is past its first check. */
  ghost predicate NobodyEnding(s: State) {
    && (forall t :: t in s.enders ==> s.enders[t].Out?)
    && (s.timer.InMethod? ==> s.timer.inner.Out?)
  }

  ghost predicate Unstoppable(s: State) {
    !s.started && !s.shouldStop && NobodyEnding(s) && !s.timer.NotBegun? && !s.timer.Starting?
  }

  /** Once a stop is lost, nothing but an `end` already under way can still stop the timer. */
  lemma LostIsUnstoppable(s: State, threads: set<Tid>, run: seq<Action>)
    requires Reached(s, threads, run) && Lost(s) && NobodyEnding(s)
    ensures Unstoppable(s)
  {
    ReachedHolds(s, threads, run);
  }

  lemma StepKeepsUnstoppable(s: State, a: Action)
    requires Unstoppable(s) && Enabled(s, a)
    ensures Unstoppable(Step(s, a))
    ensures Running(s.timer) && !a.MethodThrow? ==> Running(Step(s, a).timer)
  {
  }

  /** The timer is unstarted with the flag clear and no `end` under way: from then on every call of `end` returns
      at once without effect, so that only an exception thrown by the method ends the thread. */
  lemma {:induction false} LostForGood(s: State, run: seq<Action>)
    requires Unstoppable(s) && Feasible(s, run)
    ensures Unstoppable(After(s, run))
    ensures forall t :: t in s.enders ==> !Enabled(After(s, run), End(t))
    ensures Running(s.timer) && MethodThrow !in run ==> Running(After(s, run).timer)
    decreases |run|
  {
    if run != [] {
      StepKeepsUnstoppable(s, run[0]);
      LostForGood(Step(s, run[0]), run[1..]);
      assert MethodThrow !in run ==> run[0] != MethodThrow && MethodThrow !in run[1..];
    }
  }

  /** With the flag clear the thread goes round its loop as often as one likes. */
  lemma {:induction false} KeepsCalling(r: State, s: State, n: nat) returns (e: State)
    requires s in Future(r) && s.timer.TopCheck? && !s.shouldStop
    ensures e in Future(r) && e.calls == s.calls + n
    ensures e == s.(calls := e.calls)
    decreases n
  {
    e := s;
    if n > 0 {
      e := OneRound(r, s);
      e := KeepsCalling(r, e, n - 1);
    }
  }

  lemma OneRound(r: State, s: State) returns (e: State)
    requires s in Future(r) && s.timer.TopCheck? && !s.shouldStop
    ensures e in Future(r) && e == s.(calls := s.calls + 1)
  {
    hide Future, EndEffect, NextEnd;
    e := Next(r, s, Loop);
    e := Next(r, e, Loop);
    e := Next(r, e, MethodReturn);
    e := Next(r, e, Loop);
    e := Next(r, e, Loop);
    e := Next(r, e, TimeOut);
    e := Next(r, e, Loop);
    e := Next(r, e, Loop);
  }

  /** After an `end` has set the flag in state s, the further calls of the method are bounded if and only if `begin`
      was not between its two writes. */
  lemma CallsBoundedExactly(s: State, threads: set<Tid>, before: seq<Action>, a: Action)
    requires Reached(s, threads, before) && !s.shouldStop && Enabled(s, a) && Step(s, a).shouldStop
    ensures (exists n :: CallsBoundedBy(Step(s, a), n)) <==> !s.timer.Starting?
    ensures !s.timer.Starting? ==> CallsBoundedBy(Step(s, a), s.calls + 1)
  {
    var s1 := Step(s, a);
    if !s.timer.Starting? {
      forall e | e in Future(s1) ensures e.calls <= s.calls + 1 {
        var run :| Feasible(s1, run) && e == After(s1, run);
        CallsAfterStop(s, threads, before, a, run);
      }
      assert CallsBoundedBy(s1, s.calls + 1);
    } else {
      FlagRecorded(s, a);
      forall n ensures !CallsBoundedBy(s1, n) {
        UnboundedAfter(s1, n);
      }
    }
  }

  ghost predicate CallsBoundedBy(s: State, n: nat) {
    forall e :: e in Future(s) ==> e.calls <= n
  }

  lemma UnboundedAfter(s: State, n: nat)
    requires s.timer.Starting?
    ensures !CallsBoundedBy(s, n)
  {
    FutureStarts(s);
    var s1 := Next(s, s, BeginThread);
    var e := KeepsCalling(s, s1, n + 1);
  }
}
