/** trader/trader_service.py: `_watched_ticks` and its `_BusyStreak`. The loop is a step relation over its
    awaits, against calls that return when they will and an event loop that may be late to resume them.
    Times are seconds of the event loop's clock. */
module Watchdog {
  import opened Common

  datatype Outcome = Fine | Busy | Failed

  /** A call of `tick()`: still running, or returned with an outcome. */
  datatype Call =
    | Running(started: real)
    | Returned(started: real, ended: real, outcome: Outcome)

  // ---------- The busy streak ----------

  /** Since when the ticks have been busy, and whether that was reported. */
  datatype Streak = Streak(startedAt: Option<real>, reported: bool)

  const NO_STREAK: Streak := Streak(None, false)

  /** The streak after one more busy tick. */
  function Prolonged(s: Streak, tickStarted: real, now: real, stuckAfter: real): Streak {
    var since := if s.startedAt.Some? then s.startedAt.value else tickStarted;
    Streak(Some(since), s.reported || now - since >= stuckAfter)
  }

  class BusyStreak {
    const stuckAfter: real
    var startedAt: Option<real>
    var reported: bool

    ghost function Value(): Streak
      reads this
    {
      Streak(startedAt, reported)
    }

    constructor (stuckAfter: real)
      ensures this.stuckAfter == stuckAfter && Value() == NO_STREAK
    {
      this.stuckAfter := stuckAfter;
      startedAt := None;
      reported := false;
    }

    method Clear()
      modifies this
      ensures Value() == NO_STREAK
    {
      startedAt := None;
      reported := false;
    }

    method Record(tickStarted: real, now: real) returns (critical: bool)
      modifies this
      ensures startedAt == if old(startedAt).Some? then old(startedAt) else Some(tickStarted)
      ensures critical <==> !old(reported) && now - startedAt.value >= stuckAfter
      ensures reported == (old(reported) || critical)
      ensures Value() == Prolonged(old(Value()), tickStarted, now, stuckAfter)
    {
      if startedAt == None { startedAt := Some(tickStarted); }
      var busyFor := now - startedAt.value;
      critical := false;
      if !reported && busyFor >= stuckAfter {
        reported := true;
        critical := true;
      }
    }
  }

  // ---------- The loop ----------

  datatype Setup = Setup(interval: real, stuckAfter: real)

  /** Where the loop stands: at its top, in the wait with the timeout, in the wait after it, with the call's
      result at hand, or asleep. */
  datatype Phase = Top | FirstWait | SecondWait | Ready | Sleeping(until: real)

  /** For each call: when its first wait was resumed, when its result was looked at, and whether that reported
      the busy streak. `stuck` lists the calls reported as still running. */
  datatype State = State(now: real, phase: Phase, calls: seq<Call>, streak: Streak, resumed: seq<real>,
                         handled: seq<real>, stuck: seq<nat>, critical: seq<bool>)

  ghost predicate Init(s: State) {
    && s.phase == Top && s.calls == [] && s.streak == NO_STREAK && s.resumed == [] && s.handled == []
    && s.stuck == [] && s.critical == []
  }

  ghost predicate LastRuns(s: State) { s.calls != [] && s.calls[|s.calls| - 1].Running? }

  ghost predicate LastIsDone(s: State) { s.calls != [] && s.calls[|s.calls| - 1].Returned? }

  function Deadline(u: Setup, call: Call): real { call.started + u.stuckAfter }

  /** `ensure_future(tick())` */
  ghost predicate StartTick(u: Setup, s: State, t: State) {
    s.phase == Top && t == s.(phase := FirstWait, calls := s.calls + [Running(s.now)])
  }

  /** Any running call may return at any time. */
  ghost predicate CallReturns(u: Setup, s: State, t: State, i: nat, outcome: Outcome) {
    && i < |s.calls| && s.calls[i].Running?
    && t == s.(calls := s.calls[i := Returned(s.calls[i].started, s.now, outcome)])
  }

  /** `asyncio.wait` with the timeout is resumed, and finds the call done. */
  ghost predicate FoundDone(u: Setup, s: State, t: State) {
    s.phase == FirstWait && LastIsDone(s) && t == s.(phase := Ready, resumed := s.resumed + [s.now])
  }

  /** It is resumed by the timeout and the call still runs: that is reported, and the call awaited again. */
  ghost predicate FoundRunning(u: Setup, s: State, t: State) {
    && s.phase == FirstWait && LastRuns(s) && s.now >= Deadline(u, s.calls[|s.calls| - 1])
    && t == s.(phase := SecondWait, resumed := s.resumed + [s.now], stuck := s.stuck + [|s.calls| - 1])
  }

  /** The wait without a timeout is resumed. */
  ghost predicate SecondWaitEnds(u: Setup, s: State, t: State) {
    s.phase == SecondWait && LastIsDone(s) && t == s.(phase := Ready)
  }

  /** The result is looked at, and the sleep begins. */
  ghost predicate Handle(u: Setup, s: State, t: State) {
    && s.phase == Ready && LastIsDone(s)
    && var call := s.calls[|s.calls| - 1];
       var streak := if call.outcome == Busy then Prolonged(s.streak, call.started, s.now, u.stuckAfter) else NO_STREAK;
       t == s.(phase := Sleeping(s.now + u.interval), streak := streak, handled := s.handled + [s.now],
               critical := s.critical + [streak.reported && !s.streak.reported])
  }

  ghost predicate WakeUp(u: Setup, s: State, t: State) {
    s.phase.Sleeping? && s.now >= s.phase.until && t == s.(phase := Top)
  }

  /** The clock runs on, however long something has been due. */
  ghost predicate TimePasses(s: State, t: State) {
    s.now <= t.now && t == s.(now := t.now)
  }

  ghost predicate Next(u: Setup, s: State, t: State) {
    || StartTick(u, s, t) || FoundDone(u, s, t) || FoundRunning(u, s, t) || SecondWaitEnds(u, s, t)
    || Handle(u, s, t) || WakeUp(u, s, t) || TimePasses(s, t)
    || exists i: nat, outcome :: CallReturns(u, s, t, i, outcome)
  }

  ghost predicate Sane(u: Setup) { u.interval >= 0.0 && u.stuckAfter >= 0.0 }

  ghost predicate StepsAt(u: Setup, run: seq<State>, i: nat) {
    i + 1 < |run| ==> Next(u, run[i], run[i + 1])
  }

  ghost predicate IsRun(u: Setup, run: seq<State>) {
    Sane(u) && |run| > 0 && Init(run[0]) && forall i: nat :: StepsAt(u, run, i)
  }

  // ---------- Invariants ----------

  ghost function RunningCalls(s: State): set<nat> { set i: nat | i < |s.calls| && s.calls[i].Running? }

  /** Only the last call can be running, and only while the loop waits for it. */
  ghost predicate OneAtATime(s: State) {
    && (forall i :: 0 <= i < |s.calls| - 1 ==> s.calls[i].Returned?)
    && (LastRuns(s) ==> s.phase == FirstWait || s.phase == SecondWait)
    && (s.phase == FirstWait || s.phase == SecondWait || s.phase == Ready ==> s.calls != [])
    && |s.resumed| == (if s.phase == FirstWait then |s.calls| - 1 else |s.calls|)
    && |s.critical| == |s.handled| == (if s.phase == Top || s.phase.Sleeping? then |s.calls| else |s.calls| - 1)
  }

  /** The times of one call, as far as it has come. */
  ghost predicate CallInOrder(s: State, i: nat)
    requires i < |s.calls|
  {
    && s.calls[i].started <= s.now
    && (s.calls[i].Returned? ==> s.calls[i].started <= s.calls[i].ended <= s.now)
    && (i < |s.resumed| ==> s.calls[i].started <= s.resumed[i] <= s.now)
    && (i < |s.handled| ==> s.calls[i].Returned? && s.calls[i].ended <= s.handled[i] <= s.now)
  }

  /** The calls follow one another, at least an interval apart. */
  ghost predicate InOrder(u: Setup, s: State) {
    && (forall i: nat :: i < |s.calls| ==> CallInOrder(s, i))
    && (forall i: nat :: i < |s.handled| && i + 1 < |s.calls| ==> s.handled[i] + u.interval <= s.calls[i + 1].started)
    && (s.phase == Top && s.handled != [] ==> s.handled[|s.handled| - 1] + u.interval <= s.now)
    && (s.phase.Sleeping? && s.handled != [] ==> s.handled[|s.handled| - 1] + u.interval == s.phase.until)
  }

  /** What being reported says about one call. */
  ghost predicate StuckInTime(u: Setup, s: State, i: nat)
    requires i < |s.calls|
  {
    if i in s.stuck then
      && i < |s.resumed| && s.resumed[i] >= Deadline(u, s.calls[i])
      && (s.calls[i].Returned? ==> s.calls[i].ended >= s.resumed[i])
    else i < |s.resumed| ==> s.calls[i].Returned? && s.calls[i].ended <= s.resumed[i]
  }

  ghost predicate StuckIsExact(u: Setup, s: State) {
    && (forall i: nat :: i < |s.calls| ==> StuckInTime(u, s, i))
    && (forall k, l :: 0 <= k < l < |s.stuck| ==> s.stuck[k] < s.stuck[l])
    && (forall i :: i in s.stuck ==> i < |s.resumed|)
  }

  predicate IsBusy(calls: seq<Call>, i: int) {
    0 <= i < |calls| && calls[i].Returned? && calls[i].outcome == Busy
  }

  /** The first tick of the busy streak that tick i belongs to. */
  function StreakStart(calls: seq<Call>, i: nat): (a: nat)
    requires i < |calls|
    ensures a <= i
  {
    if i > 0 && IsBusy(calls, i - 1) then StreakStart(calls, i - 1) else i
  }

  /** How long the streak has lasted when busy tick i is handled, from the start of its first tick. */
  function BusyFor(calls: seq<Call>, handled: seq<real>, i: nat): real
    requires i < |handled| && i < |calls|
  {
    handled[i] - calls[StreakStart(calls, i)].started
  }

  /** The streak has lasted stuckAfter when busy tick i is handled. */
  ghost predicate IsLong(u: Setup, calls: seq<Call>, handled: seq<real>, i: int) {
    IsBusy(calls, i) && i < |handled| && BusyFor(calls, handled, i) >= u.stuckAfter
  }

  /** Tick i is the one at which its streak reaches stuckAfter. */
  ghost predicate ReportsBusy(u: Setup, calls: seq<Call>, handled: seq<real>, i: int) {
    IsLong(u, calls, handled, i) && !IsLong(u, calls, handled, i - 1)
  }

  /** The streak after the first n calls. */
  ghost predicate StreakAfter(u: Setup, calls: seq<Call>, handled: seq<real>, n: int, streak: Streak)
    requires n <= |calls|
  {
    if IsBusy(calls, n - 1) then
      streak == Streak(Some(calls[StreakStart(calls, n - 1)].started), IsLong(u, calls, handled, n - 1))
    else streak == NO_STREAK
  }

  ghost predicate BusyIsExact(u: Setup, s: State) {
    && |s.critical| == |s.handled| <= |s.calls|
    && (forall i :: 0 <= i < |s.critical| ==> (s.critical[i] <==> ReportsBusy(u, s.calls, s.handled, i)))
    && StreakAfter(u, s.calls, s.handled, |s.handled|, s.streak)
  }

  ghost predicate Inv(u: Setup, s: State) {
    Sane(u) && OneAtATime(s) && InOrder(u, s) && StuckIsExact(u, s) && BusyIsExact(u, s)
  }

  // ---------- Streaks do not change when calls are added ----------

  ghost predicate SameUpTo<T>(xs: seq<T>, ys: seq<T>, n: nat) {
    n <= |xs| && n <= |ys| && forall i :: 0 <= i < n ==> xs[i] == ys[i]
  }

  lemma {:induction false} SameStart(calls: seq<Call>, calls': seq<Call>, i: nat)
    requires SameUpTo(calls, calls', i + 1)
    ensures StreakStart(calls, i) == StreakStart(calls', i) && IsBusy(calls, i) == IsBusy(calls', i)
  {
    if i == 0 {
    } else {
      SameStart(calls, calls', i - 1);
    }
  }

  lemma {:induction false} SameLength(u: Setup, calls: seq<Call>, handled: seq<real>, calls': seq<Call>,
                                      handled': seq<real>, i: int)
    requires i < 0 || (SameUpTo(calls, calls', i + 1) && SameUpTo(handled, handled', i + 1))
    ensures IsLong(u, calls, handled, i) == IsLong(u, calls', handled', i)
  {
    if i >= 0 { SameStart(calls, calls', i); }
  }

  /** Reports and streak of the handled ticks depend on those ticks only. */
  lemma {:induction false} SameReports(u: Setup, s: State, t: State)
    requires BusyIsExact(u, s) && t.critical == s.critical && t.streak == s.streak && t.handled == s.handled
    requires SameUpTo(s.calls, t.calls, |s.handled|)
    ensures BusyIsExact(u, t)
  {
    var n := |s.handled|;
    forall i | 0 <= i < n ensures ReportsBusy(u, t.calls, t.handled, i) <==> ReportsBusy(u, s.calls, s.handled, i) {
      SameLength(u, s.calls, s.handled, t.calls, t.handled, i);
      SameLength(u, s.calls, s.handled, t.calls, t.handled, i - 1);
    }
    if n > 0 {
      SameStart(s.calls, t.calls, n - 1);
      SameLength(u, s.calls, s.handled, t.calls, t.handled, n - 1);
    }
  }

  // ---------- Each step keeps the invariants ----------

  lemma {:induction false} InvStartTick(u: Setup, s: State, t: State)
    requires Inv(u, s) && StartTick(u, s, t)
    ensures Inv(u, t)
  {
    SameReports(u, s, t);
    forall i: nat | i < |t.calls| ensures CallInOrder(t, i) && StuckInTime(u, t, i) {
      if i < |s.calls| { assert CallInOrder(s, i) && StuckInTime(u, s, i); }
    }
  }

  lemma {:induction false} InvCallReturns(u: Setup, s: State, t: State, i: nat, outcome: Outcome)
    requires Inv(u, s) && CallReturns(u, s, t, i, outcome)
    ensures Inv(u, t)
  {
    assert i == |s.calls| - 1 && LastRuns(s);
    SameReports(u, s, t);
    forall k: nat | k < |t.calls| ensures CallInOrder(t, k) && StuckInTime(u, t, k) {
      assert CallInOrder(s, k) && StuckInTime(u, s, k);
    }
  }

  lemma {:induction false} InvResumed(u: Setup, s: State, t: State)
    requires Inv(u, s) && (FoundDone(u, s, t) || FoundRunning(u, s, t))
    ensures Inv(u, t)
  {
    SameReports(u, s, t);
    forall i: nat | i < |t.calls| ensures CallInOrder(t, i) && StuckInTime(u, t, i) {
      assert CallInOrder(s, i) && StuckInTime(u, s, i);
    }
    forall k | 0 <= k < |s.stuck| ensures s.stuck[k] < |s.calls| - 1 { assert s.stuck[k] in s.stuck; }
  }

  lemma {:induction false} InvSecondWaitEnds(u: Setup, s: State, t: State)
    requires Inv(u, s) && SecondWaitEnds(u, s, t)
    ensures Inv(u, t)
  {
    SameReports(u, s, t);
    SameTimes(u, s, t);
  }

  /** Calls, waits and reports as before, the clock not back. */
  lemma {:induction false} SameTimes(u: Setup, s: State, t: State)
    requires forall i: nat :: i < |s.calls| ==> CallInOrder(s, i)
    requires StuckIsExact(u, s) && t.calls == s.calls && t.resumed == s.resumed && t.stuck == s.stuck
    requires t.handled == s.handled && s.now <= t.now
    ensures forall i: nat :: i < |t.calls| ==> CallInOrder(t, i)
    ensures StuckIsExact(u, t)
  {
    forall i: nat | i < |t.calls| ensures CallInOrder(t, i) && StuckInTime(u, t, i) {
      assert CallInOrder(s, i) && StuckInTime(u, s, i);
    }
  }

  /** What handling call n does to the streak. */
  lemma {:induction false} StreakGrows(u: Setup, calls: seq<Call>, handled: seq<real>, n: nat, before: Streak,
                                       after: Streak)
    requires n < |calls| && n < |handled| && calls[n].Returned? && StreakAfter(u, calls, handled, n, before)
    requires IsBusy(calls, n - 1) ==> handled[n - 1] <= handled[n]
    requires after == if calls[n].outcome == Busy then Prolonged(before, calls[n].started, handled[n], u.stuckAfter)
                      else NO_STREAK
    ensures StreakAfter(u, calls, handled, n + 1, after)
    ensures after.reported && !before.reported <==> ReportsBusy(u, calls, handled, n)
  {
    if IsBusy(calls, n) && IsBusy(calls, n - 1) {
      assert StreakStart(calls, n) == StreakStart(calls, n - 1);
    }
  }

  lemma {:induction false} OneMoreHandled(u: Setup, s: State, t: State)
    requires BusyIsExact(u, s) && t.calls == s.calls && |s.handled| < |s.calls|
    requires t.handled == s.handled + [s.now]
    requires t.critical == s.critical + [ReportsBusy(u, s.calls, t.handled, |s.handled|)]
    requires StreakAfter(u, s.calls, t.handled, |t.handled|, t.streak)
    ensures BusyIsExact(u, t)
  {
    forall i | 0 <= i < |s.critical| ensures t.critical[i] <==> ReportsBusy(u, t.calls, t.handled, i) {
      SameLength(u, s.calls, s.handled, t.calls, t.handled, i);
      SameLength(u, s.calls, s.handled, t.calls, t.handled, i - 1);
    }
  }

  /** Handling a tick is the next step of its streak. */
  lemma {:induction false} HandleReports(u: Setup, s: State, t: State)
    requires BusyIsExact(u, s) && Handle(u, s, t) && |s.handled| == |s.calls| - 1
    requires forall i :: 0 <= i < |s.handled| ==> s.handled[i] <= s.now
    ensures BusyIsExact(u, t)
  {
    var n := |s.handled|;
    if n > 0 { SameLength(u, s.calls, s.handled, t.calls, t.handled, n - 1); }
    StreakGrows(u, s.calls, t.handled, n, s.streak, t.streak);
    OneMoreHandled(u, s, t);
  }

  lemma {:induction false} InvHandle(u: Setup, s: State, t: State)
    requires Inv(u, s) && Handle(u, s, t)
    ensures Inv(u, t)
  {
    forall i | 0 <= i < |s.handled| ensures s.handled[i] <= s.now { assert CallInOrder(s, i); }
    HandleReports(u, s, t);
    forall i: nat | i < |t.calls| ensures CallInOrder(t, i) && StuckInTime(u, t, i) {
      assert CallInOrder(s, i) && StuckInTime(u, s, i);
    }
  }

  lemma {:induction false} InvQuiet(u: Setup, s: State, t: State)
    requires Inv(u, s) && (WakeUp(u, s, t) || TimePasses(s, t))
    ensures Inv(u, t)
  {
    SameReports(u, s, t);
    SameTimes(u, s, t);
  }

  lemma {:induction false} InvStep(u: Setup, s: State, t: State)
    requires Inv(u, s) && Next(u, s, t)
    ensures Inv(u, t)
  {
    if i: nat, outcome :| CallReturns(u, s, t, i, outcome) {
      InvCallReturns(u, s, t, i, outcome);
    } else if StartTick(u, s, t) {
      InvStartTick(u, s, t);
    } else if Handle(u, s, t) {
      InvHandle(u, s, t);
    } else if FoundDone(u, s, t) || FoundRunning(u, s, t) {
      InvResumed(u, s, t);
    } else if SecondWaitEnds(u, s, t) {
      InvSecondWaitEnds(u, s, t);
    } else {
      InvQuiet(u, s, t);
    }
  }

  lemma {:induction false} StepAt(u: Setup, run: seq<State>, i: nat)
    requires IsRun(u, run) && i + 1 < |run|
    ensures Next(u, run[i], run[i + 1])
  {
    assert StepsAt(u, run, i);
  }

  lemma {:induction false} InvAlways(u: Setup, run: seq<State>, n: nat)
    requires IsRun(u, run) && n < |run|
    ensures Inv(u, run[n])
  {
    if n == 0 {
      assert Init(run[0]);
    } else {
      InvAlways(u, run, n - 1);
      StepAt(u, run, n - 1);
      InvStep(u, run[n - 1], run[n]);
    }
  }

  // ---------- What holds in every run ----------

  /** At most one call is running, and while one is, the loop is in one of its two waits. */
  lemma {:induction false} OneCallAtATime(u: Setup, run: seq<State>, n: nat)
    requires IsRun(u, run) && n < |run|
    ensures |RunningCalls(run[n])| <= 1
    ensures RunningCalls(run[n]) != {} ==> run[n].phase == FirstWait || run[n].phase == SecondWait
  {
    InvAlways(u, run, n);
    var s := run[n];
    if LastRuns(s) { assert RunningCalls(s) == {|s.calls| - 1}; } else { assert RunningCalls(s) == {}; }
  }

  /** A tick starts only when all earlier ones have returned, and an interval later. */
  lemma {:induction false} TicksNeverOverlap(u: Setup, run: seq<State>, n: nat, i: nat, j: nat)
    requires IsRun(u, run) && n < |run| && i < j < |run[n].calls|
    ensures run[n].calls[i].Returned? && run[n].calls[i].ended + u.interval <= run[n].calls[j].started
  {
    InvAlways(u, run, n);
    FollowOneAnother(u, run[n], i, j);
  }

  lemma {:induction false} FollowOneAnother(u: Setup, s: State, i: nat, j: nat)
    requires Sane(u) && OneAtATime(s) && InOrder(u, s) && i < j < |s.calls|
    ensures s.calls[i].Returned? && s.calls[i].ended + u.interval <= s.calls[j].started
  {
    assert CallInOrder(s, i) && CallInOrder(s, j - 1);
    if i < j - 1 { FollowOneAnother(u, s, i, j - 1); }
  }

  /** In step m the first wait for call i is resumed, and the call still runs. */
  ghost predicate ResumedWhileRunning(run: seq<State>, m: int, i: nat) {
    && 0 <= m && m + 1 < |run| && |run[m].calls| == i + 1 && run[m].calls[i].Running?
    && run[m].phase == FirstWait && run[m + 1].phase != FirstWait
  }

  ghost predicate ResumedBefore(run: seq<State>, n: nat, i: nat) {
    exists m :: m < n && ResumedWhileRunning(run, m, i)
  }

  lemma {:induction false} StuckStep(u: Setup, s: State, t: State, i: nat)
    requires OneAtATime(s) && Next(u, s, t)
    ensures i in t.stuck
       <==> i in s.stuck || (|s.calls| == i + 1 && s.calls[i].Running? && s.phase == FirstWait && t.phase != FirstWait)
  {
  }

  lemma {:induction false} ResumedSooner(run: seq<State>, n: nat, i: nat)
    requires 0 < n < |run|
    ensures ResumedBefore(run, n, i) <==> ResumedBefore(run, n - 1, i) || ResumedWhileRunning(run, n - 1, i)
  {
    if m :| m < n && ResumedWhileRunning(run, m, i) { assert m < n - 1 || m == n - 1; }
  }

  /** In every run a call is reported as stuck once, if and only if it still ran when its first wait was
      resumed. */
  lemma {:induction false} StuckOnceExactly(u: Setup, run: seq<State>, n: nat, i: nat)
    requires IsRun(u, run) && n < |run|
    ensures i in run[n].stuck <==> ResumedBefore(run, n, i)
    ensures multiset(run[n].stuck)[i] <= 1
  {
    InvAlways(u, run, n);
    AtMostOnce(run[n].stuck, i);
    if n == 0 {
      assert !ResumedBefore(run, 0, i);
    } else {
      StuckOnceExactly(u, run, n - 1, i);
      InvAlways(u, run, n - 1);
      StepAt(u, run, n - 1);
      StuckStep(u, run[n - 1], run[n], i);
      ResumedSooner(run, n, i);
    }
  }

  /** By the clock: a reported call had run for stuckAfter and not returned before the wait was resumed, and one
      that is not reported had returned by then. */
  lemma {:induction false} StuckByTheClock(u: Setup, run: seq<State>, n: nat, i: nat)
    requires IsRun(u, run) && n < |run| && i < |run[n].resumed| && i < |run[n].calls|
    ensures var s, call := run[n], run[n].calls[i];
            if i in s.stuck then s.resumed[i] >= Deadline(u, call) && (call.Returned? ==> call.ended >= s.resumed[i])
            else call.Returned? && call.ended <= s.resumed[i]
  {
    InvAlways(u, run, n);
    assert StuckInTime(u, run[n], i);
  }

  lemma {:induction false} AtMostOnce(xs: seq<nat>, x: nat)
    requires forall k, l :: 0 <= k < l < |xs| ==> xs[k] < xs[l]
    ensures multiset(xs)[x] <= 1
  {
    if xs == [] {
    } else {
      var front, last := xs[..|xs| - 1], xs[|xs| - 1];
      assert xs == front + [last];
      AtMostOnce(front, x);
      assert x == last ==> x !in front;
    }
  }

  /** A maximal streak [a, b) of busy ticks, all of them handled. */
  ghost predicate MaximalStreak(s: State, a: nat, b: nat) {
    && a < b <= |s.calls| && b <= |s.handled| && (forall i :: a <= i < b ==> IsBusy(s.calls, i))
    && !IsBusy(s.calls, a - 1) && !IsBusy(s.calls, b)
  }

  lemma {:induction false} StartsAtA(s: State, a: nat, b: nat, i: nat)
    requires MaximalStreak(s, a, b) && a <= i < b
    ensures StreakStart(s.calls, i) == a
  {
    if i > a {
      StartsAtA(s, a, b, i - 1);
      assert IsBusy(s.calls, i - 1);
    }
  }

  ghost predicate LongAt(u: Setup, s: State, i: int) { IsLong(u, s.calls, s.handled, i) }

  /** Handling times do not go back. */
  ghost predicate HandledInOrder(s: State) {
    forall i :: 0 <= i < |s.handled| - 1 ==> s.handled[i] <= s.handled[i + 1]
  }

  lemma {:induction false} HandlingIsOrdered(u: Setup, s: State)
    requires Sane(u) && OneAtATime(s) && InOrder(u, s)
    ensures HandledInOrder(s)
  {
    forall i | 0 <= i < |s.handled| - 1 ensures s.handled[i] <= s.handled[i + 1] {
      assert CallInOrder(s, i) && CallInOrder(s, i + 1);
    }
  }

  lemma {:induction false} StaysLong(u: Setup, s: State, a: nat, b: nat, i: nat)
    requires HandledInOrder(s) && MaximalStreak(s, a, b) && a <= i && i + 1 < b && LongAt(u, s, i)
    ensures LongAt(u, s, i + 1)
  {
    StartsAtA(s, a, b, i);
    StartsAtA(s, a, b, i + 1);
  }

  /** Where the streak passes stuckAfter: before, it is not long, from there on it is. */
  lemma {:induction false} FirstLong(u: Setup, s: State, a: nat, b: nat, from: nat) returns (k: nat)
    requires HandledInOrder(s) && MaximalStreak(s, a, b) && a <= from <= b
    ensures from <= k <= b
    ensures forall i :: from <= i < k ==> !LongAt(u, s, i)
    ensures forall i :: k <= i < b ==> LongAt(u, s, i)
    decreases b - from
  {
    if from == b { return b; }
    k := FirstLong(u, s, a, b, from + 1);
    if LongAt(u, s, from) {
      if from + 1 < b { StaysLong(u, s, a, b, from); }
      k := from;
    }
  }

  lemma {:induction false} ReportsAtK(u: Setup, s: State, a: nat, b: nat, k: nat, i: nat)
    requires MaximalStreak(s, a, b) && a <= k <= b && a <= i < b
    requires forall j :: a <= j < k ==> !LongAt(u, s, j)
    requires forall j :: k <= j < b ==> LongAt(u, s, j)
    ensures ReportsBusy(u, s.calls, s.handled, i) <==> i == k
  {
    assert ReportsBusy(u, s.calls, s.handled, i) <==> LongAt(u, s, i) && !LongAt(u, s, i - 1);
    assert i == a ==> !LongAt(u, s, i - 1);
  }

  /** In every run a busy streak reports at most once, and it reports if and only if, from the start of its
      first tick to the handling of its last, it has lasted at least stuckAfter. */
  lemma {:induction false} StreakReportsOnce(u: Setup, run: seq<State>, n: nat, a: nat, b: nat)
    requires IsRun(u, run) && n < |run| && MaximalStreak(run[n], a, b) && b <= |run[n].critical|
    ensures (exists i :: a <= i < b && run[n].critical[i])
       <==> run[n].handled[b - 1] - run[n].calls[a].started >= u.stuckAfter
    ensures forall i, j :: a <= i < b && a <= j < b && run[n].critical[i] && run[n].critical[j] ==> i == j
  {
    InvAlways(u, run, n);
    var s := run[n];
    HandlingIsOrdered(u, s);
    StartsAtA(s, a, b, b - 1);
    var k := FirstLong(u, s, a, b, a);
    forall i | a <= i < b ensures s.critical[i] <==> i == k { ReportsAtK(u, s, a, b, k, i); }
    assert LongAt(u, s, b - 1) <==> k < b;
    if k < b { assert s.critical[k]; }
  }

  // ---------- The loop on given ticks ----------

  /** How one tick goes, in seconds from its start: how long it runs, when the first wait is resumed, and when
      its result is looked at; and how long the loop is asleep after that. */
  datatype Tick = Tick(outcome: Outcome, duration: real, resumed: real, handled: real, pause: real)

  /** A wait is resumed by the timeout or the return, or later, and a result is there once the call is over. */
  ghost predicate TickIsTimed(u: Setup, tick: Tick) {
    && tick.duration >= 0.0 && (tick.resumed >= tick.duration || tick.resumed >= u.stuckAfter)
    && tick.handled >= tick.resumed && tick.handled >= tick.duration && tick.pause >= u.interval
  }

  ghost predicate Timed(u: Setup, ticks: seq<Tick>) {
    forall i :: 0 <= i < |ticks| ==> TickIsTimed(u, ticks[i])
  }

  /** When tick i starts, the first one at time t0. */
  function Started(ticks: seq<Tick>, t0: real, i: nat): real
    requires i <= |ticks|
  {
    if i == 0 then t0 else Started(ticks, t0, i - 1) + ticks[i - 1].handled + ticks[i - 1].pause
  }

  function CallsOf(ticks: seq<Tick>, t0: real, n: nat): (calls: seq<Call>)
    requires n <= |ticks|
    ensures |calls| == n
  {
    seq(n, i requires 0 <= i < n =>
      Returned(Started(ticks, t0, i), Started(ticks, t0, i) + ticks[i].duration, ticks[i].outcome))
  }

  function HandledAt(ticks: seq<Tick>, t0: real, n: nat): (times: seq<real>)
    requires n <= |ticks|
    ensures |times| == n
  {
    seq(n, i requires 0 <= i < n => Started(ticks, t0, i) + ticks[i].handled)
  }

  /** The state after one more tick of the given kind. */
  ghost function AfterTick(u: Setup, s: State, tick: Tick): State {
    var handled := s.now + tick.handled;
    var streak := if tick.outcome == Busy then Prolonged(s.streak, s.now, handled, u.stuckAfter) else NO_STREAK;
    State(handled + tick.pause, Top, s.calls + [Returned(s.now, s.now + tick.duration, tick.outcome)], streak,
          s.resumed + [s.now + tick.resumed], s.handled + [handled],
          s.stuck + (if tick.duration > tick.resumed then [|s.calls|] else []),
          s.critical + [streak.reported && !s.streak.reported])
  }

  lemma {:induction false} RunGrows(u: Setup, run: seq<State>, t: State) returns (longer: seq<State>)
    requires IsRun(u, run) && Next(u, run[|run| - 1], t)
    ensures IsRun(u, longer) && longer[|longer| - 1] == t
  {
    longer := run + [t];
    forall i: nat ensures StepsAt(u, longer, i) {
      if i < |run| - 1 { StepAt(u, run, i); }
    }
  }

  lemma {:induction false} RunWaits(u: Setup, run: seq<State>, to: real) returns (longer: seq<State>)
    requires IsRun(u, run) && run[|run| - 1].now <= to
    ensures IsRun(u, longer) && longer[|longer| - 1] == run[|run| - 1].(now := to)
  {
    var t := run[|run| - 1].(now := to);
    assert TimePasses(run[|run| - 1], t);
    longer := RunGrows(u, run, t);
  }

  /** Time passes until the last call returns. */
  lemma {:induction false} RunReturns(u: Setup, run: seq<State>, to: real, outcome: Outcome)
    returns (longer: seq<State>)
    requires IsRun(u, run) && run[|run| - 1].now <= to && LastRuns(run[|run| - 1])
    ensures IsRun(u, longer)
    ensures var s, last := run[|run| - 1], |run[|run| - 1].calls| - 1;
            longer[|longer| - 1]
              == s.(now := to, calls := s.calls[last := Returned(s.calls[last].started, to, outcome)])
  {
    longer := RunWaits(u, run, to);
    var s := longer[|longer| - 1];
    var last := |s.calls| - 1;
    var t := s.(calls := s.calls[last := Returned(s.calls[last].started, to, outcome)]);
    assert CallReturns(u, s, t, last, outcome);
    longer := RunGrows(u, longer, t);
  }

  /** The waits of one turn, up to the result. */
  lemma {:induction false} WaitsRun(u: Setup, run: seq<State>, tick: Tick) returns (longer: seq<State>)
    requires IsRun(u, run) && TickIsTimed(u, tick)
    requires var s := run[|run| - 1]; s.phase == FirstWait && s.calls != [] && s.calls[|s.calls| - 1] == Running(s.now)
    ensures IsRun(u, longer)
    ensures var s, last := run[|run| - 1], |run[|run| - 1].calls| - 1;
            longer[|longer| - 1]
              == s.(now := s.now + tick.handled, phase := Ready,
                    calls := s.calls[last := Returned(s.now, s.now + tick.duration, tick.outcome)],
                    resumed := s.resumed + [s.now + tick.resumed],
                    stuck := s.stuck + (if tick.duration > tick.resumed then [last] else []))
  {
    var s, last := run[|run| - 1], |run[|run| - 1].calls| - 1;
    if tick.duration > tick.resumed {
      longer := RunWaits(u, run, s.now + tick.resumed);
      var due := longer[|longer| - 1];
      longer := RunGrows(u, longer, due.(phase := SecondWait, resumed := s.resumed + [due.now],
                                         stuck := s.stuck + [last]));
      longer := RunReturns(u, longer, s.now + tick.duration, tick.outcome);
      longer := RunGrows(u, longer, longer[|longer| - 1].(phase := Ready));
    } else {
      longer := RunReturns(u, run, s.now + tick.duration, tick.outcome);
      longer := RunWaits(u, longer, s.now + tick.resumed);
      var found := longer[|longer| - 1];
      longer := RunGrows(u, longer, found.(phase := Ready, resumed := s.resumed + [found.now]));
      assert s.stuck + [] == s.stuck;
    }
    longer := RunWaits(u, longer, s.now + tick.handled);
  }

  /** One turn of the loop is a run. */
  lemma {:induction false} TurnRun(u: Setup, run: seq<State>, tick: Tick) returns (longer: seq<State>)
    requires IsRun(u, run) && run[|run| - 1].phase == Top && TickIsTimed(u, tick)
    ensures IsRun(u, longer) && longer[|longer| - 1] == AfterTick(u, run[|run| - 1], tick)
  {
    var s := run[|run| - 1];
    longer := RunGrows(u, run, s.(phase := FirstWait, calls := s.calls + [Running(s.now)]));
    longer := WaitsRun(u, longer, tick);
    var ready := longer[|longer| - 1];
    assert ready.calls == s.calls + [Returned(s.now, s.now + tick.duration, tick.outcome)];
    var after := AfterTick(u, s, tick);
    longer := RunGrows(u, longer, ready.(phase := Sleeping(ready.now + u.interval), streak := after.streak,
                                         handled := after.handled, critical := after.critical));
    longer := RunWaits(u, longer, after.now);
    longer := RunGrows(u, longer, after);
  }

  /** The ticks reported as stuck, and those that report a busy streak. */
  datatype Report = Report(stuck: seq<bool>, busy: seq<bool>)

  /** What the loop has logged agrees with a run that made the first n calls. */
  ghost predicate Follows(u: Setup, ticks: seq<Tick>, t0: real, n: nat, run: seq<State>, report: Report)
    requires n <= |ticks|
  {
    && IsRun(u, run)
    && var s := run[|run| - 1];
       && s.now == Started(ticks, t0, n) && s.phase == Top
       && s.calls == CallsOf(ticks, t0, n) && s.handled == HandledAt(ticks, t0, n)
       && report.busy == s.critical && |report.busy| == n
       && |report.stuck| == n && forall i: nat :: i < n ==> (report.stuck[i] <==> i in s.stuck)
  }

  /** One turn of the loop. */
  lemma {:induction false} FollowsOn(u: Setup, ticks: seq<Tick>, t0: real, n: nat, run: seq<State>, report: Report,
                                     longer: seq<State>, report': Report)
    requires n < |ticks| && Follows(u, ticks, t0, n, run, report)
    requires IsRun(u, longer) && longer[|longer| - 1] == AfterTick(u, run[|run| - 1], ticks[n])
    requires report'.stuck == report.stuck + [ticks[n].duration > ticks[n].resumed]
    requires report'.busy == longer[|longer| - 1].critical
    ensures Follows(u, ticks, t0, n + 1, longer, report')
  {
    var s, t := run[|run| - 1], longer[|longer| - 1];
    assert t.calls == CallsOf(ticks, t0, n + 1);
    assert t.handled == HandledAt(ticks, t0, n + 1);
    InvAlways(u, run, |run| - 1);
    forall i: nat | i < n + 1 ensures report'.stuck[i] <==> i in t.stuck {
      assert i in s.stuck ==> i < n;
    }
  }

  ghost predicate StuckSoFar(ticks: seq<Tick>, n: nat, stuck: seq<bool>)
    requires n <= |ticks|
  {
    |stuck| == n && forall i :: 0 <= i < n ==> (stuck[i] <==> ticks[i].duration > ticks[i].resumed)
  }

  method WatchedTicks(u: Setup, ticks: seq<Tick>, t0: real) returns (report: Report, ghost run: seq<State>)
    requires Sane(u) && Timed(u, ticks)
    ensures Follows(u, ticks, t0, |ticks|, run, report)
    ensures |report.stuck| == |report.busy| == |ticks|
    ensures forall i :: 0 <= i < |ticks| ==> (report.stuck[i] <==> ticks[i].duration > ticks[i].resumed)
    ensures forall i :: 0 <= i < |ticks| ==>
              (report.busy[i] <==> ReportsBusy(u, CallsOf(ticks, t0, |ticks|), HandledAt(ticks, t0, |ticks|), i))
  {
    var busy := new BusyStreak(u.stuckAfter);
    var now := t0;
    report := Report([], []);
    run := [State(t0, Top, [], NO_STREAK, [], [], [], [])];
    for n := 0 to |ticks|
      invariant fresh(busy) && busy.stuckAfter == u.stuckAfter && now == Started(ticks, t0, n)
      invariant Follows(u, ticks, t0, n, run, report)
      invariant StuckSoFar(ticks, n, report.stuck)
      invariant busy.Value() == run[|run| - 1].streak
    {
      ghost var longer := TurnRun(u, run, ticks[n]);
      ghost var before := report;
      var started, returnsAt := now, now + ticks[n].duration;
      now := started + ticks[n].resumed;
      var done := returnsAt <= now;
      report := report.(stuck := report.stuck + [!done]);
      now := started + ticks[n].handled;
      var critical := false;
      if ticks[n].outcome == Busy {
        critical := busy.Record(started, now);
      } else {
        busy.Clear();
      }
      report := report.(busy := report.busy + [critical]);
      now := now + ticks[n].pause;
      FollowsOn(u, ticks, t0, n, run, before, longer, report);
      run := longer;
    }
    InvAlways(u, run, |run| - 1);
  }
}
