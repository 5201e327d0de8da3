/** trader/data_service.py: the bounded concurrent downloads of `pull_history` and `pull_ib`, any number
    of calls sharing one service's counters. */
module Downloads {

  datatype End = Done | Broken | Cancelled

  /** A download task: queued at its call's semaphore, admitted with one of its permits, downloading, past
      its `finally` and still holding the permit, or over. */
  datatype Task = Queued | Admitted | Active | Leaving(end: End) | Over(end: End)

  /** One call: its `max_concurrent`, the permits its semaphore has left, its tasks, and the listings it
      refused up front. */
  datatype Call = Call(limit: nat, permits: nat, tasks: seq<Task>, refused: nat)

  datatype State = State(running: int, completed: int, failed: int, calls: seq<Call>)

  // ---------- Kinds of tasks ----------

  predicate IsActive(t: Task) { t == Active }

  predicate HoldsPermit(t: Task) { t == Admitted || t == Active || t.Leaving? }

  predicate EndedAs(t: Task, end: End) { t == Leaving(end) || t == Over(end) }

  predicate IsDone(t: Task) { EndedAs(t, Done) }

  predicate IsBroken(t: Task) { EndedAs(t, Broken) }

  predicate IsCancelled(t: Task) { EndedAs(t, Cancelled) }

  function Count(tasks: seq<Task>, p: Task -> bool): nat {
    if tasks == [] then 0
    else Count(tasks[..|tasks| - 1], p) + (if p(tasks[|tasks| - 1]) then 1 else 0)
  }

  function Sum(calls: seq<Call>, p: Task -> bool): nat {
    if calls == [] then 0 else Sum(calls[..|calls| - 1], p) + Count(calls[|calls| - 1].tasks, p)
  }

  // ---------- Steps ----------

  /** `Semaphore(max_concurrent)` and one task per missing range. */
  ghost predicate NewCall(s: State, t: State) {
    exists call: Call :: Fresh(call) && t == s.(calls := s.calls + [call])
  }

  ghost predicate Fresh(call: Call) { call.permits == call.limit && AllQueued(call.tasks) }

  ghost predicate AllQueued(tasks: seq<Task>) { forall i :: 0 <= i < |tasks| ==> tasks[i] == Queued }

  ghost predicate HasTask(s: State, c: int, i: int, kind: Task) {
    0 <= c < |s.calls| && 0 <= i < |s.calls[c].tasks| && s.calls[c].tasks[i] == kind
  }

  ghost function WithTask(s: State, c: nat, i: nat, permits: nat, kind: Task): seq<Call>
    requires c < |s.calls| && i < |s.calls[c].tasks|
  {
    s.calls[c := s.calls[c].(permits := permits, tasks := s.calls[c].tasks[i := kind])]
  }

  /** `async with sem`: a queued task takes a permit when one is left. */
  ghost predicate Acquire(s: State, t: State, c: nat, i: nat) {
    && HasTask(s, c, i, Queued) && s.calls[c].permits > 0
    && t == s.(calls := WithTask(s, c, i, s.calls[c].permits - 1, Admitted))
  }

  /** `self._running_count += 1` */
  ghost predicate Begin(s: State, t: State, c: nat, i: nat) {
    && HasTask(s, c, i, Admitted)
    && t == s.(running := s.running + 1, calls := WithTask(s, c, i, s.calls[c].permits, Active))
  }

  /** The download succeeds, raises, or is cancelled, and the `finally` takes it off the running count. */
  ghost predicate Finish(s: State, t: State, c: nat, i: nat) {
    && HasTask(s, c, i, Active)
    && exists end ::
         t == s.(running := s.running - 1,
                 completed := s.completed + (if end == Done then 1 else 0),
                 failed := s.failed + (if end == Broken then 1 else 0),
                 calls := WithTask(s, c, i, s.calls[c].permits, Leaving(end)))
  }

  /** The `async with` gives the permit back. */
  ghost predicate Release(s: State, t: State, c: nat, i: nat) {
    exists end :: HasTask(s, c, i, Leaving(end))
               && t == s.(calls := WithTask(s, c, i, s.calls[c].permits + 1, Over(end)))
  }

  /** A task is cancelled while it still waits, and has no permit to give back. */
  ghost predicate Drop(s: State, t: State, c: nat, i: nat) {
    HasTask(s, c, i, Queued) && t == s.(calls := WithTask(s, c, i, s.calls[c].permits, Over(Cancelled)))
  }

  ghost predicate TaskStep(s: State, t: State, c: nat, i: nat) {
    Acquire(s, t, c, i) || Begin(s, t, c, i) || Finish(s, t, c, i) || Release(s, t, c, i) || Drop(s, t, c, i)
  }

  ghost predicate Next(s: State, t: State) {
    NewCall(s, t) || exists c: nat, i: nat :: TaskStep(s, t, c, i)
  }

  ghost predicate IsRun(run: seq<State>) {
    && |run| > 0 && run[0].calls == []
    && forall i :: 0 <= i < |run| - 1 ==> Next(run[i], run[i + 1])
  }

  // ---------- Invariants ----------

  /** Every permit is left or held by a task. */
  ghost predicate PermitsBalance(call: Call) { call.permits + Count(call.tasks, HoldsPermit) == call.limit }

  /** The counters relative to their values at the start of the run. */
  ghost predicate CountersExact(start: State, s: State) {
    && s.running == start.running + Sum(s.calls, IsActive)
    && s.completed == start.completed + Sum(s.calls, IsDone)
    && s.failed == start.failed + Sum(s.calls, IsBroken)
  }

  ghost predicate Inv(start: State, s: State) {
    CountersExact(start, s) && forall c :: 0 <= c < |s.calls| ==> PermitsBalance(s.calls[c])
  }

  function One(b: bool): int { if b then 1 else 0 }

  lemma {:induction false} CountUpdate(tasks: seq<Task>, i: nat, to: Task, p: Task -> bool)
    requires i < |tasks|
    ensures Count(tasks[i := to], p) == Count(tasks, p) - One(p(tasks[i])) + One(p(to))
  {
    var last := |tasks| - 1;
    if i < last {
      assert tasks[i := to][..last] == tasks[..last][i := to];
      CountUpdate(tasks[..last], i, to, p);
    } else {
      assert tasks[i := to][..last] == tasks[..last];
    }
  }

  lemma {:induction false} SumUpdate(calls: seq<Call>, c: nat, to: Call, p: Task -> bool)
    requires c < |calls|
    ensures Sum(calls[c := to], p) == Sum(calls, p) - Count(calls[c].tasks, p) + Count(to.tasks, p)
  {
    var last := |calls| - 1;
    if c < last {
      assert calls[c := to][..last] == calls[..last][c := to];
      SumUpdate(calls[..last], c, to, p);
    } else {
      assert calls[c := to][..last] == calls[..last];
    }
  }

  lemma {:induction false} FreshCount(tasks: seq<Task>, p: Task -> bool)
    requires AllQueued(tasks) && !p(Queued)
    ensures Count(tasks, p) == 0
  {
    if tasks == [] {
    } else {
      FreshCount(tasks[..|tasks| - 1], p);
    }
  }

  /** What moving task i of call c to `to` does to a count and to its sum. */
  lemma {:induction false} Moved(s: State, t: State, c: nat, i: nat, permits: nat, to: Task, p: Task -> bool)
    requires c < |s.calls| && i < |s.calls[c].tasks| && t.calls == WithTask(s, c, i, permits, to)
    ensures Sum(t.calls, p) == Sum(s.calls, p) - One(p(s.calls[c].tasks[i])) + One(p(to))
    ensures Count(t.calls[c].tasks, p) == Count(s.calls[c].tasks, p) - One(p(s.calls[c].tasks[i])) + One(p(to))
  {
    CountUpdate(s.calls[c].tasks, i, to, p);
    SumUpdate(s.calls, c, t.calls[c], p);
  }

  /** A task moves on, and counters and permits follow it. */
  lemma {:induction false} InvMoved(start: State, s: State, t: State, c: nat, i: nat, permits: nat, from: Task,
                                    to: Task)
    requires Inv(start, s) && HasTask(s, c, i, from) && t.calls == WithTask(s, c, i, permits, to)
    requires t.running == s.running - One(IsActive(from)) + One(IsActive(to))
    requires t.completed == s.completed - One(IsDone(from)) + One(IsDone(to))
    requires t.failed == s.failed - One(IsBroken(from)) + One(IsBroken(to))
    requires permits == s.calls[c].permits + One(HoldsPermit(from)) - One(HoldsPermit(to))
    ensures Inv(start, t)
  {
    Moved(s, t, c, i, permits, to, IsActive);
    Moved(s, t, c, i, permits, to, IsDone);
    Moved(s, t, c, i, permits, to, IsBroken);
    Moved(s, t, c, i, permits, to, HoldsPermit);
    forall d | 0 <= d < |t.calls| ensures PermitsBalance(t.calls[d]) {
      assert PermitsBalance(s.calls[d]);
    }
  }

  lemma {:induction false} InvTaskStep(start: State, s: State, t: State, c: nat, i: nat)
    requires Inv(start, s) && TaskStep(s, t, c, i)
    ensures Inv(start, t)
  {
    var left := s.calls[c].permits;
    if Acquire(s, t, c, i) {
      InvMoved(start, s, t, c, i, left - 1, Queued, Admitted);
    } else if Begin(s, t, c, i) {
      InvMoved(start, s, t, c, i, left, Admitted, Active);
    } else if Finish(s, t, c, i) {
      InvFinish(start, s, t, c, i);
    } else if Drop(s, t, c, i) {
      InvMoved(start, s, t, c, i, left, Queued, Over(Cancelled));
    } else {
      InvRelease(start, s, t, c, i);
    }
  }

  lemma {:induction false} InvRelease(start: State, s: State, t: State, c: nat, i: nat)
    requires Inv(start, s) && Release(s, t, c, i)
    ensures Inv(start, t)
  {
    var permits := s.calls[c].permits + 1;
    var end :| HasTask(s, c, i, Leaving(end)) && t == s.(calls := WithTask(s, c, i, permits, Over(end)));
    InvMoved(start, s, t, c, i, permits, Leaving(end), Over(end));
  }

  lemma {:induction false} InvFinish(start: State, s: State, t: State, c: nat, i: nat)
    requires Inv(start, s) && Finish(s, t, c, i)
    ensures Inv(start, t)
  {
    var end :| t == s.(running := s.running - 1,
                       completed := s.completed + (if end == Done then 1 else 0),
                       failed := s.failed + (if end == Broken then 1 else 0),
                       calls := WithTask(s, c, i, s.calls[c].permits, Leaving(end)));
    InvMoved(start, s, t, c, i, s.calls[c].permits, Active, Leaving(end));
  }

  lemma {:induction false} InvNewCall(start: State, s: State, t: State, call: Call)
    requires Inv(start, s) && Fresh(call) && t == s.(calls := s.calls + [call])
    ensures Inv(start, t)
  {
    assert t.calls[..|t.calls| - 1] == s.calls;
    FreshCount(call.tasks, IsActive);
    FreshCount(call.tasks, IsDone);
    FreshCount(call.tasks, IsBroken);
    FreshCount(call.tasks, HoldsPermit);
  }

  lemma {:induction false} InvStep(start: State, s: State, t: State)
    requires Inv(start, s) && Next(s, t)
    ensures Inv(start, t)
  {
    if c: nat, i: nat :| TaskStep(s, t, c, i) {
      InvTaskStep(start, s, t, c, i);
    } else {
      var call: Call :| Fresh(call) && t == s.(calls := s.calls + [call]);
      InvNewCall(start, s, t, call);
    }
  }

  lemma {:induction false} InvAlways(run: seq<State>, n: nat)
    requires IsRun(run) && n < |run|
    ensures Inv(run[0], run[n])
  {
    if n == 0 {
    } else {
      InvAlways(run, n - 1);
      InvStep(run[0], run[n - 1], run[n]);
    }
  }

  lemma {:induction false} CountLe(tasks: seq<Task>, p: Task -> bool, q: Task -> bool)
    requires forall t :: p(t) ==> q(t)
    ensures Count(tasks, p) <= Count(tasks, q)
  {
    if tasks == [] {
    } else {
      CountLe(tasks[..|tasks| - 1], p, q);
    }
  }

  /** Over every interleaving of any number of calls: a call's permits and the tasks that hold one always
      make up its `max_concurrent`, so no more than that many of its downloads run at once; and the
      running count is exactly the number of running downloads above where it started. */
  lemma {:induction false} ConcurrencyIsBounded(run: seq<State>, n: nat, c: nat)
    requires IsRun(run) && n < |run| && c < |run[n].calls|
    ensures run[n].calls[c].permits + Count(run[n].calls[c].tasks, HoldsPermit) == run[n].calls[c].limit
    ensures Count(run[n].calls[c].tasks, IsActive) <= run[n].calls[c].limit
    ensures run[n].running == run[0].running + Sum(run[n].calls, IsActive)
  {
    InvAlways(run, n);
    assert PermitsBalance(run[n].calls[c]);
    CountLe(run[n].calls[c].tasks, IsActive, HoldsPermit);
  }

  /** Every task is over, its permit given back. */
  ghost predicate Finished(call: Call) { forall i :: 0 <= i < |call.tasks| ==> call.tasks[i].Over? }

  lemma {:induction false} NoneLeft(tasks: seq<Task>, p: Task -> bool)
    requires forall i :: 0 <= i < |tasks| ==> !p(tasks[i])
    ensures Count(tasks, p) == 0
  {
    if tasks == [] {
    } else {
      NoneLeft(tasks[..|tasks| - 1], p);
    }
  }

  lemma {:induction false} NothingActive(calls: seq<Call>)
    requires forall c :: 0 <= c < |calls| ==> Finished(calls[c])
    ensures Sum(calls, IsActive) == 0
  {
    if calls == [] {
    } else {
      NothingActive(calls[..|calls| - 1]);
      NoneLeft(calls[|calls| - 1].tasks, IsActive);
    }
  }

  /** When every call is over, the running count is back, every semaphore has all its permits, and the
      service counters have grown by exactly the downloads that ended well and those that raised. */
  lemma {:induction false} CountersBalance(run: seq<State>, n: nat)
    requires IsRun(run) && n < |run| && forall c :: 0 <= c < |run[n].calls| ==> Finished(run[n].calls[c])
    ensures run[n].running == run[0].running
    ensures forall c :: 0 <= c < |run[n].calls| ==> run[n].calls[c].permits == run[n].calls[c].limit
    ensures run[n].completed - run[0].completed == Sum(run[n].calls, IsDone)
    ensures run[n].failed - run[0].failed == Sum(run[n].calls, IsBroken)
  {
    InvAlways(run, n);
    NothingActive(run[n].calls);
    forall c | 0 <= c < |run[n].calls| ensures run[n].calls[c].permits == run[n].calls[c].limit {
      assert PermitsBalance(run[n].calls[c]);
      NoneLeft(run[n].calls[c].tasks, HoldsPermit);
    }
  }

  /** What `asyncio.gather` hands back for a task: its dict, or the exception that ended it. */
  datatype Result = Ok | Error(message: string) | Exception(message: string) | CancelledError

  predicate Yields(task: Task, r: Result) {
    match task
    case Over(Done) => r == Ok
    case Over(Broken) => r.Error?
    case Over(Cancelled) => r == CancelledError
    case _ => false
  }

  datatype Summary = Summary(enqueued: nat, completed: nat, failed: nat, errors: seq<string>)

  function OkUpTo(results: seq<Result>, n: nat): nat
    requires n <= |results|
  {
    if n == 0 then 0 else OkUpTo(results, n - 1) + (if results[n - 1] == Ok then 1 else 0)
  }

  /** The messages of the results that carry one. */
  function MessagesUpTo(results: seq<Result>, n: nat): seq<string>
    requires n <= |results|
  {
    if n == 0 then []
    else MessagesUpTo(results, n - 1)
         + (match results[n - 1]
            case Error(message) => [message]
            case Exception(message) => [message]
            case _ => [])
  }

  /** The loop over the gathered results. */
  method Tally(refused: seq<string>, results: seq<Result>) returns (summary: Summary)
    ensures summary.enqueued == |results| && summary.completed == OkUpTo(results, |results|)
    ensures summary.completed + summary.failed == summary.enqueued + |refused|
    ensures summary.errors == refused + MessagesUpTo(results, |results|)
  {
    assert refused + [] == refused;
    if |results| == 0 { return Summary(0, 0, |refused|, refused); }
    var errors := refused;
    var completed, failed := 0, |refused|;
    for n := 0 to |results|
      invariant completed == OkUpTo(results, n) && completed + failed == n + |refused| && failed >= |refused|
      invariant errors == refused + MessagesUpTo(results, n)
    {
      match results[n]
      case Exception(message) => failed := failed + 1; errors := errors + [message];
      case Ok => completed := completed + 1;
      case Error(message) => failed := failed + 1; errors := errors + [message];
      case CancelledError => failed := failed + 1;
    }
    summary := Summary(|results|, completed, failed, errors);
  }

  lemma {:induction false} OkAreDone(call: Call, results: seq<Result>, n: nat)
    requires n <= |results| == |call.tasks| && forall i :: 0 <= i < |results| ==> Yields(call.tasks[i], results[i])
    ensures OkUpTo(results, n) == Count(call.tasks[..n], IsDone)
    ensures n == Count(call.tasks[..n], IsDone) + Count(call.tasks[..n], IsBroken) + Count(call.tasks[..n], IsCancelled)
  {
    if n == 0 {
    } else {
      OkAreDone(call, results, n - 1);
      assert call.tasks[..n][..n - 1] == call.tasks[..n - 1];
    }
  }

  /** A finished call's summary against the service counters: `completed` is its share of
      `_completed_count`; `failed` is its share of `_failed_count` plus the refused listings plus the
      cancelled tasks, which the service does not count. */
  lemma {:induction false} SummaryMatchesCounters(call: Call, results: seq<Result>, summary: Summary)
    requires |results| == |call.tasks| && forall i :: 0 <= i < |results| ==> Yields(call.tasks[i], results[i])
    requires summary.completed == OkUpTo(results, |results|)
    requires summary.completed + summary.failed == |results| + call.refused
    ensures summary.completed == Count(call.tasks, IsDone)
    ensures summary.failed == Count(call.tasks, IsBroken) + call.refused + Count(call.tasks, IsCancelled)
  {
    OkAreDone(call, results, |results|);
    assert call.tasks[..|results|] == call.tasks;
  }
}
