/** pycron/pycron.py: jobs that wait for the jobs they depend on. `start_job` is a coroutine; between
    two awaits it runs undisturbed, so its life is a step relation over the await points. */
module JobScheduler {
  import opened Common

  /** A configured job. With `eval_running` its running state is whatever those expressions say. */
  datatype Job = Job(name: string, dependsOn: seq<string>, evalRunning: bool)

  /** Where a start attempt stands: before its first statement, in the dependency loop, in the delay,
      at the spawn, with its process running, or over. */
  datatype Phase = Begin | Waiting | Delaying | Spawning | Running | Over

  datatype Attempt = Attempt(job: nat, phase: Phase, tries: nat)

  datatype Event = Spawned(job: nat) | Adopted(job: nat)

  datatype State = State(trying: seq<bool>, running: seq<bool>, finished: seq<bool>,
                         attempts: seq<Attempt>, log: seq<Event>)

  /** `get_job`: the last job of that name. */
  function GetJob(jobs: seq<Job>, name: string): Option<nat> {
    if jobs == [] then None
    else if jobs[|jobs| - 1].name == name then Some(|jobs| - 1)
    else GetJob(jobs[..|jobs| - 1], name)
  }

  /** `len(depends_on) == len(get_jobs(depends_on))` */
  predicate AllFound(jobs: seq<Job>, names: seq<string>) {
    forall i :: 0 <= i < |names| ==> GetJob(jobs, names[i]).Some?
  }

  /** d is one of the jobs that j names as a dependency. */
  ghost predicate DependsOn(jobs: seq<Job>, j: nat, d: nat) {
    j < |jobs| && exists i :: 0 <= i < |jobs[j].dependsOn| && GetJob(jobs, jobs[j].dependsOn[i]) == Some(d)
  }

  ghost predicate Shaped(jobs: seq<Job>, s: State) {
    && |s.trying| == |s.running| == |s.finished| == |jobs|
    && forall a :: 0 <= a < |s.attempts| ==> s.attempts[a].job < |jobs|
  }

  ghost predicate Init(jobs: seq<Job>, s: State) {
    && Shaped(jobs, s) && s.attempts == [] && s.log == []
    && forall j :: 0 <= j < |jobs| ==> !s.trying[j] && !s.running[j] && !s.finished[j]
  }

  /** `is_running`, for a job without `eval_running`. */
  ghost predicate IsRunning(s: State, j: nat)
    requires j < |s.running| && j < |s.finished|
  {
    s.running[j] && !s.finished[j]
  }

  /** The dependency loop is left when every dependency is running; the answer for a job with
      `eval_running` may be anything. */
  ghost predicate DependenciesRun(jobs: seq<Job>, s: State, j: nat)
    requires Shaped(jobs, s) && j < |jobs|
  {
    forall d: nat :: DependsOn(jobs, j, d) && d < |jobs| && !jobs[d].evalRunning ==> IsRunning(s, d)
  }

  ghost predicate At(s: State, a: int, phase: Phase) {
    0 <= a < |s.attempts| && s.attempts[a].phase == phase
  }

  ghost function Moved(s: State, a: nat, phase: Phase): State
    requires a < |s.attempts|
  {
    s.(attempts := s.attempts[a := s.attempts[a].(phase := phase)])
  }

  /** The polling loop or a restart creates a task. */
  ghost predicate NewTask(jobs: seq<Job>, s: State, t: State) {
    exists j: nat :: j < |jobs| && t == s.(attempts := s.attempts + [Attempt(j, Begin, 1)])
  }

  /** The first statements, up to the dependency loop. */
  ghost predicate Enter(jobs: seq<Job>, s: State, t: State, a: nat) {
    && Shaped(jobs, s) && At(s, a, Begin)
    && var j := s.attempts[a].job;
       if s.trying[j] then t == Moved(s, a, Over)
       else if !AllFound(jobs, jobs[j].dependsOn) then t == Moved(s, a, Over).(trying := s.trying[j := false])
       else t == Moved(s, a, Waiting).(trying := s.trying[j := true])
  }

  ghost predicate PassGate(jobs: seq<Job>, s: State, t: State, a: nat) {
    && Shaped(jobs, s) && At(s, a, Waiting) && DependenciesRun(jobs, s, s.attempts[a].job)
    && t == Moved(s, a, Delaying)
  }

  ghost predicate DelayOver(jobs: seq<Job>, s: State, t: State, a: nat) {
    Shaped(jobs, s) && At(s, a, Delaying) && t == Moved(s, a, Spawning)
  }

  ghost predicate Spawn(jobs: seq<Job>, s: State, t: State, a: nat) {
    && Shaped(jobs, s) && At(s, a, Spawning)
    && var j := s.attempts[a].job;
       t == Moved(s, a, Running).(trying := s.trying[j := false], running := s.running[j := true],
                                  finished := s.finished[j := false], log := s.log + [Spawned(j)])
  }

  ghost predicate Exit(jobs: seq<Job>, s: State, t: State, a: nat) {
    && Shaped(jobs, s) && At(s, a, Running)
    && var j := s.attempts[a].job;
       t == Moved(s, a, Over).(running := s.running[j := false], finished := s.finished[j := true])
  }

  /** An exception at an await; `backoff` calls `start_job` again, three tries in all. Flags stay. */
  ghost predicate Raise(jobs: seq<Job>, s: State, t: State, a: nat) {
    && Shaped(jobs, s) && 0 <= a < |s.attempts|
    && s.attempts[a].phase in {Waiting, Delaying, Spawning, Running}
    && var att := s.attempts[a];
       t == s.(attempts := s.attempts[a := if att.tries < 3 then Attempt(att.job, Begin, att.tries + 1)
                                           else att.(phase := Over)])
  }

  /** A process found at start-up is hooked up to its job. */
  ghost predicate Adopt(jobs: seq<Job>, s: State, t: State, j: nat) {
    Shaped(jobs, s) && j < |jobs| && t == s.(running := s.running[j := true], log := s.log + [Adopted(j)])
  }

  ghost predicate Stop(jobs: seq<Job>, s: State, t: State, j: nat) {
    Shaped(jobs, s) && j < |jobs| && t == s.(running := s.running[j := false], finished := s.finished[j := true])
  }

  ghost predicate AttemptStep(jobs: seq<Job>, s: State, t: State, a: nat) {
    || Enter(jobs, s, t, a) || PassGate(jobs, s, t, a) || DelayOver(jobs, s, t, a) || Spawn(jobs, s, t, a)
    || Exit(jobs, s, t, a) || Raise(jobs, s, t, a)
  }

  ghost predicate JobStep(jobs: seq<Job>, s: State, t: State, j: nat) {
    Adopt(jobs, s, t, j) || Stop(jobs, s, t, j)
  }

  ghost predicate Next(jobs: seq<Job>, s: State, t: State) {
    || NewTask(jobs, s, t)
    || (exists a: nat :: AttemptStep(jobs, s, t, a))
    || (exists j: nat :: JobStep(jobs, s, t, j))
  }

  ghost predicate StepsAt(jobs: seq<Job>, run: seq<State>, i: nat) {
    i + 1 < |run| ==> Next(jobs, run[i], run[i + 1])
  }

  ghost predicate IsRun(jobs: seq<Job>, run: seq<State>) {
    && |run| > 0 && Init(jobs, run[0])
    && forall i: nat :: StepsAt(jobs, run, i)
  }

  // ---------- Invariants ----------

  /** Between the gate and the spawn: `trying_to_start` was set by this attempt and not yet cleared. */
  ghost predicate InFlight(s: State, a: int) {
    0 <= a < |s.attempts| && s.attempts[a].phase in {Waiting, Delaying, Spawning}
  }

  ghost predicate AtMostOneStarting(jobs: seq<Job>, s: State)
    requires Shaped(jobs, s)
  {
    && (forall a :: InFlight(s, a) ==> s.trying[s.attempts[a].job])
    && (forall a, b :: InFlight(s, a) && InFlight(s, b) && s.attempts[a].job == s.attempts[b].job ==> a == b)
  }

  /** d was spawned or adopted among the first n events. */
  ghost predicate CameUp(log: seq<Event>, n: nat, d: nat) {
    exists k :: 0 <= k < n && k < |log| && log[k].job == d
  }

  ghost predicate DependenciesCameUp(jobs: seq<Job>, log: seq<Event>, n: nat, j: nat) {
    && j < |jobs| && AllFound(jobs, jobs[j].dependsOn)
    && forall d: nat :: DependsOn(jobs, j, d) && d < |jobs| && !jobs[d].evalRunning ==> CameUp(log, n, d)
  }

  ghost predicate StartOrder(jobs: seq<Job>, log: seq<Event>) {
    forall k :: 0 <= k < |log| && log[k].Spawned? ==> DependenciesCameUp(jobs, log, k, log[k].job)
  }

  ghost predicate Inv(jobs: seq<Job>, s: State) {
    && Shaped(jobs, s) && AtMostOneStarting(jobs, s) && StartOrder(jobs, s.log)
    && (forall j :: 0 <= j < |jobs| && s.running[j] ==> CameUp(s.log, |s.log|, j))
    && (forall a :: InFlight(s, a) ==> AllFound(jobs, jobs[s.attempts[a].job].dependsOn))
    && (forall a :: At(s, a, Delaying) || At(s, a, Spawning) ==>
          DependenciesCameUp(jobs, s.log, |s.log|, s.attempts[a].job))
  }

  lemma {:induction false} CameUpLater(log: seq<Event>, e: Event, n: nat, d: nat)
    requires CameUp(log, n, d) && n <= |log|
    ensures CameUp(log + [e], n, d) && CameUp(log + [e], |log| + 1, d)
  {
    var k :| 0 <= k < n && k < |log| && log[k].job == d;
    assert (log + [e])[k] == log[k];
  }

  lemma {:induction false} LogStep(jobs: seq<Job>, log: seq<Event>, e: Event)
    requires StartOrder(jobs, log) && (e.Spawned? ==> DependenciesCameUp(jobs, log, |log|, e.job))
    ensures StartOrder(jobs, log + [e]) && CameUp(log + [e], |log| + 1, e.job)
    ensures forall d :: CameUp(log, |log|, d) ==> CameUp(log + [e], |log| + 1, d)
    ensures forall j :: DependenciesCameUp(jobs, log, |log|, j) ==> DependenciesCameUp(jobs, log + [e], |log| + 1, j)
  {
    var log' := log + [e];
    assert log'[|log|] == e;
    forall d | CameUp(log, |log|, d) ensures CameUp(log', |log| + 1, d) { CameUpLater(log, e, |log|, d); }
    forall k | 0 <= k < |log'| && log'[k].Spawned? ensures DependenciesCameUp(jobs, log', k, log'[k].job) {
      forall d | CameUp(log, k, d) ensures CameUp(log', k, d) { CameUpLater(log, e, k, d); }
    }
  }

  /** The same attempts except that attempt a has moved on. */
  ghost predicate OnlyMoved(s: State, t: State, a: nat) {
    && a < |s.attempts| == |t.attempts|
    && t.attempts[a].job == s.attempts[a].job
    && forall b :: 0 <= b < |s.attempts| && b != a ==> t.attempts[b] == s.attempts[b]
  }

  lemma {:induction false} StepMoves(jobs: seq<Job>, s: State, t: State, a: nat)
    requires Inv(jobs, s) && AttemptStep(jobs, s, t, a)
    ensures OnlyMoved(s, t, a) && Shaped(jobs, t)
  {
  }

  /** An attempt that was in flight and still is, or has just left the flight. */
  lemma {:induction false} InvForward(jobs: seq<Job>, s: State, t: State, a: nat)
    requires Inv(jobs, s) && (PassGate(jobs, s, t, a) || DelayOver(jobs, s, t, a))
    ensures Inv(jobs, t)
  {
    StepMoves(jobs, s, t, a);
    assert InFlight(s, a);
    assert forall b :: InFlight(t, b) <==> InFlight(s, b);
    var j := s.attempts[a].job;
    if PassGate(jobs, s, t, a) {
      forall d: nat | DependsOn(jobs, j, d) && d < |jobs| && !jobs[d].evalRunning ensures CameUp(s.log, |s.log|, d) {
        assert IsRunning(s, d);
      }
    }
    assert DependenciesCameUp(jobs, t.log, |t.log|, j);
    assert forall b ::
      (At(t, b, Delaying) || At(t, b, Spawning)) && b != a ==> At(s, b, Delaying) || At(s, b, Spawning);
  }

  lemma {:induction false} InvEnter(jobs: seq<Job>, s: State, t: State, a: nat)
    requires Inv(jobs, s) && Enter(jobs, s, t, a)
    ensures Inv(jobs, t)
  {
    var j := s.attempts[a].job;
    StepMoves(jobs, s, t, a);
    assert forall b :: At(t, b, Delaying) || At(t, b, Spawning) ==> At(s, b, Delaying) || At(s, b, Spawning);
    if s.trying[j] || !AllFound(jobs, jobs[j].dependsOn) {
      assert forall b :: InFlight(t, b) <==> InFlight(s, b);
      assert forall b :: InFlight(s, b) ==> s.trying[s.attempts[b].job];
    } else {
      assert forall b :: InFlight(t, b) <==> InFlight(s, b) || b == a;
      assert forall b :: InFlight(s, b) ==> s.attempts[b].job != j;
    }
  }

  lemma {:induction false} InvSpawn(jobs: seq<Job>, s: State, t: State, a: nat)
    requires Inv(jobs, s) && Spawn(jobs, s, t, a)
    ensures Inv(jobs, t)
  {
    var j := s.attempts[a].job;
    StepMoves(jobs, s, t, a);
    assert At(s, a, Spawning) && InFlight(s, a);
    assert forall b :: InFlight(t, b) ==> InFlight(s, b) && b != a;
    assert forall b :: At(t, b, Delaying) || At(t, b, Spawning) ==> At(s, b, Delaying) || At(s, b, Spawning);
    LogStep(jobs, s.log, Spawned(j));
  }

  lemma {:induction false} InvLeave(jobs: seq<Job>, s: State, t: State, a: nat)
    requires Inv(jobs, s) && (Exit(jobs, s, t, a) || Raise(jobs, s, t, a))
    ensures Inv(jobs, t)
  {
    StepMoves(jobs, s, t, a);
    assert forall b :: InFlight(t, b) ==> InFlight(s, b);
    assert forall b :: At(t, b, Delaying) || At(t, b, Spawning) ==> At(s, b, Delaying) || At(s, b, Spawning);
  }

  lemma {:induction false} InvJobStep(jobs: seq<Job>, s: State, t: State, j: nat)
    requires Inv(jobs, s) && JobStep(jobs, s, t, j)
    ensures Inv(jobs, t)
  {
    assert forall b :: InFlight(t, b) <==> InFlight(s, b);
    assert forall b :: At(t, b, Delaying) || At(t, b, Spawning) ==> At(s, b, Delaying) || At(s, b, Spawning);
    if Adopt(jobs, s, t, j) { LogStep(jobs, s.log, Adopted(j)); }
  }

  lemma {:induction false} InvNewTask(jobs: seq<Job>, s: State, t: State)
    requires Inv(jobs, s) && NewTask(jobs, s, t)
    ensures Inv(jobs, t)
  {
    assert forall b :: 0 <= b < |s.attempts| ==> t.attempts[b] == s.attempts[b];
    assert forall b :: InFlight(t, b) ==> InFlight(s, b);
    assert forall b :: At(t, b, Delaying) || At(t, b, Spawning) ==> At(s, b, Delaying) || At(s, b, Spawning);
  }

  lemma {:induction false} InvStep(jobs: seq<Job>, s: State, t: State)
    requires Inv(jobs, s) && Next(jobs, s, t)
    ensures Inv(jobs, t)
  {
    if a: nat :| AttemptStep(jobs, s, t, a) {
      if Enter(jobs, s, t, a) { InvEnter(jobs, s, t, a); }
      else if Spawn(jobs, s, t, a) { InvSpawn(jobs, s, t, a); }
      else if Exit(jobs, s, t, a) || Raise(jobs, s, t, a) { InvLeave(jobs, s, t, a); }
      else { InvForward(jobs, s, t, a); }
    } else if j: nat :| JobStep(jobs, s, t, j) {
      InvJobStep(jobs, s, t, j);
    } else {
      InvNewTask(jobs, s, t);
    }
  }

  lemma {:induction false} InvAlways(jobs: seq<Job>, run: seq<State>, n: nat)
    requires IsRun(jobs, run) && n < |run|
    ensures Inv(jobs, run[n])
  {
    if n == 0 {
    } else {
      InvAlways(jobs, run, n - 1);
      StepAt(jobs, run, n - 1);
      InvStep(jobs, run[n - 1], run[n]);
    }
  }

  /** In every run: each spawned job comes after each of its dependencies was first spawned or adopted
      (those without `eval_running`), and all its dependencies exist. */
  lemma {:induction false} SpawnsFollowDependencies(jobs: seq<Job>, run: seq<State>, n: nat, k: nat, d: nat)
    requires IsRun(jobs, run) && n < |run| && k < |run[n].log| && run[n].log[k].Spawned?
    ensures run[n].log[k].job < |jobs| && AllFound(jobs, jobs[run[n].log[k].job].dependsOn)
    ensures DependsOn(jobs, run[n].log[k].job, d) && d < |jobs| && !jobs[d].evalRunning
        ==> exists k' :: 0 <= k' < k && run[n].log[k'].job == d
  {
    InvAlways(jobs, run, n);
    assert DependenciesCameUp(jobs, run[n].log, k, run[n].log[k].job);
    if DependsOn(jobs, run[n].log[k].job, d) && d < |jobs| && !jobs[d].evalRunning {
      assert CameUp(run[n].log, k, d);
    }
  }

  /** In every run, at most one start attempt per job is between gate and spawn. */
  lemma {:induction false} OneStartAtATime(jobs: seq<Job>, run: seq<State>, n: nat, a: nat, b: nat)
    requires IsRun(jobs, run) && n < |run| && InFlight(run[n], a) && InFlight(run[n], b)
    requires run[n].attempts[a].job == run[n].attempts[b].job
    ensures a == b
  {
    InvAlways(jobs, run, n);
  }

  ghost predicate HasMemberDependency(jobs: seq<Job>, group: set<nat>, j: nat) {
    exists d :: d in group && d < |jobs| && DependsOn(jobs, j, d) && !jobs[d].evalRunning
  }

  /** Jobs that wait for each other: each one depends on one of them. A dependency cycle is such a set,
      together with everything that waits for it. */
  ghost predicate WaitForEachOther(jobs: seq<Job>, group: set<nat>) {
    forall j :: j in group ==> HasMemberDependency(jobs, group, j)
  }

  lemma {:induction false} NeverFirst(jobs: seq<Job>, log: seq<Event>, group: set<nat>, k: nat)
    requires StartOrder(jobs, log) && WaitForEachOther(jobs, group)
    requires forall i :: 0 <= i < |log| && log[i].Adopted? ==> log[i].job !in group
    requires k <= |log|
    ensures forall i :: 0 <= i < k ==> log[i].job !in group
  {
    if k == 0 {
    } else {
      NeverFirst(jobs, log, group, k - 1);
      MemberBefore(jobs, log, group, k - 1);
    }
  }

  /** Before a member of the group is spawned, a member has come up. */
  lemma {:induction false} MemberBefore(jobs: seq<Job>, log: seq<Event>, group: set<nat>, k: nat)
    requires StartOrder(jobs, log) && WaitForEachOther(jobs, group) && k < |log|
    ensures log[k].Spawned? && log[k].job in group ==> exists i :: 0 <= i < k && log[i].job in group
  {
    var e := log[k];
    if e.Spawned? && e.job in group {
      assert HasMemberDependency(jobs, group, e.job);
      var d :| d in group && d < |jobs| && DependsOn(jobs, e.job, d) && !jobs[d].evalRunning;
      assert DependenciesCameUp(jobs, log, k, e.job);
      assert CameUp(log, k, d);
    }
  }

  /** In every run: jobs that wait for each other, none of which was adopted, never start. */
  lemma {:induction false} CyclesNeverStart(jobs: seq<Job>, run: seq<State>, n: nat, group: set<nat>, j: nat)
    requires IsRun(jobs, run) && n < |run| && WaitForEachOther(jobs, group) && j in group
    requires forall i :: 0 <= i < |run[n].log| && run[n].log[i].Adopted? ==> run[n].log[i].job !in group
    ensures Spawned(j) !in run[n].log
  {
    InvAlways(jobs, run, n);
    NeverFirst(jobs, run[n].log, group, |run[n].log|);
  }

  /** A dependency cycle, as a list of jobs each naming the next and the last naming the first. */
  ghost predicate Cycle(jobs: seq<Job>, path: seq<nat>) {
    && |path| > 0
    && (forall i :: 0 <= i < |path| ==> path[i] < |jobs| && !jobs[path[i]].evalRunning)
    && (forall i :: 0 <= i < |path| - 1 ==> DependsOn(jobs, path[i], path[i + 1]))
    && DependsOn(jobs, path[|path| - 1], path[0])
  }

  function Members(path: seq<nat>): set<nat> { set j | j in path }

  lemma {:induction false} CycleWaits(jobs: seq<Job>, path: seq<nat>)
    requires Cycle(jobs, path)
    ensures WaitForEachOther(jobs, Members(path))
  {
    var group := Members(path);
    forall j: nat | j in group ensures HasMemberDependency(jobs, group, j) {
      var i :| 0 <= i < |path| && path[i] == j;
      var d := if i < |path| - 1 then path[i + 1] else path[0];
      assert d in path;
      assert i == |path| - 1 || DependsOn(jobs, path[i], path[i + 1]);
      assert d in group && DependsOn(jobs, j, d);
    }
  }

  // ---------- A start that fails is not retried ----------

  /** `trying_to_start` is set and no attempt is left that would clear it: what an exception between
      the gate and the spawn leaves behind. */
  ghost predicate Stuck(jobs: seq<Job>, s: State, j: nat) {
    && Shaped(jobs, s) && j < |jobs| && s.trying[j]
    && forall a :: InFlight(s, a) ==> s.attempts[a].job != j
  }

  /** Attempt a of job j ends in an exception between its first statement and the spawn. */
  ghost predicate FailsInFlight(jobs: seq<Job>, s: State, t: State, j: nat, a: nat) {
    InFlight(s, a) && s.attempts[a].job == j && Raise(jobs, s, t, a)
  }

  ghost predicate FailsToStart(jobs: seq<Job>, s: State, t: State, j: nat) {
    exists a: nat :: FailsInFlight(jobs, s, t, j, a)
  }

  /** An exception there leaves the job stuck, although `backoff` calls `start_job` again. */
  lemma {:induction false} FailedSpawnSticks(jobs: seq<Job>, s: State, t: State, j: nat, a: nat)
    requires Inv(jobs, s) && FailsInFlight(jobs, s, t, j, a)
    ensures Stuck(jobs, t, j)
  {
    assert forall b :: InFlight(t, b) ==> b != a && InFlight(s, b);
  }

  /** j is being started: some attempt of it would clear the flag. */
  ghost predicate BeingStarted(s: State, j: nat) {
    exists b :: InFlight(s, b) && s.attempts[b].job == j
  }

  /** An attempt of j that stays in flight keeps the job from being stuck. */
  lemma {:induction false} OnlyFailuresStickAttempt(jobs: seq<Job>, s: State, t: State, j: nat, a: nat)
    requires Inv(jobs, s) && AttemptStep(jobs, s, t, a) && j < |jobs| && !Stuck(jobs, s, j) && Stuck(jobs, t, j)
    ensures FailsInFlight(jobs, s, t, j, a)
  {
    StepMoves(jobs, s, t, a);
    if BeingStarted(s, j) {
      var b :| InFlight(s, b) && s.attempts[b].job == j;
      assert b == a || InFlight(t, b);
    } else {
      assert !s.trying[j];
      assert Enter(jobs, s, t, a) && InFlight(t, a);
    }
  }

  lemma {:induction false} OnlyFailuresStickOther(jobs: seq<Job>, s: State, t: State, j: nat)
    requires Inv(jobs, s) && j < |jobs| && !Stuck(jobs, s, j)
    requires NewTask(jobs, s, t) || exists i: nat :: JobStep(jobs, s, t, i)
    ensures !Stuck(jobs, t, j)
  {
    assert t.trying == s.trying;
    if BeingStarted(s, j) {
      var b :| InFlight(s, b) && s.attempts[b].job == j;
      assert InFlight(t, b);
    }
  }

  /** Exactly when a step makes a job stuck. */
  lemma {:induction false} SticksExactly(jobs: seq<Job>, s: State, t: State, j: nat)
    requires Inv(jobs, s) && Next(jobs, s, t) && j < |jobs| && !Stuck(jobs, s, j)
    ensures Stuck(jobs, t, j) <==> FailsToStart(jobs, s, t, j)
  {
    if a: nat :| FailsInFlight(jobs, s, t, j, a) {
      FailedSpawnSticks(jobs, s, t, j, a);
    } else if Stuck(jobs, t, j) {
      if a: nat :| AttemptStep(jobs, s, t, a) {
        OnlyFailuresStickAttempt(jobs, s, t, j, a);
      } else {
        OnlyFailuresStickOther(jobs, s, t, j);
      }
    }
  }

  /** The log is the same, or has one more event, and that is not a spawn of j. */
  ghost predicate NoSpawnOf(before: seq<Event>, after: seq<Event>, j: nat) {
    && before <= after && |after| <= |before| + 1
    && (|after| > |before| ==> after[|before|] != Spawned(j))
  }

  lemma {:induction false} StuckAttemptStep(jobs: seq<Job>, s: State, t: State, j: nat, a: nat)
    requires Stuck(jobs, s, j) && AttemptStep(jobs, s, t, a)
    ensures Stuck(jobs, t, j) && NoSpawnOf(s.log, t.log, j)
  {
    assert forall b :: 0 <= b < |t.attempts| && b != a ==> t.attempts[b] == s.attempts[b];
    assert t.attempts[a].job == s.attempts[a].job;
    if Enter(jobs, s, t, a) {
      assert forall b :: InFlight(t, b) ==> InFlight(s, b) || (b == a && s.attempts[a].job != j);
    } else {
      assert forall b :: InFlight(t, b) ==> InFlight(s, b);
      if Spawn(jobs, s, t, a) { assert InFlight(s, a); }
    }
  }

  lemma {:induction false} StuckStep(jobs: seq<Job>, s: State, t: State, j: nat)
    requires Stuck(jobs, s, j) && Next(jobs, s, t)
    ensures Stuck(jobs, t, j) && NoSpawnOf(s.log, t.log, j)
  {
    if a: nat :| AttemptStep(jobs, s, t, a) {
      StuckAttemptStep(jobs, s, t, j, a);
    } else if i: nat :| JobStep(jobs, s, t, i) {
      assert forall b :: InFlight(t, b) <==> InFlight(s, b);
    } else {
      assert forall b :: 0 <= b < |s.attempts| ==> t.attempts[b] == s.attempts[b];
      assert forall b :: InFlight(t, b) ==> InFlight(s, b);
    }
  }

  /** Nothing after the first log is a spawn of j. */
  ghost predicate NoSpawnSince(before: seq<Event>, after: seq<Event>, j: nat) {
    before <= after && forall k :: |before| <= k < |after| ==> after[k] != Spawned(j)
  }

  ghost predicate StaysStuck(jobs: seq<Job>, first: seq<Event>, s: State, j: nat) {
    Stuck(jobs, s, j) && NoSpawnSince(first, s.log, j)
  }

  lemma {:induction false} StaysStuckStep(jobs: seq<Job>, first: seq<Event>, s: State, t: State, j: nat)
    requires StaysStuck(jobs, first, s, j) && Next(jobs, s, t)
    ensures StaysStuck(jobs, first, t, j)
  {
    StuckStep(jobs, s, t, j);
  }

  lemma {:induction false} StepAt(jobs: seq<Job>, run: seq<State>, i: nat)
    requires IsRun(jobs, run) && i + 1 < |run|
    ensures Next(jobs, run[i], run[i + 1])
  {
    assert StepsAt(jobs, run, i);
  }

  /** From then on the job is never spawned again, whatever tasks are created for it. */
  lemma {:induction false} StuckForever(jobs: seq<Job>, run: seq<State>, m: nat, n: nat, j: nat)
    requires IsRun(jobs, run) && m <= n < |run| && Stuck(jobs, run[m], j)
    ensures StaysStuck(jobs, run[m].log, run[n], j)
  {
    if m == n {
    } else {
      StuckForever(jobs, run, m, n - 1, j);
      StaysStuckAt(jobs, run, run[m].log, n - 1, j);
    }
  }

  lemma {:induction false} StaysStuckAt(jobs: seq<Job>, run: seq<State>, first: seq<Event>, i: nat, j: nat)
    requires IsRun(jobs, run) && i + 1 < |run| && StaysStuck(jobs, first, run[i], j)
    ensures StaysStuck(jobs, first, run[i + 1], j)
  {
    StepAt(jobs, run, i);
    StaysStuckStep(jobs, first, run[i], run[i + 1], j);
  }

  /** A start of j failed before state n of the run. */
  ghost predicate FailedBefore(jobs: seq<Job>, run: seq<State>, n: nat, j: nat) {
    exists m :: 0 <= m < n && m + 1 < |run| && FailsToStart(jobs, run[m], run[m + 1], j)
  }

  /** In every run: a job is stuck if and only if a start of it has failed between its first statement
      and the spawn. */
  lemma {:induction false} StuckExactly(jobs: seq<Job>, run: seq<State>, n: nat, j: nat)
    requires IsRun(jobs, run) && n < |run| && j < |jobs|
    ensures Stuck(jobs, run[n], j) <==> FailedBefore(jobs, run, n, j)
  {
    if n == 0 {
    } else {
      StuckExactly(jobs, run, n - 1, j);
      StuckAt(jobs, run, n - 1, j);
      FailedSooner(jobs, run, n, j);
    }
  }

  lemma {:induction false} StuckAt(jobs: seq<Job>, run: seq<State>, i: nat, j: nat)
    requires IsRun(jobs, run) && i + 1 < |run| && j < |jobs|
    ensures Stuck(jobs, run[i + 1], j) <==> Stuck(jobs, run[i], j) || FailsToStart(jobs, run[i], run[i + 1], j)
  {
    InvAlways(jobs, run, i);
    StepAt(jobs, run, i);
    StuckAfterStep(jobs, run[i], run[i + 1], j);
  }

  lemma {:induction false} StuckAfterStep(jobs: seq<Job>, s: State, t: State, j: nat)
    requires Inv(jobs, s) && Next(jobs, s, t) && j < |jobs|
    ensures Stuck(jobs, t, j) <==> Stuck(jobs, s, j) || FailsToStart(jobs, s, t, j)
  {
    if Stuck(jobs, s, j) {
      StuckStep(jobs, s, t, j);
    } else {
      SticksExactly(jobs, s, t, j);
    }
  }

  lemma {:induction false} FailedSooner(jobs: seq<Job>, run: seq<State>, n: nat, j: nat)
    requires 0 < n < |run|
    ensures FailedBefore(jobs, run, n, j)
       <==> FailedBefore(jobs, run, n - 1, j) || FailsToStart(jobs, run[n - 1], run[n], j)
  {
    if FailedBefore(jobs, run, n, j) {
      var m :| 0 <= m < n && m + 1 < |run| && FailsToStart(jobs, run[m], run[m + 1], j);
      assert m < n - 1 || m == n - 1;
    }
    if FailsToStart(jobs, run[n - 1], run[n], j) { assert FailsToStart(jobs, run[n - 1], run[n - 1 + 1], j); }
  }

  /** And it does happen: the only job of the crontab raises at its spawn, and is stuck although nothing
      of it runs. */
  lemma {:induction false} AStartThatSticks() returns (jobs: seq<Job>, run: seq<State>)
    ensures IsRun(jobs, run) && jobs == [Job("job", [], false)]
    ensures var last := run[|run| - 1]; Stuck(jobs, last, 0) && !last.running[0] && last.log == []
  {
    jobs := [Job("job", [], false)];
    run := [OneJob(false, [])];
    var s1 := Created(jobs);
    run := RunGrows(jobs, run, s1);
    var s2 := Stepped(jobs, false, Begin, true, Waiting);
    run := RunGrows(jobs, run, s2);
    var s3 := Stepped(jobs, true, Waiting, true, Delaying);
    run := RunGrows(jobs, run, s3);
    var s4 := Stepped(jobs, true, Delaying, true, Spawning);
    run := RunGrows(jobs, run, s4);
    var s5 := Raised(jobs);
    run := RunGrows(jobs, run, s5);
  }

  lemma {:induction false} RunGrows(jobs: seq<Job>, run: seq<State>, t: State) returns (longer: seq<State>)
    requires IsRun(jobs, run) && Next(jobs, run[|run| - 1], t)
    ensures IsRun(jobs, longer) && longer == run + [t] && longer[|longer| - 1] == t
  {
    longer := run + [t];
    forall i: nat ensures StepsAt(jobs, longer, i) {
      if i < |run| - 1 { StepAt(jobs, run, i); }
    }
  }

  lemma {:induction false} Created(jobs: seq<Job>) returns (t: State)
    requires |jobs| == 1
    ensures t == OneJob(false, [Attempt(0, Begin, 1)]) && Next(jobs, OneJob(false, []), t)
  {
    t := OneJob(false, [Attempt(0, Begin, 1)]);
    var s := OneJob(false, []);
    assert t == s.(attempts := s.attempts + [Attempt(0, Begin, 1)]);
    assert NewTask(jobs, s, t);
  }

  ghost function OneJob(trying: bool, attempts: seq<Attempt>): State {
    State([trying], [false], [false], attempts, [])
  }

  /** The first attempt of an only job moves on. */
  lemma {:induction false} Stepped(jobs: seq<Job>, trying: bool, from: Phase, trying': bool, to: Phase)
    returns (t: State)
    requires |jobs| == 1 && jobs[0].dependsOn == [] && trying' && trying == (from != Begin)
    requires (from, to) in {(Begin, Waiting), (Waiting, Delaying), (Delaying, Spawning)}
    ensures t == OneJob(trying', [Attempt(0, to, 1)]) && Next(jobs, OneJob(trying, [Attempt(0, from, 1)]), t)
  {
    var s := OneJob(trying, [Attempt(0, from, 1)]);
    t := OneJob(trying', [Attempt(0, to, 1)]);
    assert Moved(s, 0, to).(trying := [true]) == t;
    assert AttemptStep(jobs, s, t, 0) by {
      assert Enter(jobs, s, t, 0) || PassGate(jobs, s, t, 0) || DelayOver(jobs, s, t, 0);
    }
  }

  lemma {:induction false} Raised(jobs: seq<Job>) returns (t: State)
    requires |jobs| == 1
    ensures Next(jobs, OneJob(true, [Attempt(0, Spawning, 1)]), t) && Stuck(jobs, t, 0)
    ensures t == OneJob(true, [Attempt(0, Begin, 2)])
  {
    var s := OneJob(true, [Attempt(0, Spawning, 1)]);
    t := OneJob(true, [Attempt(0, Begin, 2)]);
    assert AttemptStep(jobs, s, t, 0) by { assert Raise(jobs, s, t, 0); }
  }
}
