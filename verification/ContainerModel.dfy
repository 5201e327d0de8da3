/** trader/container.py: `resolve` and `resolve_cache` called from many threads, also from inside the
    constructors they run. Types and instances are numbers; each step is one locked block or one
    constructor outcome. */
module ContainerModel {
  import opened Common

  /** A call on a thread's stack. A cached call looks up, waits for its own resolve, or holds the
      instance it is about to store; a building call runs the constructor of its type. */
  datatype Frame =
    | Lookup(of: nat)
    | Await(of: nat)
    | Store(of: nat, instance: nat)
    | Building(of: nat)

  /** `returned` lists what `resolve_cache` calls have returned so far, of all threads. */
  datatype State = State(cache: map<nat, nat>, resolving: set<nat>, threads: seq<seq<Frame>>,
                         returned: seq<(nat, nat)>)

  function Top(stack: seq<Frame>): Frame
    requires stack != []
  {
    stack[|stack| - 1]
  }

  function Pop(stack: seq<Frame>): seq<Frame>
    requires stack != []
  {
    stack[..|stack| - 1]
  }

  ghost function With(s: State, i: nat, stack: seq<Frame>): State
    requires i < |s.threads|
  {
    s.(threads := s.threads[i := stack])
  }

  /** A call can start when the thread is idle or inside a constructor. */
  ghost predicate CanCall(stack: seq<Frame>) {
    stack == [] || Top(stack).Building?
  }

  ghost predicate OnTop(s: State, i: nat) {
    i < |s.threads| && s.threads[i] != []
  }

  ghost predicate CallCache(s: State, s': State, i: nat) {
    && i < |s.threads| && CanCall(s.threads[i])
    && exists t :: s' == With(s, i, s.threads[i] + [Lookup(t)])
  }

  ghost predicate CacheHit(s: State, s': State, i: nat) {
    && OnTop(s, i) && Top(s.threads[i]).Lookup? && Top(s.threads[i]).of in s.cache
    && var t := Top(s.threads[i]).of;
       s' == With(s, i, Pop(s.threads[i])).(returned := s.returned + [(t, s.cache[t])])
  }

  ghost predicate CacheMiss(s: State, s': State, i: nat) {
    && OnTop(s, i) && Top(s.threads[i]).Lookup? && Top(s.threads[i]).of !in s.cache
    && s' == With(s, i, Pop(s.threads[i]) + [Await(Top(s.threads[i]).of)])
  }

  /** `resolve(t)` is called: by a caller, a constructor, or a cached call that missed. */
  ghost predicate Asks(s: State, i: nat, t: nat) {
    i < |s.threads| && (CanCall(s.threads[i]) || (OnTop(s, i) && Top(s.threads[i]) == Await(t)))
  }

  /** A cached call is given up with the exception of its resolve. */
  ghost function Unwound(stack: seq<Frame>, t: nat): seq<Frame> {
    if stack != [] && Top(stack) == Await(t) then Pop(stack) else stack
  }

  /** The locked block that opens `resolve`: refused when the type is being resolved, else entered. */
  ghost predicate EnterResolve(s: State, s': State, i: nat, t: nat) {
    && Asks(s, i, t)
    && if t in s.resolving then s' == With(s, i, Unwound(s.threads[i], t))
       else s' == With(s, i, s.threads[i] + [Building(t)]).(resolving := s.resolving + {t})
  }

  /** The constructor returns a new instance; a waiting cached call picks it up. */
  ghost predicate Built(s: State, s': State, i: nat) {
    && OnTop(s, i) && Top(s.threads[i]).Building?
    && var t, below := Top(s.threads[i]).of, Pop(s.threads[i]);
       exists instance ::
         s' == With(s, i, if below != [] && Top(below) == Await(t) then Pop(below) + [Store(t, instance)] else below)
               .(resolving := s.resolving - {t})
  }

  /** Missing parameters, or the constructor raises. */
  ghost predicate Failed(s: State, s': State, i: nat) {
    && OnTop(s, i) && Top(s.threads[i]).Building?
    && var t := Top(s.threads[i]).of;
       s' == With(s, i, Unwound(Pop(s.threads[i]), t)).(resolving := s.resolving - {t})
  }

  /** `setdefault`, and return what the cache holds. */
  ghost predicate StoreDone(s: State, s': State, i: nat) {
    && OnTop(s, i) && Top(s.threads[i]).Store?
    && var t, instance := Top(s.threads[i]).of, Top(s.threads[i]).instance;
       var cache := if t in s.cache then s.cache else s.cache[t := instance];
       s' == With(s, i, Pop(s.threads[i])).(cache := cache, returned := s.returned + [(t, cache[t])])
  }

  ghost predicate ThreadStep(s: State, s': State, i: nat) {
    || CallCache(s, s', i) || CacheHit(s, s', i) || CacheMiss(s, s', i) || Built(s, s', i) || Failed(s, s', i)
    || StoreDone(s, s', i) || exists t :: EnterResolve(s, s', i, t)
  }

  ghost predicate Next(s: State, s': State) { exists i: nat :: ThreadStep(s, s', i) }

  ghost predicate Init(s: State) {
    s.cache == map[] && s.resolving == {} && s.returned == [] && forall i :: 0 <= i < |s.threads| ==> s.threads[i] == []
  }

  ghost predicate IsRun(run: seq<State>) {
    && |run| > 0 && Init(run[0])
    && forall i :: 0 <= i < |run| - 1 ==> Next(run[i], run[i + 1])
  }

  // ---------- Invariants ----------

  ghost predicate Holds(s: State, i: int, d: int, t: nat) {
    0 <= i < |s.threads| && 0 <= d < |s.threads[i]| && s.threads[i][d] == Building(t)
  }

  ghost predicate InFlight(s: State, t: nat) { exists i, d :: Holds(s, i, d, t) }

  /** A type is in `_resolving` exactly while some call builds it, and only one call does. */
  ghost predicate ResolvingExact(s: State) {
    && (forall t :: t in s.resolving <==> InFlight(s, t))
    && (forall t, i, d, i', d' :: Holds(s, i, d, t) && Holds(s, i', d', t) ==> i == i' && d == d')
  }

  ghost predicate ReturnsAgree(s: State) {
    forall r :: 0 <= r < |s.returned| ==> s.returned[r].0 in s.cache && s.cache[s.returned[r].0] == s.returned[r].1
  }

  /** Cached calls sit on a constructor or at the bottom of the stack. */
  ghost predicate Alternates(stack: seq<Frame>) {
    && (forall d :: 0 < d < |stack| && !stack[d].Building? ==> stack[d - 1].Building?)
    && (forall d :: 0 <= d < |stack| - 1 ==> stack[d].Building? || stack[d].Await?)
  }

  ghost predicate Inv(s: State) {
    ResolvingExact(s) && ReturnsAgree(s) && forall i :: 0 <= i < |s.threads| ==> Alternates(s.threads[i])
  }

  /** A step that neither starts nor ends a build. */
  lemma {:induction false} KeepsBuilds(s: State, s': State)
    requires ResolvingExact(s) && s'.resolving == s.resolving
    requires forall i, d, t :: Holds(s', i, d, t) <==> Holds(s, i, d, t)
    ensures ResolvingExact(s')
  {
    forall t ensures InFlight(s', t) <==> InFlight(s, t) {
      if InFlight(s, t) { var i, d :| Holds(s, i, d, t); assert Holds(s', i, d, t); }
      if InFlight(s', t) { var i, d :| Holds(s', i, d, t); assert Holds(s, i, d, t); }
    }
  }

  lemma {:induction false} StartsBuild(s: State, s': State, i: nat, t: nat)
    requires ResolvingExact(s) && EnterResolve(s, s', i, t) && t !in s.resolving
    ensures ResolvingExact(s')
  {
    var top := |s.threads[i]|;
    assert forall j, d, u :: Holds(s', j, d, u) <==> Holds(s, j, d, u) || (j == i && d == top && u == t);
    forall u ensures u in s'.resolving <==> InFlight(s', u) {
      if InFlight(s, u) { var j, d :| Holds(s, j, d, u); assert Holds(s', j, d, u); }
      if u == t { assert Holds(s', i, top, t); }
      if InFlight(s', u) && u != t { var j, d :| Holds(s', j, d, u); assert Holds(s, j, d, u); }
    }
    assert !InFlight(s, t);
  }

  lemma {:induction false} EndsBuild(s: State, s': State, i: nat, t: nat)
    requires ResolvingExact(s) && s'.resolving == s.resolving - {t}
    requires OnTop(s, i) && Top(s.threads[i]) == Building(t)
    requires forall j, d, u :: Holds(s', j, d, u) <==> Holds(s, j, d, u) && !(j == i && d == |s.threads[i]| - 1)
    ensures ResolvingExact(s')
  {
    var top := |s.threads[i]| - 1;
    assert Holds(s, i, top, t);
    forall u ensures u in s'.resolving <==> InFlight(s', u) {
      if InFlight(s', u) { var j, d :| Holds(s', j, d, u); assert Holds(s, j, d, u); }
      if InFlight(s, u) && u != t { var j, d :| Holds(s, j, d, u); assert Holds(s', j, d, u); }
    }
  }

  /** Thread i's stack has gained or lost frames above the first d, none of them building. */
  ghost predicate SameBuilds(s: State, s': State, i: nat, d: nat) {
    && i < |s.threads| == |s'.threads| && d <= |s.threads[i]| && d <= |s'.threads[i]|
    && (forall j :: 0 <= j < |s.threads| && j != i ==> s'.threads[j] == s.threads[j])
    && s'.threads[i][..d] == s.threads[i][..d]
    && (forall k :: d <= k < |s.threads[i]| ==> !s.threads[i][k].Building?)
    && (forall k :: d <= k < |s'.threads[i]| ==> !s'.threads[i][k].Building?)
  }

  lemma {:induction false} SameBuildsHold(s: State, s': State, i: nat, d: nat)
    requires SameBuilds(s, s', i, d)
    ensures forall j, k, t :: Holds(s', j, k, t) <==> Holds(s, j, k, t)
  {
    assert forall k :: 0 <= k < d ==> s'.threads[i][..d][k] == s'.threads[i][k];
    assert forall k :: 0 <= k < d ==> s.threads[i][..d][k] == s.threads[i][k];
  }

  lemma {:induction false} InvQuiet(s: State, s': State, i: nat)
    requires Inv(s) && (CallCache(s, s', i) || CacheHit(s, s', i) || CacheMiss(s, s', i) || StoreDone(s, s', i))
    ensures Inv(s')
    ensures forall t :: t in s.cache ==> t in s'.cache && s'.cache[t] == s.cache[t]
  {
    assert Alternates(s.threads[i]);
    var d := if CallCache(s, s', i) then |s.threads[i]| else |s.threads[i]| - 1;
    SameBuildsHold(s, s', i, d);
    KeepsBuilds(s, s');
  }

  lemma {:induction false} InvEnter(s: State, s': State, i: nat, t: nat)
    requires Inv(s) && EnterResolve(s, s', i, t)
    ensures Inv(s') && s'.cache == s.cache
  {
    assert Alternates(s.threads[i]);
    if t in s.resolving {
      SameBuildsHold(s, s', i, |s'.threads[i]|);
      KeepsBuilds(s, s');
    } else {
      StartsBuild(s, s', i, t);
    }
  }

  lemma {:induction false} InvEnd(s: State, s': State, i: nat)
    requires Inv(s) && (Built(s, s', i) || Failed(s, s', i))
    ensures Inv(s') && s'.cache == s.cache
  {
    var stack := s.threads[i];
    assert Alternates(stack);
    var t := Top(stack).of;
    var below := Pop(stack);
    assert forall k :: 0 <= k < |below| ==> below[k] == stack[k];
    EndsBuild(s, s', i, t);
  }

  lemma {:induction false} InvStep(s: State, s': State, i: nat)
    requires Inv(s) && ThreadStep(s, s', i)
    ensures Inv(s')
    ensures forall t :: t in s.cache ==> t in s'.cache && s'.cache[t] == s.cache[t]
  {
    if t :| EnterResolve(s, s', i, t) {
      InvEnter(s, s', i, t);
    } else if Built(s, s', i) || Failed(s, s', i) {
      InvEnd(s, s', i);
    } else {
      InvQuiet(s, s', i);
    }
  }

  lemma {:induction false} InvAlways(run: seq<State>, n: nat)
    requires IsRun(run) && n < |run|
    ensures Inv(run[n])
  {
    if n == 0 {
    } else {
      InvAlways(run, n - 1);
      var i: nat :| ThreadStep(run[n - 1], run[n], i);
      InvStep(run[n - 1], run[n], i);
    }
  }

  /** An entry, once set, never changes. */
  lemma {:induction false} EntriesNeverChange(run: seq<State>, m: nat, n: nat, t: nat)
    requires IsRun(run) && m <= n < |run| && t in run[m].cache
    ensures t in run[n].cache && run[n].cache[t] == run[m].cache[t]
  {
    if m == n {
    } else {
      EntriesNeverChange(run, m, n - 1, t);
      InvAlways(run, n - 1);
      var i: nat :| ThreadStep(run[n - 1], run[n], i);
      InvStep(run[n - 1], run[n], i);
    }
  }

  /** In every interleaving, all `resolve_cache` calls for a type return the same instance, the one the
      cache holds. */
  lemma {:induction false} OneInstancePerType(run: seq<State>, n: nat, p: nat, q: nat)
    requires IsRun(run) && n < |run| && p < |run[n].returned| && q < |run[n].returned|
    requires run[n].returned[p].0 == run[n].returned[q].0
    ensures run[n].returned[p].1 == run[n].returned[q].1
    ensures run[n].returned[p].0 in run[n].cache && run[n].cache[run[n].returned[p].0] == run[n].returned[p].1
  {
    InvAlways(run, n);
  }

  /** In every interleaving, `_resolving` is exactly the set of types in flight, each built by one call. */
  lemma {:induction false} ResolvingIsInFlight(run: seq<State>, n: nat)
    requires IsRun(run) && n < |run|
    ensures ResolvingExact(run[n])
  {
    InvAlways(run, n);
  }

  // ---------- Nesting is bounded ----------

  ghost function Builds(stack: seq<Frame>, d: nat): set<nat>
    requires d <= |stack|
  {
    set k | 0 <= k < d && stack[k].Building? :: stack[k].of
  }

  /** Distinct types are on the stack, so d frames hold at least (d - 1) / 2 of them. */
  lemma {:induction false} StackDepth(s: State, i: nat, d: nat)
    requires ResolvingExact(s) && i < |s.threads| && d <= |s.threads[i]| && Alternates(s.threads[i])
    ensures d <= 2 * |Builds(s.threads[i], d)| + 1
    ensures d > 0 && s.threads[i][d - 1].Building? ==> d <= 2 * |Builds(s.threads[i], d)|
  {
    var stack := s.threads[i];
    if d == 0 {
    } else {
      StackDepth(s, i, d - 1);
      var before := Builds(stack, d - 1);
      if stack[d - 1].Building? {
        assert Builds(stack, d) == before + {stack[d - 1].of};
        assert Holds(s, i, d - 1, stack[d - 1].of);
        assert forall k :: 0 <= k < d - 1 && stack[k] == Building(stack[d - 1].of) ==> Holds(s, i, k, stack[d - 1].of);
        assert stack[d - 1].of !in before;
      } else {
        assert Builds(stack, d) == before;
      }
    }
  }

  /** Nested resolution over finitely many types cannot recurse forever: no thread is ever more than
      2 |types| + 1 calls deep. */
  lemma {:induction false} NestingIsBounded(run: seq<State>, n: nat, i: nat, types: set<nat>)
    requires IsRun(run) && n < |run| && i < |run[n].threads|
    requires run[n].resolving <= types
    ensures |run[n].threads[i]| <= 2 * |types| + 1
  {
    var s := run[n];
    InvAlways(run, n);
    var stack := s.threads[i];
    StackDepth(s, i, |stack|);
    forall t | t in Builds(stack, |stack|) ensures t in types {
      var k :| 0 <= k < |stack| && stack[k] == Building(t);
      assert Holds(s, i, k, t);
    }
    SubsetSize(Builds(stack, |stack|), types);
  }

  /** When `resolve(t)` is refused as circular: exactly when t is being built by a call of any thread, so
      also when another thread happens to build it and nothing is circular. */
  lemma {:induction false} RefusedWhenInFlight(s: State, s': State, i: nat, t: nat)
    requires Inv(s) && EnterResolve(s, s', i, t)
    ensures (exists d :: Holds(s', i, d, t) && d == |s.threads[i]|) <==> !InFlight(s, t)
  {
    if t in s.resolving {
      assert |s'.threads[i]| <= |s.threads[i]|;
    } else {
      assert Holds(s', i, |s.threads[i]|, t);
    }
  }

  /** Two threads resolve a type that needs no other. While the first runs its constructor, the second is
      refused as circular, although nothing is. */
  lemma {:induction false} RefusedWithoutACycle(t: nat) returns (run: seq<State>)
    ensures IsRun(run) && |run| == 3
    ensures run[1].threads == [[Building(t)], []] && EnterResolve(run[1], run[2], 1, t)
    ensures run[2].threads[1] == [] && !InFlightIn(run[2], 1, t)
  {
    var s0 := State(map[], {}, [[], []], []);
    var s1 := State(map[], {t}, [[Building(t)], []], []);
    assert s0.threads[0] + [Building(t)] == [Building(t)];
    assert s0.threads[0 := [Building(t)]] == s1.threads && s0.resolving + {t} == s1.resolving;
    assert EnterResolve(s0, s1, 0, t);
    assert With(s1, 1, Unwound(s1.threads[1], t)) == s1;
    assert EnterResolve(s1, s1, 1, t);
    assert ThreadStep(s0, s1, 0) && ThreadStep(s1, s1, 1);
    run := [s0, s1, s1];
  }

  /** Thread i itself builds t. */
  ghost predicate InFlightIn(s: State, i: int, t: nat) { exists d :: Holds(s, i, d, t) }
}
