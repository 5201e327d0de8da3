/** What an edge-triggered entry rule buys: one BUY for each maximal run of bars on which its setup holds. */
module EdgeTrigger {

  /** An entry rule on a series, bar by bar: where its setup has formed, where it buys, and which bars slip
      through its rejections. Before minBars it answers nothing. */
  datatype Rule = Rule(formed: nat -> bool, buys: nat -> bool, slips: nat -> bool, minBars: nat)

  ghost function Number(p: nat -> bool, lo: nat, hi: nat): nat
    requires lo <= hi
    decreases hi - lo
  {
    if lo == hi then 0 else (if p(hi - 1) then 1 else 0) + Number(p, lo, hi - 1)
  }

  ghost predicate Edge(rule: Rule, i: nat) {
    i >= rule.minBars && i >= 1 && rule.formed(i) && !rule.formed(i - 1)
  }

  ghost predicate FiresAt(rule: Rule, i: nat) {
    rule.buys(i) <==> Edge(rule, i)
  }

  /** From minBars on, a buy is a bar where the setup holds and the bar before did not have it. */
  ghost predicate FiresOnEdges(rule: Rule, n: nat) {
    forall i: nat :: i < n ==> FiresAt(rule, i)
  }

  ghost predicate NeverSlips(rule: Rule, n: nat) {
    forall i: nat :: i < n ==> !rule.slips(i)
  }

  /** A bar slips through exactly where the rule does not fire as an edge trigger does. */
  ghost predicate Exact(rule: Rule, n: nat) {
    forall i: nat :: i < n ==> (FiresAt(rule, i) <==> !rule.slips(i))
  }

  /** That at one bar, from the values of the predicates there. */
  lemma {:induction false} ExactAtBar(rule: Rule, i: nat, now: bool, before: bool, buys: bool, slips: bool)
    requires i >= rule.minBars && i >= 1 && rule.formed(i) == now && rule.formed(i - 1) == before
    requires rule.buys(i) == buys && rule.slips(i) == slips
    requires (buys <==> now && !before) <==> !slips
    ensures FiresAt(rule, i) <==> !rule.slips(i)
  {
  }

  /** Such a rule is an edge trigger if and only if no bar slips through. */
  lemma {:induction false} FiresUnlessSlips(rule: Rule, n: nat)
    requires Exact(rule, n)
    ensures FiresOnEdges(rule, n) <==> NeverSlips(rule, n)
  {
  }

  /** A maximal run [a, b) of bars on which the setup holds. */
  ghost predicate MaximalRun(rule: Rule, n: nat, a: nat, b: nat) {
    && 1 <= a < b <= n
    && (forall i: nat :: a <= i < b ==> rule.formed(i))
    && !rule.formed(a - 1)
    && (b < n ==> !rule.formed(b))
  }

  lemma {:induction false} NoBuyInside(rule: Rule, n: nat, a: nat, lo: nat, hi: nat)
    requires FiresOnEdges(rule, n) && a < lo <= hi <= n
    requires forall i: nat :: a <= i < hi ==> rule.formed(i)
    ensures Number(rule.buys, lo, hi) == 0
  {
    if lo == hi {
    } else {
      NoBuyInside(rule, n, a, lo, hi - 1);
      assert rule.formed(hi - 2) && !Edge(rule, hi - 1) && FiresAt(rule, hi - 1);
    }
  }

  lemma {:induction false} NumberSplit(p: nat -> bool, lo: nat, mid: nat, hi: nat)
    requires lo <= mid <= hi
    ensures Number(p, lo, hi) == Number(p, lo, mid) + Number(p, mid, hi)
  {
    if mid == hi {
    } else {
      NumberSplit(p, lo, mid, hi - 1);
    }
  }

  /** Exactly one BUY per maximal run that starts at or after minBars, at its first bar, and none
      in a run that started earlier. */
  lemma {:induction false} OneBuyPerRun(rule: Rule, n: nat, a: nat, b: nat)
    requires FiresOnEdges(rule, n) && MaximalRun(rule, n, a, b)
    ensures Number(rule.buys, a, b) == if a >= rule.minBars then 1 else 0
    ensures rule.buys(a) <==> a >= rule.minBars
  {
    NumberSplit(rule.buys, a, a + 1, b);
    assert FiresAt(rule, a);
    assert Number(rule.buys, a, a + 1) == (if rule.buys(a) then 1 else 0) + Number(rule.buys, a, a);
    NoBuyInside(rule, n, a, a + 1, b);
  }

  /** Every BUY opens a maximal run. */
  lemma {:induction false} EveryBuyOpensARun(rule: Rule, n: nat, i: nat) returns (b: nat)
    requires FiresOnEdges(rule, n) && i < n && rule.buys(i)
    ensures MaximalRun(rule, n, i, b) && i >= rule.minBars
  {
    assert FiresAt(rule, i);
    b := i + 1;
    while b < n && rule.formed(b)
      invariant i < b <= n && forall j: nat :: i <= j < b ==> rule.formed(j)
    {
      b := b + 1;
    }
  }

  // ---------- All the BUYs of a series ----------

  /** The maximal runs that start at or after minBars and before bar k. */
  ghost function RunsBefore(rule: Rule, n: nat, k: nat): set<(nat, nat)> {
    set a: nat, b: nat | a < k && b <= n && a >= rule.minBars && MaximalRun(rule, n, a, b) :: (a, b)
  }

  ghost function Runs(rule: Rule, n: nat): set<(nat, nat)> { RunsBefore(rule, n, n) }

  lemma {:induction false} OneEnd(rule: Rule, n: nat, a: nat, b: nat, c: nat)
    requires MaximalRun(rule, n, a, b) && MaximalRun(rule, n, a, c)
    ensures b == c
  {
  }

  lemma {:induction false} IsRunBefore(rule: Rule, n: nat, k: nat, r: (nat, nat))
    ensures r in RunsBefore(rule, n, k) <==> r.0 < k && r.0 >= rule.minBars && MaximalRun(rule, n, r.0, r.1)
  {
  }

  lemma {:induction false} RunAtBuy(rule: Rule, n: nat, k: nat, b: nat)
    requires MaximalRun(rule, n, k, b) && k >= rule.minBars
    ensures RunsBefore(rule, n, k + 1) == RunsBefore(rule, n, k) + {(k, b)}
    ensures (k, b) !in RunsBefore(rule, n, k)
  {
    forall r: (nat, nat) ensures r in RunsBefore(rule, n, k + 1) <==> r in RunsBefore(rule, n, k) || r == (k, b) {
      IsRunBefore(rule, n, k, r);
      IsRunBefore(rule, n, k + 1, r);
      if r.0 == k && MaximalRun(rule, n, k, r.1) { OneEnd(rule, n, k, b, r.1); }
    }
    IsRunBefore(rule, n, k, (k, b));
  }

  lemma {:induction false} NoRunHere(rule: Rule, n: nat, k: nat)
    requires FiresOnEdges(rule, n) && k < n && !rule.buys(k)
    ensures RunsBefore(rule, n, k + 1) == RunsBefore(rule, n, k)
  {
    forall r: (nat, nat) ensures r in RunsBefore(rule, n, k + 1) <==> r in RunsBefore(rule, n, k) {
      IsRunBefore(rule, n, k, r);
      IsRunBefore(rule, n, k + 1, r);
      if MaximalRun(rule, n, k, r.1) { OneBuyPerRun(rule, n, k, r.1); }
    }
  }

  lemma {:induction false} NextRun(rule: Rule, n: nat, k: nat)
    requires FiresOnEdges(rule, n) && k < n
    ensures |RunsBefore(rule, n, k + 1)| == |RunsBefore(rule, n, k)| + (if rule.buys(k) then 1 else 0)
  {
    if rule.buys(k) {
      var b := EveryBuyOpensARun(rule, n, k);
      RunAtBuy(rule, n, k, b);
    } else {
      NoRunHere(rule, n, k);
    }
  }

  lemma {:induction false} BuysCountRunsBefore(rule: Rule, n: nat, k: nat)
    requires FiresOnEdges(rule, n) && k <= n
    ensures Number(rule.buys, 0, k) == |RunsBefore(rule, n, k)|
  {
    if k == 0 {
      assert RunsBefore(rule, n, 0) == {};
    } else {
      BuysCountRunsBefore(rule, n, k - 1);
      NextRun(rule, n, k - 1);
    }
  }

  /** There are as many BUYs in a series as maximal runs that start at or after minBars. */
  lemma {:induction false} BuysCountRuns(rule: Rule, n: nat)
    requires FiresOnEdges(rule, n)
    ensures Number(rule.buys, 0, n) == |Runs(rule, n)|
  {
    BuysCountRunsBefore(rule, n, n);
  }

  /** One BUY for each such run and one such run for each BUY, one by one and in total. */
  ghost predicate OneBuyEach(rule: Rule, n: nat) {
    && (forall a: nat, b: nat :: MaximalRun(rule, n, a, b)
                                 ==> Number(rule.buys, a, b) == if a >= rule.minBars then 1 else 0)
    && (forall i: nat :: i < n && rule.buys(i) ==> i >= rule.minBars && exists b: nat :: MaximalRun(rule, n, i, b))
    && Number(rule.buys, 0, n) == |Runs(rule, n)|
  }

  lemma {:induction false} EdgesBuyEach(rule: Rule, n: nat)
    requires FiresOnEdges(rule, n)
    ensures OneBuyEach(rule, n)
  {
    forall a: nat, b: nat | MaximalRun(rule, n, a, b)
      ensures Number(rule.buys, a, b) == if a >= rule.minBars then 1 else 0
    {
      OneBuyPerRun(rule, n, a, b);
    }
    forall i: nat | i < n && rule.buys(i) ensures i >= rule.minBars && exists b: nat :: MaximalRun(rule, n, i, b) {
      var b := EveryBuyOpensARun(rule, n, i);
    }
    BuysCountRuns(rule, n);
  }
}
