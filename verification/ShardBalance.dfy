/** The weight side of scripts/ci_test_shard.py: how evenly the greedy loop of `assign` loads
    the shards. A placement gives, for each item of the processing order, the shard it went to;
    item weights are exact numbers. */
module ShardBalance {
  import opened Common

  /** Weight on shard s after the first n items. */
  ghost function Load(w: seq<real>, a: seq<nat>, n: nat, s: nat): real
    requires n <= |w| && n <= |a|
  {
    if n == 0 then 0.0 else Load(w, a, n - 1, s) + (if a[n - 1] == s then w[n - 1] else 0.0)
  }

  /** Number of items on shard s after the first n items. */
  ghost function Count(a: seq<nat>, n: nat, s: nat): nat
    requires n <= |a|
  {
    if n == 0 then 0 else Count(a, n - 1, s) + (if a[n - 1] == s then 1 else 0)
  }

  ghost function Total(w: seq<real>, n: nat): real
    requires n <= |w|
  {
    if n == 0 then 0.0 else Total(w, n - 1) + w[n - 1]
  }

  /** The load of the heaviest of m shards. */
  ghost function Heaviest(w: seq<real>, a: seq<nat>, m: nat): real
    requires |a| == |w| && m >= 1
  {
    var last := Load(w, a, |w|, m - 1);
    if m == 1 then last
    else
      var rest := Heaviest(w, a, m - 1);
      if rest < last then last else rest
  }

  /** Every split of the first n items over m shards. */
  ghost predicate Split(a: seq<nat>, n: nat, m: nat) {
    n <= |a| && forall i :: 0 <= i < n ==> a[i] < m
  }

  ghost predicate NonNegative(w: seq<real>) {
    forall i :: 0 <= i < |w| ==> w[i] >= 0.0
  }

  ghost predicate Descending(w: seq<real>) {
    forall i, j :: 0 <= i < j < |w| ==> w[i] >= w[j]
  }

  /** What `loads.index(min(loads))` picks for item i: the first of the least loaded shards. */
  ghost predicate FirstLightest(w: seq<real>, a: seq<nat>, i: nat, m: nat, s: nat)
    requires i <= |w| && i <= |a|
  {
    && s < m
    && (forall t: nat :: t < m ==> Load(w, a, i, s) <= Load(w, a, i, t))
    && (forall t: nat :: t < s ==> Load(w, a, i, s) < Load(w, a, i, t))
  }

  /** The placement the loop of `assign` makes. */
  ghost predicate Greedy(w: seq<real>, a: seq<nat>, m: nat) {
    |a| == |w| && forall i :: 0 <= i < |a| ==> FirstLightest(w, a, i, m, a[i])
  }

  ghost predicate LoadsAtMost(w: seq<real>, a: seq<nat>, n: nat, m: nat, x: real)
    requires n <= |w| && n <= |a|
  {
    forall s: nat :: s < m ==> Load(w, a, n, s) <= x
  }

  // ---------- m times a weight ----------

  /** m * x, by repeated addition. */
  ghost function Times(m: nat, x: real): real {
    if m == 0 then 0.0 else Times(m - 1, x) + x
  }

  lemma {:induction false} TimesIsProduct(m: nat, x: real)
    ensures Times(m, x) == (m as real) * x
  {
    if m == 0 {
    } else {
      TimesIsProduct(m - 1, x);
      assert (m as real) * x == ((m - 1) as real) * x + x;
    }
  }

  lemma {:induction false} TimesAdds(m: nat, x: real, y: real)
    ensures Times(m, x + y) == Times(m, x) + Times(m, y)
  {
    if m == 0 {
    } else {
      TimesAdds(m - 1, x, y);
    }
  }

  lemma {:induction false} TimesMonotone(m: nat, x: real, y: real)
    requires x <= y
    ensures Times(m, x) <= Times(m, y)
  {
    if m == 0 {
    } else {
      TimesMonotone(m - 1, x, y);
    }
  }

  lemma {:induction false} TimesAtLeast(m: nat, x: real)
    requires x >= 0.0
    ensures Times(m, x) >= 0.0 && (m >= 1 ==> Times(m, x) >= x)
  {
    if m == 0 {
    } else {
      TimesAtLeast(m - 1, x);
    }
  }

  // ---------- Sums over shards ----------

  ghost function LoadSum(w: seq<real>, a: seq<nat>, n: nat, m: nat): real
    requires n <= |w| && n <= |a|
  {
    if m == 0 then 0.0 else LoadSum(w, a, n, m - 1) + Load(w, a, n, m - 1)
  }

  lemma {:induction false} LoadSumStep(w: seq<real>, a: seq<nat>, n: nat, m: nat)
    requires n < |w| && n < |a|
    ensures LoadSum(w, a, n + 1, m) == LoadSum(w, a, n, m) + (if a[n] < m then w[n] else 0.0)
  {
    if m == 0 {
    } else {
      LoadSumStep(w, a, n, m - 1);
    }
  }

  /** The shard loads always add up to the weight placed so far. */
  lemma {:induction false} LoadsAddUp(w: seq<real>, a: seq<nat>, n: nat, m: nat)
    requires n <= |w| && Split(a, n, m)
    ensures LoadSum(w, a, n, m) == Total(w, n)
  {
    if n > 0 {
      LoadsAddUp(w, a, n - 1, m);
      LoadSumStep(w, a, n - 1, m);
    } else {
      EmptySum(w, a, m);
    }
  }

  lemma {:induction false} EmptySum(w: seq<real>, a: seq<nat>, m: nat)
    ensures LoadSum(w, a, 0, m) == 0.0
  {
    if m == 0 {
    } else {
      EmptySum(w, a, m - 1);
    }
  }

  lemma {:induction false} SumBounds(w: seq<real>, a: seq<nat>, n: nat, m: nat, lo: real, hi: real)
    requires n <= |w| && n <= |a|
    requires forall s: nat :: s < m ==> lo <= Load(w, a, n, s) <= hi
    ensures Times(m, lo) <= LoadSum(w, a, n, m) <= Times(m, hi)
  {
    if m == 0 {
    } else {
      SumBounds(w, a, n, m - 1, lo, hi);
    }
  }

  lemma {:induction false} LoadFacts(w: seq<real>, a: seq<nat>, n: nat, s: nat)
    requires n <= |w| && n <= |a| && NonNegative(w)
    ensures Load(w, a, n, s) >= 0.0
    ensures Count(a, n, s) == 0 ==> Load(w, a, n, s) == 0.0
    ensures forall i :: 0 <= i < n && a[i] == s ==> Load(w, a, n, s) >= w[i] && Count(a, n, s) >= 1
    ensures forall i, k :: 0 <= i < k < n && a[i] == s && a[k] == s ==> Load(w, a, n, s) >= w[i] + w[k]
  {
    if n == 0 {
    } else {
      LoadFacts(w, a, n - 1, s);
    }
  }

  lemma {:induction false} LoadAtLeastCount(w: seq<real>, a: seq<nat>, n: nat, s: nat, least: real)
    requires n <= |w| && n <= |a| && least >= 0.0
    requires forall i :: 0 <= i < n ==> w[i] >= least
    ensures Load(w, a, n, s) >= Times(Count(a, n, s), least)
  {
    if n == 0 {
    } else {
      LoadAtLeastCount(w, a, n - 1, s, least);
    }
  }

  // ---------- Items that have a shard to themselves ----------

  ghost predicate Alone(a: seq<nat>, n: nat, i: nat)
    requires n <= |a|
  {
    i < n && forall k :: 0 <= k < n && k != i ==> a[k] != a[i]
  }

  ghost function Singles(a: seq<nat>, n: nat, m: nat): nat
    requires n <= |a|
  {
    if m == 0 then 0 else Singles(a, n, m - 1) + (if Count(a, n, m - 1) == 1 then 1 else 0)
  }

  ghost function CountSum(a: seq<nat>, n: nat, m: nat): nat
    requires n <= |a|
  {
    if m == 0 then 0 else CountSum(a, n, m - 1) + Count(a, n, m - 1)
  }

  lemma {:induction false} CountSumStep(a: seq<nat>, n: nat, m: nat)
    requires n < |a|
    ensures CountSum(a, n + 1, m) == CountSum(a, n, m) + (if a[n] < m then 1 else 0)
  {
    if m == 0 {
    } else {
      CountSumStep(a, n, m - 1);
    }
  }

  lemma {:induction false} CountsAddUp(a: seq<nat>, n: nat, m: nat)
    requires Split(a, n, m)
    ensures CountSum(a, n, m) == n
  {
    if n > 0 {
      CountsAddUp(a, n - 1, m);
      CountSumStep(a, n - 1, m);
    } else {
      EmptyCountSum(a, m);
    }
  }

  lemma {:induction false} EmptyCountSum(a: seq<nat>, m: nat)
    ensures CountSum(a, 0, m) == 0
  {
    if m == 0 {
    } else {
      EmptyCountSum(a, m - 1);
    }
  }

  lemma {:induction false} CountsAndSingles(a: seq<nat>, n: nat, m: nat)
    requires n <= |a|
    ensures (forall s: nat :: s < m ==> Count(a, n, s) >= 1) ==> CountSum(a, n, m) + Singles(a, n, m) >= 2 * m
    ensures (forall s: nat :: s < m ==> Count(a, n, s) <= 2) ==> CountSum(a, n, m) + Singles(a, n, m) <= 2 * m
  {
    if m == 0 {
    } else {
      CountsAndSingles(a, n, m - 1);
    }
  }

  lemma {:induction false} CountOne(a: seq<nat>, n: nat, i: nat)
    requires n <= |a| && i < n
    ensures Count(a, n, a[i]) >= 1
    ensures Alone(a, n, i) <==> Count(a, n, a[i]) == 1
  {
    if i < n - 1 {
      CountOne(a, n - 1, i);
      assert Alone(a, n, i) <==> Alone(a, n - 1, i) && a[n - 1] != a[i];
    } else {
      CountZero(a, n - 1, a[i]);
    }
  }

  lemma {:induction false} CountZero(a: seq<nat>, n: nat, s: nat)
    requires n <= |a|
    ensures Count(a, n, s) == 0 <==> forall k :: 0 <= k < n ==> a[k] != s
  {
    if n == 0 {
    } else {
      CountZero(a, n - 1, s);
    }
  }

  lemma {:induction false} SomeItem(a: seq<nat>, n: nat, s: nat) returns (i: nat)
    requires n <= |a| && Count(a, n, s) >= 1
    ensures i < n && a[i] == s
  {
    if a[n - 1] == s { i := n - 1; } else { i := SomeItem(a, n - 1, s); }
  }

  ghost function AloneBelow(a: seq<nat>, n: nat, m: nat): set<nat>
    requires n <= |a|
  {
    set i: nat | i < n && Alone(a, n, i) && a[i] < m
  }

  /** Raising the shard bound by one adds the item that is alone on the new shard, if there is one. */
  lemma {:induction false} AloneBelowStep(a: seq<nat>, n: nat, s: nat)
    requires n <= |a|
    ensures |AloneBelow(a, n, s + 1)| == |AloneBelow(a, n, s)| + if Count(a, n, s) == 1 then 1 else 0
  {
    var below, above := AloneBelow(a, n, s), AloneBelow(a, n, s + 1);
    if Count(a, n, s) == 1 {
      var i := SomeItem(a, n, s);
      CountOne(a, n, i);
      assert above == below + {i};
    } else {
      forall i: nat | i < n && a[i] == s ensures !Alone(a, n, i) { CountOne(a, n, i); }
      assert above == below;
    }
  }

  /** A shard holds one item exactly when that item is alone, so the two are equally many. */
  lemma {:induction false} SinglesAreAloneItems(a: seq<nat>, n: nat, m: nat)
    requires n <= |a|
    ensures Singles(a, n, m) == |AloneBelow(a, n, m)|
  {
    if m > 0 {
      SinglesAreAloneItems(a, n, m - 1);
      AloneBelowStep(a, n, m - 1);
    } else {
      assert AloneBelow(a, n, 0) == {};
    }
  }

  // ---------- The bounds ----------

  /** If an item that no earlier item undercuts lands on the lightest shard and pushes it above x,
      while some split keeps every shard within x, then the item weighs at most x / 3: otherwise
      every item alone here would be alone there too, and the split would need a third item on
      some shard. */
  lemma {:induction false} SmallOrFits(w: seq<real>, a: seq<nat>, b: seq<nat>, n: nat, m: nat, x: real)
    requires NonNegative(w) && Descending(w) && n < |w|
    requires Split(a, n + 1, m) && FirstLightest(w, a, n, m, a[n])
    requires Split(b, n + 1, m) && LoadsAtMost(w, b, n + 1, m, x)
    ensures Load(w, a, n, a[n]) + w[n] <= x || 3.0 * w[n] <= x
  {
    var light := Load(w, a, n, a[n]);
    LoadFacts(w, b, n + 1, b[n]);
    if light + w[n] > x && 3.0 * w[n] > x {
      forall s: nat | s < m ensures Count(a, n, s) >= 1 { LoadFacts(w, a, n, s); }
      var n' := n + 1;
      forall s: nat | s < m ensures Count(b, n', s) <= 2 {
        AtMostTwo(w, b, n', s, w[n], x);
      }
      forall i: nat | i in AloneBelow(a, n, m) ensures i in AloneBelow(b, n + 1, m) {
        AloneLoad(w, a, n, i);
        LoadFacts(w, b, n + 1, b[i]);
      }
      SubsetSize(AloneBelow(a, n, m), AloneBelow(b, n + 1, m));
      SinglesAreAloneItems(a, n, m);
      SinglesAreAloneItems(b, n + 1, m);
      CountsAddUp(a, n, m);
      CountsAddUp(b, n + 1, m);
      CountsAndSingles(a, n, m);
      CountsAndSingles(b, n + 1, m);
    }
  }

  lemma {:induction false} ThreeOrMore(c: nat, least: real)
    requires least >= 0.0
    ensures c >= 3 ==> Times(c, least) >= 3.0 * least
  {
    if c > 3 {
      ThreeOrMore(c - 1, least);
    } else {
      assert Times(3, least) == Times(2, least) + least;
      assert Times(2, least) == Times(1, least) + least;
    }
  }

  lemma {:induction false} AtMostTwo(w: seq<real>, b: seq<nat>, n: nat, s: nat, least: real, x: real)
    requires n <= |w| && n <= |b| && least >= 0.0
    requires forall i :: 0 <= i < n ==> w[i] >= least
    requires Load(w, b, n, s) <= x < 3.0 * least
    ensures Count(b, n, s) <= 2
  {
    LoadAtLeastCount(w, b, n, s, least);
    ThreeOrMore(Count(b, n, s), least);
  }

  lemma {:induction false} AloneLoad(w: seq<real>, a: seq<nat>, n: nat, i: nat)
    requires n <= |w| && n <= |a| && Alone(a, n, i)
    ensures Load(w, a, n, a[i]) == w[i]
  {
    if i < n - 1 { AloneLoad(w, a, n - 1, i); } else { NoItemNoLoad(w, a, n - 1, a[i]); }
  }

  lemma {:induction false} NoItemNoLoad(w: seq<real>, a: seq<nat>, n: nat, s: nat)
    requires n <= |w| && n <= |a| && forall k :: 0 <= k < n ==> a[k] != s
    ensures Load(w, a, n, s) == 0.0
  {
    if n == 0 {
    } else {
      NoItemNoLoad(w, a, n - 1, s);
    }
  }

  /** m times the lightest load before item n, plus the weights from item n on, fits any split. */
  lemma {:induction false} LightestBelowAverage(w: seq<real>, a: seq<nat>, b: seq<nat>, n: nat, m: nat, x: real)
    requires NonNegative(w) && n < |w|
    requires Split(a, n + 1, m) && FirstLightest(w, a, n, m, a[n])
    requires Split(b, n + 1, m) && LoadsAtMost(w, b, n + 1, m, x)
    ensures Times(m, Load(w, a, n, a[n])) + w[n] <= Times(m, x)
  {
    LoadsAddUp(w, a, n, m);
    LoadsAddUp(w, b, n + 1, m);
    var light := Load(w, a, n, a[n]);
    var hi := MaxLoad(w, a, n, m);
    SumBounds(w, a, n, m, light, hi);
    var lo := MinLoad(w, b, n + 1, m);
    SumBounds(w, b, n + 1, m, lo, x);
  }

  lemma {:induction false} MaxLoad(w: seq<real>, a: seq<nat>, n: nat, m: nat) returns (x: real)
    requires n <= |w| && n <= |a|
    ensures LoadsAtMost(w, a, n, m, x)
  {
    if m == 0 { return 0.0; }
    x := MaxLoad(w, a, n, m - 1);
    if x < Load(w, a, n, m - 1) { x := Load(w, a, n, m - 1); }
  }

  lemma {:induction false} MinLoad(w: seq<real>, a: seq<nat>, n: nat, m: nat) returns (x: real)
    requires n <= |w| && n <= |a|
    ensures forall s: nat :: s < m ==> x <= Load(w, a, n, s)
  {
    if m == 0 { return 0.0; }
    x := MinLoad(w, a, n, m - 1);
    if x > Load(w, a, n, m - 1) { x := Load(w, a, n, m - 1); }
  }

  lemma {:induction false} SplitPrefix(w: seq<real>, b: seq<nat>, n: nat, m: nat, x: real)
    requires NonNegative(w) && n < |w| && Split(b, n + 1, m) && LoadsAtMost(w, b, n + 1, m, x)
    ensures Split(b, n, m) && LoadsAtMost(w, b, n, m, x)
  {
    forall s: nat | s < m ensures Load(w, b, n, s) <= x {
      assert Load(w, b, n + 1, s) >= Load(w, b, n, s);
    }
  }

  /** load is within 4/3 - 1/(3m) of x: 3 m load <= (4 m - 1) x. */
  ghost predicate WithinFourThirds(m: nat, load: real, x: real) {
    3.0 * Times(m, load) <= 4.0 * Times(m, x) - x
  }

  lemma {:induction false} LptStep(m: nat, light: real, v: real, x: real)
    requires m >= 1 && light >= 0.0 && v >= 0.0
    requires Times(m, light) + v <= Times(m, x)
    requires light + v <= x || 3.0 * v <= x
    ensures WithinFourThirds(m, light + v, x)
  {
    if light + v <= x {
      TimesMonotone(m, light + v, x);
      TimesAtLeast(m, x);
    } else {
      LptSmall(m, light, v, x);
    }
  }

  /** A small item on top of a light shard. */
  lemma {:induction false} LptSmall(m: nat, light: real, v: real, x: real)
    requires m >= 1 && Times(m, light) + v <= Times(m, x) && 3.0 * v <= x
    ensures WithinFourThirds(m, light + v, x)
  {
    var k := m - 1;
    var below, above := Times(k, v), Times(k, x);
    TimesMonotone(k, 3.0 * v, x);
    ThreeTimes(k, v);
    assert 3.0 * below <= above;
    TimesAdds(m, light, v);
    assert Times(m, light + v) == Times(m, light) + (below + v);
  }

  lemma {:induction false} ThreeTimes(m: nat, v: real)
    ensures Times(m, 3.0 * v) == 3.0 * Times(m, v)
  {
    if m == 0 {
    } else {
      ThreeTimes(m - 1, v);
    }
  }

  lemma {:induction false} LptPrefix(w: seq<real>, a: seq<nat>, b: seq<nat>, n: nat, m: nat, x: real)
    requires NonNegative(w) && Descending(w) && Greedy(w, a, m) && n <= |w|
    requires Split(b, n, m) && LoadsAtMost(w, b, n, m, x) && m >= 1
    ensures forall s: nat :: s < m ==> WithinFourThirds(m, Load(w, a, n, s), x)
  {
    if n == 0 {
      assert Load(w, b, 0, 0) <= x;
      TimesMonotone(m, 0.0, x);
      TimesAtLeast(m, x);
      LptStep(m, 0.0, 0.0, x);
    } else {
      var i := n - 1;
      SplitPrefix(w, b, i, m, x);
      LptPrefix(w, a, b, i, m, x);
      LightestBelowAverage(w, a, b, i, m, x);
      SmallOrFits(w, a, b, i, m, x);
      LoadFacts(w, a, i, a[i]);
      LptStep(m, Load(w, a, i, a[i]), w[i], x);
    }
  }

  lemma {:induction false} HeaviestIsMax(w: seq<real>, a: seq<nat>, m: nat) returns (s: nat)
    requires |a| == |w| && m >= 1
    ensures LoadsAtMost(w, a, |w|, m, Heaviest(w, a, m))
    ensures s < m && Load(w, a, |w|, s) == Heaviest(w, a, m)
  {
    s := m - 1;
    if m > 1 {
      var r := HeaviestIsMax(w, a, m - 1);
      if Heaviest(w, a, m - 1) >= Load(w, a, |w|, m - 1) { s := r; }
    }
  }

  /** Longest first: the heaviest shard is within 4/3 - 1/(3m) of the heaviest shard of ANY split
      of the same items over the same number of shards. */
  lemma {:induction false} LongestFirstBound(w: seq<real>, a: seq<nat>, b: seq<nat>, m: nat)
    requires NonNegative(w) && Descending(w) && m >= 1
    requires Greedy(w, a, m)
    requires |b| == |w| && Split(b, |w|, m)
    ensures WithinFourThirds(m, Heaviest(w, a, m), Heaviest(w, b, m))
  {
    var s := HeaviestIsMax(w, a, m);
    var t := HeaviestIsMax(w, b, m);
    LptPrefix(w, a, b, |w|, m, Heaviest(w, b, m));
  }

  /** The bounds written with the usual multiplication. */
  lemma {:induction false} BoundsAsProducts(m: nat, load: real, x: real)
    ensures WithinFourThirds(m, load, x) <==> 3.0 * ((m as real) * load) <= 4.0 * ((m as real) * x) - x
    ensures WithinTwo(m, load, x) <==> (m as real) * load <= 2.0 * ((m as real) * x) - x
  {
    TimesIsProduct(m, load);
    TimesIsProduct(m, x);
  }

  /** In any order of processing: two shards never differ by more than the largest item. */
  lemma {:induction false} SpreadBound(w: seq<real>, a: seq<nat>, n: nat, m: nat, largest: real)
    requires NonNegative(w) && Greedy(w, a, m) && n <= |w| && m >= 1
    requires largest >= 0.0 && forall i :: 0 <= i < n ==> w[i] <= largest
    ensures forall s: nat, t: nat :: s < m && t < m ==> Load(w, a, n, s) - Load(w, a, n, t) <= largest
  {
    if n == 0 {
    } else {
      SpreadBound(w, a, n - 1, m, largest);
      forall s: nat, t: nat | s < m && t < m ensures Load(w, a, n, s) - Load(w, a, n, t) <= largest {
        assert FirstLightest(w, a, n - 1, m, a[n - 1]);
        assert Load(w, a, n - 1, a[n - 1]) <= Load(w, a, n - 1, t);
      }
    }
  }

  /** load is within 2 - 1/m of x: m load <= (2 m - 1) x. */
  ghost predicate WithinTwo(m: nat, load: real, x: real) {
    Times(m, load) <= 2.0 * Times(m, x) - x
  }

  lemma {:induction false} ListStep(m: nat, light: real, v: real, x: real)
    requires m >= 1 && v <= x && Times(m, light) + v <= Times(m, x)
    ensures WithinTwo(m, light + v, x)
  {
    TimesAdds(m, light, v);
    TimesMonotone(m - 1, v, x);
  }

  lemma {:induction false} ListPrefix(w: seq<real>, a: seq<nat>, b: seq<nat>, n: nat, m: nat, x: real)
    requires NonNegative(w) && Greedy(w, a, m) && n <= |w|
    requires Split(b, n, m) && LoadsAtMost(w, b, n, m, x) && m >= 1
    ensures forall s: nat :: s < m ==> WithinTwo(m, Load(w, a, n, s), x)
  {
    if n == 0 {
      assert Load(w, b, 0, 0) <= x;
      TimesMonotone(m, 0.0, x);
      TimesAtLeast(m, x);
      TimesIsProduct(m, 0.0);
    } else {
      var i := n - 1;
      SplitPrefix(w, b, i, m, x);
      ListPrefix(w, a, b, i, m, x);
      LightestBelowAverage(w, a, b, i, m, x);
      LoadFacts(w, b, n, b[i]);
      ListStep(m, Load(w, a, i, a[i]), w[i], x);
    }
  }

  /** The greedy loop in any order of processing stays within 2 - 1/m of any split. */
  lemma {:induction false} AnyOrderBound(w: seq<real>, a: seq<nat>, b: seq<nat>, m: nat)
    requires NonNegative(w) && m >= 1 && Greedy(w, a, m)
    requires |b| == |w| && Split(b, |w|, m)
    ensures WithinTwo(m, Heaviest(w, a, m), Heaviest(w, b, m))
  {
    var s := HeaviestIsMax(w, a, m);
    var t := HeaviestIsMax(w, b, m);
    ListPrefix(w, a, b, |w|, m, Heaviest(w, b, m));
  }

  // ---------- Shards without items ----------

  /** The first p weights are positive and the rest are zero. */
  ghost predicate PositiveThenZero(w: seq<real>, p: nat) {
    && p <= |w|
    && (forall i :: 0 <= i < p ==> w[i] > 0.0)
    && (forall i :: p <= i < |w| ==> w[i] == 0.0)
  }

  lemma {:induction false} ZeroLoad(w: seq<real>, a: seq<nat>, n: nat, s: nat)
    requires n <= |w| && n <= |a| && forall i :: 0 <= i < n && a[i] == s ==> w[i] == 0.0
    ensures Load(w, a, n, s) == 0.0
  {
    if n == 0 {
    } else {
      ZeroLoad(w, a, n - 1, s);
    }
  }

  /** Positive items open one shard after the other; zero items all pile up on the next one. */
  lemma {:induction false} FillOrder(w: seq<real>, a: seq<nat>, n: nat, m: nat, p: nat)
    requires PositiveThenZero(w, p) && Greedy(w, a, m) && n <= |w|
    ensures forall i :: 0 <= i < n && i < p && i < m ==> a[i] == i
    ensures p < m ==> forall i :: p <= i < n ==> a[i] == p
  {
    if n == 0 {
    } else {
      var i := n - 1;
      FillOrder(w, a, i, m, p);
      var next := if i < p then i else p;
      if next < m {
        assert FirstLightest(w, a, i, m, a[i]);
        ZeroLoad(w, a, i, next);
        assert NonNegative(w) by { assert forall k :: 0 <= k < |w| ==> k < p || w[k] == 0.0; }
        forall t: nat | t < next ensures Load(w, a, i, t) > 0.0 {
          LoadFacts(w, a, i, t);
          assert a[t] == t;
        }
        LoadFacts(w, a, i, a[i]);
      }
    }
  }

  ghost predicate HasItem(a: seq<nat>, s: nat) {
    exists i :: 0 <= i < |a| && a[i] == s
  }

  ghost predicate NoneEmpty(a: seq<nat>, m: nat) {
    forall s: nat :: s < m ==> HasItem(a, s)
  }

  /** Longest first leaves no shard empty exactly when there are at least m positive items, or one
      fewer and some item of weight zero. */
  lemma {:induction false} EmptyShards(w: seq<real>, a: seq<nat>, m: nat, p: nat)
    requires PositiveThenZero(w, p) && Greedy(w, a, m) && m >= 1
    ensures NoneEmpty(a, m) <==> p >= m || (p == m - 1 && |w| > p)
  {
    FillOrder(w, a, |w|, m, p);
    if p >= m || (p == m - 1 && |w| > p) {
      forall s: nat | s < m ensures HasItem(a, s) { assert a[s] == s; }
    } else {
      assert !HasItem(a, m - 1);
    }
  }
}
