/** The column operations the strategies' `precompute` methods are built from, with the pandas
    conventions on missing values, and which part of the input each result depends on. */
module Columns {
  import opened Num

  type Col = seq<Num>

  // ---------- Column by column ----------

  function Zip(f: (Num, Num) -> Num, a: Col, b: Col): (c: Col)
    requires |a| == |b|
    ensures |c| == |a|
  {
    seq(|a|, i requires 0 <= i < |a| => f(a[i], b[i]))
  }

  function Each(f: Num -> Num, a: Col): (c: Col)
    ensures |c| == |a|
  {
    seq(|a|, i requires 0 <= i < |a| => f(a[i]))
  }

  /** `col.where(mask, other)` */
  function Where(a: Col, mask: seq<bool>, other: Num): (c: Col)
    requires |a| == |mask|
    ensures |c| == |a|
  {
    seq(|a|, i requires 0 <= i < |a| => if mask[i] then a[i] else other)
  }

  /** `col.shift(1)` */
  function Shift(a: Col): (c: Col)
    ensures |c| == |a|
  {
    seq(|a|, i requires 0 <= i < |a| => if i == 0 then NaN else a[i - 1])
  }

  function ZeroToNaN(a: Num): Num { if a == Fin(0.0) then NaN else a }

  // ---------- Rolling means ----------

  /** Number and sum of the finite values among a[lo..hi]. */
  function FiniteCount(a: Col, lo: nat, hi: nat): nat
    requires lo <= hi <= |a|
  {
    if lo == hi then 0 else FiniteCount(a, lo, hi - 1) + (if a[hi - 1].Fin? then 1 else 0)
  }

  function FiniteSum(a: Col, lo: nat, hi: nat): real
    requires lo <= hi <= |a|
  {
    if lo == hi then 0.0 else FiniteSum(a, lo, hi - 1) + (if a[hi - 1].Fin? then a[hi - 1].v else 0.0)
  }

  function MeanAt(a: Col, window: nat, minPeriods: nat, i: nat): Num
    requires i < |a|
  {
    MeanOf(a, if i + 1 >= window then i + 1 - window else 0, i + 1, minPeriods)
  }

  /** Mean of the finite values among a[lo..hi], missing when they are fewer than minPeriods. */
  function MeanOf(a: Col, lo: nat, hi: nat, minPeriods: nat): Num
    requires lo <= hi <= |a|
  {
    var n := FiniteCount(a, lo, hi);
    if n < minPeriods || n == 0 then NaN else Fin(FiniteSum(a, lo, hi) / n as real)
  }

  /** `col.rolling(window, min_periods=minPeriods).mean()` */
  function RollingMean(a: Col, window: nat, minPeriods: nat): (c: Col)
    ensures |c| == |a|
  {
    seq(|a|, i requires 0 <= i < |a| => MeanAt(a, window, minPeriods, i))
  }

  // ---------- Groups ----------

  /** Fold f over the non-missing values with the given key among the first n. */
  function Run(f: (Num, Num) -> Num, init: Num, a: Col, keys: seq<int>, n: nat, key: int): Num
    requires n <= |a| == |keys|
  {
    if n == 0 then init
    else
      var sofar := Run(f, init, a, keys, n - 1, key);
      if keys[n - 1] == key && a[n - 1] != NaN then f(sofar, a[n - 1]) else sofar
  }

  /** `col.groupby(keys).cumsum()` and its like: the fold so far, missing where the value is. */
  function Cumulate(f: (Num, Num) -> Num, init: Num, a: Col, keys: seq<int>): (c: Col)
    requires |a| == |keys|
    ensures |c| == |a|
  {
    seq(|a|, i requires 0 <= i < |a| => if a[i] == NaN then NaN else Run(f, init, a, keys, i + 1, keys[i]))
  }

  /** `col.groupby(keys).ffill()` */
  function ForwardFill(a: Col, keys: seq<int>): (c: Col)
    requires |a| == |keys|
    ensures |c| == |a|
  {
    seq(|a|, i requires 0 <= i < |a| => Run(Later, NaN, a, keys, i + 1, keys[i]))
  }

  /** `col.groupby(keys).transform("max")` and its like: the fold over the WHOLE series. */
  function Transform(f: (Num, Num) -> Num, init: Num, a: Col, keys: seq<int>): (c: Col)
    requires |a| == |keys|
    ensures |c| == |a|
  {
    seq(|a|, i requires 0 <= i < |a| => Run(f, init, a, keys, |a|, keys[i]))
  }

  /** The group keys in order of appearance, of the bars that belong to a group. */
  function Groups(keys: seq<int>, member: seq<bool>, n: nat): seq<int>
    requires n <= |keys| == |member|
  {
    if n == 0 then []
    else
      var sofar := Groups(keys, member, n - 1);
      if member[n - 1] && keys[n - 1] !in sofar then sofar + [keys[n - 1]] else sofar
  }

  /** `col.groupby(keys).max()` and its like: one value per group. */
  function Daily(f: (Num, Num) -> Num, init: Num, a: Col, keys: seq<int>, groups: seq<int>): (c: Col)
    requires |a| == |keys|
    ensures |c| == |groups|
  {
    seq(|groups|, g requires 0 <= g < |groups| => Run(f, init, a, keys, |a|, groups[g]))
  }

  function IndexOf(groups: seq<int>, key: int): (g: nat)
    ensures g <= |groups|
    ensures g < |groups| ==> groups[g] == key
    ensures forall h :: 0 <= h < g ==> groups[h] != key
  {
    if groups == [] || groups[0] == key then 0 else 1 + IndexOf(groups[1..], key)
  }

  function Lookup(groups: seq<int>, daily: Col, key: int): Num
    requires |groups| == |daily|
  {
    var g := IndexOf(groups, key);
    if g < |groups| then daily[g] else NaN
  }

  /** `keys.map(daily)`, missing for bars without a key. */
  function MapBack(keys: seq<int>, member: seq<bool>, groups: seq<int>, daily: Col): (c: Col)
    requires |groups| == |daily| && |keys| == |member|
    ensures |c| == |keys|
  {
    seq(|keys|, i requires 0 <= i < |keys| => if member[i] then Lookup(groups, daily, keys[i]) else NaN)
  }

  // ---------- What each result depends on ----------

  lemma {:induction false} RunPrefix(f: (Num, Num) -> Num, init: Num, a: Col, keys: seq<int>, k: nat, n: nat, key: int)
    requires n <= k <= |a| == |keys|
    ensures Run(f, init, a[..k], keys[..k], n, key) == Run(f, init, a, keys, n, key)
  {
    if n == 0 {
    } else {
      RunPrefix(f, init, a, keys, k, n - 1, key);
    }
  }

  /** A group without bars from k on is complete at k. */
  lemma {:induction false} RunComplete(f: (Num, Num) -> Num, init: Num, a: Col, keys: seq<int>, k: nat, n: nat,
                                       key: int)
    requires k <= n <= |a| == |keys|
    requires forall j :: k <= j < n ==> keys[j] != key
    ensures Run(f, init, a, keys, n, key) == Run(f, init, a, keys, k, key)
  {
    if k == n {
    } else {
      RunComplete(f, init, a, keys, k, n - 1, key);
    }
  }

  /** Values that do not change the fold can be skipped. */
  lemma {:induction false} RunQuiet(f: (Num, Num) -> Num, init: Num, a: Col, keys: seq<int>, k: nat, n: nat, key: int)
    requires k <= n <= |a| == |keys|
    requires var r := Run(f, init, a, keys, k, key);
             forall j :: k <= j < n && keys[j] == key ==> a[j] == NaN || f(r, a[j]) == r
    ensures Run(f, init, a, keys, n, key) == Run(f, init, a, keys, k, key)
  {
    if k == n {
    } else {
      RunQuiet(f, init, a, keys, k, n - 1, key);
    }
  }

  /** The mean over rows that are all known. */
  lemma {:induction false} AllKnown(a: Col, lo: nat, hi: nat)
    requires lo <= hi <= |a| && forall i :: lo <= i < hi ==> a[i].Fin?
    ensures FiniteCount(a, lo, hi) == hi - lo
  {
    if lo == hi {
    } else {
      AllKnown(a, lo, hi - 1);
    }
  }

  lemma {:induction false} AllZero(a: Col, lo: nat, hi: nat)
    requires lo <= hi <= |a| && forall i :: lo <= i < hi ==> a[i] == Fin(0.0)
    ensures FiniteSum(a, lo, hi) == 0.0
  {
    if lo == hi {
    } else {
      AllZero(a, lo, hi - 1);
    }
  }

  lemma {:induction false} CumulatePrefix(f: (Num, Num) -> Num, init: Num, a: Col, keys: seq<int>, k: nat)
    requires k <= |a| == |keys|
    ensures Cumulate(f, init, a[..k], keys[..k]) == Cumulate(f, init, a, keys)[..k]
  {
    forall i | 0 <= i < k ensures Cumulate(f, init, a[..k], keys[..k])[i] == Cumulate(f, init, a, keys)[i] {
      RunPrefix(f, init, a, keys, k, i + 1, keys[i]);
    }
  }

  lemma {:induction false} FillPrefix(a: Col, keys: seq<int>, k: nat)
    requires k <= |a| == |keys|
    ensures ForwardFill(a[..k], keys[..k]) == ForwardFill(a, keys)[..k]
  {
    forall i | 0 <= i < k ensures ForwardFill(a[..k], keys[..k])[i] == ForwardFill(a, keys)[i] {
      RunPrefix(Later, NaN, a, keys, k, i + 1, keys[i]);
    }
  }

  lemma {:induction false} FinitePrefix(a: Col, b: Col, lo: nat, hi: nat)
    requires lo <= hi <= |a| && hi <= |b| && forall i :: lo <= i < hi ==> a[i] == b[i]
    ensures FiniteCount(a, lo, hi) == FiniteCount(b, lo, hi)
    ensures FiniteSum(a, lo, hi) == FiniteSum(b, lo, hi)
  {
    if lo == hi {
    } else {
      FinitePrefix(a, b, lo, hi - 1);
    }
  }

  /** Two columns that agree on the first k values have the same rolling means there. */
  lemma {:induction false} MeanPrefix(a: Col, b: Col, window: nat, minPeriods: nat, k: nat)
    requires k <= |a| && k <= |b| && a[..k] == b[..k]
    ensures RollingMean(a, window, minPeriods)[..k] == RollingMean(b, window, minPeriods)[..k]
  {
    forall i: nat | i < k ensures MeanAt(a, window, minPeriods, i) == MeanAt(b, window, minPeriods, i) {
      assert forall j :: 0 <= j < k ==> a[j] == a[..k][j] == b[..k][j] == b[j];
      FinitePrefix(a, b, if i + 1 >= window then i + 1 - window else 0, i + 1);
    }
  }

  /** Time order: a day's bars are contiguous and days do not go back. */
  ghost predicate Ordered(keys: seq<int>) {
    forall i, j :: 0 <= i < j < |keys| ==> keys[i] <= keys[j]
  }

  lemma {:induction false} GroupsPrefix(keys: seq<int>, member: seq<bool>, k: nat, n: nat)
    requires n <= k <= |keys| == |member|
    ensures Groups(keys[..k], member[..k], n) == Groups(keys, member, n)
  {
    if n == 0 {
    } else {
      GroupsPrefix(keys, member, k, n - 1);
    }
  }

  lemma {:induction false} GroupsGrow(keys: seq<int>, member: seq<bool>, k: nat, n: nat)
    requires k <= n <= |keys| == |member|
    ensures |Groups(keys, member, k)| <= |Groups(keys, member, n)|
    ensures Groups(keys, member, k) == Groups(keys, member, n)[..|Groups(keys, member, k)|]
  {
    if k == n {
    } else {
      GroupsGrow(keys, member, k, n - 1);
    }
  }

  lemma {:induction false} GroupMembers(keys: seq<int>, member: seq<bool>, n: nat)
    requires n <= |keys| == |member|
    ensures forall d :: d in Groups(keys, member, n) <==> exists i :: 0 <= i < n && member[i] && keys[i] == d
  {
    if n == 0 {
    } else {
      GroupMembers(keys, member, n - 1);
      var sofar, all := Groups(keys, member, n - 1), Groups(keys, member, n);
      forall d ensures d in all <==> d in sofar || (member[n - 1] && d == keys[n - 1]) {}
    }
  }

  ghost predicate Ascending(g: seq<int>) {
    forall i, j :: 0 <= i < j < |g| ==> g[i] < g[j]
  }

  lemma {:induction false} GroupsAscend(keys: seq<int>, member: seq<bool>, n: nat)
    requires n <= |keys| == |member| && Ordered(keys)
    ensures Ascending(Groups(keys, member, n))
  {
    if n == 0 {
    } else {
      GroupsAscend(keys, member, n - 1);
      GroupMembers(keys, member, n - 1);
      var sofar := Groups(keys, member, n - 1);
      forall g | 0 <= g < |sofar|
        ensures sofar[g] <= keys[n - 1] && (keys[n - 1] !in sofar ==> sofar[g] < keys[n - 1])
      {
        assert sofar[g] in sofar;
      }
    }
  }

  /** The groups of the first k bars: all but the last are complete, since the days only go on. */
  lemma {:induction false} EarlierGroupsComplete(f: (Num, Num) -> Num, init: Num, a: Col, keys: seq<int>,
                                                 member: seq<bool>, k: nat, g: nat)
    requires k <= |a| == |keys| == |member| && Ordered(keys)
    requires g + 1 < |Groups(keys, member, k)|
    ensures Run(f, init, a, keys, |a|, Groups(keys, member, k)[g])
         == Run(f, init, a[..k], keys[..k], k, Groups(keys, member, k)[g])
  {
    var groups := Groups(keys, member, k);
    GroupsAscend(keys, member, k);
    GroupMembers(keys, member, k);
    assert groups[g + 1] in groups;
    RunPrefix(f, init, a, keys, k, k, groups[g]);
    RunComplete(f, init, a, keys, k, |a|, groups[g]);
  }

  /** Looking a day up gives the same on the prefix's groups and on all groups, when the daily
      columns agree on the prefix's groups. */
  lemma {:induction false} MapBackPrefix(keys: seq<int>, member: seq<bool>, k: nat, part: Col, whole: Col)
    requires k <= |keys| == |member|
    requires var some, all := Groups(keys, member, k), Groups(keys, member, |keys|);
             |part| == |some| && |whole| == |all| && |some| <= |all| && part == whole[..|some|]
    ensures MapBack(keys[..k], member[..k], Groups(keys, member, k), part)
         == MapBack(keys, member, Groups(keys, member, |keys|), whole)[..k]
  {
    var some, all := Groups(keys, member, k), Groups(keys, member, |keys|);
    GroupsGrow(keys, member, k, |keys|);
    GroupMembers(keys, member, k);
    forall i | 0 <= i < k && member[i] ensures Lookup(some, part, keys[i]) == Lookup(all, whole, keys[i]) {
      var g, h := IndexOf(some, keys[i]), IndexOf(all, keys[i]);
      assert keys[i] in some;
      assert g < |some| && all[g] == some[g];
      assert forall j :: 0 <= j < |some| ==> some[j] == all[j];
      assert g == h;
    }
  }

  /** A daily column may still change on the prefix's last group; shifted by one it cannot. */
  lemma {:induction false} ShiftPrefix(part: Col, whole: Col)
    requires |part| <= |whole| && forall g :: 0 <= g && g + 1 < |part| ==> part[g] == whole[g]
    ensures Shift(part) == Shift(whole)[..|part|]
  {
  }

  lemma {:induction false} ShiftedFinite(a: Col, lo: nat, hi: nat)
    requires lo <= hi < |a|
    ensures FiniteCount(Shift(a), lo + 1, hi + 1) == FiniteCount(a, lo, hi)
    ensures FiniteSum(Shift(a), lo + 1, hi + 1) == FiniteSum(a, lo, hi)
  {
    if lo == hi {
    } else {
      ShiftedFinite(a, lo, hi - 1);
    }
  }

  lemma {:induction false} FiniteFromOne(a: Col, hi: nat)
    requires 1 <= hi <= |a| && a[0] == NaN
    ensures FiniteCount(a, 0, hi) == FiniteCount(a, 1, hi) && FiniteSum(a, 0, hi) == FiniteSum(a, 1, hi)
  {
    if hi > 1 { FiniteFromOne(a, hi - 1); }
  }

  /** A rolling mean over a column shifted by one is the mean of the `window` values BEFORE the row. */
  lemma {:induction false} ShiftedMean(a: Col, window: nat, minPeriods: nat, g: nat)
    requires g < |a| && window >= 1
    ensures RollingMean(Shift(a), window, minPeriods)[g]
         == MeanOf(a, if g >= window then g - window else 0, g, minPeriods)
  {
    ShiftedFinite(a, if g >= window then g - window else 0, g);
    if g < window { FiniteFromOne(Shift(a), g + 1); }
  }

  // ---------- What a fold comes to ----------

  /** a[i] is a known value with the key, among the first n. */
  ghost predicate Known(a: Col, keys: seq<int>, n: nat, key: int, i: int) {
    0 <= i < n <= |a| == |keys| && keys[i] == key && a[i] != NaN
  }

  ghost predicate NoneKnown(a: Col, keys: seq<int>, n: nat, key: int) {
    forall i :: !Known(a, keys, n, key, i)
  }

  /** m is the largest known value with the key, or missing when there is none. */
  ghost predicate IsLargest(a: Col, keys: seq<int>, n: nat, key: int, m: Num) {
    if NoneKnown(a, keys, n, key) then m == NaN
    else (exists i :: Known(a, keys, n, key, i) && a[i] == m) && forall i :: Known(a, keys, n, key, i) ==> Le(a[i], m)
  }

  ghost predicate IsSmallest(a: Col, keys: seq<int>, n: nat, key: int, m: Num) {
    if NoneKnown(a, keys, n, key) then m == NaN
    else (exists i :: Known(a, keys, n, key, i) && a[i] == m) && forall i :: Known(a, keys, n, key, i) ==> Le(m, a[i])
  }

  lemma {:induction false} OneMoreKnown(a: Col, keys: seq<int>, before: nat, n: nat, key: int)
    requires before + 1 == n <= |a| == |keys|
    ensures forall i ::
      Known(a, keys, n, key, i) <==> Known(a, keys, before, key, i) || (i == before && Known(a, keys, n, key, before))
    ensures NoneKnown(a, keys, n, key) <==> NoneKnown(a, keys, before, key) && !Known(a, keys, n, key, before)
  {
    assert NoneKnown(a, keys, n, key) && !NoneKnown(a, keys, before, key) ==> false by {
      if i :| Known(a, keys, before, key, i) { assert Known(a, keys, n, key, i); }
    }
  }

  lemma {:induction false} LeTransitive(x: Num, y: Num, z: Num)
    ensures Le(x, y) && Le(y, z) ==> Le(x, z)
    ensures x != NaN && y != NaN ==> Le(x, y) || Le(y, x)
  {
  }

  lemma {:induction false} RunLargest(a: Col, keys: seq<int>, n: nat, key: int)
    requires n <= |a| == |keys|
    ensures IsLargest(a, keys, n, key, Run(Larger, NaN, a, keys, n, key))
  {
    if n == 0 {
    } else {
      RunLargest(a, keys, n - 1, key);
      OneMoreKnown(a, keys, n - 1, n, key);
      var before := Run(Larger, NaN, a, keys, n - 1, key);
      if Known(a, keys, n, key, n - 1) {
        var m := Larger(before, a[n - 1]);
        forall i | Known(a, keys, n, key, i) ensures Le(a[i], m) {
          LeTransitive(a[i], before, a[n - 1]);
          LeTransitive(before, a[n - 1], a[n - 1]);
        }
        LargerIsOneOf(before, a[n - 1]);
      }
    }
  }

  lemma {:induction false} LargerIsOneOf(x: Num, y: Num)
    ensures (Larger(x, y) == x && x != NaN) || Larger(x, y) == y
    ensures (Smaller(x, y) == x && x != NaN) || Smaller(x, y) == y
  {
  }

  lemma {:induction false} RunSmallest(a: Col, keys: seq<int>, n: nat, key: int)
    requires n <= |a| == |keys|
    ensures IsSmallest(a, keys, n, key, Run(Smaller, NaN, a, keys, n, key))
  {
    if n == 0 {
    } else {
      RunSmallest(a, keys, n - 1, key);
      OneMoreKnown(a, keys, n - 1, n, key);
      var before := Run(Smaller, NaN, a, keys, n - 1, key);
      if Known(a, keys, n, key, n - 1) {
        var m := Smaller(before, a[n - 1]);
        forall i | Known(a, keys, n, key, i) ensures Le(m, a[i]) {
          LeTransitive(a[n - 1], before, a[i]);
          LeTransitive(a[n - 1], before, before);
        }
        LargerIsOneOf(before, a[n - 1]);
      }
    }
  }

  /** Carrying a running minimum forward gives the minimum of all values so far. */
  lemma {:induction false} CarriedSmallest(a: Col, keys: seq<int>, n: nat, key: int)
    requires n <= |a| == |keys|
    ensures Run(Later, NaN, Cumulate(Smaller, NaN, a, keys), keys, n, key) == Run(Smaller, NaN, a, keys, n, key)
  {
    if n == 0 {
    } else {
      CarriedSmallest(a, keys, n - 1, key);
      LargerIsOneOf(Run(Smaller, NaN, a, keys, n - 1, key), a[n - 1]);
    }
  }

  /** Row i holds the latest, or the earliest, known value with the key. */
  ghost predicate LatestAt(a: Col, keys: seq<int>, n: nat, key: int, i: int) {
    Known(a, keys, n, key, i) && forall j :: Known(a, keys, n, key, j) ==> j <= i
  }

  ghost predicate EarliestAt(a: Col, keys: seq<int>, n: nat, key: int, i: int) {
    Known(a, keys, n, key, i) && forall j :: Known(a, keys, n, key, j) ==> i <= j
  }

  lemma {:induction false} RunLatest(a: Col, keys: seq<int>, n: nat, key: int) returns (i: int)
    requires n <= |a| == |keys|
    ensures NoneKnown(a, keys, n, key) ==> Run(Later, NaN, a, keys, n, key) == NaN
    ensures !NoneKnown(a, keys, n, key) ==>
      LatestAt(a, keys, n, key, i) && Run(Later, NaN, a, keys, n, key) == a[i]
  {
    i := -1;
    if n == 0 {
    } else {
      i := RunLatest(a, keys, n - 1, key);
      OneMoreKnown(a, keys, n - 1, n, key);
      if Known(a, keys, n, key, n - 1) { i := n - 1; }
    }
  }

  lemma {:induction false} RunEarliest(a: Col, keys: seq<int>, n: nat, key: int) returns (i: int)
    requires n <= |a| == |keys|
    ensures NoneKnown(a, keys, n, key) ==> Run(Earlier, NaN, a, keys, n, key) == NaN
    ensures !NoneKnown(a, keys, n, key) ==>
      EarliestAt(a, keys, n, key, i) && Run(Earlier, NaN, a, keys, n, key) == a[i]
  {
    i := -1;
    if n == 0 {
    } else {
      i := RunEarliest(a, keys, n - 1, key);
      OneMoreKnown(a, keys, n - 1, n, key);
      if NoneKnown(a, keys, n - 1, key) { i := n - 1; }
    }
  }

  lemma {:induction false} FirstOfConstant(a: Col, keys: seq<int>, n: nat, key: int, c: Num)
    requires n <= |a| == |keys|
    requires forall i :: 0 <= i < n && keys[i] == key ==> a[i] == c
    ensures Run(Earlier, NaN, a, keys, n, key) == if exists i :: 0 <= i < n && keys[i] == key then c else NaN
  {
    if n == 0 {
    } else {
      FirstOfConstant(a, keys, n - 1, key, c);
    }
  }
}
