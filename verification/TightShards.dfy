/** For every number m of shards, items on which the greedy loop of `assign` meets its bound exactly: two each
    of weight 2m - 1, 2m - 2, ..., m + 1, and three of weight m. */
module TightShards {
  import opened ShardBalance

  function Weight(m: nat, i: nat): int { if i == 2 * m then m else 2 * m - 1 - i / 2 }

  function Items(m: nat): (w: seq<real>)
    requires m >= 1
    ensures |w| == 2 * m + 1
  {
    seq(2 * m + 1, i requires 0 <= i < 2 * m + 1 => Weight(m, i) as real)
  }

  /** Where the loop puts item i: one on each shard, then the others in opposite order, then the last. */
  function Shard(m: nat, i: nat): int {
    if i < m then i
    else if i == 2 * m then 0
    else if i == m && m % 2 == 1 then m - 1
    else 2 * (m - 1 - i / 2) + i % 2
  }

  /** The second item of shard s. */
  function Partner(m: nat, s: nat): int {
    if m % 2 == 1 && s == m - 1 then m else 2 * (m - 1 - s / 2) + s % 2
  }

  lemma {:induction false} Pairs(m: nat, s: nat)
    requires s < m
    ensures m <= Partner(m, s) < 2 * m && Weight(m, s) + Weight(m, Partner(m, s)) == 3 * m - 1
    ensures forall j: nat :: m <= j < 2 * m ==> (Shard(m, j) == s <==> j == Partner(m, s))
  {
  }

  lemma {:induction false} ShardsInRange(m: nat, i: nat)
    requires m >= 1 && i <= 2 * m
    ensures 0 <= Shard(m, i) < m
  {
  }

  function Placement(m: nat): (a: seq<nat>)
    requires m >= 1
    ensures |a| == 2 * m + 1
  {
    seq(2 * m + 1, i requires 0 <= i < 2 * m + 1 => ShardsInRange(m, i); Shard(m, i))
  }

  /** The load of shard s after n items. */
  function LoadOf(m: nat, n: nat, s: nat): int {
    if n <= s then 0
    else if n <= Partner(m, s) then Weight(m, s)
    else if n <= 2 * m || s != 0 then 3 * m - 1
    else 4 * m - 1
  }

  lemma {:induction false} LoadIs(m: nat, n: nat, s: nat)
    requires m >= 1 && n <= 2 * m + 1 && s < m
    ensures Load(Items(m), Placement(m), n, s) == LoadOf(m, n, s) as real
  {
    Pairs(m, s);
    if n == 0 {
    } else {
      LoadIs(m, n - 1, s);
      LoadStep(m, n - 1, s);
    }
  }

  lemma {:induction false} LoadStep(m: nat, i: nat, s: nat)
    requires m >= 1 && i <= 2 * m && s < m
    ensures LoadOf(m, i + 1, s) == LoadOf(m, i, s) + (if Shard(m, i) == s then Weight(m, i) else 0)
  {
    Pairs(m, s);
  }

  /** Item i goes to the first of the least loaded shards. */
  lemma {:induction false} LightestFirst(m: nat, i: nat, t: nat)
    requires m >= 1 && i <= 2 * m && t < m
    ensures 0 <= Shard(m, i) && LoadOf(m, i, Shard(m, i)) <= LoadOf(m, i, t)
    ensures t < Shard(m, i) ==> LoadOf(m, i, Shard(m, i)) < LoadOf(m, i, t)
  {
    ShardsInRange(m, i);
    Pairs(m, t);
    Pairs(m, Shard(m, i));
  }

  lemma {:induction false} LoopPlacesThem(m: nat)
    requires m >= 1
    ensures Greedy(Items(m), Placement(m), m)
  {
    var w, a := Items(m), Placement(m);
    forall i | 0 <= i < |a| ensures FirstLightest(w, a, i, m, a[i]) {
      ShardsInRange(m, i);
      LoadIs(m, i, a[i]);
      forall t: nat | t < m
        ensures Load(w, a, i, a[i]) <= Load(w, a, i, t) && (t < a[i] ==> Load(w, a, i, a[i]) < Load(w, a, i, t))
      {
        LoadIs(m, i, t);
        LightestFirst(m, i, t);
      }
    }
  }

  // ---------- An even split ----------

  /** Two items that add up to 3m on each shard, and the three of weight m on the last. */
  function EvenShard(m: nat, i: nat): int {
    if i >= 2 * m - 2 then m - 1 else if i % 2 == 0 then i / 2 else m - 2 - i / 2
  }

  lemma {:induction false} EvenInRange(m: nat, i: nat)
    requires m >= 1 && i <= 2 * m
    ensures 0 <= EvenShard(m, i) < m
  {
  }

  function EvenSplit(m: nat): (b: seq<nat>)
    requires m >= 1
    ensures |b| == 2 * m + 1
  {
    seq(2 * m + 1, i requires 0 <= i < 2 * m + 1 => EvenInRange(m, i); EvenShard(m, i))
  }

  function EvenLoad(m: nat, n: nat, s: nat): int {
    if s == m - 1 then (if n <= 2 * m - 2 then 0 else m * (n - (2 * m - 2)))
    else (if n > 2 * s then 2 * m - 1 - s else 0) + (if n > 2 * (m - 2 - s) + 1 then m + 1 + s else 0)
  }

  lemma {:induction false} EvenStep(m: nat, i: nat, s: nat)
    requires m >= 1 && i <= 2 * m && s < m
    ensures EvenLoad(m, i + 1, s) == EvenLoad(m, i, s) + (if EvenShard(m, i) == s then Weight(m, i) else 0)
  {
    if s == m - 1 && i >= 2 * m - 2 {
      var k := i - (2 * m - 2);
      assert m * (k + 1) == m * k + m;
    }
  }

  lemma {:induction false} EvenLoadIs(m: nat, n: nat, s: nat)
    requires m >= 1 && n <= 2 * m + 1 && s < m
    ensures Load(Items(m), EvenSplit(m), n, s) == EvenLoad(m, n, s) as real
  {
    if n == 0 {
    } else {
      EvenLoadIs(m, n - 1, s);
      EvenStep(m, n - 1, s);
    }
  }

  lemma {:induction false} ItemsAreFine(m: nat)
    requires m >= 1
    ensures NonNegative(Items(m)) && Descending(Items(m)) && Split(EvenSplit(m), 2 * m + 1, m)
  {
  }

  lemma {:induction false} TightProducts(m: real)
    ensures 3.0 * (m * (4.0 * m - 1.0)) == 4.0 * (m * (3.0 * m)) - 3.0 * m
  {
  }

  /** The bound cannot be improved, for any number of shards: the loop ends with 4m - 1 where 3m is
      possible, and the inequality of the bound is an equality. */
  lemma {:induction false} BoundIsAttained(m: nat)
    requires m >= 1
    ensures var w, a, b := Items(m), Placement(m), EvenSplit(m);
            && NonNegative(w) && Descending(w) && Greedy(w, a, m) && Split(b, |w|, m)
            && Heaviest(w, a, m) == (4 * m - 1) as real && Heaviest(w, b, m) == (3 * m) as real
            && 3.0 * ((m as real) * Heaviest(w, a, m)) == 4.0 * ((m as real) * Heaviest(w, b, m)) - Heaviest(w, b, m)
  {
    var w, a, b := Items(m), Placement(m), EvenSplit(m);
    ItemsAreFine(m);
    LoopPlacesThem(m);
    HeaviestOfLoop(m);
    HeaviestOfEven(m);
    TightProducts(m as real);
  }

  lemma {:induction false} HeaviestOfLoop(m: nat)
    requires m >= 1
    ensures Heaviest(Items(m), Placement(m), m) == (4 * m - 1) as real
  {
    var s := HeaviestIsMax(Items(m), Placement(m), m);
    Pairs(m, 0);
    Pairs(m, s);
    LoadIs(m, 2 * m + 1, 0);
    LoadIs(m, 2 * m + 1, s);
  }

  lemma {:induction false} HeaviestOfEven(m: nat)
    requires m >= 1
    ensures Heaviest(Items(m), EvenSplit(m), m) == (3 * m) as real
  {
    var s := HeaviestIsMax(Items(m), EvenSplit(m), m);
    EvenLoadIs(m, 2 * m + 1, s);
  }
}
