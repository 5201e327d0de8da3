/** trader/sdk.py, `compute_resize_deltas`: the proportional resize plan, in exact numbers. */
module ResizeDeltas {
  import opened Common

  /** A portfolio row; absent numbers count as 0. `valueBase` is the base-currency value when the
      caller supplied one. */
  datatype Position = Position(symbol: string, conId: int, qty: real, mktPrice: real, marketValue: real,
                               valueBase: Option<real>)

  datatype Adjustment = Adjustment(symbol: string, conId: int, currentQty: real, targetQty: int, deltaQty: real,
                                   action: Action, currentValue: real, targetValue: real, mktPrice: real)

  function Abs(x: real): real { if x < 0.0 then -x else x }

  /** Python's `int`: toward zero. */
  function Trunc(x: real): int { if x < 0.0 then -((-x).Floor) else x.Floor }

  function Value(p: Position): real { if p.valueBase.Some? then p.valueBase.value else p.marketValue }

  function TotalValue(positions: seq<Position>, n: nat): real
    requires n <= |positions|
  {
    if n == 0 then 0.0 else TotalValue(positions, n - 1) + Abs(Value(positions[n - 1]))
  }

  function ScaleFactor(total: real, maxBound: Option<real>, minBound: Option<real>): real {
    if total == 0.0 then 1.0
    else if maxBound.Some? && total > maxBound.value then maxBound.value / total
    else if minBound.Some? && total < minBound.value then minBound.value / total
    else 1.0
  }

  function Target(p: Position, scale: real): int { Trunc(p.qty * scale) }

  /** What the plan does to one position. */
  function Adjust(p: Position, scale: real): Option<Adjustment> {
    var target := Target(p, scale);
    var delta := target as real - p.qty;
    if p.qty == 0.0 || delta == 0.0 then None
    else
      var action := if p.qty > 0.0 then (if delta > 0.0 then BUY else SELL) else (if delta < 0.0 then SELL else BUY);
      Some(Adjustment(p.symbol, p.conId, p.qty, target, delta, action, p.marketValue, TargetValue(p, target, scale),
                      p.mktPrice))
  }

  function TargetValue(p: Position, target: int, scale: real): real {
    if p.mktPrice != 0.0 then target as real * p.mktPrice else p.marketValue * scale
  }

  function Adjustments(positions: seq<Position>, n: nat, scale: real): seq<Adjustment>
    requires n <= |positions|
  {
    if n == 0 then []
    else
      var last := Adjust(positions[n - 1], scale);
      Adjustments(positions, n - 1, scale) + (if last.Some? then [last.value] else [])
  }

  method ComputeResizeDeltas(positions: seq<Position>, maxBound: Option<real>, minBound: Option<real>)
    returns (scale: real, adjustments: seq<Adjustment>)
    ensures scale == ScaleFactor(TotalValue(positions, |positions|), maxBound, minBound)
    ensures adjustments == if scale == 1.0 then [] else Adjustments(positions, |positions|, scale)
  {
    var total := 0.0;
    for i := 0 to |positions|
      invariant total == TotalValue(positions, i)
    {
      total := total + Abs(Value(positions[i]));
    }
    if total == 0.0 { return 1.0, []; }
    scale := 1.0;
    if maxBound.Some? && total > maxBound.value {
      scale := maxBound.value / total;
    } else if minBound.Some? && total < minBound.value {
      scale := minBound.value / total;
    }
    if scale == 1.0 { return scale, []; }
    adjustments := AdjustAll(positions, scale);
  }

  /** The loop over the positions. */
  method AdjustAll(positions: seq<Position>, scale: real) returns (adjustments: seq<Adjustment>)
    ensures adjustments == Adjustments(positions, |positions|, scale)
  {
    adjustments := [];
    for i := 0 to |positions|
      invariant adjustments == Adjustments(positions, i, scale)
    {
      var p := positions[i];
      assert adjustments + [] == adjustments;
      if p.qty == 0.0 { continue; }
      var target := Target(p, scale);
      var delta := target as real - p.qty;
      if delta == 0.0 {
        assert Adjust(p, scale) == None;
        continue;
      }
      var action;
      if p.qty > 0.0 {
        action := if delta > 0.0 then BUY else SELL;
      } else {
        action := if delta < 0.0 then SELL else BUY;
      }
      var targetValue := TargetValue(p, target, scale);
      adjustments := adjustments
        + [Adjustment(p.symbol, p.conId, p.qty, target, delta, action, p.marketValue, targetValue, p.mktPrice)];
      assert Adjust(p, scale)
          == Some(Adjustment(p.symbol, p.conId, p.qty, target, delta, action, p.marketValue, targetValue, p.mktPrice));
    }
  }

  // ---------- What the plan leads to ----------

  /** The position after its adjustment, if it has one, is executed in full. */
  function After(p: Position, scale: real): real {
    match Adjust(p, scale)
    case None => p.qty
    case Some(adj) => if adj.action == BUY then p.qty + Abs(adj.deltaQty) else p.qty - Abs(adj.deltaQty)
  }

  /** Every position is valued at its quantity times a price per share in the base currency. */
  ghost predicate PricedAt(positions: seq<Position>, unit: seq<real>) {
    |unit| == |positions|
    && forall i :: 0 <= i < |positions| ==> unit[i] >= 0.0 && Value(positions[i]) == positions[i].qty * unit[i]
  }

  ghost function WorthAfter(p: Position, u: real, scale: real): real { Abs(After(p, scale)) * u }

  ghost function TotalAfter(positions: seq<Position>, unit: seq<real>, scale: real, n: nat): real
    requires n <= |positions| && n <= |unit|
  {
    if n == 0 then 0.0
    else TotalAfter(positions, unit, scale, n - 1) + WorthAfter(positions[n - 1], unit[n - 1], scale)
  }

  /** One share's price for each position held. */
  ghost function OneShareEach(positions: seq<Position>, unit: seq<real>, n: nat): real
    requires n <= |positions| && n <= |unit|
  {
    if n == 0 then 0.0
    else OneShareEach(positions, unit, n - 1) + Slack(positions[n - 1], unit[n - 1])
  }

  lemma {:induction false} TruncBounds(x: real)
    ensures Abs(Trunc(x) as real) <= Abs(x) < Abs(Trunc(x) as real) + 1.0
    ensures x >= 0.0 ==> Trunc(x) >= 0
    ensures x <= 0.0 ==> Trunc(x) <= 0
  {
  }

  /** Executing an adjustment in full takes the position to its target: the action always moves it in
      the direction of the delta, for long and short positions alike, and the announced value is that of
      the position it leads to. */
  lemma {:induction false} AfterIsTarget(p: Position, scale: real)
    ensures After(p, scale) == Target(p, scale) as real
    ensures Adjust(p, scale).Some? ==>
      var adj := Adjust(p, scale).value;
      && (adj.action == BUY <==> adj.deltaQty > 0.0) && adj.deltaQty != 0.0
      && adj.currentQty + adj.deltaQty == adj.targetQty as real == After(p, scale)
      && (p.mktPrice != 0.0 ==> adj.targetValue == After(p, scale) * p.mktPrice)
  {
    if p.qty == 0.0 { assert p.qty * scale == 0.0; }
  }

  lemma {:induction false} AbsProduct(q: real, s: real)
    requires s >= 0.0
    ensures Abs(q * s) == Abs(q) * s
    ensures (q >= 0.0 ==> q * s >= 0.0) && (q <= 0.0 ==> q * s <= 0.0)
  {
  }

  /** A position scaled by s: the target keeps the side and stays within a share below |q| * s. */
  lemma {:induction false} TargetBounds(p: Position, s: real)
    requires s >= 0.0
    ensures var q, t := p.qty, Target(p, s) as real;
            && Abs(t) <= Abs(q) * s < Abs(t) + 1.0
            && (q >= 0.0 ==> t >= 0.0) && (q <= 0.0 ==> t <= 0.0)
  {
    AbsProduct(p.qty, s);
    TruncBounds(p.qty * s);
  }

  /** x is at most a scaled by s, and short of it by at most slack. */
  ghost predicate FallsShort(x: real, a: real, s: real, slack: real) {
    a * s - slack <= x <= a * s
  }

  /** One position's share of the resized total. */
  lemma {:induction false} ValueAfterBounds(p: Position, u: real, s: real)
    requires u >= 0.0 && s >= 0.0 && Value(p) == p.qty * u
    ensures FallsShort(WorthAfter(p, u, s), Abs(Value(p)), s, Slack(p, u))
  {
    var t := SizeAfter(p, s);
    var v := SizeOfProduct(p.qty, u);
    ShareBounds(Abs(p.qty), t, u, s, v);
  }

  lemma {:induction false} SizeAfter(p: Position, s: real) returns (t: real)
    requires s >= 0.0
    ensures t == Abs(After(p, s)) && t >= 0.0 && t <= Abs(p.qty) * s < t + 1.0
  {
    AfterIsTarget(p, s);
    TargetBounds(p, s);
    t := Abs(After(p, s));
  }

  lemma {:induction false} SizeOfProduct(q: real, u: real) returns (v: real)
    requires u >= 0.0
    ensures v == Abs(q * u) && v == Abs(q) * u
  {
    AbsProduct(q, u);
    v := Abs(q * u);
  }

  lemma {:induction false} ShareBounds(q: real, t: real, u: real, s: real, v: real)
    requires q >= 0.0 && t >= 0.0 && u >= 0.0 && t <= q * s < t + 1.0 && v == q * u
    ensures FallsShort(t * u, v, s, if q == 0.0 then 0.0 else u)
  {
    if q == 0.0 {
      assert q * s == 0.0 && t == 0.0 && v == 0.0;
    } else {
      WithinOneShare(q, t, u, s, v);
    }
  }

  lemma {:induction false} WithinOneShare(q: real, t: real, u: real, s: real, v: real)
    requires u >= 0.0 && t <= q * s < t + 1.0 && v == q * u
    ensures FallsShort(t * u, v, s, u)
  {
    ScaleLe(u, t, q * s);
    ScaleLe(u, q * s, t + 1.0);
    assert u * (q * s) == v * s;
    assert u * (t + 1.0) == t * u + u;
  }

  lemma {:induction false} AddShortfalls(x: real, a: real, slackA: real, y: real, b: real, slackB: real, s: real)
    requires FallsShort(x, a, s, slackA) && FallsShort(y, b, s, slackB)
    ensures FallsShort(x + y, a + b, s, slackA + slackB)
  {
    assert (a + b) * s == a * s + b * s;
  }

  /** The slack a position gives: its price per share, if it is held. */
  ghost function Slack(p: Position, u: real): real { if p.qty == 0.0 then 0.0 else u }

  /** The three sums after one more position. */
  lemma {:induction false} TotalsStep(positions: seq<Position>, unit: seq<real>, s: real, n: nat)
    requires n < |positions| && n < |unit|
    ensures TotalAfter(positions, unit, s, n + 1)
         == TotalAfter(positions, unit, s, n) + WorthAfter(positions[n], unit[n], s)
    ensures TotalValue(positions, n + 1) == TotalValue(positions, n) + Abs(Value(positions[n]))
    ensures OneShareEach(positions, unit, n + 1) == OneShareEach(positions, unit, n) + Slack(positions[n], unit[n])
  {
  }

  /** The resized total never exceeds s times the old one, and falls short of it by at most one
      share's price per position. */
  lemma {:induction false} TotalAfterBounds(positions: seq<Position>, unit: seq<real>, s: real, n: nat)
    requires PricedAt(positions, unit) && s >= 0.0 && n <= |positions|
    ensures FallsShort(TotalAfter(positions, unit, s, n), TotalValue(positions, n), s, OneShareEach(positions, unit, n))
  {
    if n == 0 {
    } else {
      var m := n - 1;
      TotalAfterBounds(positions, unit, s, m);
      ValueAfterBounds(positions[m], unit[m], s);
      TotalsStep(positions, unit, s, m);
      var after, worth := TotalAfter(positions, unit, s, m), WorthAfter(positions[m], unit[m], s);
      var total, value := TotalValue(positions, m), Abs(Value(positions[m]));
      var slack, more := OneShareEach(positions, unit, m), Slack(positions[m], unit[m]);
      AddShortfalls(after, total, slack, worth, value, more, s);
    }
  }

  lemma {:induction false} ScaleLe(k: real, p: real, q: real)
    requires k >= 0.0 && p <= q
    ensures k * p <= k * q
  {
  }

  /** t is on q's side. */
  ghost predicate SameSide(q: real, t: real) {
    (q >= 0.0 ==> t >= 0.0) && (q <= 0.0 ==> t <= 0.0)
  }

  lemma {:induction false} ShrinksOnly(p: Position, s: real)
    requires 0.0 <= s <= 1.0
    ensures Abs(After(p, s)) <= Abs(p.qty) && SameSide(p.qty, After(p, s))
  {
    AfterIsTarget(p, s);
    TargetBounds(p, s);
    BelowScaled(Abs(p.qty), s, Abs(Target(p, s) as real));
  }

  lemma {:induction false} BelowScaled(q: real, s: real, t: real)
    requires q >= 0.0 && 0.0 <= s <= 1.0 && t <= q * s
    ensures t <= q
  {
    ScaleLe(q, s, 1.0);
  }

  predicate IsWhole(q: real) { q.Floor as real == q }

  /** Scaled up, a position keeps its side and loses less than one share, and a whole number of shares
      loses none. */
  ghost predicate Grown(q: real, t: real) {
    SameSide(q, t) && Abs(t) > Abs(q) - 1.0 && (IsWhole(q) ==> Abs(t) >= Abs(q))
  }

  lemma {:induction false} GrowsOnly(p: Position, s: real)
    requires s >= 1.0
    ensures Grown(p.qty, After(p, s))
  {
    AfterIsTarget(p, s);
    TargetBounds(p, s);
    AboveScaled(Abs(p.qty), s, Abs(Target(p, s) as real));
    if IsWhole(p.qty) {
      var whole, t := p.qty.Floor, Target(p, s);
      WholeBelow(if whole < 0 then -whole else whole, if t < 0 then -t else t);
    }
  }

  lemma {:induction false} AboveScaled(q: real, s: real, t: real)
    requires q >= 0.0 && s >= 1.0 && q * s < t + 1.0
    ensures q < t + 1.0
  {
    ScaleLe(q, 1.0, s);
  }

  lemma {:induction false} WholeBelow(a: int, b: int)
    requires a as real < (b + 1) as real
    ensures a <= b
  {
  }

  /** A quotient, its product with the divisor, and on which side of 1 it lies. */
  lemma {:induction false} Quotient(a: real, b: real) returns (s: real)
    requires b > 0.0
    ensures s == a / b && b * s == a
    ensures 0.0 <= a < b ==> 0.0 <= s < 1.0
    ensures a > b ==> s > 1.0
  {
    s := a / b;
    assert b * s == a;
    SignOfFactor(b, s);
    SignOfFactor(b, s - 1.0);
    assert b * (s - 1.0) == a - b;
  }

  lemma {:induction false} FallsShortOf(x: real, a: real, s: real, slack: real, bound: real)
    requires FallsShort(x, a, s, slack) && a * s == bound
    ensures bound - slack <= x <= bound
  {
  }

  /** Scaling down to a bound that is not negative: no position flips or grows, and the new total is
      at most the bound and within one share's price per position of it. */
  lemma {:induction false} ScalingDown(positions: seq<Position>, unit: seq<real>, maxBound: real,
                                       minBound: Option<real>)
    requires PricedAt(positions, unit) && maxBound >= 0.0 && TotalValue(positions, |positions|) > maxBound
    ensures var s := ScaleFactor(TotalValue(positions, |positions|), Some(maxBound), minBound);
            && s != 1.0
            && (forall p :: p in positions ==> Abs(After(p, s)) <= Abs(p.qty) && SameSide(p.qty, After(p, s)))
            && maxBound - OneShareEach(positions, unit, |positions|)
               <= TotalAfter(positions, unit, s, |positions|) <= maxBound
  {
    var n := |positions|;
    var s := Quotient(maxBound, TotalValue(positions, n));
    forall p | p in positions ensures Abs(After(p, s)) <= Abs(p.qty) && SameSide(p.qty, After(p, s)) {
      ShrinksOnly(p, s);
    }
    TotalAfterBounds(positions, unit, s, n);
    var after, slack := TotalAfter(positions, unit, s, n), OneShareEach(positions, unit, n);
    FallsShortOf(after, TotalValue(positions, n), s, slack, maxBound);
  }

  /** Scaling up: no position flips or loses a share, whole-share positions never shrink, and the new total
      is at most the lower bound and within one share's price per position of it. */
  lemma {:induction false} ScalingUp(positions: seq<Position>, unit: seq<real>, maxBound: Option<real>, minBound: real)
    requires PricedAt(positions, unit) && 0.0 < TotalValue(positions, |positions|) < minBound
    requires maxBound.Some? ==> TotalValue(positions, |positions|) <= maxBound.value
    ensures var s := ScaleFactor(TotalValue(positions, |positions|), maxBound, Some(minBound));
            && s != 1.0
            && (forall p :: p in positions ==> Grown(p.qty, After(p, s)))
            && minBound - OneShareEach(positions, unit, |positions|)
               <= TotalAfter(positions, unit, s, |positions|) <= minBound
  {
    var n := |positions|;
    var s := Quotient(minBound, TotalValue(positions, n));
    forall p | p in positions ensures Grown(p.qty, After(p, s)) { GrowsOnly(p, s); }
    TotalAfterBounds(positions, unit, s, n);
    var after, slack := TotalAfter(positions, unit, s, n), OneShareEach(positions, unit, n);
    FallsShortOf(after, TotalValue(positions, n), s, slack, minBound);
  }

  /** Truncation can take a fractional position down even when scaling up. */
  lemma {:induction false} AFractionShrinks()
    ensures var p := Position("X", 1, 1.5, 10.0, 15.0, None);
            var s := ScaleFactor(TotalValue([p], 1), None, Some(18.0));
            s > 1.0 && After(p, s) == 1.0 < p.qty
  {
    var p := Position("X", 1, 1.5, 10.0, 15.0, None);
    assert TotalValue([p], 1) == TotalValue([p], 0) + Abs(Value(p)) == 15.0;
    AfterIsTarget(p, 1.2);
    assert p.qty * 1.2 == 1.8;
  }

  ghost predicate Flipped(q: real, t: real) {
    (q > 0.0 && t < 0.0) || (q < 0.0 && t > 0.0)
  }

  /** A negative upper bound is not refused. It turns a position to the other side exactly when the
      position is large enough for the negative target to reach a whole share. */
  lemma {:induction false} NegativeBoundFlips(p: Position, total: real, maxBound: real, minBound: Option<real>)
    requires maxBound < 0.0 < total
    ensures Flipped(p.qty, After(p, ScaleFactor(total, Some(maxBound), minBound)))
       <==> Abs(p.qty) * (-maxBound) >= total
  {
    var s, k := NegativeQuotient(Abs(p.qty), maxBound, total);
    AfterIsTarget(p, s);
    NegativeScale(p, s, k);
  }

  /** Two shares worth 100 and a bound of -50: the plan ends one share short. */
  lemma {:induction false} ANegativeBound()
    ensures var p := Position("X", 1, 2.0, 50.0, 100.0, None);
            var s := ScaleFactor(TotalValue([p], 1), Some(-50.0), None);
            After(p, s) == -1.0 && Flipped(p.qty, After(p, s))
  {
    var p := Position("X", 1, 2.0, 50.0, 100.0, None);
    assert TotalValue([p], 1) == TotalValue([p], 0) + Abs(Value(p)) == 100.0;
    AfterIsTarget(p, -0.5);
    assert p.qty * -0.5 == -1.0;
  }

  lemma {:induction false} NegativeQuotient(q: real, bound: real, total: real) returns (s: real, k: real)
    requires bound < 0.0 < total
    ensures k > 0.0 && bound / total == s == -k
    ensures q * k >= 1.0 <==> q * (-bound) >= total
  {
    k := Quotient(-bound, total);
    if k <= 0.0 { ScaleLe(total, k, 0.0); }
    s := -k;
    QuotientIs(bound, total, s);
    assert (q * k) * total == q * (-bound);
    CompareScaled(q * k, total);
  }

  lemma {:induction false} QuotientIs(a: real, b: real, s: real)
    requires b > 0.0 && b * s == a
    ensures a / b == s
  {
    var d := a / b;
    assert b * d == a;
    SignOfFactor(b, d - s);
    assert b * (d - s) == 0.0;
  }

  lemma {:induction false} NegativeScale(p: Position, s: real, k: real)
    requires k > 0.0 && s == -k
    ensures Flipped(p.qty, Target(p, s) as real) <==> Abs(p.qty) * k >= 1.0
  {
    NegativeProduct(p.qty, s, k);
    TruncSign(p.qty * s, Abs(p.qty) * k);
  }

  /** The product with a negative factor: its size, and a sign opposite to q's. */
  lemma {:induction false} NegativeProduct(q: real, s: real, k: real)
    requires k > 0.0 && s == -k
    ensures Abs(q) * k == Abs(q * s)
    ensures (q > 0.0 <==> q * s < 0.0) && (q < 0.0 <==> q * s > 0.0)
  {
    SignOfFactor(k, q);
    MinusProduct(q, k);
  }

  lemma {:induction false} MinusProduct(q: real, k: real)
    ensures q * -k == -(k * q) && (-q) * k == -(k * q) && q * k == k * q
  {
  }

  lemma {:induction false} TruncSign(x: real, y: real)
    requires y == Abs(x)
    ensures (Trunc(x) as real < 0.0 <==> x < 0.0 && y >= 1.0) && (Trunc(x) as real > 0.0 <==> x > 0.0 && y >= 1.0)
  {
  }

  lemma {:induction false} CompareScaled(x: real, total: real)
    requires total > 0.0
    ensures x >= 1.0 <==> x * total >= total
  {
    if x >= 1.0 { ScaleLe(total, 1.0, x); }
    if x < 1.0 { assert (1.0 - x) * total > 0.0; }
  }
}
