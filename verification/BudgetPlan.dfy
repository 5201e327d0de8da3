/** scripts/sp3_benchmark.py: the cost estimate of a full evaluation, the search for a period that fits
    four hours, and the ruling reported from them. */
module BudgetPlan {
  import opened Common

  const COST_MULTIPLIERS: int := 3
  const NEIGHBOURS_PER_TUNABLE: int := 2
  const HOLDOUT_REPLAYS: int := 2
  const FOUR_HOURS_SECONDS: real := 14400.0
  const MIN_PERIOD_SESSIONS: int := 132

  /** Everything the estimate depends on besides the period. */
  datatype Inputs = Inputs(perBarMs: real, conids: nat, holdout: nat, cohortPoints: nat, tunables: nat,
                           barsPerSession: nat, folds: nat)

  ghost predicate Sensible(x: Inputs) { x.perBarMs >= 0.0 }

  /** Sessions in which a test fold replays; the pool is negative when the holdout exceeds the period.
      `/` rounds down here as in Python, since the divisor is positive. */
  function FoldTestSessions(period: int, x: Inputs): int {
    var pool := period - x.holdout;
    pool - pool / (x.folds + 1)
  }

  function PassesPerPoint(x: Inputs): nat { COST_MULTIPLIERS + NEIGHBOURS_PER_TUNABLE * x.tunables }

  function SessionsPerConid(period: int, x: Inputs): int {
    (x.cohortPoints * PassesPerPoint(x)) * FoldTestSessions(period, x) + HOLDOUT_REPLAYS * x.holdout
  }

  function BarSends(period: int, x: Inputs): int { (x.conids * x.barsPerSession) * SessionsPerConid(period, x) }

  function Seconds(period: int, x: Inputs): real { BarSends(period, x) as real * x.perBarMs / 1000.0 }

  predicate Fits(period: int, x: Inputs) { Seconds(period, x) <= FOUR_HOURS_SECONDS }

  // ---------- The cost never falls as the period grows ----------

  lemma {:induction false} QuotientIs(n: int, k: int, q: int)
    requires k >= 1 && q * k <= n < q * k + k
    ensures n / k == q
  {
    var d := n / k;
    assert n == d * k + n % k && 0 <= n % k < k;
    if d > q { TimesMonotone(k, q + 1, d); }
    if d < q { TimesMonotone(k, d + 1, q); }
  }

  lemma {:induction false} FloorStep(pool: int, k: int)
    requires k >= 1
    ensures pool / k <= (pool + 1) / k <= pool / k + 1
  {
    var q, r := pool / k, pool % k;
    assert pool == q * k + r && 0 <= r < k;
    if r + 1 < k {
      QuotientIs(pool + 1, k, q);
    } else {
      assert (q + 1) * k == q * k + k;
      QuotientIs(pool + 1, k, q + 1);
    }
  }

  lemma {:induction false} TimesMonotone(k: nat, a: int, b: int)
    requires a <= b
    ensures k * a <= k * b
  {
  }

  lemma {:induction false} RealTimesMonotone(k: real, a: int, b: int)
    requires k >= 0.0 && a <= b
    ensures a as real * k <= b as real * k
  {
  }

  lemma {:induction false} CostStep(period: int, x: Inputs)
    requires Sensible(x)
    ensures Seconds(period, x) <= Seconds(period + 1, x)
  {
    FloorStep(period - x.holdout, x.folds + 1);
    TimesMonotone(x.cohortPoints * PassesPerPoint(x), FoldTestSessions(period, x), FoldTestSessions(period + 1, x));
    TimesMonotone(x.conids * x.barsPerSession, SessionsPerConid(period, x), SessionsPerConid(period + 1, x));
    RealTimesMonotone(x.perBarMs, BarSends(period, x), BarSends(period + 1, x));
  }

  /** `pool - pool // (folds + 1)` is monotone, so a longer period never costs less. */
  lemma {:induction false} CostIsMonotone(p: int, q: int, x: Inputs)
    requires Sensible(x) && p <= q
    ensures Seconds(p, x) <= Seconds(q, x)
    decreases q - p
  {
    if p == q {
    } else {
      CostIsMonotone(p, q - 1, x);
      CostStep(q - 1, x);
    }
  }

  // ---------- The search ----------

  /** The largest period from the minimum up to the requested one that fits; every shorter one down to
      the minimum fits too. None when the range is empty or its minimum does not fit. */
  method FitPeriod(x: Inputs, requested: int) returns (fitted: Option<int>)
    requires Sensible(x)
    ensures fitted.Some? ==>
      && MIN_PERIOD_SESSIONS <= fitted.value <= requested
      && (forall p :: MIN_PERIOD_SESSIONS <= p <= requested ==> (Fits(p, x) <==> p <= fitted.value))
    ensures fitted == None <==> requested < MIN_PERIOD_SESSIONS || !Fits(MIN_PERIOD_SESSIONS, x)
  {
    var period := requested;
    while period > MIN_PERIOD_SESSIONS - 1
      invariant requested < MIN_PERIOD_SESSIONS || MIN_PERIOD_SESSIONS - 1 <= period <= requested
      invariant forall p :: period < p <= requested && p >= MIN_PERIOD_SESSIONS ==> !Fits(p, x)
    {
      if Seconds(period, x) <= FOUR_HOURS_SECONDS {
        forall p | MIN_PERIOD_SESSIONS <= p <= period ensures Fits(p, x) { CostIsMonotone(p, period, x); }
        return Some(period);
      }
      period := period - 1;
    }
    if requested >= MIN_PERIOD_SESSIONS { assert !Fits(MIN_PERIOD_SESSIONS, x); }
    return None;
  }

  // ---------- The ruling ----------

  datatype Estimate = Estimate(seconds: real, overFourHours: bool, fitsAtMinimum: bool, secondsAtMinimum: real,
                               proposedPeriod: int)

  datatype Ruling = KeepPeriod(period: int) | EvenTheMinimum(seconds: real) | ReduceTo(period: int)

  method Extrapolate(x: Inputs, period: int) returns (e: Estimate)
    requires Sensible(x)
    ensures e.seconds == Seconds(period, x) && e.overFourHours == !Fits(period, x)
    ensures e.secondsAtMinimum == Seconds(MIN_PERIOD_SESSIONS, x)
    ensures e.fitsAtMinimum <==> period >= MIN_PERIOD_SESSIONS && Fits(MIN_PERIOD_SESSIONS, x)
    ensures e.fitsAtMinimum ==> MIN_PERIOD_SESSIONS <= e.proposedPeriod <= period && Fits(e.proposedPeriod, x)
    ensures e.fitsAtMinimum ==> forall p :: e.proposedPeriod < p <= period ==> !Fits(p, x)
  {
    var fitted := FitPeriod(x, period);
    e := Estimate(Seconds(period, x), Seconds(period, x) > FOUR_HOURS_SECONDS, fitted.Some?,
                  Seconds(MIN_PERIOD_SESSIONS, x), if fitted == None then MIN_PERIOD_SESSIONS else fitted.value);
  }

  function RulingDecision(e: Estimate, period: int): Ruling {
    if !e.overFourHours then KeepPeriod(period)
    else if !e.fitsAtMinimum then EvenTheMinimum(e.secondsAtMinimum)
    else ReduceTo(e.proposedPeriod)
  }

  /** Each ruling is right about the costs, for every request, also one below the minimum (where
      `fits_four_hours_at_minimum` is false whatever the minimum costs): keep says the period fits;
      "even the minimum" says no period from the minimum on fits; reduce names the longest period up
      to the requested one that fits. */
  method Rule(x: Inputs, period: int) returns (ruling: Ruling)
    requires Sensible(x)
    ensures match ruling
      case KeepPeriod(p) => p == period && Fits(period, x)
      case EvenTheMinimum(s) => s == Seconds(MIN_PERIOD_SESSIONS, x) && !Fits(period, x)
                                && forall p :: p >= MIN_PERIOD_SESSIONS ==> !Fits(p, x)
      case ReduceTo(n) => MIN_PERIOD_SESSIONS <= n < period && Fits(n, x) && forall p :: n < p ==> !Fits(p, x)
  {
    var e := Extrapolate(x, period);
    ruling := RulingDecision(e, period);
    if ruling.EvenTheMinimum? {
      if period < MIN_PERIOD_SESSIONS { CostIsMonotone(period, MIN_PERIOD_SESSIONS, x); }
      forall p | p >= MIN_PERIOD_SESSIONS ensures !Fits(p, x) { CostIsMonotone(MIN_PERIOD_SESSIONS, p, x); }
    } else if ruling.ReduceTo? {
      forall p | ruling.period < p ensures !Fits(p, x) { if p > period { CostIsMonotone(period, p, x); } }
    }
  }
}
