/** Price bars in session time, and the session VWAP that three strategies share. */
module Bars {
  import opened Common
  import opened Num
  import opened Columns

  /** One bar: its session date and minute of the day, and its prices, missing ones being NaN. */
  datatype Bar = Bar(day: int, minute: int, open: Num, high: Num, low: Num, close: Num, volume: Num)

  const RTH_OPEN_MIN: int := 9 * 60 + 30
  const RTH_CLOSE_MIN: int := 16 * 60

  function Days(bars: seq<Bar>): (c: seq<int>)
    ensures |c| == |bars|
  {
    seq(|bars|, i requires 0 <= i < |bars| => bars[i].day)
  }

  function Opens(bars: seq<Bar>): (c: Col)
    ensures |c| == |bars|
  {
    seq(|bars|, i requires 0 <= i < |bars| => bars[i].open)
  }

  function Highs(bars: seq<Bar>): (c: Col)
    ensures |c| == |bars|
  {
    seq(|bars|, i requires 0 <= i < |bars| => bars[i].high)
  }

  function Lows(bars: seq<Bar>): (c: Col)
    ensures |c| == |bars|
  {
    seq(|bars|, i requires 0 <= i < |bars| => bars[i].low)
  }

  function Closes(bars: seq<Bar>): (c: Col)
    ensures |c| == |bars|
  {
    seq(|bars|, i requires 0 <= i < |bars| => bars[i].close)
  }

  function Volumes(bars: seq<Bar>): (c: Col)
    ensures |c| == |bars|
  {
    seq(|bars|, i requires 0 <= i < |bars| => bars[i].volume)
  }

  /** Bars whose minute lies in [from, until). */
  function Between(bars: seq<Bar>, from: int, until: int): (c: seq<bool>)
    ensures |c| == |bars|
  {
    seq(|bars|, i requires 0 <= i < |bars| => from <= bars[i].minute < until)
  }

  function Rth(bars: seq<Bar>): (c: seq<bool>)
    ensures |c| == |bars|
  {
    Between(bars, RTH_OPEN_MIN, RTH_CLOSE_MIN)
  }

  function Everyone(bars: seq<Bar>): (c: seq<bool>)
    ensures |c| == |bars|
  {
    seq(|bars|, i => true)
  }

  /** The index is sorted by time, so session dates never go back. */
  ghost predicate TimeSorted(bars: seq<Bar>) {
    Ordered(Days(bars))
  }

  lemma {:induction false} BarPrefix(bars: seq<Bar>, k: nat)
    requires k <= |bars|
    ensures Days(bars[..k]) == Days(bars)[..k] && Rth(bars[..k]) == Rth(bars)[..k]
    ensures Everyone(bars[..k]) == Everyone(bars)[..k]
    ensures Opens(bars[..k]) == Opens(bars)[..k] && Highs(bars[..k]) == Highs(bars)[..k]
    ensures Lows(bars[..k]) == Lows(bars)[..k] && Closes(bars[..k]) == Closes(bars)[..k]
    ensures Volumes(bars[..k]) == Volumes(bars)[..k]
  {
  }

  /** Price times volume, zero outside regular hours. */
  function RthTurnover(bars: seq<Bar>): (c: Col)
    ensures |c| == |bars|
  {
    Where(Zip(Mul, Closes(bars), Volumes(bars)), Rth(bars), Fin(0.0))
  }

  /** Volume, zero outside regular hours. */
  function RthVolume(bars: seq<Bar>): (c: Col)
    ensures |c| == |bars|
  {
    Where(Volumes(bars), Rth(bars), Fin(0.0))
  }

  /** Session VWAP: cumulative turnover over cumulative volume, regular hours only. */
  function Vwap(bars: seq<Bar>): (c: Col)
    ensures |c| == |bars|
  {
    var cumPv := Cumulate(Add, Fin(0.0), RthTurnover(bars), Days(bars));
    var cumV := Cumulate(Add, Fin(0.0), RthVolume(bars), Days(bars));
    Zip(Div, cumPv, Each(ZeroToNaN, cumV))
  }

  lemma {:induction false} VwapPrefix(bars: seq<Bar>, k: nat)
    requires k <= |bars|
    ensures Vwap(bars[..k]) == Vwap(bars)[..k]
  {
    BarPrefix(bars, k);
    assert RthTurnover(bars[..k]) == RthTurnover(bars)[..k];
    assert RthVolume(bars[..k]) == RthVolume(bars)[..k];
    CumulatePrefix(Add, Fin(0.0), RthTurnover(bars), Days(bars), k);
    CumulatePrefix(Add, Fin(0.0), RthVolume(bars), Days(bars), k);
  }

  /** `prices["volume"].rolling(window).mean()` */
  function VolumeAverage(bars: seq<Bar>, window: nat): (c: Col)
    ensures |c| == |bars|
  {
    RollingMean(Volumes(bars), window, window)
  }

  lemma {:induction false} VolumeAveragePrefix(bars: seq<Bar>, window: nat, k: nat)
    requires k <= |bars|
    ensures VolumeAverage(bars[..k], window) == VolumeAverage(bars, window)[..k]
  {
    BarPrefix(bars, k);
    MeanPrefix(Volumes(bars[..k]), Volumes(bars), window, window, k);
  }

  /** The groups of a prefix, and how they sit among all groups. */
  lemma {:induction false} DayGroups(bars: seq<Bar>, member: seq<bool>, k: nat)
    requires k <= |bars| == |member|
    ensures var all, some := Groups(Days(bars), member, |bars|), Groups(Days(bars), member, k);
            && Groups(Days(bars[..k]), member[..k], k) == some
            && |some| <= |all| && some == all[..|some|]
  {
    BarPrefix(bars, k);
    GroupsPrefix(Days(bars), member, k, k);
    GroupsGrow(Days(bars), member, k, |bars|);
  }

  lemma {:induction false} VwapAt(bars: seq<Bar>, i: nat)
    requires i < |bars|
    ensures Vwap(bars)[i] == Div(Cumulate(Add, Fin(0.0), RthTurnover(bars), Days(bars))[i],
                                 ZeroToNaN(Cumulate(Add, Fin(0.0), RthVolume(bars), Days(bars))[i]))
  {
  }

  /** A bar without a close or a volume has no VWAP. */
  lemma {:induction false} VwapMissing(bars: seq<Bar>, i: nat)
    requires i < |bars| && Rth(bars)[i] && (bars[i].close == NaN || bars[i].volume == NaN)
    ensures Vwap(bars)[i] == NaN
  {
    VwapAt(bars, i);
    assert RthTurnover(bars)[i] == Mul(bars[i].close, bars[i].volume) == NaN;
  }

  /** Wherever they are known, closes are positive and volumes finite. */
  ghost predicate Priced(bars: seq<Bar>) {
    forall i :: 0 <= i < |bars| ==>
      && (bars[i].close == NaN || (bars[i].close.Fin? && bars[i].close.v > 0.0))
      && (bars[i].volume == NaN || bars[i].volume.Fin?)
  }

  lemma {:induction false} FiniteSums(a: Col, keys: seq<int>, n: nat, key: int)
    requires n <= |a| == |keys| && forall i :: 0 <= i < |a| ==> a[i] == NaN || a[i].Fin?
    ensures Run(Add, Fin(0.0), a, keys, n, key).Fin?
  {
    if n == 0 {
    } else {
      FiniteSums(a, keys, n - 1, key);
    }
  }

  /** On priced bars a known VWAP is a finite number. */
  lemma {:induction false} VwapIsFinite(bars: seq<Bar>, i: nat)
    requires i < |bars| && Priced(bars) && Vwap(bars)[i] != NaN
    ensures Vwap(bars)[i].Fin?
  {
    VwapAt(bars, i);
    forall j | 0 <= j < |bars|
      ensures RthTurnover(bars)[j] == NaN || RthTurnover(bars)[j].Fin?
      ensures RthVolume(bars)[j] == NaN || RthVolume(bars)[j].Fin?
    {
      assert Rth(bars)[j] ==> RthTurnover(bars)[j] == Mul(bars[j].close, bars[j].volume);
    }
    FiniteSums(RthTurnover(bars), Days(bars), i + 1, bars[i].day);
    FiniteSums(RthVolume(bars), Days(bars), i + 1, bars[i].day);
  }

  // ---------- The VWAP is an average of the closes ----------

  /** Every regular-hours bar of the day among the first n has a close in [lo, hi] and a volume. */
  ghost predicate ClosesWithin(bars: seq<Bar>, n: nat, day: int, lo: real, hi: real)
    requires n <= |bars|
  {
    forall j :: 0 <= j < n && bars[j].day == day && Rth(bars)[j] ==>
      bars[j].close.Fin? && lo <= bars[j].close.v <= hi && bars[j].volume.Fin? && bars[j].volume.v >= 0.0
  }

  /** A turnover p over a volume v with prices in [lo, hi]. */
  ghost predicate Weighs(p: Num, v: Num, lo: real, hi: real) {
    p.Fin? && v.Fin? && WithinBounds(p.v, v.v, lo, hi)
  }

  ghost predicate WithinBounds(p: real, v: real, lo: real, hi: real) {
    v >= 0.0 && lo * v <= p <= hi * v
  }

  lemma {:induction false} SumOf(a: Num, b: Num) returns (s: Num)
    requires a.Fin? && b.Fin?
    ensures s == Add(a, b) && s.Fin? && s.v == a.v + b.v
  {
    s := Add(a, b);
  }

  lemma {:induction false} BoundsTogether(p: real, v: real, t: real, u: real, x: real, y: real, lo: real, hi: real)
    requires WithinBounds(p, v, lo, hi) && WithinBounds(t, u, lo, hi) && x == p + t && y == v + u
    ensures WithinBounds(x, y, lo, hi)
  {
    AddScaled(lo, v, u, p, t);
    AddScaled(-hi, v, u, -p, -t);
  }

  lemma {:induction false} AddScaled(k: real, v: real, u: real, p: real, t: real)
    requires k * v <= p && k * u <= t
    ensures k * (v + u) <= p + t
  {
    var x, y := k * v, k * u;
    assert k * (v + u) == x + y;
  }

  lemma {:induction false} TradeWeighs(close: Num, volume: Num, lo: real, hi: real)
    requires close.Fin? && lo <= close.v <= hi && volume.Fin? && volume.v >= 0.0
    ensures Weighs(Mul(close, volume), volume, lo, hi)
  {
    ProductOf(close, volume);
    TimesLe(volume.v, lo, close.v);
    TimesLe(volume.v, close.v, hi);
  }

  lemma {:induction false} TimesLe(k: real, x: real, y: real)
    requires k >= 0.0 && x <= y
    ensures x * k <= y * k
  {
  }

  lemma {:induction false} TradedAt(bars: seq<Bar>, j: nat)
    requires j < |bars|
    ensures RthTurnover(bars)[j] == if Rth(bars)[j] then Mul(bars[j].close, bars[j].volume) else Fin(0.0)
    ensures RthVolume(bars)[j] == if Rth(bars)[j] then bars[j].volume else Fin(0.0)
  {
  }

  ghost predicate Counts(bars: seq<Bar>, j: int, day: int) {
    0 <= j < |bars| && bars[j].day == day && Rth(bars)[j]
  }

  lemma {:induction false} ProductOf(a: Num, b: Num)
    requires a.Fin? && b.Fin?
    ensures Mul(a, b) == Fin(a.v * b.v)
  {
  }

  /** One more bar in the sums. */
  lemma {:induction false} SumStep(bars: seq<Bar>, n: nat, day: int)
    requires 0 < n <= |bars| && (Counts(bars, n - 1, day) ==> bars[n - 1].close.Fin? && bars[n - 1].volume.Fin?)
    requires Run(Add, Fin(0.0), RthTurnover(bars), Days(bars), n - 1, day).Fin?
    requires Run(Add, Fin(0.0), RthVolume(bars), Days(bars), n - 1, day).Fin?
    ensures var p := Run(Add, Fin(0.0), RthTurnover(bars), Days(bars), n - 1, day);
            Run(Add, Fin(0.0), RthTurnover(bars), Days(bars), n, day)
              == if Counts(bars, n - 1, day) then Add(p, Mul(bars[n - 1].close, bars[n - 1].volume)) else p
    ensures var v := Run(Add, Fin(0.0), RthVolume(bars), Days(bars), n - 1, day);
            Run(Add, Fin(0.0), RthVolume(bars), Days(bars), n, day)
              == if Counts(bars, n - 1, day) then Add(v, bars[n - 1].volume) else v
  {
    TradedAt(bars, n - 1);
    if Counts(bars, n - 1, day) { ProductOf(bars[n - 1].close, bars[n - 1].volume); }
  }

  lemma {:induction false} SumsWeigh(bars: seq<Bar>, n: nat, day: int, lo: real, hi: real)
    requires n <= |bars| && ClosesWithin(bars, n, day, lo, hi)
    ensures Weighs(Run(Add, Fin(0.0), RthTurnover(bars), Days(bars), n, day),
                   Run(Add, Fin(0.0), RthVolume(bars), Days(bars), n, day), lo, hi)
  {
    if n == 0 {
    } else {
      SumsWeigh(bars, n - 1, day, lo, hi);
      SumStep(bars, n, day);
      if Counts(bars, n - 1, day) {
        var b := bars[n - 1];
        var p := Run(Add, Fin(0.0), RthTurnover(bars), Days(bars), n - 1, day);
        var v := Run(Add, Fin(0.0), RthVolume(bars), Days(bars), n - 1, day);
        TradeWeighs(b.close, b.volume, lo, hi);
        var t := Mul(b.close, b.volume);
        var x := SumOf(p, t);
        var y := SumOf(v, b.volume);
        BoundsTogether(p.v, v.v, t.v, b.volume.v, x.v, y.v, lo, hi);
      }
    }
  }

  lemma {:induction false} QuotientWithin(p: real, v: real, lo: real, hi: real)
    requires v > 0.0 && lo * v <= p <= hi * v
    ensures lo <= p / v <= hi
  {
    var q := p / v;
    assert q * v == p;
    SignOfFactor(v, q - lo);
    SignOfFactor(v, hi - q);
    assert v * (q - lo) == p - lo * v && v * (hi - q) == hi * v - p;
  }

  lemma {:induction false} RatioWithin(p: Num, v: Num, lo: real, hi: real)
    requires Weighs(p, v, lo, hi)
    ensures var r := Div(p, ZeroToNaN(v));
            if v == Fin(0.0) then r == NaN else r.Fin? && lo <= r.v <= hi
  {
    if v.v > 0.0 { QuotientWithin(p.v, v.v, lo, hi); }
  }

  lemma {:induction false} VwapIsRatio(bars: seq<Bar>, i: nat)
    requires i < |bars| && (Rth(bars)[i] ==> bars[i].close.Fin? && bars[i].volume.Fin?)
    ensures Vwap(bars)[i] == Div(Run(Add, Fin(0.0), RthTurnover(bars), Days(bars), i + 1, bars[i].day),
                                 ZeroToNaN(Run(Add, Fin(0.0), RthVolume(bars), Days(bars), i + 1, bars[i].day)))
  {
    VwapAt(bars, i);
    TradedAt(bars, i);
    if Rth(bars)[i] { ProductOf(bars[i].close, bars[i].volume); }
  }

  /** The VWAP lies among the day's regular-hours closes so far; it is missing exactly while nothing has
      been traded. */
  lemma {:induction false} VwapIsAverage(bars: seq<Bar>, i: nat, lo: real, hi: real)
    requires i < |bars| && ClosesWithin(bars, i + 1, bars[i].day, lo, hi)
    ensures if Run(Add, Fin(0.0), RthVolume(bars), Days(bars), i + 1, bars[i].day) == Fin(0.0) then Vwap(bars)[i] == NaN
            else Vwap(bars)[i].Fin? && lo <= Vwap(bars)[i].v <= hi
  {
    VwapIsRatio(bars, i);
    SumsWeigh(bars, i + 1, bars[i].day, lo, hi);
    RatioWithin(Run(Add, Fin(0.0), RthTurnover(bars), Days(bars), i + 1, bars[i].day),
                Run(Add, Fin(0.0), RthVolume(bars), Days(bars), i + 1, bars[i].day), lo, hi);
  }
}
