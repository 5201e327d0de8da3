/** A series on which `LateDay`'s rule buys although the setup has not formed: the close before the entry bar
    is missing. Three sessions of range 1 come first; on the fourth only the first bar and the last have
    prices, and the last, in the entry window, closes far above the VWAP. */
module MissingClose {
  import opened Common
  import opened Num
  import opened Columns
  import opened Bars
  import LateDay

  const LAST: nat := 120

  function Quiet(day: int, minute: int): Bar { Bar(day, minute, NaN, NaN, NaN, NaN, Fin(0.0)) }

  function Flat(day: int, minute: int, high: real, low: real, close: real, volume: real): Bar {
    Bar(day, minute, Fin(close), Fin(high), Fin(low), Fin(close), Fin(volume))
  }

  function Series(): (bars: seq<Bar>)
    ensures |bars| == LAST + 1
  {
    seq(LAST + 1, i requires 0 <= i < LAST + 1 =>
      if i < 3 then Flat(i, 570, 11.0, 10.0, 10.0, 0.0)
      else if i == 3 then Flat(3, 753, 12.0, 10.0, 12.0, 1.0)
      else if i == LAST then Flat(3, 870, 20.0, 20.0, 20.0, 1.0)
      else Quiet(3, 750 + i))
  }

  /** What the proofs use of the series. */
  ghost predicate IsSeries(bars: seq<Bar>) {
    && |bars| == LAST + 1
    && (forall i :: 0 <= i < 3 ==> bars[i] == Flat(i, 570, 11.0, 10.0, 10.0, 0.0))
    && bars[3] == Flat(3, 753, 12.0, 10.0, 12.0, 1.0)
    && (forall i :: 3 < i < LAST ==> bars[i] == Quiet(3, 750 + i))
    && bars[LAST] == Flat(3, 870, 20.0, 20.0, 20.0, 1.0)
  }

  /** A fold over the fourth day: its first bar, and its last. */
  lemma {:induction false} FourthDay(f: (Num, Num) -> Num, init: Num, a: Col, bars: seq<Bar>)
    requires IsSeries(bars) && |a| == |bars|
    requires var first := if a[3] == NaN then init else f(init, a[3]);
             forall j :: 3 < j < LAST ==> a[j] == NaN || f(first, a[j]) == first
    ensures var first := if a[3] == NaN then init else f(init, a[3]);
            Run(f, init, a, Days(bars), LAST + 1, 3) == if a[LAST] == NaN then first else f(first, a[LAST])
  {
    RunQuiet(f, init, a, Days(bars), 0, 3, 3);
    RunQuiet(f, init, a, Days(bars), 4, LAST, 3);
  }

  /** A fold over one of the first three days: its one bar. */
  lemma {:induction false} EarlyDay(f: (Num, Num) -> Num, a: Col, bars: seq<Bar>, d: nat)
    requires IsSeries(bars) && |a| == |bars| && d < 3 && a[d] != NaN
    ensures Run(f, NaN, a, Days(bars), LAST + 1, d) == f(NaN, a[d])
  {
    RunQuiet(f, NaN, a, Days(bars), 0, d, d);
    RunQuiet(f, NaN, a, Days(bars), d + 1, LAST + 1, d);
  }

  lemma {:induction false} Trades(bars: seq<Bar>)
    requires IsSeries(bars)
    ensures var t, v := RthTurnover(bars), RthVolume(bars);
            && t[3] == Fin(12.0) && v[3] == Fin(1.0) && t[LAST] == Fin(20.0) && v[LAST] == Fin(1.0)
            && forall j :: 3 < j < LAST ==> t[j] == NaN && v[j] == Fin(0.0)
  {
    forall j | 3 <= j <= LAST
      ensures RthTurnover(bars)[j] == Mul(bars[j].close, bars[j].volume) && RthVolume(bars)[j] == bars[j].volume
    {
      TradedAt(bars, j);
    }
    ProductOf(bars[3].close, bars[3].volume);
    ProductOf(bars[LAST].close, bars[LAST].volume);
  }

  lemma {:induction false} SumOfTwo(a: Col, bars: seq<Bar>, x: real, y: real)
    requires IsSeries(bars) && |a| == |bars| && a[3] == Fin(x) && a[LAST] == Fin(y)
    requires forall j :: 3 < j < LAST ==> a[j] == NaN || a[j] == Fin(0.0)
    ensures Run(Add, Fin(0.0), a, Days(bars), LAST + 1, 3) == Fin(x + y)
  {
    FourthDay(Add, Fin(0.0), a, bars);
  }

  lemma {:induction false} SumsThere(bars: seq<Bar>)
    requires IsSeries(bars)
    ensures Run(Add, Fin(0.0), RthTurnover(bars), Days(bars), LAST + 1, 3) == Fin(32.0)
    ensures Run(Add, Fin(0.0), RthVolume(bars), Days(bars), LAST + 1, 3) == Fin(2.0)
  {
    Trades(bars);
    SumOfTwo(RthTurnover(bars), bars, 12.0, 20.0);
    SumOfTwo(RthVolume(bars), bars, 1.0, 1.0);
  }

  lemma {:induction false} Ratio16()
    ensures Div(Fin(32.0), ZeroToNaN(Fin(2.0))) == Fin(16.0)
  {
  }

  lemma {:induction false} VwapIs16(bars: seq<Bar>)
    requires IsSeries(bars)
    ensures Vwap(bars)[LAST] == Fin(16.0)
  {
    SumsThere(bars);
    VwapIsRatio(bars, LAST);
    Ratio16();
  }

  lemma {:induction false} RangeIs10(bars: seq<Bar>)
    requires IsSeries(bars)
    ensures LateDay.RangeSoFar(bars)[LAST] == Fin(10.0)
  {
    var hi, lo := Where(Highs(bars), Rth(bars), NaN), Where(Lows(bars), Rth(bars), NaN);
    assert hi[3] == Fin(12.0) && lo[3] == Fin(10.0) && hi[LAST] == Fin(20.0) == lo[LAST];
    assert forall j :: 3 < j < LAST ==> hi[j] == NaN && lo[j] == NaN;
    FourthDay(Larger, NaN, hi, bars);
    FourthDay(Smaller, NaN, lo, bars);
    var top, bottom := Run(Larger, NaN, hi, Days(bars), LAST + 1, 3), Run(Smaller, NaN, lo, Days(bars), LAST + 1, 3);
    assert top == Fin(20.0) && bottom == Fin(10.0);
    assert Days(bars)[LAST] == 3;
    assert Cumulate(Larger, NaN, hi, Days(bars))[LAST] == top && Cumulate(Smaller, NaN, lo, Days(bars))[LAST] == bottom;
    assert LateDay.RangeSoFar(bars)[LAST] == Sub(top, bottom);
  }

  lemma {:induction false} FourDays(bars: seq<Bar>, n: nat)
    requires IsSeries(bars) && n <= LAST + 1
    ensures Groups(Days(bars), Everyone(bars), n)
         == if n == 0 then [] else if n == 1 then [0] else if n == 2 then [0, 1] else if n == 3 then [0, 1, 2]
            else [0, 1, 2, 3]
  {
    if n == 0 {
    } else {
      FourDays(bars, n - 1);
    }
  }

  lemma {:induction false} EarlyRangeIs1(bars: seq<Bar>, d: nat)
    requires IsSeries(bars) && d < 3
    ensures |LateDay.DailyRange(bars)| == 4 && LateDay.DailyRange(bars)[d] == Fin(1.0)
  {
    FourDays(bars, LAST + 1);
    LateDay.DailyRangeIs(bars, d);
    EarlyDay(Larger, Where(Highs(bars), Rth(bars), NaN), bars, d);
    EarlyDay(Smaller, Where(Lows(bars), Rth(bars), NaN), bars, d);
  }

  lemma {:induction false} PriorMeanIs1(bars: seq<Bar>)
    requires IsSeries(bars)
    ensures LateDay.Prior5Mean(bars)[LAST] == Fin(1.0)
  {
    var daily := LateDay.DailyRange(bars);
    EarlyRangeIs1(bars, 0);
    EarlyRangeIs1(bars, 1);
    EarlyRangeIs1(bars, 2);
    FourDays(bars, LAST + 1);
    var g := LateDay.Prior5Is(bars, LAST);
    assert g == 3;
    assert FiniteSum(daily, 0, 1) == 1.0 && FiniteSum(daily, 0, 2) == 2.0 && FiniteSum(daily, 0, 3) == 3.0;
    AllKnown(daily, 0, 3);
  }

  lemma {:induction false} VolumeAverageIs(bars: seq<Bar>)
    requires IsSeries(bars)
    ensures VolumeAverage(bars, 20)[LAST] == Fin(0.05)
  {
    var v := Volumes(bars);
    AllZero(v, 101, LAST);
    AllKnown(v, 101, LAST + 1);
    assert FiniteSum(v, 101, LAST + 1) == 1.0;
    assert VolumeAverage(bars, 20)[LAST] == MeanOf(v, 101, LAST + 1, 20);
  }

  lemma {:induction false} PremiumIs25()
    ensures LateDay.Premium(Fin(20.0), Fin(16.0)) == Fin(25.0)
  {
    assert Div(Sub(Fin(20.0), Fin(16.0)), Fin(16.0)) == Fin(0.25);
  }

  /** The values `on_bar` reads at the last bar. */
  ghost predicate ReadsThere(st: LateDay.State) {
    && st.State? && LateDay.Sized(st, LAST + 1) && st.entryWindow[LAST]
    && st.vwap[LAST] == Fin(16.0) && st.rangeSoFar[LAST] == Fin(10.0) && st.prior5[LAST] == Fin(1.0)
    && st.volAvg[LAST] == Fin(0.05) && st.vol[LAST] == Fin(1.0)
    && st.close[LAST] == Fin(20.0) && st.close[LAST - 1] == NaN && !st.entryWindow[LAST - 1]
  }

  /** What it compares them with. */
  ghost predicate ComparesWith(st: LateDay.State)
    requires st.State? && LateDay.Sized(st, LAST + 1)
  {
    && LateDay.Premium(st.close[LAST], st.vwap[LAST]) == Fin(25.0)
    && Scale(st.prior5[LAST], LateDay.RANGE_EXPANSION) == Fin(1.15)
    && Scale(st.volAvg[LAST], LateDay.VOL_MULT) == Fin(0.055)
  }

  lemma {:induction false} NotRejectedThere(st: LateDay.State)
    requires ReadsThere(st) && ComparesWith(st)
    ensures LateDay.NotRejected(st, LAST) && LateDay.Unknown(st, LAST)
  {
  }

  lemma {:induction false} UnformedOutside(st: LateDay.State, p: nat)
    requires st.State? && LateDay.Sized(st, |st.close|) && p < |st.close| && !st.entryWindow[p]
    ensures !LateDay.Formed(st, p)
  {
  }

  lemma {:induction false} ReadsThem(bars: seq<Bar>)
    requires IsSeries(bars)
    ensures ReadsThere(LateDay.Precompute(bars))
  {
    VwapIs16(bars);
    RangeIs10(bars);
    PriorMeanIs1(bars);
    VolumeAverageIs(bars);
  }

  lemma {:induction false} SeriesIsFine()
    ensures IsSeries(Series()) && TimeSorted(Series()) && Priced(Series())
  {
  }

  /** The bar slips through: a BUY without a setup. */
  lemma {:induction false} BuysWithoutASetup(bars: seq<Bar>)
    requires IsSeries(bars)
    ensures LateDay.SlipsThrough(bars, LAST) && LateDay.Buys(bars, LAST) && !LateDay.Setup(bars, LAST)
  {
    var st := LateDay.Precompute(bars);
    ReadsThem(bars);
    PremiumIs25();
    NotRejectedThere(st);
    UnformedOutside(st, LAST - 1);
    LateDay.BuysUnlessRejected(st, LAST);
    LateDay.QualifiersAgree(st, LAST);
  }
}
