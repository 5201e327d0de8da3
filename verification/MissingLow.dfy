/** A series on which `DriveFade`'s rule buys although the setup has not formed: the entry bar has no low.
    Five sessions of true range 1 come first; the sixth opens at 20, trades at 10 until its last bar, and
    there slips to 9 without volume. */
module MissingLow {
  import opened Common
  import opened Num
  import opened Columns
  import opened Bars
  import DriveFade

  const LAST: nat := 60

  function Early(i: int): Bar { Bar(i, 570, Fin(10.0), Fin(11.0), Fin(10.0), Fin(10.0), Fin(1.0)) }

  function Sixth(i: int): Bar { Bar(5, 565 + i, Fin(20.0), Fin(20.0), Fin(10.0), Fin(10.0), Fin(1.0)) }

  function Entry(): Bar { Bar(5, 625, Fin(10.0), Fin(10.0), NaN, Fin(9.0), Fin(0.0)) }

  function Series(): (bars: seq<Bar>)
    ensures |bars| == LAST + 1
  {
    seq(LAST + 1, i requires 0 <= i < LAST + 1 => if i < 5 then Early(i) else if i < LAST then Sixth(i) else Entry())
  }

  /** What the proofs use of the series. */
  ghost predicate IsSeries(bars: seq<Bar>) {
    && |bars| == LAST + 1 && bars[LAST] == Entry()
    && (forall i :: 0 <= i < 5 ==> bars[i] == Early(i))
    && (forall i :: 5 <= i < LAST ==> bars[i] == Sixth(i))
  }

  lemma {:induction false} SeriesIsFine()
    ensures IsSeries(Series()) && TimeSorted(Series())
  {
  }

  // ---------- The VWAP ----------

  lemma {:induction false} Trades(bars: seq<Bar>)
    requires IsSeries(bars)
    ensures var t, v := RthTurnover(bars), RthVolume(bars);
            && t[LAST] == Fin(0.0) && v[LAST] == Fin(0.0)
            && forall j :: 5 <= j < LAST ==> t[j] == Fin(10.0) && v[j] == Fin(1.0)
  {
    forall j | 5 <= j <= LAST
      ensures RthTurnover(bars)[j] == Mul(bars[j].close, bars[j].volume) && RthVolume(bars)[j] == bars[j].volume
    {
      TradedAt(bars, j);
    }
    ProductOf(Fin(10.0), Fin(1.0));
    ProductOf(Fin(9.0), Fin(0.0));
  }

  /** x, k times. */
  function Repeated(k: nat, x: real): real { if k == 0 then 0.0 else Repeated(k - 1, x) + x }

  lemma {:induction false} RepeatedIs(k: nat, x: real)
    ensures Repeated(k, x) == k as real * x
  {
    if k == 0 {
    } else {
      RepeatedIs(k - 1, x);
      assert k as real * x == (k - 1) as real * x + x;
    }
  }

  /** The sum of equal values over the sixth session. */
  lemma {:induction false} SumOfEqual(a: Col, bars: seq<Bar>, n: nat, x: real)
    requires IsSeries(bars) && |a| == |bars| && 5 <= n <= LAST && forall j :: 5 <= j < LAST ==> a[j] == Fin(x)
    ensures Run(Add, Fin(0.0), a, Days(bars), n, 5) == Fin(Repeated(n - 5, x))
  {
    if n == 5 {
      RunQuiet(Add, Fin(0.0), a, Days(bars), 0, 5, 5);
    } else {
      SumOfEqual(a, bars, n - 1, x);
      assert Days(bars)[n - 1] == 5 && a[n - 1] == Fin(x);
    }
  }

  lemma {:induction false} SumsThere(bars: seq<Bar>)
    requires IsSeries(bars)
    ensures Run(Add, Fin(0.0), RthTurnover(bars), Days(bars), LAST + 1, 5) == Fin(550.0)
    ensures Run(Add, Fin(0.0), RthVolume(bars), Days(bars), LAST + 1, 5) == Fin(55.0)
  {
    Trades(bars);
    SumOfEqual(RthTurnover(bars), bars, LAST, 10.0);
    SumOfEqual(RthVolume(bars), bars, LAST, 1.0);
    RepeatedIs(55, 10.0);
    RepeatedIs(55, 1.0);
  }

  lemma {:induction false} Ratio10()
    ensures Div(Fin(550.0), ZeroToNaN(Fin(55.0))) == Fin(10.0)
  {
  }

  lemma {:induction false} VwapIs10(bars: seq<Bar>)
    requires IsSeries(bars)
    ensures Vwap(bars)[LAST] == Fin(10.0)
  {
    SumsThere(bars);
    VwapIsRatio(bars, LAST);
    Ratio10();
  }

  // ---------- The drive ----------

  lemma {:induction false} DriveIs10(bars: seq<Bar>)
    requires IsSeries(bars)
    ensures DriveFade.DriveLow(bars)[LAST] == Fin(10.0) && DriveFade.DayOpen(bars)[LAST] == Fin(20.0)
  {
    var low := Where(Lows(bars), DriveFade.DriveWindow(bars), NaN);
    DriveFade.DriveLowIs(bars, LAST);
    assert Known(low, Days(bars), LAST + 1, 5, 5);
    assert forall i :: Known(low, Days(bars), LAST + 1, 5, i) ==> low[i] == Fin(10.0);
    assert DriveFade.OpensDay(bars, 5);
    DriveFade.DayOpenIs(bars, 5, LAST);
  }

  // ---------- The daily ATR ----------

  lemma {:induction false} SixDays(bars: seq<Bar>, n: nat)
    requires IsSeries(bars) && n <= LAST + 1
    ensures Groups(Days(bars), Everyone(bars), n)
         == if n == 0 then [] else if n == 1 then [0] else if n == 2 then [0, 1] else if n == 3 then [0, 1, 2]
            else if n == 4 then [0, 1, 2, 3] else if n == 5 then [0, 1, 2, 3, 4] else [0, 1, 2, 3, 4, 5]
  {
    if n == 0 {
    } else {
      SixDays(bars, n - 1);
    }
  }

  /** A fold over one of the first five days: its one bar. */
  lemma {:induction false} EarlyDay(f: (Num, Num) -> Num, a: Col, bars: seq<Bar>, d: nat)
    requires IsSeries(bars) && |a| == |bars| && d < 5 && a[d] != NaN
    ensures Run(f, NaN, a, Days(bars), LAST + 1, d) == f(NaN, a[d])
  {
    RunQuiet(f, NaN, a, Days(bars), 0, d, d);
    RunQuiet(f, NaN, a, Days(bars), d + 1, LAST + 1, d);
  }

  lemma {:induction false} EarlyPrices(bars: seq<Bar>, d: nat)
    requires IsSeries(bars) && d < 5
    ensures |DriveFade.AllDays(bars)| == 6 && DriveFade.AllDays(bars)[5] == 5
    ensures DriveFade.DayHigh(bars)[d] == Fin(11.0) && DriveFade.DayLow(bars)[d] == Fin(10.0)
    ensures DriveFade.DayClose(bars)[d] == Fin(10.0)
  {
    SixDays(bars, LAST + 1);
    assert DriveFade.AllDays(bars)[d] == d;
    EarlyDay(Larger, DriveFade.RthValues(Highs(bars), bars), bars, d);
    EarlyDay(Smaller, DriveFade.RthValues(Lows(bars), bars), bars, d);
    EarlyDay(Later, DriveFade.RthValues(Closes(bars), bars), bars, d);
  }

  lemma {:induction false} EarlyTrueRange(high: Col, low: Col, close: Col, d: nat)
    requires |high| == |low| == |close| && d < |high| && high[d] == Fin(11.0) && low[d] == Fin(10.0)
    requires d > 0 ==> close[d - 1] == Fin(10.0)
    ensures DriveFade.TrueRange(high, low, close)[d] == Fin(1.0)
  {
  }

  lemma {:induction false} TrueRangeIs1(bars: seq<Bar>, d: nat)
    requires IsSeries(bars) && d < 5
    ensures |DriveFade.DailyTrueRange(bars)| == 6 && DriveFade.DailyTrueRange(bars)[d] == Fin(1.0)
  {
    EarlyPrices(bars, d);
    if d > 0 { EarlyPrices(bars, d - 1); }
    EarlyTrueRange(DriveFade.DayHigh(bars), DriveFade.DayLow(bars), DriveFade.DayClose(bars), d);
  }

  lemma {:induction false} SumOfOnes(a: Col, lo: nat, hi: nat)
    requires lo <= hi <= |a| && forall i :: lo <= i < hi ==> a[i] == Fin(1.0)
    ensures FiniteSum(a, lo, hi) == (hi - lo) as real
  {
    if lo == hi {
    } else {
      SumOfOnes(a, lo, hi - 1);
    }
  }

  lemma {:induction false} AtrIs1(bars: seq<Bar>)
    requires IsSeries(bars)
    ensures DriveFade.Atr(bars)[LAST] == Fin(1.0)
  {
    var daily := DriveFade.DailyTrueRange(bars);
    forall d: nat | d < 5 ensures |daily| == 6 && daily[d] == Fin(1.0) { TrueRangeIs1(bars, d); }
    EarlyPrices(bars, 0);
    SixDays(bars, LAST + 1);
    var g := DriveFade.AtrIs(bars, LAST);
    assert g == 5;
    FiveOnes(daily);
  }

  lemma {:induction false} FiveOnes(daily: Col)
    requires |daily| == 6 && forall d :: 0 <= d < 5 ==> daily[d] == Fin(1.0)
    ensures MeanOf(daily, 0, 5, 5) == Fin(1.0)
  {
    SumOfOnes(daily, 0, 5);
    AllKnown(daily, 0, 5);
  }

  // ---------- The RSI ----------

  /** Rises and falls from one close to the next. */
  function Deltas(bars: seq<Bar>): (c: Col)
    ensures |c| == |bars|
  {
    Zip(Sub, Closes(bars), Shift(Closes(bars)))
  }

  lemma {:induction false} Moves(bars: seq<Bar>)
    requires IsSeries(bars)
    ensures var up, down := Each(DriveFade.Rise, Deltas(bars)), Each(DriveFade.Fall, Deltas(bars));
            && (forall i :: 6 <= i <= LAST ==> up[i] == Fin(0.0))
            && (forall i :: 6 <= i < LAST ==> down[i] == Fin(0.0)) && down[LAST] == Fin(1.0)
  {
    var c, d := Closes(bars), Deltas(bars);
    assert forall i :: 5 <= i < LAST ==> c[i] == Fin(10.0);
    forall i | 6 <= i <= LAST ensures d[i] == if i < LAST then Fin(0.0) else Fin(-1.0) {
      assert Shift(c)[i] == c[i - 1] == Fin(10.0);
      assert d[i] == Sub(c[i], Shift(c)[i]);
    }
    assert forall i :: 6 <= i <= LAST ==> Each(DriveFade.Rise, d)[i] == DriveFade.Rise(d[i]);
    assert forall i :: 6 <= i <= LAST ==> Each(DriveFade.Fall, d)[i] == DriveFade.Fall(d[i]);
  }

  lemma {:induction false} MeanOfZeros(a: Col, lo: nat, hi: nat, n: nat)
    requires lo + n == hi <= |a| && n > 0 && forall i :: lo <= i < hi ==> a[i] == Fin(0.0)
    ensures MeanOf(a, lo, hi, n) == Fin(0.0)
  {
    AllZero(a, lo, hi);
    AllKnown(a, lo, hi);
  }

  lemma {:induction false} MeanWithOneLoss(a: Col)
    requires |a| == LAST + 1 && a[LAST] == Fin(1.0) && forall i :: 47 <= i < LAST ==> a[i] == Fin(0.0)
    ensures MeanOf(a, 47, LAST + 1, 14) == Fin(1.0 / 14.0)
  {
    AllZero(a, 47, LAST);
    AllKnown(a, 47, LAST + 1);
    assert FiniteSum(a, 47, LAST + 1) == 1.0;
  }

  lemma {:induction false} RsiAt(bars: seq<Bar>, i: nat)
    requires 13 <= i < |bars|
    ensures DriveFade.Rsi(bars)[i] == DriveFade.RsiOf(MeanOf(Each(DriveFade.Rise, Deltas(bars)), i - 13, i + 1, 14),
                                                      MeanOf(Each(DriveFade.Fall, Deltas(bars)), i - 13, i + 1, 14))
  {
  }

  lemma {:induction false} NoGain()
    ensures Div(Fin(0.0), ZeroToNaN(Fin(1.0 / 14.0))) == Fin(0.0)
  {
  }

  /** Oversold at the last bar, and unknown one bar before, where there has been no loss. */
  lemma {:induction false} RsiThere(bars: seq<Bar>)
    requires IsSeries(bars)
    ensures Le(DriveFade.Rsi(bars)[LAST], DriveFade.RSI_OVERSOLD) && DriveFade.Rsi(bars)[LAST - 1] == NaN
  {
    var up, down := Each(DriveFade.Rise, Deltas(bars)), Each(DriveFade.Fall, Deltas(bars));
    Moves(bars);
    RsiAt(bars, LAST);
    RsiAt(bars, LAST - 1);
    MeanOfZeros(up, 47, LAST + 1, 14);
    MeanWithOneLoss(down);
    MeanOfZeros(up, 46, LAST, 14);
    MeanOfZeros(down, 46, LAST, 14);
    NoGain();
    DriveFade.OversoldMeans(0.0);
    DriveFade.NoLossNoRsi(Fin(0.0));
  }

  lemma {:induction false} VolumeAverageIs(bars: seq<Bar>)
    requires IsSeries(bars)
    ensures VolumeAverage(bars, 20)[LAST] == Fin(0.95)
  {
    var v := Volumes(bars);
    SumOfOnes(v, 41, LAST);
    AllKnown(v, 41, LAST + 1);
    assert FiniteSum(v, 41, LAST + 1) == 19.0;
    assert VolumeAverage(bars, 20)[LAST] == MeanOf(v, 41, LAST + 1, 20);
  }

  // ---------- The entry ----------

  /** The values `on_bar` reads at the last bar. */
  ghost predicate ReadsThere(st: DriveFade.State) {
    && st.State? && DriveFade.Sized(st, LAST + 1) && st.entryWindow[LAST]
    && st.vwap[LAST] == Fin(10.0) && st.driveLow[LAST] == Fin(10.0) && st.driveDown[LAST] == Fin(10.0)
    && st.atr[LAST] == Fin(1.0) && Le(st.rsi[LAST], DriveFade.RSI_OVERSOLD) && st.rsi[LAST - 1] == NaN
    && st.volAvg[LAST] == Fin(0.95) && st.vol[LAST] == Fin(0.0)
    && st.close[LAST] == Fin(9.0) && st.low[LAST] == NaN
  }

  /** What it compares them with. */
  ghost predicate ComparesWith(st: DriveFade.State)
    requires st.State? && DriveFade.Sized(st, LAST + 1)
  {
    && Scale(st.atr[LAST], DriveFade.DRIVE_ATR_MULT) == Fin(0.5)
    && Scale(st.atr[LAST], DriveFade.NEAR_LOW_MULT) == Fin(0.2)
    && Scale(st.volAvg[LAST], DriveFade.VOL_EXHAUST_MULT) == Fin(0.7125)
  }

  lemma {:induction false} NotRejectedThere(st: DriveFade.State)
    requires ReadsThere(st) && ComparesWith(st)
    ensures DriveFade.NotRejected(st, LAST) && DriveFade.Unknown(st, LAST)
  {
  }

  lemma {:induction false} UnformedWithoutRsi(st: DriveFade.State, p: nat)
    requires st.State? && DriveFade.Sized(st, |st.close|) && p < |st.close| && st.rsi[p] == NaN
    ensures !DriveFade.Formed(st, p)
  {
  }

  lemma {:induction false} ReadsThem(bars: seq<Bar>)
    requires IsSeries(bars)
    ensures ReadsThere(DriveFade.Precompute(bars))
  {
    VwapIs10(bars);
    DriveIs10(bars);
    AtrIs1(bars);
    RsiThere(bars);
    VolumeAverageIs(bars);
    assert DriveFade.Precompute(bars).driveDown[LAST]
        == Sub(DriveFade.DayOpen(bars)[LAST], DriveFade.DriveLow(bars)[LAST]);
  }

  /** The bar slips through: a BUY without a setup. */
  lemma {:induction false} BuysWithoutASetup(bars: seq<Bar>)
    requires IsSeries(bars)
    ensures DriveFade.SlipsThrough(bars, LAST) && DriveFade.Buys(bars, LAST) && !DriveFade.Setup(bars, LAST)
  {
    var st := DriveFade.Precompute(bars);
    ReadsThem(bars);
    NotRejectedThere(st);
    UnformedWithoutRsi(st, LAST - 1);
    DriveFade.BuysUnlessRejected(st, LAST);
    DriveFade.QualifiersAgree(st, LAST);
  }
}
