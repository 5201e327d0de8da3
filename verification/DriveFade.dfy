/** strategies/opening_drive_fade.py: the columns `precompute` derives and the entry rule of
    `on_bar`. */
module DriveFade {
  import opened Common
  import opened Num
  import opened Columns
  import opened Bars
  import opened EdgeTrigger

  const DRIVE_WINDOW_MIN: int := 30
  const ENTRY_WINDOW_END_MIN: int := 120
  const DRIVE_ATR_MULT: real := 0.5
  const NEAR_LOW_MULT: real := 0.2
  const ATR_DAYS: nat := 14
  const RSI_PERIOD: nat := 14
  const RSI_OVERSOLD: Num := Fin(30.0)
  const VOL_EXHAUST_MULT: real := 0.75
  const VOL_WINDOW: nat := 20
  const MIN_BARS: nat := 60

  datatype State = Empty | State(close: Col, low: Col, vwap: Col, dayOpen: Col, driveLow: Col, driveDown: Col,
                                 atr: Col, rsi: Col, vol: Col, volAvg: Col, entryWindow: seq<bool>)

  /** The first regular-hours bar of its day. */
  function FirstRth(bars: seq<Bar>): (c: seq<bool>)
    ensures |c| == |bars|
  {
    seq(|bars|, i requires 0 <= i < |bars| => Rth(bars)[i] && RthSoFar(bars, i + 1, bars[i].day) == 1)
  }

  function RthSoFar(bars: seq<Bar>, n: nat, day: int): nat
    requires n <= |bars|
  {
    if n == 0 then 0
    else RthSoFar(bars, n - 1, day) + (if bars[n - 1].day == day && Rth(bars)[n - 1] then 1 else 0)
  }

  function DayOpen(bars: seq<Bar>): (c: Col)
    ensures |c| == |bars|
  {
    ForwardFill(Where(Opens(bars), FirstRth(bars), NaN), Days(bars))
  }

  function DriveWindow(bars: seq<Bar>): (c: seq<bool>)
    ensures |c| == |bars|
  {
    seq(|bars|, i requires 0 <= i < |bars| => Rth(bars)[i] && bars[i].minute - RTH_OPEN_MIN < DRIVE_WINDOW_MIN)
  }

  /** Running low of the drive window, carried on for the rest of the day. */
  function DriveLow(bars: seq<Bar>): (c: Col)
    ensures |c| == |bars|
  {
    ForwardFill(Cumulate(Smaller, NaN, Where(Lows(bars), DriveWindow(bars), NaN), Days(bars)), Days(bars))
  }

  function RthValues(a: Col, bars: seq<Bar>): (c: Col)
    requires |a| == |bars|
    ensures |c| == |bars|
  {
    Where(a, Rth(bars), NaN)
  }

  function AllDays(bars: seq<Bar>): seq<int> { Groups(Days(bars), Everyone(bars), |bars|) }

  function DayHigh(bars: seq<Bar>): (c: Col)
    ensures |c| == |AllDays(bars)|
  {
    Daily(Larger, NaN, RthValues(Highs(bars), bars), Days(bars), AllDays(bars))
  }

  function DayLow(bars: seq<Bar>): (c: Col)
    ensures |c| == |AllDays(bars)|
  {
    Daily(Smaller, NaN, RthValues(Lows(bars), bars), Days(bars), AllDays(bars))
  }

  function DayClose(bars: seq<Bar>): (c: Col)
    ensures |c| == |AllDays(bars)|
  {
    Daily(Later, NaN, RthValues(Closes(bars), bars), Days(bars), AllDays(bars))
  }

  /** True range of a day: the widest of high - low, |high - prev close| and |low - prev close|. */
  function TrueRange(high: Col, low: Col, close: Col): (c: Col)
    requires |high| == |low| == |close|
    ensures |c| == |high|
  {
    var prevClose := Shift(close);
    seq(|high|, g requires 0 <= g < |high| =>
      Larger(Larger(Sub(high[g], low[g]), Abs(Sub(high[g], prevClose[g]))), Abs(Sub(low[g], prevClose[g]))))
  }

  function DailyTrueRange(bars: seq<Bar>): (c: Col)
    ensures |c| == |AllDays(bars)|
  {
    TrueRange(DayHigh(bars), DayLow(bars), DayClose(bars))
  }

  /** Mean true range of the sessions before each bar's own. */
  function Atr(bars: seq<Bar>): (c: Col)
    ensures |c| == |bars|
  {
    MapBack(Days(bars), Everyone(bars), AllDays(bars),
            RollingMean(Shift(DailyTrueRange(bars)), ATR_DAYS, 5))
  }

  function Rise(d: Num): Num { if Lt(d, Fin(0.0)) then Fin(0.0) else d }

  function Fall(d: Num): Num { Neg(if Lt(Fin(0.0), d) then Fin(0.0) else d) }

  function RsiOf(gain: Num, loss: Num): Num { RsiOfRatio(Div(gain, ZeroToNaN(loss))) }

  function RsiOfRatio(rs: Num): Num { Sub(Fin(100.0), Div(Fin(100.0), Add(Fin(1.0), rs))) }

  function Rsi(bars: seq<Bar>): (c: Col)
    ensures |c| == |bars|
  {
    var delta := Zip(Sub, Closes(bars), Shift(Closes(bars)));
    Zip(RsiOf, RollingMean(Each(Rise, delta), RSI_PERIOD, RSI_PERIOD),
               RollingMean(Each(Fall, delta), RSI_PERIOD, RSI_PERIOD))
  }

  function EntryWindow(bars: seq<Bar>): (c: seq<bool>)
    ensures |c| == |bars|
  {
    seq(|bars|, i requires 0 <= i < |bars| =>
      Rth(bars)[i] && DRIVE_WINDOW_MIN <= bars[i].minute - RTH_OPEN_MIN < ENTRY_WINDOW_END_MIN)
  }

  function Precompute(bars: seq<Bar>): State {
    if |bars| < MIN_BARS then Empty
    else State(Closes(bars), Lows(bars), Vwap(bars), DayOpen(bars), DriveLow(bars),
               Zip(Sub, DayOpen(bars), DriveLow(bars)), Atr(bars), Rsi(bars), Volumes(bars),
               VolumeAverage(bars, VOL_WINDOW), EntryWindow(bars))
  }

  // ---------- What the columns say ----------

  /** The drive low of a bar is the lowest known low of the drive-window bars of its day up to it. */
  lemma {:induction false} DriveLowIs(bars: seq<Bar>, i: nat)
    requires i < |bars|
    ensures IsSmallest(Where(Lows(bars), DriveWindow(bars), NaN), Days(bars), i + 1, bars[i].day, DriveLow(bars)[i])
  {
    var low := Where(Lows(bars), DriveWindow(bars), NaN);
    CarriedSmallest(low, Days(bars), i + 1, bars[i].day);
    RunSmallest(low, Days(bars), i + 1, bars[i].day);
  }

  /** The j-th bar is the first regular-hours bar of its day. */
  ghost predicate OpensDay(bars: seq<Bar>, j: int) {
    && 0 <= j < |bars| && Rth(bars)[j]
    && forall k :: 0 <= k < j && bars[k].day == bars[j].day ==> !Rth(bars)[k]
  }

  lemma {:induction false} NoneSoFar(bars: seq<Bar>, n: nat, day: int)
    requires n <= |bars|
    ensures RthSoFar(bars, n, day) == 0 <==> forall k :: 0 <= k < n && bars[k].day == day ==> !Rth(bars)[k]
  {
    if n == 0 {
    } else {
      NoneSoFar(bars, n - 1, day);
    }
  }

  lemma {:induction false} FirstRthIs(bars: seq<Bar>, j: nat)
    requires j < |bars|
    ensures FirstRth(bars)[j] <==> OpensDay(bars, j)
  {
    NoneSoFar(bars, j, bars[j].day);
  }

  lemma {:induction false} CarriedOpen(bars: seq<Bar>, j: nat, n: nat)
    requires OpensDay(bars, j) && n <= |bars|
    ensures Run(Later, NaN, Where(Opens(bars), FirstRth(bars), NaN), Days(bars), n, bars[j].day)
         == if n <= j then NaN else bars[j].open
  {
    if n == 0 {
    } else {
      CarriedOpen(bars, j, n - 1);
      FirstRthIs(bars, n - 1);
      assert bars[n - 1].day == bars[j].day && OpensDay(bars, n - 1) ==> n - 1 == j;
    }
  }

  /** The day open of a bar is the open of its day's first regular-hours bar from that bar on, and missing
      before. */
  lemma {:induction false} DayOpenIs(bars: seq<Bar>, j: nat, i: nat)
    requires OpensDay(bars, j) && i < |bars| && bars[i].day == bars[j].day
    ensures DayOpen(bars)[i] == if i < j then NaN else bars[j].open
  {
    CarriedOpen(bars, j, i + 1);
  }

  /** The daily ATR of a bar in the g-th session: the mean true range of the sessions g - 14 to g - 1, five
      of them known at least, and never of its own. */
  lemma {:induction false} AtrIs(bars: seq<Bar>, i: nat) returns (g: nat)
    requires i < |bars|
    ensures g < |AllDays(bars)| && AllDays(bars)[g] == bars[i].day
    ensures Atr(bars)[i] == MeanOf(DailyTrueRange(bars), if g >= ATR_DAYS then g - ATR_DAYS else 0, g, 5)
  {
    var days := Days(bars);
    GroupMembers(days, Everyone(bars), |bars|);
    g := IndexOf(AllDays(bars), bars[i].day);
    assert days[i] in AllDays(bars);
    ShiftedMean(DailyTrueRange(bars), ATR_DAYS, 5, g);
  }

  /** The RSI calls a bar oversold exactly when the mean gain is at most 3/7 of the mean loss. */
  lemma {:induction false} OversoldMeans(rs: real)
    requires rs >= 0.0
    ensures Le(RsiOfRatio(Fin(rs)), RSI_OVERSOLD) <==> 7.0 * rs <= 3.0
  {
    var base := Fin(1.0 + rs);
    var fall := OversoldFall(rs, base);
    RsiFrom(Fin(rs), base, Fin(fall));
  }

  /** The RSI is 100 minus the quotient of 100 and base. */
  lemma {:induction false} RsiFrom(rs: Num, base: Num, fall: Num)
    requires Add(Fin(1.0), rs) == base && Div(Fin(100.0), base) == fall
    ensures RsiOfRatio(rs) == Sub(Fin(100.0), fall)
  {
  }

  lemma {:induction false} OversoldFall(rs: real, base: Num) returns (fall: real)
    requires rs >= 0.0 && base == Fin(1.0 + rs)
    ensures Div(Fin(100.0), base) == Fin(fall) && (100.0 - fall <= 30.0 <==> 7.0 * rs <= 3.0)
  {
    fall := Ratio(100.0, 1.0 + rs);
    ThreeSevenths(rs, fall);
  }

  /** Without a loss it is missing. */
  lemma {:induction false} NoLossNoRsi(gain: Num)
    ensures RsiOf(gain, Fin(0.0)) == NaN
  {
  }

  lemma {:induction false} Ratio(a: real, b: real) returns (q: real)
    requires a >= 0.0 && b > 0.0
    ensures Div(Fin(a), Fin(b)) == Fin(q) && b * q == a && q >= 0.0
  {
    q := a / b;
    assert b * q == a;
    SignOfFactor(b, q);
  }

  lemma {:induction false} ThreeSevenths(ratio: real, fall: real)
    requires ratio >= 0.0 && (1.0 + ratio) * fall == 100.0
    ensures 100.0 - fall <= 30.0 <==> 7.0 * ratio <= 3.0
  {
    var b, x, y := 1.0 + ratio, fall - 70.0, 3.0 - 7.0 * ratio;
    SignOfFactor(b, x);
    assert b * x == b * fall - 70.0 * b == 10.0 * y;
  }

  // ---------- No lookahead ----------

  predicate Sized(st: State, n: nat) {
    st.State? ==> |st.close| == |st.low| == |st.vwap| == |st.dayOpen| == |st.driveLow| == |st.driveDown|
                == |st.atr| == |st.rsi| == |st.vol| == |st.volAvg| == |st.entryWindow| == n
  }

  /** The first k values of every column. */
  ghost function Upto(st: State, k: nat): State
    requires st.State? && Sized(st, |st.close|) && k <= |st.close|
  {
    State(st.close[..k], st.low[..k], st.vwap[..k], st.dayOpen[..k], st.driveLow[..k], st.driveDown[..k],
          st.atr[..k], st.rsi[..k], st.vol[..k], st.volAvg[..k], st.entryWindow[..k])
  }

  lemma {:induction false} RthSoFarPrefix(bars: seq<Bar>, k: nat, n: nat, day: int)
    requires n <= k <= |bars|
    ensures RthSoFar(bars[..k], n, day) == RthSoFar(bars, n, day)
  {
    if n == 0 {
    } else {
      RthSoFarPrefix(bars, k, n - 1, day);
    }
  }

  lemma {:induction false} DriveColumnsPrefix(bars: seq<Bar>, k: nat)
    requires k <= |bars|
    ensures DayOpen(bars[..k]) == DayOpen(bars)[..k] && DriveLow(bars[..k]) == DriveLow(bars)[..k]
  {
    BarPrefix(bars, k);
    forall i | 0 <= i < k ensures FirstRth(bars[..k])[i] == FirstRth(bars)[i] {
      RthSoFarPrefix(bars, k, i + 1, bars[i].day);
    }
    var firstOpen := Where(Opens(bars), FirstRth(bars), NaN);
    assert Where(Opens(bars[..k]), FirstRth(bars[..k]), NaN) == firstOpen[..k];
    FillPrefix(firstOpen, Days(bars), k);
    var low := Where(Lows(bars), DriveWindow(bars), NaN);
    assert Where(Lows(bars[..k]), DriveWindow(bars[..k]), NaN) == low[..k];
    CumulatePrefix(Smaller, NaN, low, Days(bars), k);
    FillPrefix(Cumulate(Smaller, NaN, low, Days(bars)), Days(bars), k);
  }

  lemma {:induction false} RsiPrefix(bars: seq<Bar>, k: nat)
    requires k <= |bars|
    ensures Rsi(bars[..k]) == Rsi(bars)[..k]
  {
    var part := Zip(Sub, Closes(bars[..k]), Shift(Closes(bars[..k])));
    var whole := Zip(Sub, Closes(bars), Shift(Closes(bars)));
    BarPrefix(bars, k);
    assert part == whole[..k];
    assert Each(Rise, part) == Each(Rise, whole)[..k] && Each(Fall, part) == Each(Fall, whole)[..k];
    MeanPrefix(Each(Rise, part), Each(Rise, whole), RSI_PERIOD, RSI_PERIOD, k);
    MeanPrefix(Each(Fall, part), Each(Fall, whole), RSI_PERIOD, RSI_PERIOD, k);
  }

  /** Highs, lows and closes of the prefix's days are final, except on its last day. */
  lemma {:induction false} EarlierDaysFinal(bars: seq<Bar>, k: nat, g: nat)
    requires TimeSorted(bars) && k <= |bars| && g + 1 < |AllDays(bars[..k])|
    ensures |AllDays(bars[..k])| <= |AllDays(bars)|
    ensures DayHigh(bars[..k])[g] == DayHigh(bars)[g] && DayLow(bars[..k])[g] == DayLow(bars)[g]
    ensures DayClose(bars[..k])[g] == DayClose(bars)[g]
  {
    var days, member := Days(bars), Everyone(bars);
    BarPrefix(bars, k);
    DayGroups(bars, member, k);
    var some, all := Groups(days, member, k), AllDays(bars);
    assert some[g] == all[..|some|][g] == all[g];
    assert RthValues(Highs(bars[..k]), bars[..k]) == RthValues(Highs(bars), bars)[..k];
    assert RthValues(Lows(bars[..k]), bars[..k]) == RthValues(Lows(bars), bars)[..k];
    assert RthValues(Closes(bars[..k]), bars[..k]) == RthValues(Closes(bars), bars)[..k];
    EarlierGroupsComplete(Larger, NaN, RthValues(Highs(bars), bars), days, member, k, g);
    EarlierGroupsComplete(Smaller, NaN, RthValues(Lows(bars), bars), days, member, k, g);
    EarlierGroupsComplete(Later, NaN, RthValues(Closes(bars), bars), days, member, k, g);
  }

  lemma {:induction false} EarlierTrueRangesFinal(bars: seq<Bar>, k: nat, g: nat)
    requires TimeSorted(bars) && k <= |bars| && g + 1 < |AllDays(bars[..k])|
    ensures |AllDays(bars[..k])| <= |AllDays(bars)|
    ensures DailyTrueRange(bars[..k])[g] == DailyTrueRange(bars)[g]
  {
    EarlierDaysFinal(bars, k, g);
    if g > 0 { EarlierDaysFinal(bars, k, g - 1); }
    var part := bars[..k];
    SameTrueRange(DayHigh(part), DayLow(part), DayClose(part), DayHigh(bars), DayLow(bars), DayClose(bars), g);
  }

  lemma {:induction false} SameTrueRange(high: Col, low: Col, close: Col, high': Col, low': Col, close': Col, g: nat)
    requires |high| == |low| == |close| && |high'| == |low'| == |close'| && g < |high| && g < |high'|
    requires high[g] == high'[g] && low[g] == low'[g] && (g > 0 ==> close[g - 1] == close'[g - 1])
    ensures TrueRange(high, low, close)[g] == TrueRange(high', low', close')[g]
  {
  }

  /** The daily ATR is built from whole-day highs, lows and last closes, and is still the same on
      every prefix, because it is shifted by one day before it is used. */
  lemma {:induction false} AtrPrefix(bars: seq<Bar>, k: nat)
    requires TimeSorted(bars) && k <= |bars|
    ensures Atr(bars[..k]) == Atr(bars)[..k]
  {
    var days, member := Days(bars), Everyone(bars);
    BarPrefix(bars, k);
    DayGroups(bars, member, k);
    var some := Groups(days, member, k);
    var part, whole := DailyTrueRange(bars[..k]), DailyTrueRange(bars);
    forall g: nat | g + 1 < |some| ensures part[g] == whole[g] { EarlierTrueRangesFinal(bars, k, g); }
    ShiftPrefix(part, whole);
    MeanPrefix(Shift(part), Shift(whole), ATR_DAYS, 5, |some|);
    MapBackPrefix(days, member, k, RollingMean(Shift(part), ATR_DAYS, 5), RollingMean(Shift(whole), ATR_DAYS, 5));
  }

  /** No lookahead: on every prefix long enough to trade on, every column equals the whole series'
      column cut to the prefix. */
  lemma {:induction false} NoLookahead(bars: seq<Bar>, k: nat)
    requires TimeSorted(bars) && MIN_BARS <= k <= |bars|
    ensures Precompute(bars[..k]) == Upto(Precompute(bars), k)
  {
    BarPrefix(bars, k);
    VwapPrefix(bars, k);
    DriveColumnsPrefix(bars, k);
    AtrPrefix(bars, k);
    RsiPrefix(bars, k);
    VolumeAveragePrefix(bars, VOL_WINDOW, k);
    assert EntryWindow(bars[..k]) == EntryWindow(bars)[..k];
  }

  // ---------- The entry rule ----------

  function OnBar(st: State, index: nat): Option<Action>
    requires Sized(st, if st.State? then |st.close| else 0) && (st.State? ==> index < |st.close|)
  {
    if st.Empty? || index < MIN_BARS then None
    else if !st.entryWindow[index] then None
    else
      var atr, volAvg := st.atr[index], st.volAvg[index];
      if st.vwap[index] == NaN || st.driveLow[index] == NaN || st.driveDown[index] == NaN || atr == NaN
         || st.rsi[index] == NaN || volAvg == NaN || Le(volAvg, Fin(0.0)) || Le(atr, Fin(0.0)) then None
      else if Lt(st.driveDown[index], Scale(atr, DRIVE_ATR_MULT)) then None
      else if Ge(st.close[index], st.vwap[index]) then None
      else if Gt(st.rsi[index], RSI_OVERSOLD) then None
      else if Gt(st.vol[index], Scale(volAvg, VOL_EXHAUST_MULT)) then None
      else if Gt(Sub(st.low[index], st.driveLow[index]), Scale(atr, NEAR_LOW_MULT)) then None
      else if PrevFormed(st, index - 1) then None
      else Some(BUY)
  }

  /** The `prev_formed` expression, for the bar p before the current one. */
  predicate PrevFormed(st: State, p: nat)
    requires st.State? && Sized(st, |st.close|) && p < |st.close|
  {
    && st.entryWindow[p]
    && st.rsi[p] != NaN && st.volAvg[p] != NaN && Gt(st.volAvg[p], Fin(0.0))
    && st.driveDown[p] != NaN && st.atr[p] != NaN && Gt(st.atr[p], Fin(0.0))
    && Ge(st.driveDown[p], Scale(st.atr[p], DRIVE_ATR_MULT))
    && Lt(st.close[p], st.vwap[p])
    && Le(st.rsi[p], RSI_OVERSOLD)
    && Le(st.vol[p], Scale(st.volAvg[p], VOL_EXHAUST_MULT))
    && Le(Sub(st.low[p], st.driveLow[p]), Scale(st.atr[p], NEAR_LOW_MULT))
  }

  predicate Formed(st: State, p: int) {
    st.State? && Sized(st, |st.close|) && 0 <= p < |st.close| && PrevFormed(st, p)
  }

  predicate BuysAt(st: State, i: int) {
    st.State? && Sized(st, |st.close|) && 0 <= i < |st.close| && OnBar(st, i) == Some(BUY)
  }

  /** No rejection of `on_bar` applies at an entry-window bar. */
  predicate NotRejected(st: State, i: int)
    requires st.State? && Sized(st, |st.close|) && 0 <= i < |st.close|
  {
    && st.vwap[i] != NaN && st.driveLow[i] != NaN && st.driveDown[i] != NaN && st.atr[i] != NaN
    && st.rsi[i] != NaN && st.volAvg[i] != NaN && !Le(st.volAvg[i], Fin(0.0)) && !Le(st.atr[i], Fin(0.0))
    && !Lt(st.driveDown[i], Scale(st.atr[i], DRIVE_ATR_MULT))
    && !Ge(st.close[i], st.vwap[i])
    && !Gt(st.rsi[i], RSI_OVERSOLD)
    && !Gt(st.vol[i], Scale(st.volAvg[i], VOL_EXHAUST_MULT))
    && !Gt(Sub(st.low[i], st.driveLow[i]), Scale(st.atr[i], NEAR_LOW_MULT))
  }

  /** A value that `on_bar` compares without a check is missing. */
  predicate Unknown(st: State, i: int)
    requires st.State? && Sized(st, |st.close|) && 0 <= i < |st.close|
  {
    st.close[i] == NaN || st.vol[i] == NaN || Sub(st.low[i], st.driveLow[i]) == NaN
  }

  /** A bar that passes every rejection only because a comparison with a missing value is false. */
  predicate Slips(st: State, i: int) {
    && st.State? && Sized(st, |st.close|) && 0 <= i < |st.close|
    && st.entryWindow[i] && NotRejected(st, i) && Unknown(st, i) && !Formed(st, i - 1)
  }

  /** `on_bar` buys at the entry-window bars that no rejection applies to and that the setup does not
      precede. */
  lemma {:induction false} BuysUnlessRejected(st: State, i: nat)
    requires st.State? && Sized(st, |st.close|) && MIN_BARS <= i < |st.close|
    ensures BuysAt(st, i) <==> st.entryWindow[i] && NotRejected(st, i) && !Formed(st, i - 1)
  {
  }

  /** Of the bars that no rejection applies to, those with every compared value known meet every
      condition of `prev_formed`, and no other bar does. */
  lemma {:induction false} QualifiersAgree(st: State, i: nat)
    requires st.State? && Sized(st, |st.close|) && MIN_BARS <= i < |st.close|
    ensures Formed(st, i) <==> st.entryWindow[i] && NotRejected(st, i) && !Unknown(st, i)
  {
    var atr, volAvg := st.atr[i], st.volAvg[i];
    assert Gt(atr, Fin(0.0)) ==> Scale(atr, DRIVE_ATR_MULT) != NaN && Scale(atr, NEAR_LOW_MULT) != NaN;
    assert Gt(volAvg, Fin(0.0)) ==> Scale(volAvg, VOL_EXHAUST_MULT) != NaN;
    NotLessIsAtLeast(st.driveDown[i], Scale(atr, DRIVE_ATR_MULT));
    NotLessIsAtLeast(st.close[i], st.vwap[i]);
    NotLessIsAtLeast(RSI_OVERSOLD, st.rsi[i]);
    NotLessIsAtLeast(Scale(volAvg, VOL_EXHAUST_MULT), st.vol[i]);
    NotLessIsAtLeast(Scale(atr, NEAR_LOW_MULT), Sub(st.low[i], st.driveLow[i]));
    PositiveIsNotAtMost(atr);
    PositiveIsNotAtMost(volAvg);
  }

  /** Exactly when the rule fires as promised, for any columns: a BUY at bar i if and only if the setup
      holds at i and did not hold one bar earlier, unless the bar slips through. */
  lemma {:induction false} FiresExactly(st: State, i: nat)
    requires st.State? && Sized(st, |st.close|) && MIN_BARS <= i < |st.close|
    ensures (BuysAt(st, i) <==> Formed(st, i) && !Formed(st, i - 1)) <==> !Slips(st, i)
  {
    BuysUnlessRejected(st, i);
    QualifiersAgree(st, i);
  }

  predicate Setup(bars: seq<Bar>, p: int) { Formed(Precompute(bars), p) }

  predicate Buys(bars: seq<Bar>, i: int) { BuysAt(Precompute(bars), i) }

  predicate SlipsThrough(bars: seq<Bar>, i: int) { Slips(Precompute(bars), i) }

  /** On every series: a BUY at bar i if and only if the setup holds at i and not at i - 1, except exactly
      where the bar slips through. */
  lemma {:induction false} BuysWhereSetupForms(bars: seq<Bar>, i: nat)
    requires MIN_BARS <= i < |bars|
    ensures (Buys(bars, i) <==> Setup(bars, i) && !Setup(bars, i - 1)) <==> !SlipsThrough(bars, i)
  {
    FiresExactly(Precompute(bars), i);
  }

  /** What makes a bar slip through: a low that cannot be compared with the drive low, because it is
      missing or both are infinite. Without a close or a volume the VWAP is missing, which is checked. */
  lemma {:induction false} MissingLowSlipsThrough(bars: seq<Bar>, i: nat)
    requires MIN_BARS <= i < |bars|
    ensures SlipsThrough(bars, i)
       <==> && EntryWindow(bars)[i] && NotRejected(Precompute(bars), i) && !Setup(bars, i - 1)
            && Sub(bars[i].low, DriveLow(bars)[i]) == NaN
  {
    if EntryWindow(bars)[i] && (bars[i].close == NaN || bars[i].volume == NaN) { VwapMissing(bars, i); }
  }

  lemma {:induction false} AnswerUpto(st: State, k: nat, i: nat)
    requires st.State? && Sized(st, |st.close|) && i < k <= |st.close|
    ensures OnBar(Upto(st, k), i) == OnBar(st, i)
  {
  }

  /** Signals use no future bar. */
  lemma {:induction false} SignalsUseNoFuture(bars: seq<Bar>, k: nat, i: nat)
    requires TimeSorted(bars) && MIN_BARS <= k <= |bars| && i < k
    ensures OnBar(Precompute(bars[..k]), i) == OnBar(Precompute(bars), i)
  {
    NoLookahead(bars, k);
    AnswerUpto(Precompute(bars), k, i);
  }

  function RuleOf(st: State): Rule {
    Rule(i => Formed(st, i), i => BuysAt(st, i), i => i >= MIN_BARS && Slips(st, i), MIN_BARS)
  }

  lemma {:induction false} ExactAt(st: State, i: nat)
    requires st.State? && Sized(st, |st.close|) && MIN_BARS <= i < |st.close|
    ensures FiresAt(RuleOf(st), i) <==> !RuleOf(st).slips(i)
  {
    FiresExactly(st, i);
    ExactAtBar(RuleOf(st), i, Formed(st, i), Formed(st, i - 1), BuysAt(st, i), Slips(st, i));
  }

  lemma {:induction false} RuleIsExact(st: State, n: nat)
    requires st.State? && Sized(st, n)
    ensures Exact(RuleOf(st), n)
  {
    forall i: nat | i < n ensures FiresAt(RuleOf(st), i) <==> !RuleOf(st).slips(i) {
      if i >= MIN_BARS { ExactAt(st, i); }
    }
  }

  lemma {:induction false} NoneSlips(st: State, n: nat)
    ensures NeverSlips(RuleOf(st), n) <==> forall i :: MIN_BARS <= i < n ==> !Slips(st, i)
  {
    var rule := RuleOf(st);
    assert forall i: nat :: rule.slips(i) <==> i >= MIN_BARS && Slips(st, i);
  }

  /** The rule is an edge trigger on the setup if and only if no bar slips through. */
  lemma {:induction false} FiresOnEdgesExactly(st: State, n: nat)
    requires st.State? && Sized(st, n)
    ensures FiresOnEdges(RuleOf(st), n) <==> forall i :: MIN_BARS <= i < n ==> !Slips(st, i)
  {
    RuleIsExact(st, n);
    FiresUnlessSlips(RuleOf(st), n);
    NoneSlips(st, n);
  }

  lemma {:induction false} LowIsComparable(low: Num, driveLow: Num)
    ensures low.Fin? && driveLow != NaN ==> Sub(low, driveLow) != NaN
  {
  }

  lemma {:induction false} NoneSlipsThrough(bars: seq<Bar>, st: State)
    requires st == Precompute(bars) && forall i :: MIN_BARS <= i < |bars| ==> !SlipsThrough(bars, i)
    ensures NeverSlips(RuleOf(st), |bars|)
  {
    forall i | MIN_BARS <= i < |bars| ensures !Slips(st, i) { assert !SlipsThrough(bars, i); }
    NoneSlips(st, |bars|);
  }

  lemma {:induction false} CleanBar(bars: seq<Bar>, i: nat)
    requires MIN_BARS <= i < |bars| && bars[i].low.Fin?
    ensures !SlipsThrough(bars, i)
  {
    MissingLowSlipsThrough(bars, i);
    LowIsComparable(bars[i].low, DriveLow(bars)[i]);
  }

  lemma {:induction false} CleanSeriesNeverSlips(bars: seq<Bar>)
    requires MIN_BARS <= |bars| && forall i :: 0 <= i < |bars| ==> bars[i].low.Fin?
    ensures NeverSlips(RuleOf(Precompute(bars)), |bars|)
  {
    forall i | MIN_BARS <= i < |bars| ensures !SlipsThrough(bars, i) { CleanBar(bars, i); }
    NoneSlipsThrough(bars, Precompute(bars));
  }

  /** When no bar slips through: one BUY for each maximal run of the setup that starts at or after MIN_BARS,
      none in an earlier run, every BUY opens such a run, and there are as many BUYs as such runs. */
  lemma {:induction false} OneBuyPerSetup(bars: seq<Bar>)
    requires MIN_BARS <= |bars| && NeverSlips(RuleOf(Precompute(bars)), |bars|)
    ensures OneBuyEach(RuleOf(Precompute(bars)), |bars|)
  {
    var rule := RuleOf(Precompute(bars));
    RuleIsExact(Precompute(bars), |bars|);
    FiresUnlessSlips(rule, |bars|);
    EdgesBuyEach(rule, |bars|);
  }
}
