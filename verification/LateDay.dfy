/** strategies/late_day_momentum.py: the columns `precompute` derives and the entry rule of
    `on_bar`. */
module LateDay {
  import opened Common
  import opened Num
  import opened Columns
  import opened Bars
  import opened EdgeTrigger

  const ENTRY_START_MIN: int := 14 * 60 + 30
  const ENTRY_END_MIN: int := 15 * 60 + 15
  const VWAP_PREMIUM_PCT: Num := Fin(0.5)
  const VOL_WINDOW: nat := 20
  const VOL_MULT: real := 1.1
  const RANGE_EXPANSION: real := 1.15
  const MIN_BARS: nat := 120

  /** An empty state is the `{}` returned for too short a series. */
  datatype State = Empty | State(close: Col, vwap: Col, rangeSoFar: Col, prior5: Col, vol: Col, volAvg: Col,
                                 entryWindow: seq<bool>)

  function RangeSoFar(bars: seq<Bar>): (c: Col)
    ensures |c| == |bars|
  {
    var rthHigh := Where(Highs(bars), Rth(bars), NaN);
    var rthLow := Where(Lows(bars), Rth(bars), NaN);
    Zip(Sub, Cumulate(Larger, NaN, rthHigh, Days(bars)), Cumulate(Smaller, NaN, rthLow, Days(bars)))
  }

  /** Each bar's full-day range. On its own this looks ahead within the day. */
  function FullDayRange(bars: seq<Bar>): (c: Col)
    ensures |c| == |bars|
  {
    var rthHigh := Where(Highs(bars), Rth(bars), NaN);
    var rthLow := Where(Lows(bars), Rth(bars), NaN);
    Zip(Sub, Transform(Larger, NaN, rthHigh, Days(bars)), Transform(Smaller, NaN, rthLow, Days(bars)))
  }

  function DailyRange(bars: seq<Bar>): (c: Col)
    ensures |c| == |Groups(Days(bars), Everyone(bars), |bars|)|
  {
    Daily(Earlier, NaN, FullDayRange(bars), Days(bars), Groups(Days(bars), Everyone(bars), |bars|))
  }

  /** Mean range of the five sessions before each bar's own. */
  function Prior5Mean(bars: seq<Bar>): (c: Col)
    ensures |c| == |bars|
  {
    MapBack(Days(bars), Everyone(bars), Groups(Days(bars), Everyone(bars), |bars|),
            RollingMean(Shift(DailyRange(bars)), 5, 3))
  }

  function Precompute(bars: seq<Bar>): State {
    if |bars| < MIN_BARS then Empty
    else State(Closes(bars), Vwap(bars), RangeSoFar(bars), Prior5Mean(bars), Volumes(bars),
               VolumeAverage(bars, VOL_WINDOW), EntryWindow(bars))
  }

  function EntryWindow(bars: seq<Bar>): (c: seq<bool>)
    ensures |c| == |bars|
  {
    seq(|bars|, i requires 0 <= i < |bars| => Rth(bars)[i] && ENTRY_START_MIN <= bars[i].minute < ENTRY_END_MIN)
  }

  /** The first k values of every column. */
  ghost function Upto(st: State, k: nat): State
    requires st.State?
    requires k <= |st.close| && k <= |st.vwap| && k <= |st.rangeSoFar| && k <= |st.prior5|
    requires k <= |st.vol| && k <= |st.volAvg| && k <= |st.entryWindow|
  {
    State(st.close[..k], st.vwap[..k], st.rangeSoFar[..k], st.prior5[..k], st.vol[..k], st.volAvg[..k],
          st.entryWindow[..k])
  }

  lemma {:induction false} RangeSoFarPrefix(bars: seq<Bar>, k: nat)
    requires k <= |bars|
    ensures RangeSoFar(bars[..k]) == RangeSoFar(bars)[..k]
  {
    var hi, lo := Where(Highs(bars), Rth(bars), NaN), Where(Lows(bars), Rth(bars), NaN);
    BarPrefix(bars, k);
    assert Where(Highs(bars[..k]), Rth(bars[..k]), NaN) == hi[..k];
    assert Where(Lows(bars[..k]), Rth(bars[..k]), NaN) == lo[..k];
    CumulatePrefix(Larger, NaN, hi, Days(bars), k);
    CumulatePrefix(Smaller, NaN, lo, Days(bars), k);
  }

  /** The first value of the broadcast range is the range of the whole day: from the lowest to the highest
      regular-hours price of the day in the whole series. */
  lemma {:induction false} DailyRangeIs(bars: seq<Bar>, g: nat)
    requires g < |Groups(Days(bars), Everyone(bars), |bars|)|
    ensures var d := Groups(Days(bars), Everyone(bars), |bars|)[g];
            var hi, lo := Where(Highs(bars), Rth(bars), NaN), Where(Lows(bars), Rth(bars), NaN);
            var h, l := Run(Larger, NaN, hi, Days(bars), |bars|, d), Run(Smaller, NaN, lo, Days(bars), |bars|, d);
            && DailyRange(bars)[g] == Sub(h, l)
            && IsLargest(hi, Days(bars), |bars|, d, h) && IsSmallest(lo, Days(bars), |bars|, d, l)
  {
    var groups := Groups(Days(bars), Everyone(bars), |bars|);
    var d := groups[g];
    var hi, lo := Where(Highs(bars), Rth(bars), NaN), Where(Lows(bars), Rth(bars), NaN);
    GroupMembers(Days(bars), Everyone(bars), |bars|);
    assert d in groups;
    FirstOfConstant(FullDayRange(bars), Days(bars), |bars|, d,
                    Sub(Run(Larger, NaN, hi, Days(bars), |bars|, d), Run(Smaller, NaN, lo, Days(bars), |bars|, d)));
    RunLargest(hi, Days(bars), |bars|, d);
    RunSmallest(lo, Days(bars), |bars|, d);
  }

  /** In session, the range so far runs from the lowest to the highest regular-hours price of the day up to
      the bar. */
  lemma {:induction false} RangeSoFarIs(bars: seq<Bar>, i: nat) returns (h: Num, l: Num)
    requires i < |bars| && Rth(bars)[i] && bars[i].high != NaN && bars[i].low != NaN
    ensures RangeSoFar(bars)[i] == Sub(h, l)
    ensures IsLargest(Where(Highs(bars), Rth(bars), NaN), Days(bars), i + 1, bars[i].day, h)
    ensures IsSmallest(Where(Lows(bars), Rth(bars), NaN), Days(bars), i + 1, bars[i].day, l)
  {
    var hi, lo := Where(Highs(bars), Rth(bars), NaN), Where(Lows(bars), Rth(bars), NaN);
    h, l := Run(Larger, NaN, hi, Days(bars), i + 1, bars[i].day), Run(Smaller, NaN, lo, Days(bars), i + 1, bars[i].day);
    RunLargest(hi, Days(bars), i + 1, bars[i].day);
    RunSmallest(lo, Days(bars), i + 1, bars[i].day);
  }

  /** The prior mean of a bar in the g-th session: over the sessions g - 5 to g - 1, three of them known
      at least, and never over its own. */
  lemma {:induction false} Prior5Is(bars: seq<Bar>, i: nat) returns (g: nat)
    requires i < |bars|
    ensures g < |DailyRange(bars)| && Groups(Days(bars), Everyone(bars), |bars|)[g] == bars[i].day
    ensures Prior5Mean(bars)[i] == MeanOf(DailyRange(bars), if g >= 5 then g - 5 else 0, g, 3)
  {
    var days := Days(bars);
    GroupMembers(days, Everyone(bars), |bars|);
    g := IndexOf(Groups(days, Everyone(bars), |bars|), bars[i].day);
    assert days[i] in Groups(days, Everyone(bars), |bars|);
    ShiftedMean(DailyRange(bars), 5, 3, g);
  }

  /** Although a day's range is known only when the day is over, the mean of the prior sessions is
      the same on every prefix. */
  lemma {:induction false} Prior5Prefix(bars: seq<Bar>, k: nat)
    requires TimeSorted(bars) && k <= |bars|
    ensures Prior5Mean(bars[..k]) == Prior5Mean(bars)[..k]
  {
    var days, member := Days(bars), Everyone(bars);
    var all, some := Groups(days, member, |bars|), Groups(days, member, k);
    var part, whole := DailyRange(bars[..k]), DailyRange(bars);
    var hi, lo := Where(Highs(bars), Rth(bars), NaN), Where(Lows(bars), Rth(bars), NaN);
    BarPrefix(bars, k);
    DayGroups(bars, member, k);
    assert Where(Highs(bars[..k]), Rth(bars[..k]), NaN) == hi[..k];
    assert Where(Lows(bars[..k]), Rth(bars[..k]), NaN) == lo[..k];
    forall g: nat | g + 1 < |some| ensures part[g] == whole[g] {
      DailyRangeIs(bars[..k], g);
      DailyRangeIs(bars, g);
      EarlierGroupsComplete(Larger, NaN, hi, days, member, k, g);
      EarlierGroupsComplete(Smaller, NaN, lo, days, member, k, g);
    }
    ShiftPrefix(part, whole);
    MeanPrefix(Shift(part), Shift(whole), 5, 3, |some|);
    MapBackPrefix(days, member, k, RollingMean(Shift(part), 5, 3), RollingMean(Shift(whole), 5, 3));
  }

  /** No lookahead: on every prefix long enough to trade on, every column equals the whole series'
      column cut to the prefix. */
  lemma {:induction false} NoLookahead(bars: seq<Bar>, k: nat)
    requires TimeSorted(bars) && MIN_BARS <= k <= |bars|
    ensures Precompute(bars[..k]) == Upto(Precompute(bars), k)
  {
    BarPrefix(bars, k);
    VwapPrefix(bars, k);
    RangeSoFarPrefix(bars, k);
    Prior5Prefix(bars, k);
    VolumeAveragePrefix(bars, VOL_WINDOW, k);
    assert EntryWindow(bars[..k]) == EntryWindow(bars)[..k];
  }

  // ---------- The entry rule ----------

  predicate Sized(st: State, n: nat) {
    st.State? ==> |st.close| == |st.vwap| == |st.rangeSoFar| == |st.prior5| == |st.vol| == |st.volAvg|
                == |st.entryWindow| == n
  }

  /** How far the close is above the VWAP, in percent of the VWAP. */
  function Premium(close: Num, vwap: Num): Num {
    Scale(Div(Sub(close, vwap), vwap), 100.0)
  }

  function OnBar(st: State, index: nat): Option<Action>
    requires Sized(st, if st.State? then |st.close| else 0) && (st.State? ==> index < |st.close|)
  {
    if st.Empty? || index < MIN_BARS then None
    else if !st.entryWindow[index] then None
    else
      var close, vwap, dayRange := st.close[index], st.vwap[index], st.rangeSoFar[index];
      var prior5, vol, volAvg := st.prior5[index], st.vol[index], st.volAvg[index];
      if vwap == NaN || dayRange == NaN || prior5 == NaN || volAvg == NaN
         || Le(volAvg, Fin(0.0)) || Le(prior5, Fin(0.0)) then None
      else if Lt(Premium(close, vwap), VWAP_PREMIUM_PCT) then None
      else if Lt(dayRange, Scale(prior5, RANGE_EXPANSION)) then None
      else if Lt(vol, Scale(volAvg, VOL_MULT)) then None
      else if Lt(close, st.close[index - 1]) then None
      else if index >= 2 && st.entryWindow[index - 1] && PrevFormed(st, index - 1) then None
      else Some(BUY)
  }

  /** The `prev_formed` expression, for the bar p before the current one. */
  predicate PrevFormed(st: State, p: nat)
    requires st.State? && Sized(st, |st.close|) && 1 <= p < |st.close|
  {
    && st.vwap[p] != NaN && st.rangeSoFar[p] != NaN && st.prior5[p] != NaN && st.volAvg[p] != NaN
    && Gt(st.volAvg[p], Fin(0.0)) && Gt(st.prior5[p], Fin(0.0))
    && Ge(Premium(st.close[p], st.vwap[p]), VWAP_PREMIUM_PCT)
    && Ge(st.rangeSoFar[p], Scale(st.prior5[p], RANGE_EXPANSION))
    && Ge(st.vol[p], Scale(st.volAvg[p], VOL_MULT))
    && Ge(st.close[p], st.close[p - 1])
  }

  /** The full setup: in the entry window with every qualifier met. */
  predicate Formed(st: State, p: int) {
    && st.State? && Sized(st, |st.close|) && 1 <= p < |st.close|
    && st.entryWindow[p] && PrevFormed(st, p)
  }

  predicate BuysAt(st: State, i: int) {
    st.State? && Sized(st, |st.close|) && 0 <= i < |st.close| && OnBar(st, i) == Some(BUY)
  }

  /** No rejection of `on_bar` applies at an entry-window bar. */
  predicate NotRejected(st: State, i: int)
    requires st.State? && Sized(st, |st.close|) && 1 <= i < |st.close|
  {
    && st.vwap[i] != NaN && st.rangeSoFar[i] != NaN && st.prior5[i] != NaN && st.volAvg[i] != NaN
    && !Le(st.volAvg[i], Fin(0.0)) && !Le(st.prior5[i], Fin(0.0))
    && !Lt(Premium(st.close[i], st.vwap[i]), VWAP_PREMIUM_PCT)
    && !Lt(st.rangeSoFar[i], Scale(st.prior5[i], RANGE_EXPANSION))
    && !Lt(st.vol[i], Scale(st.volAvg[i], VOL_MULT))
    && !Lt(st.close[i], st.close[i - 1])
  }

  /** A value that `on_bar` compares without a check is missing. */
  predicate Unknown(st: State, i: int)
    requires st.State? && Sized(st, |st.close|) && 1 <= i < |st.close|
  {
    st.close[i] == NaN || st.close[i - 1] == NaN || st.vol[i] == NaN || Premium(st.close[i], st.vwap[i]) == NaN
  }

  /** A bar that passes every rejection only because a comparison with a missing value is false. */
  predicate Slips(st: State, i: int) {
    && st.State? && Sized(st, |st.close|) && 1 <= i < |st.close|
    && st.entryWindow[i] && NotRejected(st, i) && Unknown(st, i) && !Formed(st, i - 1)
  }

  /** `on_bar` buys at the entry-window bars that no rejection applies to and that the setup does not
      precede. */
  lemma {:induction false} BuysUnlessRejected(st: State, i: nat)
    requires st.State? && Sized(st, |st.close|) && MIN_BARS <= i < |st.close|
    ensures BuysAt(st, i) <==> st.entryWindow[i] && NotRejected(st, i) && !Formed(st, i - 1)
  {
  }

  /** Of the bars that no rejection applies to, those with every compared value known meet every
      qualifier, and no other bar does. */
  lemma {:induction false} QualifiersAgree(st: State, i: nat)
    requires st.State? && Sized(st, |st.close|) && MIN_BARS <= i < |st.close|
    ensures Formed(st, i) <==> st.entryWindow[i] && NotRejected(st, i) && !Unknown(st, i)
  {
    var prior5, volAvg := st.prior5[i], st.volAvg[i];
    assert Gt(prior5, Fin(0.0)) ==> Scale(prior5, RANGE_EXPANSION) != NaN;
    assert Gt(volAvg, Fin(0.0)) ==> Scale(volAvg, VOL_MULT) != NaN;
    NotLessIsAtLeast(Premium(st.close[i], st.vwap[i]), VWAP_PREMIUM_PCT);
    NotLessIsAtLeast(st.rangeSoFar[i], Scale(prior5, RANGE_EXPANSION));
    NotLessIsAtLeast(st.vol[i], Scale(volAvg, VOL_MULT));
    NotLessIsAtLeast(st.close[i], st.close[i - 1]);
    PositiveIsNotAtMost(prior5);
    PositiveIsNotAtMost(volAvg);
  }

  /** Exactly when the rule fires as promised, for any columns: a BUY at bar i if and only if the setup
      holds at i and did not hold one bar earlier, unless the bar slips through. */
  lemma {:induction false} FiresExactly(st: State, i: nat)
    requires st.State? && Sized(st, |st.close|) && MIN_BARS <= i < |st.close|
    ensures (BuysAt(st, i) <==> Formed(st, i) && !Formed(st, i - 1)) <==> !Slips(st, i)
  {
    BuysUnlessRejected(st, i);
    QualifiersAgree(st, i);
  }

  predicate Setup(bars: seq<Bar>, p: int) { Formed(Precompute(bars), p) }

  predicate Buys(bars: seq<Bar>, i: int) { BuysAt(Precompute(bars), i) }

  /** A missing close before the bar, or a missing or odd price at it, lets the bar slip through. */
  predicate SlipsThrough(bars: seq<Bar>, i: int) { Slips(Precompute(bars), i) }

  /** On every series: a BUY at bar i if and only if the setup holds at i and not at i - 1, except exactly
      where the bar slips through. */
  lemma {:induction false} BuysWhereSetupForms(bars: seq<Bar>, i: nat)
    requires MIN_BARS <= i < |bars|
    ensures (Buys(bars, i) <==> Setup(bars, i) && !Setup(bars, i - 1)) <==> !SlipsThrough(bars, i)
  {
    FiresExactly(Precompute(bars), i);
  }

  lemma {:induction false} PremiumIsKnown(close: Num, vwap: Num)
    requires close.Fin? && close.v > 0.0 && vwap.Fin?
    ensures Premium(close, vwap) != NaN
  {
    if vwap.v == 0.0 {
      assert Sub(close, vwap) == close;
      assert Div(close, vwap) == PosInf;
    }
  }

  /** On every series: what makes a bar slip through is a previous close that is missing, or a premium that
      cannot be computed although both values are known (both zero, or an infinite VWAP). Without a close or a
      volume at the bar the VWAP is missing, which is checked. */
  lemma {:induction false} SlipsThroughExactly(bars: seq<Bar>, i: nat)
    requires MIN_BARS <= i < |bars|
    ensures SlipsThrough(bars, i)
       <==> && EntryWindow(bars)[i] && NotRejected(Precompute(bars), i) && !Setup(bars, i - 1)
            && (bars[i - 1].close == NaN || Premium(bars[i].close, Precompute(bars).vwap[i]) == NaN)
  {
    KnownWhereVwapIs(bars, i);
    SlipsFrom(Precompute(bars), i);
  }

  lemma {:induction false} KnownWhereVwapIs(bars: seq<Bar>, i: nat)
    requires MIN_BARS <= i < |bars|
    ensures var st := Precompute(bars);
            && st.entryWindow[i] == EntryWindow(bars)[i] && st.close[i - 1] == bars[i - 1].close
            && st.close[i] == bars[i].close
            && (st.entryWindow[i] && st.vwap[i] != NaN ==> st.close[i] != NaN && st.vol[i] != NaN)
  {
    if EntryWindow(bars)[i] && (bars[i].close == NaN || bars[i].volume == NaN) { VwapMissing(bars, i); }
  }

  lemma {:induction false} SlipsFrom(st: State, i: nat)
    requires st.State? && Sized(st, |st.close|) && MIN_BARS <= i < |st.close|
    requires st.entryWindow[i] && st.vwap[i] != NaN ==> st.close[i] != NaN && st.vol[i] != NaN
    ensures Slips(st, i)
       <==> && st.entryWindow[i] && NotRejected(st, i) && !Formed(st, i - 1)
            && (st.close[i - 1] == NaN || Premium(st.close[i], st.vwap[i]) == NaN)
  {
  }

  /** With known prices above zero and finite volumes, only a missing close before the bar does that. */
  lemma {:induction false} MissingCloseSlipsThrough(bars: seq<Bar>, i: nat)
    requires Priced(bars) && MIN_BARS <= i < |bars|
    ensures SlipsThrough(bars, i)
       <==> EntryWindow(bars)[i] && NotRejected(Precompute(bars), i) && bars[i - 1].close == NaN
  {
    var st := Precompute(bars);
    if EntryWindow(bars)[i] && st.vwap[i] != NaN {
      if bars[i].close == NaN || bars[i].volume == NaN { VwapMissing(bars, i); }
      VwapIsFinite(bars, i);
      PremiumIsKnown(bars[i].close, st.vwap[i]);
    }
    if Rth(bars)[i - 1] && bars[i - 1].close == NaN { VwapMissing(bars, i - 1); }
  }

  lemma {:induction false} AnswerUpto(st: State, k: nat, i: nat)
    requires st.State? && Sized(st, |st.close|) && i < k <= |st.close|
    ensures OnBar(Upto(st, k), i) == OnBar(st, i)
  {
  }

  /** Signals use no future bar: the answer at bar i is the same on every prefix that holds it. */
  lemma {:induction false} SignalsUseNoFuture(bars: seq<Bar>, k: nat, i: nat)
    requires TimeSorted(bars) && MIN_BARS <= k <= |bars| && i < k
    ensures OnBar(Precompute(bars[..k]), i) == OnBar(Precompute(bars), i)
  {
    NoLookahead(bars, k);
    AnswerUpto(Precompute(bars), k, i);
  }

  function RuleOf(st: State): Rule {
    Rule(i => Formed(st, i), i => BuysAt(st, i), i => i >= MIN_BARS && Slips(st, i), MIN_BARS)
  }

  lemma {:induction false} ExactAt(st: State, i: nat)
    requires st.State? && Sized(st, |st.close|) && MIN_BARS <= i < |st.close|
    ensures FiresAt(RuleOf(st), i) <==> !RuleOf(st).slips(i)
  {
    FiresExactly(st, i);
    ExactAtBar(RuleOf(st), i, Formed(st, i), Formed(st, i - 1), BuysAt(st, i), Slips(st, i));
  }

  lemma {:induction false} RuleIsExact(st: State, n: nat)
    requires st.State? && Sized(st, n)
    ensures Exact(RuleOf(st), n)
  {
    forall i: nat | i < n ensures FiresAt(RuleOf(st), i) <==> !RuleOf(st).slips(i) {
      if i >= MIN_BARS { ExactAt(st, i); }
    }
  }

  lemma {:induction false} NoneSlips(st: State, n: nat)
    ensures NeverSlips(RuleOf(st), n) <==> forall i :: MIN_BARS <= i < n ==> !Slips(st, i)
  {
    var rule := RuleOf(st);
    assert forall i: nat :: rule.slips(i) <==> i >= MIN_BARS && Slips(st, i);
  }

  /** The rule is an edge trigger on the setup if and only if no bar slips through. */
  lemma {:induction false} FiresOnEdgesExactly(st: State, n: nat)
    requires st.State? && Sized(st, n)
    ensures FiresOnEdges(RuleOf(st), n) <==> forall i :: MIN_BARS <= i < n ==> !Slips(st, i)
  {
    RuleIsExact(st, n);
    FiresUnlessSlips(RuleOf(st), n);
    NoneSlips(st, n);
  }

  lemma {:induction false} NoneSlipsThrough(bars: seq<Bar>, st: State)
    requires st == Precompute(bars) && forall i :: MIN_BARS <= i < |bars| ==> !SlipsThrough(bars, i)
    ensures NeverSlips(RuleOf(st), |bars|)
  {
    forall i | MIN_BARS <= i < |bars| ensures !Slips(st, i) { assert !SlipsThrough(bars, i); }
    NoneSlips(st, |bars|);
  }

  lemma {:induction false} CleanBar(bars: seq<Bar>, i: nat)
    requires MIN_BARS <= i < |bars| && Priced(bars) && bars[i - 1].close != NaN
    ensures !SlipsThrough(bars, i)
  {
    MissingCloseSlipsThrough(bars, i);
  }

  lemma {:induction false} CleanSeriesNeverSlips(bars: seq<Bar>)
    requires MIN_BARS <= |bars| && Priced(bars) && forall i :: 0 <= i < |bars| ==> bars[i].close != NaN
    ensures NeverSlips(RuleOf(Precompute(bars)), |bars|)
  {
    forall i | MIN_BARS <= i < |bars| ensures !SlipsThrough(bars, i) { CleanBar(bars, i); }
    NoneSlipsThrough(bars, Precompute(bars));
  }

  /** When no bar slips through: one BUY for each maximal run of the setup that starts at or after MIN_BARS,
      none in an earlier run, every BUY opens such a run, and there are as many BUYs as such runs. */
  lemma {:induction false} OneBuyPerSetup(bars: seq<Bar>)
    requires MIN_BARS <= |bars| && NeverSlips(RuleOf(Precompute(bars)), |bars|)
    ensures OneBuyEach(RuleOf(Precompute(bars)), |bars|)
  {
    var rule := RuleOf(Precompute(bars));
    RuleIsExact(Precompute(bars), |bars|);
    FiresUnlessSlips(rule, |bars|);
    EdgesBuyEach(rule, |bars|);
  }
}
