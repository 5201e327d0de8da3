/** strategies/gap_reversion.py: the columns `precompute` derives. The gap column takes the day's
    first known opening price, and that is where it can look ahead. */
module GapDays {
  import opened Num
  import opened Columns
  import opened Bars

  const VOL_WINDOW: nat := 20
  const EOD_CLOSE_MIN: int := 15 * 60 + 45
  const MIN_BARS: nat := 40

  datatype State = Empty | State(close: Col, vwap: Col, gapPct: Col, vol: Col, volAvg: Col, rth: seq<bool>,
                                 eodFlat: seq<bool>, dayOrd: seq<nat>)

  /** The days that have a regular-hours bar. */
  function RthDays(bars: seq<Bar>): seq<int> { Groups(Days(bars), Rth(bars), |bars|) }

  function DailyOpen(bars: seq<Bar>): (c: Col)
    ensures |c| == |RthDays(bars)|
  {
    Daily(Earlier, NaN, RthOpens(bars), Days(bars), RthDays(bars))
  }

  function DailyClose(bars: seq<Bar>): (c: Col)
    ensures |c| == |RthDays(bars)|
  {
    Daily(Later, NaN, RthCloses(bars), Days(bars), RthDays(bars))
  }

  function Gap(open: Num, prevClose: Num): Num {
    Scale(Sub(Div(open, prevClose), Fin(1.0)), 100.0)
  }

  function GapByDay(bars: seq<Bar>): (c: Col)
    ensures |c| == |RthDays(bars)|
  {
    Zip(Gap, DailyOpen(bars), Shift(DailyClose(bars)))
  }

  function GapPct(bars: seq<Bar>): (c: Col)
    ensures |c| == |bars|
  {
    MapBack(Days(bars), Rth(bars), RthDays(bars), GapByDay(bars))
  }

  /** `pd.factorize(dates)[0]` */
  function DayOrdinals(bars: seq<Bar>): (c: seq<nat>)
    ensures |c| == |bars|
  {
    seq(|bars|, i requires 0 <= i < |bars| => IndexOf(Groups(Days(bars), Everyone(bars), |bars|), bars[i].day))
  }

  function EodFlat(bars: seq<Bar>): (c: seq<bool>)
    ensures |c| == |bars|
  {
    seq(|bars|, i requires 0 <= i < |bars| => bars[i].minute >= EOD_CLOSE_MIN && Rth(bars)[i])
  }

  function Precompute(bars: seq<Bar>): State {
    if |bars| < MIN_BARS then Empty
    else State(Closes(bars), Vwap(bars), GapPct(bars), Volumes(bars), VolumeAverage(bars, VOL_WINDOW), Rth(bars),
               EodFlat(bars), DayOrdinals(bars))
  }

  /** Opens and closes of the regular-hours bars. */
  function RthOpens(bars: seq<Bar>): (c: Col)
    ensures |c| == |bars|
  {
    Where(Opens(bars), Rth(bars), NaN)
  }

  function RthCloses(bars: seq<Bar>): (c: Col)
    ensures |c| == |bars|
  {
    Where(Closes(bars), Rth(bars), NaN)
  }

  /** The first known regular-hours open of a day among the first n bars. */
  ghost function KnownOpen(bars: seq<Bar>, n: nat, day: int): Num
    requires n <= |bars|
  {
    Run(Earlier, NaN, RthOpens(bars), Days(bars), n, day)
  }

  /** Bar j has the first known regular-hours open of the day. */
  ghost predicate OpensSession(bars: seq<Bar>, day: int, j: int) {
    EarliestAt(RthOpens(bars), Days(bars), |bars|, day, j)
  }

  /** Bar l has the last known close of the session before the day. */
  ghost predicate ClosesPrevious(bars: seq<Bar>, day: int, l: int) {
    && 0 <= l < |bars| && bars[l].day < day
    && LatestAt(RthCloses(bars), Days(bars), |bars|, bars[l].day, l)
    && forall m :: 0 <= m < |bars| && Rth(bars)[m] && bars[m].day < day ==> bars[m].day <= bars[l].day
  }

  /** The gap of a regular-hours bar, from the prices of its day and the day before. */
  lemma {:induction false} GapAt(bars: seq<Bar>, i: nat) returns (g: nat)
    requires i < |bars| && Rth(bars)[i]
    ensures g < |RthDays(bars)| && g == IndexOf(RthDays(bars), bars[i].day)
    ensures GapPct(bars)[i] == Gap(KnownOpen(bars, |bars|, bars[i].day), Shift(DailyClose(bars))[g])
  {
    var days := Days(bars);
    GroupMembers(days, Rth(bars), |bars|);
    g := IndexOf(RthDays(bars), bars[i].day);
    assert days[i] in RthDays(bars);
  }

  lemma {:induction false} PrevClosePrefix(bars: seq<Bar>, k: nat)
    requires TimeSorted(bars) && k <= |bars|
    ensures |RthDays(bars[..k])| <= |RthDays(bars)| && RthDays(bars[..k]) == RthDays(bars)[..|RthDays(bars[..k])|]
    ensures Shift(DailyClose(bars[..k])) == Shift(DailyClose(bars))[..|RthDays(bars[..k])|]
  {
    var days, member, closes := Days(bars), Rth(bars), RthCloses(bars);
    BarPrefix(bars, k);
    DayGroups(bars, member, k);
    var some := Groups(days, member, k);
    assert RthCloses(bars[..k]) == closes[..k];
    forall g: nat | g + 1 < |some| ensures DailyClose(bars[..k])[g] == DailyClose(bars)[g] {
      EarlierGroupsComplete(Later, NaN, closes, days, member, k, g);
    }
    ShiftPrefix(DailyClose(bars[..k]), DailyClose(bars));
  }

  /** The previous close a session's gap is taken from: the last known one of the session before. */
  lemma {:induction false} PrevCloseIs(bars: seq<Bar>, g: nat) returns (l: int)
    requires TimeSorted(bars) && g < |RthDays(bars)|
    ensures var day, c := RthDays(bars)[g], Shift(DailyClose(bars))[g];
            && (forall l' :: ClosesPrevious(bars, day, l') ==> c == bars[l'].close)
            && (c != NaN ==> ClosesPrevious(bars, day, l))
  {
    l := -1;
    if g > 0 {
      l := RunLatest(RthCloses(bars), Days(bars), |bars|, RthDays(bars)[g - 1]);
      SomeBarOf(bars, g - 1);
      forall m: nat | m < |bars| && Rth(bars)[m] && bars[m].day < RthDays(bars)[g]
        ensures bars[m].day <= RthDays(bars)[g - 1]
      {
        LatestBefore(bars, g, m);
      }
      forall l' | ClosesPrevious(bars, RthDays(bars)[g], l')
        ensures Shift(DailyClose(bars))[g] == bars[l'].close
      {
        OnePrevious(bars, g, l', l);
      }
    } else {
      NoEarlierSession(bars);
    }
  }

  lemma {:induction false} NoEarlierSession(bars: seq<Bar>)
    requires TimeSorted(bars) && |RthDays(bars)| > 0
    ensures forall l :: !ClosesPrevious(bars, RthDays(bars)[0], l)
  {
    GroupsAscend(Days(bars), Rth(bars), |bars|);
    GroupMembers(Days(bars), Rth(bars), |bars|);
    forall m | 0 <= m < |bars| && Rth(bars)[m] ensures RthDays(bars)[0] <= bars[m].day {
      assert Days(bars)[m] in RthDays(bars);
    }
    forall l ensures !ClosesPrevious(bars, RthDays(bars)[0], l) {}
  }

  lemma {:induction false} OnePrevious(bars: seq<Bar>, g: nat, l': int, l: int)
    requires TimeSorted(bars) && 0 < g < |RthDays(bars)| && ClosesPrevious(bars, RthDays(bars)[g], l')
    requires var before := RthDays(bars)[g - 1];
             var c := Run(Later, NaN, RthCloses(bars), Days(bars), |bars|, before);
             !NoneKnown(RthCloses(bars), Days(bars), |bars|, before) ==>
               LatestAt(RthCloses(bars), Days(bars), |bars|, before, l) && c == RthCloses(bars)[l]
    ensures Shift(DailyClose(bars))[g] == bars[l'].close
  {
    var before := RthDays(bars)[g - 1];
    SomeBarOf(bars, g - 1);
    LatestBefore(bars, g, l');
    assert bars[l'].day == before;
    assert Known(RthCloses(bars), Days(bars), |bars|, before, l');
  }

  lemma {:induction false} LatestBefore(bars: seq<Bar>, g: nat, m: nat)
    requires TimeSorted(bars) && 0 < g < |RthDays(bars)| && m < |bars| && Rth(bars)[m]
    requires bars[m].day < RthDays(bars)[g]
    ensures bars[m].day <= RthDays(bars)[g - 1]
  {
    GroupsAscend(Days(bars), Rth(bars), |bars|);
    GroupMembers(Days(bars), Rth(bars), |bars|);
    assert Days(bars)[m] in RthDays(bars);
    var h :| 0 <= h < |RthDays(bars)| && RthDays(bars)[h] == bars[m].day;
    assert h <= g - 1;
  }

  lemma {:induction false} SomeBarOf(bars: seq<Bar>, g: nat)
    requires TimeSorted(bars) && g + 1 < |RthDays(bars)|
    ensures exists m :: 0 <= m < |bars| && Rth(bars)[m] && bars[m].day == RthDays(bars)[g]
    ensures RthDays(bars)[g] < RthDays(bars)[g + 1]
  {
    GroupsAscend(Days(bars), Rth(bars), |bars|);
    GroupMembers(Days(bars), Rth(bars), |bars|);
    assert RthDays(bars)[g] in RthDays(bars);
  }

  lemma {:induction false} PartialGap(open: Num, close: Num)
    ensures open == NaN || close == NaN ==> Gap(open, close) == NaN
  {
  }

  /** Bar i of the prefix of length k has no gap yet, and gets one from a later bar: its session has no
      open within the prefix, has one later on, and the session before has a close to compare it with. */
  ghost predicate LooksAheadAt(bars: seq<Bar>, k: nat, i: int) {
    && 0 <= i < k <= |bars| && Rth(bars)[i]
    && exists j, l ::
         && OpensSession(bars, bars[i].day, j) && k <= j && ClosesPrevious(bars, bars[i].day, l)
         && Gap(bars[j].open, bars[l].close) != NaN
  }

  /** Exactly when the gap column looks ahead. */
  lemma {:induction false} GapLooksAhead(bars: seq<Bar>, k: nat, i: nat)
    requires TimeSorted(bars) && i < k <= |bars|
    ensures GapPct(bars[..k])[i] != GapPct(bars)[i] <==> LooksAheadAt(bars, k, i)
  {
    BarPrefix(bars, k);
    if Rth(bars)[i] {
      var day, g := GapsOf(bars, k, i);
      var j := OpenIs(bars, day);
      var l := PrevCloseIs(bars, g);
      OpenOfPrefix(bars, k, day);
      LaterGap(bars, k, i, Shift(DailyClose(bars))[g], j, l);
    }
  }

  /** The gap of a bar, given what its session's open and the previous close are. */
  lemma {:induction false} LaterGap(bars: seq<Bar>, k: nat, i: nat, c: Num, j: int, l: int)
    requires i < k <= |bars| && Rth(bars)[i]
    requires var day, open := bars[i].day, KnownOpen(bars, |bars|, bars[i].day);
             && (forall j' :: OpensSession(bars, day, j') ==> open == bars[j'].open)
             && (open != NaN ==> OpensSession(bars, day, j))
             && (forall l' :: ClosesPrevious(bars, day, l') ==> c == bars[l'].close)
             && (c != NaN ==> ClosesPrevious(bars, day, l))
             && (KnownOpen(bars, k, day) == NaN <==> forall j' :: OpensSession(bars, day, j') ==> k <= j')
             && (KnownOpen(bars, k, day) != NaN ==> open == KnownOpen(bars, k, day))
    ensures Gap(KnownOpen(bars, k, bars[i].day), c) != Gap(KnownOpen(bars, |bars|, bars[i].day), c)
       <==> LooksAheadAt(bars, k, i)
  {
    var day, open := bars[i].day, KnownOpen(bars, |bars|, bars[i].day);
    PartialGap(KnownOpen(bars, k, day), c);
    PartialGap(open, c);
    if KnownOpen(bars, k, day) == NaN && Gap(open, c) != NaN {
      assert OpensSession(bars, day, j) && k <= j && ClosesPrevious(bars, day, l);
      assert Gap(bars[j].open, bars[l].close) != NaN;
    }
  }

  lemma {:induction false} OpenIs(bars: seq<Bar>, day: int) returns (j: int)
    ensures forall j' :: OpensSession(bars, day, j') ==> KnownOpen(bars, |bars|, day) == bars[j'].open
    ensures KnownOpen(bars, |bars|, day) != NaN ==> OpensSession(bars, day, j)
  {
    j := RunEarliest(RthOpens(bars), Days(bars), |bars|, day);
  }

  /** The gap of a bar on the prefix and on the whole series: the same previous close, and the open known
      by then. */
  lemma {:induction false} GapsOf(bars: seq<Bar>, k: nat, i: nat) returns (day: int, g: nat)
    requires TimeSorted(bars) && i < k <= |bars| && Rth(bars)[i]
    ensures day == bars[i].day && g < |RthDays(bars)| && RthDays(bars)[g] == day
    ensures GapPct(bars)[i] == Gap(KnownOpen(bars, |bars|, day), Shift(DailyClose(bars))[g])
    ensures GapPct(bars[..k])[i] == Gap(KnownOpen(bars, k, day), Shift(DailyClose(bars))[g])
  {
    BarPrefix(bars, k);
    day := bars[i].day;
    var part := bars[..k];
    PrevClosePrefix(bars, k);
    g := GapAt(part, i);
    var h := GapAt(bars, i);
    assert RthDays(part)[g] == RthDays(bars)[..|RthDays(part)|][g] == RthDays(bars)[g];
    assert forall j :: 0 <= j < |RthDays(part)| ==> RthDays(part)[j] == RthDays(bars)[j];
    assert g == h;
    assert RthOpens(part) == RthOpens(bars)[..k];
    RunPrefix(Earlier, NaN, RthOpens(bars), Days(bars), k, k, day);
  }

  /** A session's first known open is the prefix's, when the prefix has one. */
  lemma {:induction false} OpenOfPrefix(bars: seq<Bar>, k: nat, day: int)
    requires k <= |bars|
    ensures KnownOpen(bars, k, day) == NaN <==> forall j :: OpensSession(bars, day, j) ==> k <= j
    ensures KnownOpen(bars, k, day) != NaN ==> KnownOpen(bars, |bars|, day) == KnownOpen(bars, k, day)
  {
    var opens, days := RthOpens(bars), Days(bars);
    var i := RunEarliest(opens, days, k, day);
    var j := RunEarliest(opens, days, |bars|, day);
    if NoneKnown(opens, days, k, day) {
      forall j' | OpensSession(bars, day, j') ensures k <= j' {
        assert j' < k ==> Known(opens, days, k, day, j');
      }
    } else {
      assert Known(opens, days, |bars|, day, i);
      assert j <= i && Known(opens, days, k, day, j);
      assert OpensSession(bars, day, j);
    }
  }

  /** The first k values of every column. */
  ghost function Upto(st: State, k: nat): State
    requires st.State? && k <= |st.close| == |st.vwap| == |st.gapPct| == |st.vol| == |st.volAvg|
    requires |st.rth| == |st.eodFlat| == |st.dayOrd| == |st.close|
  {
    State(st.close[..k], st.vwap[..k], st.gapPct[..k], st.vol[..k], st.volAvg[..k], st.rth[..k], st.eodFlat[..k],
          st.dayOrd[..k])
  }

  /** Every day's first regular-hours bar has an opening price. */
  ghost predicate OpensOnTime(bars: seq<Bar>) {
    forall j :: 0 <= j < |bars| && Rth(bars)[j] && bars[j].open == NaN ==>
      exists i :: 0 <= i < j && bars[i].day == bars[j].day && Rth(bars)[i] && bars[i].open != NaN
  }

  lemma {:induction false} OrdinalsPrefix(bars: seq<Bar>, k: nat)
    requires k <= |bars|
    ensures DayOrdinals(bars[..k]) == DayOrdinals(bars)[..k]
  {
    var days, member := Days(bars), Everyone(bars);
    BarPrefix(bars, k);
    DayGroups(bars, member, k);
    var some, all := Groups(days, member, k), Groups(days, member, |bars|);
    GroupMembers(days, member, k);
    assert forall j :: 0 <= j < |some| ==> some[j] == all[j];
    forall i | 0 <= i < k ensures IndexOf(some, bars[i].day) == IndexOf(all, bars[i].day) {
      assert days[i] in some;
    }
  }

  /** Exactly when `precompute` does not look ahead: on every prefix long enough to trade on, every column
      equals the whole series' column cut to the prefix if and only if no bar's gap comes later. */
  lemma {:induction false} NoLookaheadExactly(bars: seq<Bar>, k: nat)
    requires TimeSorted(bars) && MIN_BARS <= k <= |bars|
    ensures Precompute(bars[..k]) == Upto(Precompute(bars), k) <==> forall i :: !LooksAheadAt(bars, k, i)
  {
    BarPrefix(bars, k);
    VwapPrefix(bars, k);
    VolumeAveragePrefix(bars, VOL_WINDOW, k);
    OrdinalsPrefix(bars, k);
    assert EodFlat(bars[..k]) == EodFlat(bars)[..k];
    forall i: nat | i < k ensures GapPct(bars[..k])[i] == GapPct(bars)[..k][i] <==> !LooksAheadAt(bars, k, i) {
      GapLooksAhead(bars, k, i);
    }
    SameColumns(GapPct(bars[..k]), GapPct(bars)[..k]);
  }

  lemma {:induction false} SameColumns(a: Col, b: Col)
    requires |a| == |b|
    ensures a == b <==> forall i: nat :: i < |a| ==> a[i] == b[i]
  {
  }

  /** No lookahead when each session opens with a known price. */
  lemma {:induction false} NoLookahead(bars: seq<Bar>, k: nat)
    requires TimeSorted(bars) && OpensOnTime(bars) && MIN_BARS <= k <= |bars|
    ensures Precompute(bars[..k]) == Upto(Precompute(bars), k)
  {
    NoLookaheadExactly(bars, k);
    forall i ensures !LooksAheadAt(bars, k, i) {
      if j :| LooksAheadAt(bars, k, i) && OpensSession(bars, bars[i].day, j) && k <= j { OnTimeIsEarly(bars, i, j); }
    }
  }

  lemma {:induction false} OnTimeIsEarly(bars: seq<Bar>, i: nat, j: nat)
    requires OpensOnTime(bars) && i < |bars| && Rth(bars)[i] && OpensSession(bars, bars[i].day, j)
    ensures j <= i
  {
    var opens, days := RthOpens(bars), Days(bars);
    if bars[i].open == NaN {
      var m :| 0 <= m < i && bars[m].day == bars[i].day && Rth(bars)[m] && bars[m].open != NaN;
      assert Known(opens, days, |bars|, bars[i].day, m);
    } else {
      assert Known(opens, days, |bars|, bars[i].day, i);
    }
  }

  // ---------- A series on which the gap does look ahead ----------

  /** One bar at 100 on day 0; on day 1 forty bars without prices, and then one that opens at 101. */
  function LateOpen(): (bars: seq<Bar>)
    ensures |bars| == 42
  {
    seq(42, i requires 0 <= i < 42 =>
      var price := if i == 0 then Fin(100.0) else if i == 41 then Fin(101.0) else NaN;
      Bar(if i == 0 then 0 else 1, RTH_OPEN_MIN + i, price, price, price, price, Fin(0.0)))
  }

  /** After 41 bars the last one has no gap; one bar later the very same bar has a gap of 1 percent. */
  lemma {:induction false} GapOfALateOpen()
    ensures TimeSorted(LateOpen())
    ensures GapPct(LateOpen()[..41])[40] == NaN && GapPct(LateOpen())[40] == Fin(1.0)
  {
    var bars := LateOpen();
    LateWhole(bars);
    LatePrefix(bars);
  }

  lemma {:induction false} LateWhole(bars: seq<Bar>)
    requires bars == LateOpen()
    ensures GapPct(bars)[40] == Fin(1.0)
  {
    LateGroups(bars, 42);
    assert RthDays(bars) == [0, 1];
    LatePrices(bars);
    var g := GapAt(bars, 40);
    assert bars[40].day == 1;
    assert IndexOf([0, 1], 1) == 1 + IndexOf([0, 1][1..], 1) == 1;
    assert Gap(Fin(101.0), Fin(100.0)) == Fin(1.0);
  }

  lemma {:induction false} LatePrices(bars: seq<Bar>)
    requires bars == LateOpen() && RthDays(bars) == [0, 1]
    ensures KnownOpen(bars, 42, 1) == Fin(101.0) && DailyClose(bars)[0] == Fin(100.0)
  {
    var days, opens, closes := Days(bars), RthOpens(bars), RthCloses(bars);
    var i := RunEarliest(opens, days, 41, 1);
    assert NoneKnown(opens, days, 41, 1);
    assert Run(Earlier, NaN, opens, days, 42, 1) == Earlier(Run(Earlier, NaN, opens, days, 41, 1), opens[41]);
    RunComplete(Later, NaN, closes, days, 1, 42, 0);
    assert Run(Later, NaN, closes, days, 0, 0) == NaN;
    assert Run(Later, NaN, closes, days, 1, 0) == Later(NaN, closes[0]);
  }

  lemma {:induction false} LatePrefix(bars: seq<Bar>)
    requires bars == LateOpen()
    ensures GapPct(bars[..41])[40] == NaN
  {
    var part := bars[..41];
    var h := GapAt(part, 40);
    var i := RunEarliest(RthOpens(part), Days(part), 41, 1);
    assert NoneKnown(RthOpens(part), Days(part), 41, 1);
  }

  lemma {:induction false} LateGroups(bars: seq<Bar>, n: nat)
    requires bars == LateOpen() && n <= 42
    ensures Groups(Days(bars), Rth(bars), n) == if n == 0 then [] else if n == 1 then [0] else [0, 1]
  {
    if n == 0 {
    } else {
      LateGroups(bars, n - 1);
    }
  }
}
