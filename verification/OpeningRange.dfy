/** strategies/opening_range_breakout.py: the single-pass opening-range loop of `precompute`, the
    rules of `on_bar`, and the live path `on_prices`. */
module OpeningRange {
  import opened Common
  import opened Num
  import opened Columns
  import opened Bars

  /** The session settings `_cfg` reads, with the class attributes they default to. */
  datatype Config = Config(rthOpen: int, rthClose: int, rangeMinutes: int)

  const DEFAULT: Config := Config(9 * 60 + 30, 16 * 60, 30)
  const VOLUME_MULT: real := 1.5
  const VOL_WINDOW: nat := 20
  const EOD_FLAT_MIN_BEFORE_CLOSE: int := 15
  const MIN_BARS: nat := 40

  /** BUY carries the minute of the session day by which the position must be closed. */
  datatype Signal = Buy(closeByMinute: nat) | Sell

  datatype State = Empty | State(close: Col, volume: Col, volAvg: Col, orbHigh: Col, orbLow: Col, rth: seq<bool>)

  predicate InWindow(cfg: Config, b: Bar) {
    cfg.rthOpen <= b.minute < cfg.rthOpen + cfg.rangeMinutes
  }

  predicate WindowClosed(cfg: Config, b: Bar) {
    b.minute >= cfg.rthOpen + cfg.rangeMinutes
  }

  /** The loop variables. */
  datatype Scan = Scan(day: Option<int>, runningHi: Num, runningLo: Num, lockedHi: Num, lockedLo: Num)

  const START: Scan := Scan(None, NegInf, PosInf, NaN, NaN)

  /** One turn of the loop. */
  function Step(cfg: Config, before: Scan, b: Bar): Scan {
    var s := if before.day == Some(b.day) then before else Scan(Some(b.day), NegInf, PosInf, NaN, NaN);
    if InWindow(cfg, b) then
      s.(runningHi := if Gt(b.high, s.runningHi) then b.high else s.runningHi,
         runningLo := if Lt(b.low, s.runningLo) then b.low else s.runningLo)
    else if WindowClosed(cfg, b) && s.runningHi != NegInf && s.lockedHi == NaN then
      s.(lockedHi := s.runningHi, lockedLo := s.runningLo)
    else s
  }

  function ScanUpto(cfg: Config, bars: seq<Bar>, n: nat): Scan
    requires n <= |bars|
  {
    if n == 0 then START else Step(cfg, ScanUpto(cfg, bars, n - 1), bars[n - 1])
  }

  function OrbHigh(cfg: Config, bars: seq<Bar>): (c: Col)
    ensures |c| == |bars|
  {
    seq(|bars|, i requires 0 <= i < |bars| =>
      if WindowClosed(cfg, bars[i]) then ScanUpto(cfg, bars, i + 1).lockedHi else NaN)
  }

  function OrbLow(cfg: Config, bars: seq<Bar>): (c: Col)
    ensures |c| == |bars|
  {
    seq(|bars|, i requires 0 <= i < |bars| =>
      if WindowClosed(cfg, bars[i]) then ScanUpto(cfg, bars, i + 1).lockedLo else NaN)
  }

  function AllColumns(cfg: Config, bars: seq<Bar>): State {
    if |bars| < MIN_BARS then Empty
    else State(Closes(bars), Volumes(bars), VolumeAverage(bars, VOL_WINDOW), OrbHigh(cfg, bars), OrbLow(cfg, bars),
               Between(bars, cfg.rthOpen, cfg.rthClose))
  }

  method Precompute(cfg: Config, bars: seq<Bar>) returns (st: State)
    ensures st == AllColumns(cfg, bars)
  {
    if |bars| < MIN_BARS { return Empty; }
    var n := |bars|;
    var orbHigh, orbLow := new Num[n](_ => NaN), new Num[n](_ => NaN);
    var currentDay: Option<int> := None;
    var runningHi, runningLo, lockedHi, lockedLo := NegInf, PosInf, NaN, NaN;
    for i := 0 to n
      invariant ScanUpto(cfg, bars, i) == Scan(currentDay, runningHi, runningLo, lockedHi, lockedLo)
      invariant forall k :: 0 <= k < i ==> orbHigh[k] == OrbHigh(cfg, bars)[k] && orbLow[k] == OrbLow(cfg, bars)[k]
      invariant forall k :: i <= k < n ==> orbHigh[k] == NaN && orbLow[k] == NaN
    {
      var b := bars[i];
      if currentDay != Some(b.day) {
        currentDay := Some(b.day);
        runningHi, runningLo := NegInf, PosInf;
        lockedHi, lockedLo := NaN, NaN;
      }
      if InWindow(cfg, b) {
        if Gt(b.high, runningHi) { runningHi := b.high; }
        if Lt(b.low, runningLo) { runningLo := b.low; }
      } else if WindowClosed(cfg, b) {
        if runningHi != NegInf && lockedHi == NaN {
          lockedHi, lockedLo := runningHi, runningLo;
        }
        orbHigh[i] := lockedHi;
        orbLow[i] := lockedLo;
      }
    }
    assert orbHigh[..] == OrbHigh(cfg, bars) && orbLow[..] == OrbLow(cfg, bars);
    st := State(Closes(bars), Volumes(bars), VolumeAverage(bars, VOL_WINDOW), orbHigh[..], orbLow[..],
                Between(bars, cfg.rthOpen, cfg.rthClose));
  }

  ghost predicate Sized(st: State, n: nat) {
    st.State? ==> |st.close| == |st.volume| == |st.volAvg| == |st.orbHigh| == |st.orbLow| == |st.rth| == n
  }

  function OnBar(cfg: Config, st: State, index: nat): Option<Signal>
    requires Sized(st, if st.State? then |st.close| else 0) && (st.State? ==> index < |st.close|)
  {
    if st.Empty? || index < MIN_BARS then None
    else if !st.rth[index] then None
    else
      var orbH, orbL, close, prevClose := st.orbHigh[index], st.orbLow[index], st.close[index], st.close[index - 1];
      var volAvg := st.volAvg[index];
      if orbH == NaN || orbL == NaN then None
      else if volAvg == NaN || Le(volAvg, Fin(0.0)) then None
      else if Gt(close, orbH) && Le(prevClose, orbH) && Gt(st.volume[index], Scale(volAvg, VOLUME_MULT)) then
        var flat := cfg.rthClose - EOD_FLAT_MIN_BEFORE_CLOSE;
        Some(Buy(if flat < 0 then 0 else flat))
      else if Lt(close, orbL) && Ge(prevClose, orbL) then Some(Sell)
      else None
  }

  /** What `on_prices` answers on a window of bars. */
  function LiveSignal(cfg: Config, window: seq<Bar>): Option<Signal> {
    if |window| < MIN_BARS then None else OnBar(cfg, AllColumns(cfg, window), |window| - 1)
  }

  method OnPrices(cfg: Config, window: seq<Bar>) returns (signal: Option<Signal>)
    ensures signal == LiveSignal(cfg, window)
  {
    if |window| < MIN_BARS { return None; }
    var st := Precompute(cfg, window);
    signal := OnBar(cfg, st, |window| - 1);
  }

  // ---------- What the loop publishes ----------

  /** Within a day, no window bar comes after a bar past the window. */
  ghost predicate WindowComesFirst(cfg: Config, bars: seq<Bar>) {
    forall i, j :: 0 <= i < j < |bars| && bars[i].day == bars[j].day && WindowClosed(cfg, bars[i])
               ==> !InWindow(cfg, bars[j])
  }

  ghost predicate WindowBar(cfg: Config, bars: seq<Bar>, j: int, day: int) {
    0 <= j < |bars| && bars[j].day == day && InWindow(cfg, bars[j])
  }

  /** h is the maximum of the known highs of the day's window bars, and one of them. */
  ghost predicate IsWindowHigh(cfg: Config, bars: seq<Bar>, day: int, h: Num) {
    && (forall j :: WindowBar(cfg, bars, j, day) ==> bars[j].high == NaN || Le(bars[j].high, h))
    && (exists j :: WindowBar(cfg, bars, j, day) && bars[j].high == h)
  }

  /** l is the minimum of the known lows of the day's window bars, and one of them (or no low is known). */
  ghost predicate IsWindowLow(cfg: Config, bars: seq<Bar>, day: int, l: Num) {
    && (forall j :: WindowBar(cfg, bars, j, day) ==> bars[j].low == NaN || Le(l, bars[j].low))
    && (l == PosInf || exists j :: WindowBar(cfg, bars, j, day) && bars[j].low == l)
  }

  /** No window bar of the day has a usable high. */
  ghost predicate NoWindow(cfg: Config, bars: seq<Bar>, day: int) {
    forall j :: WindowBar(cfg, bars, j, day) ==> bars[j].high == NaN || bars[j].high == NegInf
  }

  /** The loop variables after n bars describe the last bar's day so far. */
  ghost predicate Describes(cfg: Config, bars: seq<Bar>, n: nat, s: Scan)
    requires 1 <= n <= |bars|
  {
    var day := bars[n - 1].day;
    && s.day == Some(day)
    && s.runningHi != NaN && s.runningLo != NaN
    && (if s.runningHi == NegInf then NoWindow(cfg, bars[..n], day) else IsWindowHigh(cfg, bars[..n], day, s.runningHi))
    && IsWindowLow(cfg, bars[..n], day, s.runningLo)
    && (if s.lockedHi == NaN then s.lockedLo == NaN else s.lockedHi == s.runningHi && s.lockedLo == s.runningLo)
    && (s.lockedHi != NaN ==>
          s.runningHi != NegInf && exists i :: 0 <= i < n && bars[i].day == day && WindowClosed(cfg, bars[i]))
  }

  lemma {:induction false} ScanDescribes(cfg: Config, bars: seq<Bar>, n: nat)
    requires TimeSorted(bars) && WindowComesFirst(cfg, bars) && 1 <= n <= |bars|
    ensures Describes(cfg, bars, n, ScanUpto(cfg, bars, n))
  {
    var b := bars[n - 1];
    if n > 1 {
      ScanDescribes(cfg, bars, n - 1);
      if bars[n - 2].day == b.day {
        DescribesStep(cfg, bars, n, ScanUpto(cfg, bars, n - 1));
      } else {
        assert Days(bars)[n - 2] < Days(bars)[n - 1];
        forall j | 0 <= j < n - 1 ensures bars[j].day != b.day { assert Days(bars)[j] <= Days(bars)[n - 2]; }
        FirstOfDay(cfg, bars, n, ScanUpto(cfg, bars, n - 1));
      }
    } else {
      FirstOfDay(cfg, bars, 1, START);
    }
  }

  lemma {:induction false} FirstOfDay(cfg: Config, bars: seq<Bar>, n: nat, before: Scan)
    requires 1 <= n <= |bars| && forall j :: 0 <= j < n - 1 ==> bars[j].day != bars[n - 1].day
    requires before.day != Some(bars[n - 1].day)
    ensures Describes(cfg, bars, n, Step(cfg, before, bars[n - 1]))
  {
    var day := bars[n - 1].day;
    assert bars[..n][n - 1] == bars[n - 1];
    assert forall j :: WindowBar(cfg, bars[..n], j, day) ==> j == n - 1;
    assert InWindow(cfg, bars[n - 1]) ==> WindowBar(cfg, bars[..n], n - 1, day);
  }

  lemma {:induction false} DescribesStep(cfg: Config, bars: seq<Bar>, n: nat, before: Scan)
    requires 2 <= n <= |bars| && bars[n - 2].day == bars[n - 1].day
    requires WindowComesFirst(cfg, bars) && Describes(cfg, bars, n - 1, before)
    ensures Describes(cfg, bars, n, Step(cfg, before, bars[n - 1]))
  {
    var b, s := bars[n - 1], Step(cfg, before, bars[n - 1]);
    var old', now := bars[..n - 1], bars[..n];
    assert now[n - 1] == b && forall j :: 0 <= j < n - 1 ==> now[j] == old'[j];
    assert forall j ::
      WindowBar(cfg, now, j, b.day) <==> WindowBar(cfg, old', j, b.day) || (j == n - 1 && InWindow(cfg, b));
    TopStep(before.runningHi, b.high);
    if before.lockedHi != NaN {
      var i :| 0 <= i < n - 1 && bars[i].day == b.day && WindowClosed(cfg, bars[i]);
      assert !InWindow(cfg, b);
    }
    if s.lockedHi != NaN && before.lockedHi == NaN { assert WindowClosed(cfg, bars[n - 1]); }
    OrderFacts();
  }

  lemma {:induction false} TopStep(sofar: Num, x: Num)
    ensures x == NaN || Gt(x, sofar) || sofar == NaN || Le(x, sofar)
  {
  }

  lemma {:induction false} OrderFacts()
    ensures forall a, b, c :: Le(a, b) && Lt(b, c) ==> Le(a, c)
    ensures forall a, b, c :: Lt(a, b) && Le(b, c) ==> Le(a, c)
  {
  }

  /** A bar past the window is past it together with every window bar of its day. */
  lemma {:induction false} WholeWindowSeen(cfg: Config, bars: seq<Bar>, i: nat)
    requires TimeSorted(bars) && WindowComesFirst(cfg, bars) && i < |bars| && WindowClosed(cfg, bars[i])
    ensures forall j :: WindowBar(cfg, bars, j, bars[i].day) <==> WindowBar(cfg, bars[..i + 1], j, bars[i].day)
  {
    var now := bars[..i + 1];
    assert forall j :: 0 <= j <= i ==> now[j] == bars[j];
  }

  /** The published range. Before the window closes a bar has none. From then on, it is the maximum
      of the known highs and the minimum of the known lows of exactly that day's window bars of the
      whole series, and it is absent only when no window bar has a usable high. */
  lemma {:induction false} RangeIsExact(cfg: Config, bars: seq<Bar>, i: nat)
    requires TimeSorted(bars) && WindowComesFirst(cfg, bars) && i < |bars|
    ensures var h, l, day := OrbHigh(cfg, bars)[i], OrbLow(cfg, bars)[i], bars[i].day;
            if !WindowClosed(cfg, bars[i]) || NoWindow(cfg, bars, day) then h == NaN && l == NaN
            else IsWindowHigh(cfg, bars, day, h) && IsWindowLow(cfg, bars, day, l) && h != NaN && l != NaN
  {
    if WindowClosed(cfg, bars[i]) {
      var s, day, now := ScanUpto(cfg, bars, i + 1), bars[i].day, bars[..i + 1];
      ScanDescribes(cfg, bars, i + 1);
      WholeWindowSeen(cfg, bars, i);
      assert forall j :: 0 <= j <= i ==> now[j] == bars[j];
      LockedOnceClosed(cfg, bars, i);
      assert NoWindow(cfg, bars, day) <==> NoWindow(cfg, now, day);
      if s.runningHi != NegInf {
        var j :| WindowBar(cfg, now, j, day) && now[j].high == s.runningHi;
        assert WindowBar(cfg, bars, j, day) && !NoWindow(cfg, bars, day);
      }
    }
  }

  lemma {:induction false} LockedOnceClosed(cfg: Config, bars: seq<Bar>, i: nat)
    requires i < |bars| && WindowClosed(cfg, bars[i])
    ensures var s := ScanUpto(cfg, bars, i + 1); s.runningHi != NegInf && s.runningHi != NaN ==> s.lockedHi != NaN
  {
  }

  // ---------- Live equals backtest ----------

  /** The window starts at j and holds the whole session of bar i so far. */
  ghost predicate HoldsSession(bars: seq<Bar>, j: nat, i: nat) {
    j <= i < |bars| && (j > 0 ==> bars[j - 1].day != bars[i].day)
  }

  /** The day of the loop variables is the day of the last bar. */
  lemma {:induction false} ScanDay(cfg: Config, bars: seq<Bar>, n: nat)
    requires n <= |bars|
    ensures ScanUpto(cfg, bars, n).day == if n == 0 then None else Some(bars[n - 1].day)
  {
  }

  /** From the first bar of the day on, the loop variables do not depend on earlier days. */
  lemma {:induction false} ScanFromWindow(cfg: Config, bars: seq<Bar>, j: nat, i: nat, n: nat)
    requires TimeSorted(bars) && HoldsSession(bars, j, i) && j < n <= i + 1 && bars[n - 1].day == bars[i].day
    ensures ScanUpto(cfg, bars[j..i + 1], n - j) == ScanUpto(cfg, bars, n)
  {
    var window := bars[j..i + 1];
    assert window[n - 1 - j] == bars[n - 1];
    ScanDay(cfg, bars, n - 1);
    ScanDay(cfg, window, n - 1 - j);
    if n - 1 > j {
      assert window[n - 2 - j] == bars[n - 2];
      if bars[n - 2].day == bars[i].day { ScanFromWindow(cfg, bars, j, i, n - 1); }
    }
  }

  lemma {:induction false} FiniteShifted(a: Col, j: nat, lo: nat, hi: nat)
    requires j <= lo <= hi <= |a|
    ensures FiniteCount(a[j..], lo - j, hi - j) == FiniteCount(a, lo, hi)
    ensures FiniteSum(a[j..], lo - j, hi - j) == FiniteSum(a, lo, hi)
  {
    if lo == hi {
    } else {
      FiniteShifted(a, j, lo, hi - 1);
    }
  }

  /** The rolling volume average needs only the last twenty bars. */
  lemma {:induction false} AverageFromWindow(bars: seq<Bar>, j: nat, i: nat)
    requires j <= i < |bars| && (j == 0 || i + 1 - j >= VOL_WINDOW)
    ensures VolumeAverage(bars[j..i + 1], VOL_WINDOW)[i - j] == VolumeAverage(bars, VOL_WINDOW)[i]
  {
    var part, whole := Volumes(bars[j..i + 1]), Volumes(bars);
    var lo := if i + 1 >= VOL_WINDOW then i + 1 - VOL_WINDOW else 0;
    assert forall k :: 0 <= k < |part| ==> part[k] == whole[j..][k];
    FinitePrefix(part, whole[j..], lo - j, i + 1 - j);
    FiniteShifted(whole, j, lo, i + 1);
  }

  /** `on_bar` answers alike on columns that agree at the bar and, in the close, one bar before. */
  ghost predicate AgreeAt(st: State, i: nat, st': State, i': nat)
    requires st.State? && Sized(st, |st.close|) && 1 <= i < |st.close|
    requires st'.State? && Sized(st', |st'.close|) && 1 <= i' < |st'.close|
  {
    && st.close[i] == st'.close[i'] && st.close[i - 1] == st'.close[i' - 1] && st.volume[i] == st'.volume[i']
    && st.volAvg[i] == st'.volAvg[i'] && st.orbHigh[i] == st'.orbHigh[i'] && st.orbLow[i] == st'.orbLow[i']
    && st.rth[i] == st'.rth[i']
  }

  lemma {:induction false} SameAnswer(cfg: Config, st: State, i: nat, st': State, i': nat)
    requires st.State? && Sized(st, |st.close|) && MIN_BARS <= i < |st.close|
    requires st'.State? && Sized(st', |st'.close|) && MIN_BARS <= i' < |st'.close|
    requires AgreeAt(st, i, st', i')
    ensures OnBar(cfg, st, i) == OnBar(cfg, st', i')
  {
  }

  lemma {:induction false} ColumnsFromWindow(cfg: Config, bars: seq<Bar>, j: nat, i: nat)
    requires TimeSorted(bars) && HoldsSession(bars, j, i) && i + 1 - j >= MIN_BARS + 1
    ensures AgreeAt(AllColumns(cfg, bars[j..i + 1]), i - j, AllColumns(cfg, bars), i)
  {
    var window := bars[j..i + 1];
    assert window[i - j] == bars[i] && window[i - j - 1] == bars[i - 1];
    ScanFromWindow(cfg, bars, j, i, i + 1);
    AverageFromWindow(bars, j, i);
  }

  /** The live path agrees with the backtest: on the bars up to i, or on any shorter window of at
      least MIN_BARS + 1 bars that holds the whole current session, `on_prices` gives the signal
      that `on_bar` gives at i over the columns of the complete series. */
  lemma {:induction false} LiveEqualsBacktest(cfg: Config, bars: seq<Bar>, j: nat, i: nat)
    requires TimeSorted(bars) && HoldsSession(bars, j, i)
    requires j == 0 || i + 1 - j >= MIN_BARS + 1
    ensures LiveSignal(cfg, bars[j..i + 1]) == OnBar(cfg, AllColumns(cfg, bars), i)
  {
    if i + 1 - j >= MIN_BARS + 1 {
      ColumnsFromWindow(cfg, bars, j, i);
      SameAnswer(cfg, AllColumns(cfg, bars[j..i + 1]), i - j, AllColumns(cfg, bars), i);
    }
  }

  lemma {:induction false} ScanPrefix(cfg: Config, bars: seq<Bar>, k: nat, n: nat)
    requires n <= k <= |bars|
    ensures ScanUpto(cfg, bars[..k], n) == ScanUpto(cfg, bars, n)
  {
    if n == 0 {
    } else {
      ScanPrefix(cfg, bars, k, n - 1);
    }
  }

  /** No lookahead in the published range. */
  lemma {:induction false} RangePrefix(cfg: Config, bars: seq<Bar>, k: nat)
    requires k <= |bars|
    ensures OrbHigh(cfg, bars[..k]) == OrbHigh(cfg, bars)[..k] && OrbLow(cfg, bars[..k]) == OrbLow(cfg, bars)[..k]
  {
    forall i | 0 <= i < k
      ensures OrbHigh(cfg, bars[..k])[i] == OrbHigh(cfg, bars)[i] && OrbLow(cfg, bars[..k])[i] == OrbLow(cfg, bars)[i]
    {
      ScanPrefix(cfg, bars, k, i + 1);
    }
  }

  // ---------- When it signals ----------

  /** In the session, past a window with a usable high, with a positive average volume. */
  ghost predicate CanTrade(cfg: Config, bars: seq<Bar>, i: nat)
    requires i < |bars|
  {
    && cfg.rthOpen <= bars[i].minute < cfg.rthClose && WindowClosed(cfg, bars[i])
    && !NoWindow(cfg, bars, bars[i].day)
    && Gt(VolumeAverage(bars, VOL_WINDOW)[i], Fin(0.0))
  }

  /** c is above every known high, or below every known low, of the day's window bars. */
  ghost predicate AboveWindow(cfg: Config, bars: seq<Bar>, day: int, c: Num) {
    c != NaN && forall j :: WindowBar(cfg, bars, j, day) ==> bars[j].high == NaN || Lt(bars[j].high, c)
  }

  ghost predicate BelowWindow(cfg: Config, bars: seq<Bar>, day: int, c: Num) {
    && c != NaN && c != PosInf
    && forall j :: WindowBar(cfg, bars, j, day) ==> bars[j].low == NaN || Lt(c, bars[j].low)
  }

  /** The close at bar i has crossed what the close before had not. */
  ghost predicate CrossesAbove(cfg: Config, bars: seq<Bar>, i: nat)
    requires 1 <= i < |bars|
  {
    var day, before := bars[i].day, bars[i - 1].close;
    AboveWindow(cfg, bars, day, bars[i].close) && before != NaN && !AboveWindow(cfg, bars, day, before)
  }

  ghost predicate CrossesBelow(cfg: Config, bars: seq<Bar>, i: nat)
    requires 1 <= i < |bars|
  {
    var day, before := bars[i].day, bars[i - 1].close;
    BelowWindow(cfg, bars, day, bars[i].close) && before != NaN && !BelowWindow(cfg, bars, day, before)
  }

  lemma {:induction false} AboveTheHigh(cfg: Config, bars: seq<Bar>, day: int, h: Num, c: Num)
    requires IsWindowHigh(cfg, bars, day, h) && h != NaN
    ensures Gt(c, h) <==> AboveWindow(cfg, bars, day, c)
    ensures Le(c, h) <==> c != NaN && !AboveWindow(cfg, bars, day, c)
  {
    var top :| WindowBar(cfg, bars, top, day) && bars[top].high == h;
    OrderFacts();
  }

  lemma {:induction false} BelowTheLow(cfg: Config, bars: seq<Bar>, day: int, l: Num, c: Num)
    requires IsWindowLow(cfg, bars, day, l) && l != NaN
    ensures Lt(c, l) <==> BelowWindow(cfg, bars, day, c)
    ensures Ge(c, l) <==> c != NaN && !BelowWindow(cfg, bars, day, c)
  {
    OrderFacts();
    if l != PosInf {
      var bottom :| WindowBar(cfg, bars, bottom, day) && bars[bottom].low == l;
    }
  }

  /** A BUY names a minute as long before the session's end as the positions have to be flat. */
  ghost predicate FlatInTime(cfg: Config, signal: Signal) {
    signal.Buy? && cfg.rthClose >= EOD_FLAT_MIN_BEFORE_CLOSE ==>
      signal.closeByMinute + EOD_FLAT_MIN_BEFORE_CLOSE == cfg.rthClose
  }

  /** `on_bar` on the values it reads. */
  lemma {:induction false} OnBarReads(cfg: Config, st: State, i: nat)
    requires st.State? && Sized(st, |st.close|) && MIN_BARS <= i < |st.close|
    ensures var h, l, c, before, avg := st.orbHigh[i], st.orbLow[i], st.close[i], st.close[i - 1], st.volAvg[i];
            var ready := st.rth[i] && h != NaN && l != NaN && Gt(avg, Fin(0.0));
            var buy := ready && Gt(c, h) && Le(before, h) && Gt(st.volume[i], Scale(avg, VOLUME_MULT));
            && (OnBar(cfg, st, i).Some? && OnBar(cfg, st, i).value.Buy? <==> buy)
            && (OnBar(cfg, st, i) == Some(Sell) <==> ready && !buy && Lt(c, l) && Ge(before, l))
            && (OnBar(cfg, st, i).Some? ==> FlatInTime(cfg, OnBar(cfg, st, i).value))
  {
    NotLessIsAtLeast(Fin(0.0), st.volAvg[i]);
  }

  /** The signals read off the bars alone. BUY: the close is above every known high of the window, the close
      before was not, and the volume beats 1.5 times its average. SELL: unless it is a BUY, the close is
      below every known low of the window and the close before was not; the volume of the bar does not
      matter, but like the entry the exit needs a positive average volume. A BUY is to be closed 15 minutes
      before the session is. */
  lemma {:induction false} SignalsExactly(cfg: Config, bars: seq<Bar>, i: nat)
    requires TimeSorted(bars) && WindowComesFirst(cfg, bars) && MIN_BARS <= i < |bars|
    ensures var signal := OnBar(cfg, AllColumns(cfg, bars), i);
            var buy := signal.Some? && signal.value.Buy?;
            && (buy <==>
                 && CanTrade(cfg, bars, i) && CrossesAbove(cfg, bars, i)
                 && Gt(bars[i].volume, Scale(VolumeAverage(bars, VOL_WINDOW)[i], VOLUME_MULT)))
            && (signal == Some(Sell) <==> CanTrade(cfg, bars, i) && !buy && CrossesBelow(cfg, bars, i))
            && (signal.Some? ==> FlatInTime(cfg, signal.value))
  {
    RangeIsExact(cfg, bars, i);
    OnBarReads(cfg, AllColumns(cfg, bars), i);
    var h, l, day := OrbHigh(cfg, bars)[i], OrbLow(cfg, bars)[i], bars[i].day;
    if h != NaN {
      AboveTheHigh(cfg, bars, day, h, bars[i].close);
      AboveTheHigh(cfg, bars, day, h, bars[i - 1].close);
      BelowTheLow(cfg, bars, day, l, bars[i].close);
      BelowTheLow(cfg, bars, day, l, bars[i - 1].close);
    }
  }

  /** One window bar whose low is not above its high is enough for a close not to cross both ways. */
  lemma {:induction false} NeverBoth(cfg: Config, bars: seq<Bar>, i: nat, j: nat)
    requires 1 <= i < |bars| && WindowBar(cfg, bars, j, bars[i].day) && Le(bars[j].low, bars[j].high)
    ensures !(CrossesAbove(cfg, bars, i) && CrossesBelow(cfg, bars, i))
  {
    OrderFacts();
  }

  // ---------- An exit that the volume average blocks ----------

  /** A session of 41 bars without volume. The opening range is 10 to 11, and the last close falls to 9. */
  function Untraded(): (bars: seq<Bar>)
    ensures |bars| == 41
  {
    seq(41, i requires 0 <= i < 41 =>
      Bar(0, 9 * 60 + 30 + i, Fin(10.0), Fin(11.0), Fin(10.0), Fin(if i == 40 then 9.0 else 10.5), Fin(0.0)))
  }

  lemma {:induction false} BlockedWithoutVolume(cfg: Config, bars: seq<Bar>, i: nat)
    requires MIN_BARS <= i < |bars| && forall j :: 0 <= j < |bars| ==> bars[j].volume == Fin(0.0)
    ensures OnBar(cfg, AllColumns(cfg, bars), i) == None
  {
    var v := Volumes(bars);
    AllZero(v, i - 19, i + 1);
    assert VolumeAverage(bars, VOL_WINDOW)[i] == MeanOf(v, i - 19, i + 1, 20);
    assert MeanOf(v, i - 19, i + 1, 20) == NaN || MeanOf(v, i - 19, i + 1, 20) == Fin(0.0);
  }

  /** The close crosses below the whole opening range in mid-session, and there is no SELL. */
  lemma {:induction false} TheExitThatIsBlocked()
    ensures var bars := Untraded();
            && TimeSorted(bars) && WindowComesFirst(DEFAULT, bars) && !NoWindow(DEFAULT, bars, 0)
            && DEFAULT.rthOpen + DEFAULT.rangeMinutes <= bars[40].minute < DEFAULT.rthClose
            && CrossesBelow(DEFAULT, bars, 40) && OnBar(DEFAULT, AllColumns(DEFAULT, bars), 40) == None
  {
    var bars := Untraded();
    assert WindowBar(DEFAULT, bars, 0, 0) && !BelowWindow(DEFAULT, bars, 0, bars[39].close);
    BlockedWithoutVolume(DEFAULT, bars, 40);
  }
}
