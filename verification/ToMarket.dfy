/** trader/sdk.py, `to_market`: cancel a working limit order and place what is left of it as a market
    order. A reply of success only says that the cancel was sent: the limit order may go on filling. */
module ToMarket {
  import opened Common

  /** An order status as reported; either number may be missing. `terminal` says that the reported state
      is one in which the order no longer works, such as cancelled; the code never looks at it. */
  datatype Status = Status(remaining: Option<real>, filled: Option<real>, terminal: bool)

  /** `_remaining`: the unfilled quantity the code reads off a reported status. */
  function Remaining(total: real, st: Status): real {
    var filled := if st.filled.Some? then st.filled.value else 0.0;
    if (st.remaining == None || st.remaining == Some(0.0)) && filled == 0.0 then total
    else if st.remaining.Some? && st.remaining.value > 0.0 then st.remaining.value
    else total - filled
  }

  /** What an order of `total` with `filled` done may report: the fill, and as remaining either the rest,
      nothing yet, or the 0 of an order that was taken off the book. */
  ghost predicate Truthful(total: real, filled: real, st: Status) {
    && (st.filled == Some(filled) || (st.filled == None && filled == 0.0))
    && (st.remaining == None || st.remaining == Some(0.0) || st.remaining == Some(total - filled))
  }

  /** A status nobody has filled in yet. */
  ghost predicate Unpopulated(st: Status) {
    && (st.remaining == None || st.remaining == Some(0.0))
    && (st.filled == None || st.filled == Some(0.0))
  }

  /** A truthful status always yields the open quantity. */
  lemma {:induction false} TruthfulIsExact(total: real, filled: real, st: Status)
    requires 0.0 <= filled <= total && Truthful(total, filled, st)
    ensures Remaining(total, st) == total - filled
  {
  }

  /** An unpopulated one does so exactly while nothing has filled. */
  lemma {:induction false} UnpopulatedIsExactWhenUnfilled(total: real, filled: real, st: Status)
    requires 0.0 <= filled <= total && Unpopulated(st)
    ensures Remaining(total, st) == total - filled <==> filled == 0.0
  {
  }

  // ---------- The protocol ----------

  /** How a call ends: before the cancel, at a cancel that was refused or raised, with nothing left to
      convert, with the market order placed, or with its placement refused or raised. A placement that
      raised may have landed. */
  datatype End = NotStarted | CancelFailed | NothingLeft | Placed | PlaceFailed(landed: bool)

  /** Where the call stands. */
  datatype Phase =
    | Start
    | Read(remaining: real)
    | Cancelled(remaining: real)
    | Placing(quantity: real)
    | Done(end: End)

  /** The reply to the cancel. One that carries no status at all is taken for a success. */
  datatype CancelReply = NotAsked | Success | Statusless | Failed

  /** The limit order at the broker (total, filled, live), the market quantity placed so far, the reply
      to the cancel, and what the proofs remember: the fills the last snapshot with the order showed, and
      whether the second snapshot had it. */
  datatype State = State(phase: Phase, total: real, filled: real, live: bool, market: real,
                         reply: CancelReply, filledSeen: real, rereadFound: bool)

  ghost predicate Init(s: State) {
    && s.phase == Start && s.live && 0.0 <= s.filled < s.total
    && s.market == 0.0 && s.reply == NotAsked && !s.rereadFound && s.filledSeen == 0.0
  }

  /** The limit order executes some more; complete, it is no longer live. */
  ghost predicate Fill(s: State, t: State) {
    && s.live && s.filled < t.filled <= s.total
    && t == s.(filled := t.filled, live := t.filled < s.total)
  }

  /** The broker takes the order off the book, at any time after the cancel was sent. */
  ghost predicate TakeOff(s: State, t: State) {
    s.live && s.reply != NotAsked && t == s.(live := false)
  }

  /** What a snapshot may say about the order: its fill or nothing yet, and a terminal state only when the
      order no longer works. */
  ghost predicate Reports(s: State, st: Status) {
    (Truthful(s.total, s.filled, st) || Unpopulated(st)) && (st.terminal ==> !s.live)
  }

  /** The first snapshot: unusable (the call ends), or with the order. */
  ghost predicate FirstRead(s: State, t: State) {
    && s.phase == Start
    && (t == s.(phase := Done(NotStarted)) || exists st :: FirstFinds(s, t, st))
  }

  ghost predicate FirstFinds(s: State, t: State, st: Status) {
    var r := Remaining(s.total, st);
    && s.phase == Start && Reports(s, st)
    && t == s.(phase := if r <= 0.0 then Done(NotStarted) else Read(r), filledSeen := s.total - r)
  }

  /** The cancel is sent, or is refused or raises; whatever the reply, the order works on for now. */
  ghost predicate Cancel(s: State, t: State) {
    && s.phase.Read?
    && (|| t == s.(phase := Cancelled(s.phase.remaining), reply := Success)
        || t == s.(phase := Cancelled(s.phase.remaining), reply := Statusless)
        || t == s.(phase := Done(CancelFailed), reply := Failed))
  }

  ghost function AfterReread(remaining: real): Phase {
    if remaining <= 0.0 then Done(NothingLeft) else Placing(remaining)
  }

  /** The second snapshot: the order is found with some status, or the read fails or omits it. */
  ghost predicate Reread(s: State, t: State) {
    && s.phase.Cancelled?
    && (|| t == s.(phase := AfterReread(s.phase.remaining))
        || exists st :: RereadFinds(s, t, st))
  }

  ghost predicate RereadFinds(s: State, t: State, st: Status) {
    var r := Remaining(s.total, st);
    && s.phase.Cancelled? && Reports(s, st)
    && t == s.(phase := AfterReread(r), rereadFound := true, filledSeen := s.total - r)
  }

  /** The market order goes out, or is refused, or its placement raises. */
  ghost predicate Place(s: State, t: State) {
    && s.phase.Placing?
    && (|| t == s.(phase := Done(Placed), market := s.phase.quantity)
        || t == s.(phase := Done(PlaceFailed(true)), market := s.phase.quantity)
        || t == s.(phase := Done(PlaceFailed(false))))
  }

  ghost predicate Next(s: State, t: State) {
    Fill(s, t) || TakeOff(s, t) || FirstRead(s, t) || Cancel(s, t) || Reread(s, t) || Place(s, t)
  }

  ghost predicate StepsAt(run: seq<State>, i: nat) {
    i + 1 < |run| ==> Next(run[i], run[i + 1])
  }

  ghost predicate IsRun(run: seq<State>) {
    |run| > 0 && Init(run[0]) && forall i: nat :: StepsAt(run, i)
  }

  predicate Landed(phase: Phase) { phase == Done(Placed) || phase == Done(PlaceFailed(true)) }

  /** What holds in every reachable state. */
  ghost predicate Inv(s: State) {
    && 0.0 <= s.filled <= s.total && 0.0 <= s.filledSeen <= s.filled && (s.live ==> s.filled < s.total)
    && (s.phase.Start? || s.phase.Read? || s.phase == Done(NotStarted) <==> s.reply == NotAsked)
    && (s.phase == Done(CancelFailed) <==> s.reply == Failed)
    && (s.reply == NotAsked && !s.live ==> s.filled == s.total)
    && (s.phase.Start? || s.phase.Read? || s.phase.Cancelled? ==> !s.rereadFound)
    && (s.phase.Read? || s.phase.Cancelled? ==> s.phase.remaining == s.total - s.filledSeen > 0.0)
    && (s.phase.Placing? ==> s.phase.quantity == s.total - s.filledSeen > 0.0)
    && (s.phase == Done(NothingLeft) ==> s.filled == s.total)
    && s.market == (if Landed(s.phase) then s.total - s.filledSeen else 0.0)
    && (Landed(s.phase) ==> s.market > 0.0)
  }

  lemma {:induction false} InvSnapshot(s: State, t: State, st: Status)
    requires Inv(s) && (FirstFinds(s, t, st) || RereadFinds(s, t, st))
    ensures Inv(t)
  {
    if Truthful(s.total, s.filled, st) { TruthfulIsExact(s.total, s.filled, st); }
  }

  /** The steps without a snapshot. */
  lemma {:induction false} InvPlainStep(s: State, t: State)
    requires Inv(s)
    requires || Fill(s, t) || TakeOff(s, t) || Cancel(s, t) || Place(s, t)
             || (s.phase == Start && t == s.(phase := Done(NotStarted)))
             || (s.phase.Cancelled? && t == s.(phase := AfterReread(s.phase.remaining)))
    ensures Inv(t)
  {
  }

  lemma {:induction false} InvStep(s: State, t: State)
    requires Inv(s) && Next(s, t)
    ensures Inv(t)
  {
    if st :| RereadFinds(s, t, st) || FirstFinds(s, t, st) {
      InvSnapshot(s, t, st);
    } else {
      InvPlainStep(s, t);
    }
  }

  lemma {:induction false} StepAt(run: seq<State>, i: nat)
    requires IsRun(run) && i + 1 < |run|
    ensures Next(run[i], run[i + 1])
  {
    assert StepsAt(run, i);
  }

  lemma {:induction false} InvAlways(run: seq<State>, n: nat)
    requires IsRun(run) && n < |run|
    ensures Inv(run[n])
  {
    if n == 0 {
    } else {
      InvAlways(run, n - 1);
      StepAt(run, n - 1);
      InvStep(run[n - 1], run[n]);
    }
  }

  // ---------- What every run keeps ----------

  /** The market order goes out only after the reply to the cancel was a success or carried no status. After a
      cancel that was refused or raised nothing is ever placed. */
  lemma {:induction false} MarketOnlyAfterCancelReply(run: seq<State>, n: nat)
    requires IsRun(run) && n < |run|
    ensures run[n].market != 0.0 ==> run[n].reply == Success || run[n].reply == Statusless
    ensures run[n].market != 0.0 <==> Landed(run[n].phase)
  {
    InvAlways(run, n);
  }

  /** Once the order is off the book nothing more fills. */
  lemma {:induction false} FillsEndOffTheBook(run: seq<State>, m: nat, n: nat)
    requires IsRun(run) && m <= n < |run| && !run[m].live
    ensures !run[n].live && run[n].filled == run[m].filled && run[n].total == run[m].total
  {
    if m == n {
    } else {
      FillsEndOffTheBook(run, m, n - 1);
      StepAt(run, n - 1);
    }
  }

  /** Fills only grow, and the order does not change its size. */
  lemma {:induction false} FillsGrow(run: seq<State>, m: nat, n: nat)
    requires IsRun(run) && m <= n < |run|
    ensures run[m].filled <= run[n].filled && run[n].total == run[m].total
  {
    if m == n {
    } else {
      FillsGrow(run, m, n - 1);
      StepAt(run, n - 1);
    }
  }

  /** What the last snapshot with the order showed stays, once the second snapshot had it. */
  lemma {:induction false} SeenStays(run: seq<State>, m: nat, n: nat)
    requires IsRun(run) && m <= n < |run| && run[m].rereadFound
    ensures run[n].rereadFound && run[n].filledSeen == run[m].filledSeen
  {
    if m == n {
    } else {
      SeenStays(run, m, n - 1);
      InvAlways(run, n - 1);
      StepAt(run, n - 1);
    }
  }

  /** In every run, fills and market quantity together exceed the original quantity by exactly the fills
      that the last snapshot with the order did not show. */
  lemma {:induction false} ExcessIsUnseenFills(run: seq<State>, n: nat)
    requires IsRun(run) && n < |run| && run[n].market != 0.0
    ensures run[n].filled + run[n].market == run[n].total + (run[n].filled - run[n].filledSeen)
    ensures run[n].filled + run[n].market == run[n].total <==> run[n].filled == run[n].filledSeen
    ensures run[n].total <= run[n].filled + run[n].market <= run[n].total + run[n].filled
  {
    InvAlways(run, n);
  }

  // ---------- Conservation ----------

  /** When the second snapshot finds the order with status st: limit fills and market quantity make up the
      original quantity exactly if st was truthful and nothing has filled since, or nothing has filled at
      all. */
  lemma {:induction false} ConservedAfterReread(run: seq<State>, m: nat, n: nat, st: Status)
    requires IsRun(run) && m < n < |run| && RereadFinds(run[m], run[m + 1], st) && run[n].market != 0.0
    ensures run[n].filled + run[n].market == run[n].total
       <==> (Truthful(run[m].total, run[m].filled, st) && run[n].filled == run[m].filled) || run[n].filled == 0.0
  {
    InvAlways(run, m);
    FillsGrow(run, m, n);
    SeenStays(run, m + 1, n);
    ExcessIsUnseenFills(run, n);
    if Truthful(run[m].total, run[m].filled, st) {
      TruthfulIsExact(run[m].total, run[m].filled, st);
    }
  }

  /** What a caller could check: with a terminal state in the second snapshot nothing fills any more, so its
      truthfulness alone decides. */
  lemma {:induction false} ConservedAfterTerminal(run: seq<State>, m: nat, n: nat, st: Status)
    requires IsRun(run) && m < n < |run| && RereadFinds(run[m], run[m + 1], st) && run[n].market != 0.0
    requires st.terminal
    ensures run[n].filled + run[n].market == run[n].total
       <==> Truthful(run[m].total, run[m].filled, st) || run[m].filled == 0.0
  {
    FillsEndOffTheBook(run, m, n);
    ConservedAfterReread(run, m, n, st);
  }

  lemma {:induction false} RunGrows(run: seq<State>, t: State) returns (longer: seq<State>)
    requires IsRun(run) && Next(run[|run| - 1], t)
    ensures IsRun(longer) && run <= longer && longer == run + [t] && longer[|longer| - 1] == t
  {
    longer := run + [t];
    forall i: nat ensures StepsAt(longer, i) {
      if i < |run| - 1 { StepAt(run, i); }
    }
  }

  ghost predicate Conserved(s: State) { s.market != 0.0 ==> s.filled + s.market == s.total }

  /** Every way the run can go on conserves the quantity. */
  ghost predicate ConservesForSure(run: seq<State>) {
    forall longer: seq<State> :: IsRun(longer) && run <= longer ==> Conserved(longer[|longer| - 1])
  }

  /** A limit order that still works when the market order is about to go out can fill completely after it. */
  lemma {:induction false} LiveMayDouble(run: seq<State>) returns (longer: seq<State>)
    requires IsRun(run) && run[|run| - 1].phase.Placing? && run[|run| - 1].live
    ensures IsRun(longer) && run <= longer
    ensures var last := longer[|longer| - 1];
            last.market != 0.0 && last.filled + last.market == last.total + (last.total - last.filledSeen)
    ensures var last := longer[|longer| - 1]; last.filled == last.total > last.filledSeen
  {
    var s := run[|run| - 1];
    InvAlways(run, |run| - 1);
    var placed := s.(phase := Done(Placed), market := s.phase.quantity);
    longer := RunGrows(run, placed);
    longer := RunGrows(longer, placed.(filled := s.total, live := false));
  }

  lemma {:induction false} OffTheBookConserves(run: seq<State>, m: nat, st: Status, longer: seq<State>)
    requires m + 2 == |run| && RereadFinds(run[m], run[m + 1], st) && !run[m + 1].live
    requires Truthful(run[m].total, run[m].filled, st) && IsRun(longer) && run <= longer
    ensures Conserved(longer[|longer| - 1])
  {
    var last := |longer| - 1;
    assert longer[m] == run[m] && longer[m + 1] == run[m + 1];
    if longer[last].market != 0.0 {
      FillsEndOffTheBook(longer, m + 1, last);
      ConservedAfterReread(longer, m, last, st);
    }
  }

  /** After a truthful second snapshot with something left to place: the quantity is conserved whatever
      happens next if and only if the limit order is off the book by then. */
  lemma {:induction false} ConservedForSureExactly(run: seq<State>, m: nat, st: Status)
    requires IsRun(run) && m + 2 == |run| && RereadFinds(run[m], run[m + 1], st) && run[m + 1].phase.Placing?
    requires Truthful(run[m].total, run[m].filled, st)
    ensures ConservesForSure(run) <==> !run[m + 1].live
  {
    if run[m + 1].live {
      var longer := LiveMayDouble(run);
    } else {
      forall longer: seq<State> | IsRun(longer) && run <= longer ensures Conserved(longer[|longer| - 1]) {
        OffTheBookConserves(run, m, st, longer);
      }
    }
  }

  /** And it does double: the cancel is sent with a reply of success, the second snapshot is truthful, and the
      limit order fills completely beside a market order for its whole quantity. */
  lemma {:induction false} SentCancelDoubles(total: real, reply: CancelReply)
    returns (run: seq<State>, m: nat, st: Status)
    requires total > 0.0 && (reply == Success || reply == Statusless)
    ensures IsRun(run) && m + 1 < |run| && RereadFinds(run[m], run[m + 1], st) && Truthful(total, run[m].filled, st)
    ensures var last := run[|run| - 1]; last.reply == reply && last.filled == total == last.market == last.total
  {
    st := Status(Some(total), Some(0.0), false);
    var s0 := State(Start, total, 0.0, true, 0.0, NotAsked, 0.0, false);
    var s1 := s0.(phase := Read(total));
    var s2 := s1.(phase := Cancelled(total), reply := reply);
    var s3 := s2.(phase := Placing(total), rereadFound := true);
    var s4 := s3.(phase := Done(Placed), market := total);
    var s5 := s4.(filled := total, live := false);
    assert FirstFinds(s0, s1, st) && Cancel(s1, s2) && RereadFinds(s2, s3, st) && Place(s3, s4) && Fill(s4, s5);
    run := [s0, s1, s2, s3, s4, s5];
    m := 2;
  }

  /** An unpopulated status does the same to a partial fill, with the order off the book: for every quantity
      and partial fill there is a run in which the filled part is bought again. */
  lemma {:induction false} UnpopulatedBuysAgain(total: real, filled: real) returns (run: seq<State>, m: nat, st: Status)
    requires 0.0 < filled < total
    ensures IsRun(run) && m + 1 < |run| && RereadFinds(run[m], run[m + 1], st) && !run[m].live
    ensures Unpopulated(st) && !Truthful(total, filled, st)
    ensures var last := run[|run| - 1]; last.phase == Done(Placed) && last.filled + last.market == total + filled
  {
    st := Status(None, None, false);
    var s0 := State(Start, total, 0.0, true, 0.0, NotAsked, 0.0, false);
    var s1 := s0.(phase := Read(total));
    var s2 := s1.(filled := filled);
    var s3 := s2.(phase := Cancelled(total), reply := Success);
    var s4 := s3.(live := false);
    var s5 := s4.(phase := Placing(total), rereadFound := true);
    var s6 := s5.(phase := Done(Placed), market := total);
    assert FirstFinds(s0, s1, st) && Fill(s1, s2) && Cancel(s2, s3) && TakeOff(s3, s4);
    assert RereadFinds(s4, s5, st) && Place(s5, s6);
    run := [s0, s1, s2, s3, s4, s5, s6];
    m := 4;
  }

  /** When the second snapshot fails or omits the order, the market order is for what the first one left
      open, whatever has filled since. */
  lemma {:induction false} WithoutReread(run: seq<State>, m: nat, n: nat, st: Status)
    requires IsRun(run) && m < n < |run| && FirstFinds(run[m], run[m + 1], st)
    requires run[n].market != 0.0 && !run[n].rereadFound
    ensures run[n].market == Remaining(run[m].total, st)
  {
    InvAlways(run, n);
    FirstSeenStays(run, m + 1, n);
  }

  lemma {:induction false} FirstSeenStays(run: seq<State>, m: nat, n: nat)
    requires IsRun(run) && m <= n < |run| && !run[m].phase.Start? && !run[n].rereadFound
    ensures run[n].filledSeen == run[m].filledSeen && run[n].total == run[m].total && !run[n].phase.Start?
  {
    if m == n {
    } else {
      StepAt(run, n - 1);
      FirstSeenStays(run, m, n - 1);
    }
  }

  // ---------- Nothing in its place ----------

  /** A finished call that leaves part of the quantity without any order. */
  ghost predicate Stranded(s: State) {
    s.phase.Done? && !s.live && s.filled + s.market < s.total
  }

  /** Exactly when that happens: the limit order is off the book unfilled, after a cancel whose reply was a
      failure or a placement that did not land. */
  lemma {:induction false} StrandedExactly(run: seq<State>, n: nat)
    requires IsRun(run) && n < |run|
    ensures Stranded(run[n])
       <==> && !run[n].live && run[n].filled < run[n].total
            && (run[n].phase == Done(CancelFailed) || run[n].phase == Done(PlaceFailed(false)))
  {
    InvAlways(run, n);
    var s := run[n];
    if s.phase.Done? && s.phase.end.PlaceFailed? && !s.phase.end.landed {
      assert s.phase == Done(PlaceFailed(false));
    }
    assert s.phase.Done? && s.phase.end.PlaceFailed? && s.phase.end.landed ==> Landed(s.phase);
  }

  /** For one: the cancel takes effect and the placement is refused. */
  lemma {:induction false} RefusedPlacementStrands(total: real) returns (run: seq<State>)
    requires total > 0.0
    ensures IsRun(run) && Stranded(run[|run| - 1]) && run[|run| - 1].filled == 0.0 && run[|run| - 1].market == 0.0
  {
    var st := Status(Some(total), Some(0.0), false);
    var s0 := State(Start, total, 0.0, true, 0.0, NotAsked, 0.0, false);
    var s1 := s0.(phase := Read(total));
    var s2 := s1.(phase := Cancelled(total), reply := Success);
    var s3 := s2.(live := false);
    var s4 := s3.(phase := Placing(total), rereadFound := true);
    var s5 := s4.(phase := Done(PlaceFailed(false)));
    assert FirstFinds(s0, s1, st) && Cancel(s1, s2) && TakeOff(s2, s3) && RereadFinds(s3, s4, st) && Place(s4, s5);
    run := [s0, s1, s2, s3, s4, s5];
  }
}
