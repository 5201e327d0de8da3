/** trader/sdk.py, `compute_resize_plan`: which open orders protect a position that is resized, and when
    the resulting plan is fit to be executed. */
module ProtectiveOrders {
  import opened Common
  import ResizeDeltas
  import opened ResizePlan

  /** An open order as the typed query reports it, absent numbers counting as 0 and absent texts as "". */
  datatype OpenOrder = OpenOrder(orderId: int, instrumentId: int, parentId: int, orderType: string, action: string,
                                 quantity: real, auxPrice: real, limitPrice: real, tif: string)

  /** The side that closes a position. */
  function Opposite(adj: ResizeDeltas.Adjustment): Action { if adj.currentQty > 0.0 then SELL else BUY }

  function Text(action: Action): string { if action == BUY then "BUY" else "SELL" }

  predicate Protects(o: OpenOrder, adj: ResizeDeltas.Adjustment) {
    && o.instrumentId == adj.conId && o.action == Text(Opposite(adj))
    && (o.orderType in ["STP", "STP LMT", "TRAIL"] || (o.orderType == "LMT" && o.parentId > 0))
  }

  /** The plan's record of a protective order. */
  function Noted(o: OpenOrder, action: Action): Protective {
    var tif := if o.tif == "" then "GTC" else o.tif;
    Protective(o.orderId, o.orderType, action, o.quantity, o.auxPrice, o.limitPrice, tif)
  }

  function Associated(open: seq<OpenOrder>, n: nat, adj: ResizeDeltas.Adjustment): seq<Protective>
    requires n <= |open|
  {
    if n == 0 then []
    else Associated(open, n - 1, adj) + (if Protects(open[n - 1], adj) then [Noted(open[n - 1], Opposite(adj))] else [])
  }

  ghost predicate IsPlan(plan: seq<Planned>, adjustments: seq<ResizeDeltas.Adjustment>, open: seq<OpenOrder>) {
    && |plan| == |adjustments|
    && forall i :: 0 <= i < |plan| ==> plan[i] == Planned(adjustments[i], Associated(open, |open|, adjustments[i]))
  }

  method Associate(adjustments: seq<ResizeDeltas.Adjustment>, open: seq<OpenOrder>) returns (plan: seq<Planned>)
    ensures IsPlan(plan, adjustments, open)
  {
    plan := [];
    for i := 0 to |adjustments|
      invariant IsPlan(plan, adjustments[..i], open)
    {
      var adj := adjustments[i];
      var associated := ProtectivesOf(adj, open);
      plan := plan + [Planned(adj, associated)];
    }
  }

  /** The loop over the open orders. */
  method ProtectivesOf(adj: ResizeDeltas.Adjustment, open: seq<OpenOrder>) returns (associated: seq<Protective>)
    ensures associated == Associated(open, |open|, adj)
  {
    associated := [];
    for k := 0 to |open|
      invariant associated == Associated(open, k, adj)
    {
      var o := open[k];
      if o.instrumentId != adj.conId { continue; }
      var long := adj.currentQty > 0.0;
      var isProtective := (long && o.action == "SELL") || (!long && o.action == "BUY");
      var isStop := o.orderType == "STP" || o.orderType == "STP LMT" || o.orderType == "TRAIL";
      var isTakeProfit := o.orderType == "LMT" && o.parentId > 0;
      if isProtective && (isStop || isTakeProfit) {
        associated := associated + [Noted(o, if long then SELL else BUY)];
      }
    }
  }

  ghost predicate DistinctIds(open: seq<OpenOrder>) {
    forall k, k' :: 0 <= k < k' < |open| ==> open[k].orderId != open[k'].orderId
  }

  /** Entry j of the association among the first n orders notes open order k. */
  ghost predicate Notes(open: seq<OpenOrder>, n: nat, adj: ResizeDeltas.Adjustment, j: int, k: int)
    requires n <= |open|
  {
    && 0 <= k < n && Protects(open[k], adj)
    && 0 <= j < |Associated(open, n, adj)| && Associated(open, n, adj)[j] == Noted(open[k], Opposite(adj))
  }

  ghost predicate NotesSome(open: seq<OpenOrder>, n: nat, adj: ResizeDeltas.Adjustment, j: int)
    requires n <= |open|
  {
    exists k :: Notes(open, n, adj, j, k)
  }

  ghost predicate IsNoted(open: seq<OpenOrder>, n: nat, adj: ResizeDeltas.Adjustment, k: int)
    requires n <= |open|
  {
    exists j :: Notes(open, n, adj, j, k)
  }

  ghost predicate DistinctOrders(ps: seq<Protective>) {
    forall j, j' :: 0 <= j < j' < |ps| ==> ps[j].orderId != ps[j'].orderId
  }

  lemma {:induction false} OneMoreOrder(ps: seq<Protective>, p: Protective)
    requires DistinctOrders(ps) && forall j :: 0 <= j < |ps| ==> ps[j].orderId != p.orderId
    ensures DistinctOrders(ps + [p])
  {
  }

  /** The association holds the protective orders of the position, all of them and nothing else, each
      once. */
  lemma {:induction false} AssociatedExactly(open: seq<OpenOrder>, n: nat, adj: ResizeDeltas.Adjustment)
    requires n <= |open| && DistinctIds(open)
    ensures forall j :: 0 <= j < |Associated(open, n, adj)| ==> NotesSome(open, n, adj, j)
    ensures forall k :: 0 <= k < n && Protects(open[k], adj) ==> IsNoted(open, n, adj, k)
    ensures DistinctOrders(Associated(open, n, adj))
  {
    if n == 0 {
    } else {
      AssociatedExactly(open, n - 1, adj);
      var before, noted := Associated(open, n - 1, adj), Associated(open, n, adj);
      forall j | 0 <= j < |before| ensures NotesSome(open, n, adj, j) && before[j].orderId != open[n - 1].orderId {
        assert NotesSome(open, n - 1, adj, j);
        var k :| Notes(open, n - 1, adj, j, k);
        assert Notes(open, n, adj, j, k);
      }
      OneMoreOrder(before, Noted(open[n - 1], Opposite(adj)));
      forall k | 0 <= k < n && Protects(open[k], adj) ensures IsNoted(open, n, adj, k) {
        if k < n - 1 {
          assert IsNoted(open, n - 1, adj, k);
          var j :| Notes(open, n - 1, adj, j, k);
          assert Notes(open, n, adj, j, k);
        } else {
          assert Notes(open, n, adj, |before|, k);
        }
      }
      assert Protects(open[n - 1], adj) ==> Notes(open, n, adj, |before|, n - 1);
    }
  }

  // ---------- When the plan is fit to be executed ----------

  /** Two adjustments of the same instrument and side claim the same order. */
  ghost predicate ClaimedTwice(adjustments: seq<ResizeDeltas.Adjustment>, open: seq<OpenOrder>, i: int,
                               i': int, k: int) {
    && 0 <= i < i' < |adjustments| && 0 <= k < |open|
    && Protects(open[k], adjustments[i])
    && adjustments[i].conId == adjustments[i'].conId && Opposite(adjustments[i]) == Opposite(adjustments[i'])
  }

  lemma {:induction false} NotedAt(plan: seq<Planned>, adjustments: seq<ResizeDeltas.Adjustment>, open: seq<OpenOrder>,
                                   i: nat, j: nat) returns (k: nat)
    requires IsPlan(plan, adjustments, open) && DistinctIds(open) && At(plan, i, j)
    ensures Notes(open, |open|, adjustments[i], j, k)
  {
    AssociatedExactly(open, |open|, adjustments[i]);
    assert NotesSome(open, |open|, adjustments[i], j);
    k :| Notes(open, |open|, adjustments[i], j, k);
  }

  /** Exactly when no two protectives of a plan share a slot: no order is claimed by two rows of the
      portfolio, as it would be by the rows of one instrument held on the same side in two accounts. */
  lemma {:induction false} SlotsAreDistinct(plan: seq<Planned>, adjustments: seq<ResizeDeltas.Adjustment>,
                                            open: seq<OpenOrder>)
    requires IsPlan(plan, adjustments, open) && DistinctIds(open)
    ensures DistinctSlots(plan) <==> forall i, i', k :: !ClaimedTwice(adjustments, open, i, i', k)
  {
    if i, i', k :| ClaimedTwice(adjustments, open, i, i', k) {
      SharedSlot(plan, adjustments, open, i, i', k);
    } else {
      forall i, j, i', j' | At(plan, i, j) && At(plan, i', j')
                            && plan[i].associated[j].orderId == plan[i'].associated[j'].orderId
        ensures i == i' && j == j'
      {
        var k := NotedAt(plan, adjustments, open, i, j);
        var k' := NotedAt(plan, adjustments, open, i', j');
        assert k == k';
        assert !ClaimedTwice(adjustments, open, i, i', k) && !ClaimedTwice(adjustments, open, i', i, k);
        SameSide(adjustments[i], adjustments[i']);
        AssociatedExactly(open, |open|, adjustments[i]);
        assert i == i' && DistinctOrders(plan[i].associated);
      }
    }
  }

  lemma {:induction false} SameSide(a: ResizeDeltas.Adjustment, b: ResizeDeltas.Adjustment)
    ensures Text(Opposite(a)) == Text(Opposite(b)) <==> Opposite(a) == Opposite(b)
  {
    assert |Text(BUY)| != |Text(SELL)|;
  }

  lemma {:induction false} SharedSlot(plan: seq<Planned>, adjustments: seq<ResizeDeltas.Adjustment>,
                                      open: seq<OpenOrder>,
                                      i: nat, i': nat, k: nat)
    requires IsPlan(plan, adjustments, open) && DistinctIds(open) && ClaimedTwice(adjustments, open, i, i', k)
    ensures !DistinctSlots(plan)
  {
    AssociatedExactly(open, |open|, adjustments[i]);
    AssociatedExactly(open, |open|, adjustments[i']);
    assert IsNoted(open, |open|, adjustments[i], k) && IsNoted(open, |open|, adjustments[i'], k);
    var j :| Notes(open, |open|, adjustments[i], j, k);
    var j' :| Notes(open, |open|, adjustments[i'], j', k);
    assert At(plan, i, j) && At(plan, i', j');
  }

  /** A broker that accepts every order and sees every cancel through at once. */
  function Willing(): Broker {
    Broker(i => Accepted, i => true, (i, k) => Sent(AtOnce), (i, k) => Placed)
  }

  /** Two rows claim the one open order: the plan names it twice, and a willing broker ends with two
      re-created orders in its place. */
  lemma {:induction false} SharedOrderDoubles(adj: ResizeDeltas.Adjustment, adj': ResizeDeltas.Adjustment, o: OpenOrder)
    returns (plan: seq<Planned>)
    requires Protects(o, adj) && adj.conId == adj'.conId && Opposite(adj) == Opposite(adj')
    ensures IsPlan(plan, [adj, adj'], [o]) && ClaimedTwice([adj, adj'], [o], 0, 1, 0) && !DistinctSlots(plan)
    ensures |plan| == 2 && |SlotAt(Willing(), plan, [Original(Noted(o, Opposite(adj)))], o.orderId, 2, 0)| == 2
  {
    plan := SharedPlan(adj, adj', o);
    TwoRecreations(plan, o.orderId);
    LiveCount(Willing(), plan, [Original(Noted(o, Opposite(adj)))], o.orderId, 2, 0);
  }

  lemma {:induction false} SharedPlan(adj: ResizeDeltas.Adjustment, adj': ResizeDeltas.Adjustment, o: OpenOrder)
    returns (plan: seq<Planned>)
    requires Protects(o, adj) && adj.conId == adj'.conId && Opposite(adj) == Opposite(adj')
    ensures IsPlan(plan, [adj, adj'], [o]) && ClaimedTwice([adj, adj'], [o], 0, 1, 0) && !DistinctSlots(plan)
    ensures |plan| == 2 && forall i :: 0 <= i < 2 ==>
      |plan[i].associated| == 1 && plan[i].associated[0].orderId == o.orderId
  {
    var noted := [Noted(o, Opposite(adj))];
    OnlyOrder(o, adj);
    OnlyOrder(o, adj');
    plan := [Planned(adj, noted), Planned(adj', noted)];
    assert At(plan, 0, 0) && At(plan, 1, 0);
  }

  lemma {:induction false} OnlyOrder(o: OpenOrder, adj: ResizeDeltas.Adjustment)
    requires Protects(o, adj)
    ensures Associated([o], 1, adj) == [Noted(o, Opposite(adj))]
  {
    assert Associated([o], 0, adj) == [];
  }

  lemma {:induction false} TwoRecreations(plan: seq<Planned>, slot: int)
    requires |plan| == 2 && forall i :: 0 <= i < 2 ==>
      |plan[i].associated| == 1 && plan[i].associated[0].orderId == slot
    ensures Recreations(Willing(), plan, slot, 2, 0) == 2 && TakenOff(Willing(), plan, slot, 2, 0)
  {
    var b := Willing();
    assert Recreations(b, plan, slot, 0, 0) == 0;
    assert Recreations(b, plan, slot, 0, 1) == 1 && TakenOff(b, plan, slot, 0, 1);
    assert Recreations(b, plan, slot, 1, 0) == 1 && TakenOff(b, plan, slot, 1, 0);
    assert Recreations(b, plan, slot, 1, 1) == 2 && TakenOff(b, plan, slot, 1, 1);
  }

  /** Such rows are those of one instrument held long in two accounts, and such an order is its stop. */
  lemma {:induction false} ASharedStop()
    ensures var adj := ResizeDeltas.Adjustment("X", 7, 100.0, 50, -50.0, SELL, 1000.0, 500.0, 10.0);
            Protects(OpenOrder(1, 7, 0, "STP", "SELL", 200.0, 9.0, 0.0, "GTC"), adj)
  {
  }

  /** Every open order to buy or sell is live, alone in its slot, as its protective record says. */
  ghost predicate BookOf(book: Book, open: seq<OpenOrder>) {
    forall k, action :: 0 <= k < |open| && open[k].action == Text(action)
      ==> Content(book, open[k].orderId) == [Original(Noted(open[k], action))]
  }

  /** One row per instrument. */
  ghost predicate DistinctPositions(positions: seq<ResizeDeltas.Position>) {
    forall i, i' :: 0 <= i < i' < |positions| ==> positions[i].conId != positions[i'].conId
  }

  ghost predicate DistinctAdjustments(adjs: seq<ResizeDeltas.Adjustment>) {
    forall i, i' :: 0 <= i < i' < |adjs| ==> adjs[i].conId != adjs[i'].conId
  }

  ghost predicate HasPosition(positions: seq<ResizeDeltas.Position>, n: nat, conId: int) {
    exists p :: 0 <= p < n && p < |positions| && positions[p].conId == conId
  }

  /** From positions on distinct instruments to a plan that names every protective order once. */
  lemma {:induction false} ReadyToExecute(plan: seq<Planned>, positions: seq<ResizeDeltas.Position>, scale: real,
                                          open: seq<OpenOrder>, book: Book)
    requires IsPlan(plan, ResizeDeltas.Adjustments(positions, |positions|, scale), open)
    requires DistinctPositions(positions)
    requires DistinctIds(open) && BookOf(book, open)
    ensures DistinctSlots(plan) && AllLive(plan, book)
  {
    var adjustments := ResizeDeltas.Adjustments(positions, |positions|, scale);
    DistinctInstruments(positions, |positions|, scale);
    assert forall i, i', k :: !ClaimedTwice(adjustments, open, i, i', k);
    SlotsAreDistinct(plan, adjustments, open);
    forall i, j | At(plan, i, j)
      ensures Content(book, plan[i].associated[j].orderId) == [Original(plan[i].associated[j])]
    {
      var k := NotedAt(plan, adjustments, open, i, j);
      assert open[k].action == Text(Opposite(adjustments[i]));
    }
  }

  lemma {:induction false} DistinctInstruments(positions: seq<ResizeDeltas.Position>, n: nat, scale: real)
    requires n <= |positions|
    requires DistinctPositions(positions)
    ensures var adjs := ResizeDeltas.Adjustments(positions, n, scale);
            DistinctAdjustments(adjs) && forall i :: 0 <= i < |adjs| ==> HasPosition(positions, n, adjs[i].conId)
  {
    if n == 0 {
    } else {
      DistinctInstruments(positions, n - 1, scale);
      var before := ResizeDeltas.Adjustments(positions, n - 1, scale);
      var adjs := ResizeDeltas.Adjustments(positions, n, scale);
      forall i | 0 <= i < |before|
        ensures before[i].conId != positions[n - 1].conId && HasPosition(positions, n, before[i].conId)
      {
        assert HasPosition(positions, n - 1, before[i].conId);
        var p :| 0 <= p < n - 1 && p < |positions| && positions[p].conId == before[i].conId;
        assert positions[p].conId != positions[n - 1].conId;
      }
      assert HasPosition(positions, n, positions[n - 1].conId);
      var last := ResizeDeltas.Adjust(positions[n - 1], scale);
      assert adjs == before + (if last.Some? then [last.value] else []);
      assert last.Some? ==> last.value.conId == positions[n - 1].conId;
    }
  }

  // ---------- What a re-created protective does to the resized position ----------

  /** The position after an order of the given side and quantity has executed in full. */
  function Executed(position: real, action: Action, quantity: nat): real {
    if action == BUY then position + quantity as real else position - quantity as real
  }

  /** A re-created protective that triggers closes the resized position, no more and no less, exactly
      when the resize has not turned the position round (a negative upper bound can). */
  lemma {:induction false} ProtectiveCloses(p: ResizeDeltas.Position, scale: real, associated: seq<Protective>)
    requires ResizeDeltas.Adjust(p, scale).Some?
    ensures var planned := Planned(ResizeDeltas.Adjust(p, scale).value, associated);
            Executed(ResizeDeltas.After(p, scale), Opposite(planned.adjustment), planned.NewQuantity()) == 0.0
            <==> !ResizeDeltas.Flipped(p.qty, ResizeDeltas.After(p, scale))
  {
    ResizeDeltas.AfterIsTarget(p, scale);
  }
}
