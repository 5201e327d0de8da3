/** trader/sdk.py, `execute_resize_plan`: the delta order first, then each protective order cancelled and
    re-created, against a broker that may answer anything at each call. A cancel that is answered with
    success has been sent; the order may still work when its successor is placed, or to the end of the run. */
module ResizePlan {
  import opened Common
  import ResizeDeltas

  datatype Protective = Protective(orderId: int, orderType: string, action: Action, quantity: real, auxPrice: real,
                                   lmtPrice: real, tif: string)

  /** A planned adjustment with the protective orders of its position. */
  datatype Planned = Planned(adjustment: ResizeDeltas.Adjustment, associated: seq<Protective>) {
    function Symbol(): string { adjustment.symbol }

    /** The quantity a re-created protective gets. */
    function NewQuantity(): nat { Magnitude(adjustment.targetQty) }
  }

  /** The answer to the delta order. After a timeout it may or may not have executed. */
  datatype DeltaAnswer = Accepted | Refused | TimedOut | DeltaRaised

  /** When a cancel takes effect: before the next call, after it, or not during the run. */
  datatype Effect = AtOnce | Late | Never

  /** The answer to a cancel: success, which says that it was sent, or something else. */
  datatype CancelAnswer = Sent(effect: Effect) | NotSent(effect: Effect) | CancelRaised(effect: Effect)

  /** The answer to a re-created order. A call that raised may have placed it; a reply that carries
      no status at all is taken for a success. */
  datatype PlaceAnswer = Placed | PlaceRefused | PlaceRaised(live: bool) | NoStatus(live: bool)

  /** A broker: its answers, call by call, and whether the symbol's contract is found. */
  datatype Broker = Broker(delta: nat -> DeltaAnswer, contractFound: nat -> bool,
                           cancel: (nat, nat) -> CancelAnswer, place: (nat, nat) -> PlaceAnswer)

  /** A live protective order: the one that the plan was made for, or a re-created one, which the broker
      knows under an id of its own. */
  datatype Live = Original(order: Protective) | Recreated(order: Protective)

  /** Live orders by slot; the slot of a protective order is its original order id. */
  type Book = map<int, seq<Live>>

  function Content(book: Book, slot: int): seq<Live> { if slot in book then book[slot] else [] }

  datatype Failure = DeltaFailed(symbol: string)

  datatype Warning = ContractUnknown(symbol: string) | CancelError(slot: int) | CancelUnconfirmed(slot: int)
                   | Unprotected(slot: int)

  datatype Note = Resized(symbol: string) | Reset(slot: int, quantity: int)

  datatype Results = Results(successes: seq<Note>, failures: seq<Failure>, warnings: seq<Warning>)

  function Magnitude(x: int): nat { if x < 0 then -x else x }

  /** The re-created order: the same order at the new quantity. */
  function Renewed(o: Protective, quantity: int): Protective { o.(quantity := quantity as real) }

  // ---------- What one attempt does to a slot ----------

  /** The delta succeeded and the contract is known, so the protectives are brought to the new size. */
  predicate Proceeds(b: Broker, i: nat) { b.delta(i) == Accepted && b.contractFound(i) }

  predicate Lands(p: PlaceAnswer) { p == Placed || p == PlaceRaised(true) || p == NoStatus(true) }

  /** The cancel names the original order, so re-created ones stay. */
  function WithoutOriginals(orders: seq<Live>): seq<Live> {
    if orders == [] then []
    else (if orders[0].Original? then [] else [orders[0]]) + WithoutOriginals(orders[1..])
  }

  /** The slot's live orders when the re-creation is placed. */
  function Kept(orders: seq<Live>, cancel: CancelAnswer): seq<Live> {
    if cancel.effect == AtOnce then WithoutOriginals(orders) else orders
  }

  /** And once it is. */
  function WithSuccessor(orders: seq<Live>, o: Protective, quantity: int, cancel: CancelAnswer,
                         place: PlaceAnswer): seq<Live> {
    Kept(orders, cancel) + (if cancel.Sent? && Lands(place) then [Recreated(Renewed(o, quantity))] else [])
  }

  /** The slot's live orders after an attempt to re-create o at the new quantity. */
  function AfterAttempt(orders: seq<Live>, o: Protective, quantity: int, cancel: CancelAnswer,
                        place: PlaceAnswer): seq<Live> {
    var now := WithSuccessor(orders, o, quantity, cancel, place);
    if cancel.effect == Late then WithoutOriginals(now) else now
  }

  /** The books of one attempt: after the cancel, after the re-creation when there is one, and after a late
      effect of the cancel. */
  function AttemptBooks(book: Book, o: Protective, quantity: int, cancel: CancelAnswer, place: PlaceAnswer)
    : (steps: seq<Book>)
    ensures |steps| > 0
  {
    var slot, orders := o.orderId, Content(book, o.orderId);
    [book[slot := Kept(orders, cancel)]]
    + (if cancel.Sent? then [book[slot := WithSuccessor(orders, o, quantity, cancel, place)]] else [])
    + (if cancel.effect == Late then [book[slot := AfterAttempt(orders, o, quantity, cancel, place)]] else [])
  }

  /** Whether the attempt at (i, k) is warned of. */
  predicate Warned(b: Broker, i: nat, k: nat) {
    Proceeds(b, i) && (!b.cancel(i, k).Sent? || b.place(i, k) == PlaceRefused || b.place(i, k).PlaceRaised?)
  }

  predicate Names(w: Warning, slot: int) {
    (w.CancelError? && w.slot == slot) || (w.CancelUnconfirmed? && w.slot == slot) || (w.Unprotected? && w.slot == slot)
  }

  ghost predicate HasWarning(ws: seq<Warning>, slot: int) {
    exists w :: w in ws && Names(w, slot)
  }

  // ---------- Plans and books ----------

  predicate At(plan: seq<Planned>, i: int, k: int) {
    0 <= i < |plan| && 0 <= k < |plan[i].associated|
  }

  ghost predicate AtSlot(plan: seq<Planned>, i: int, k: int, slot: int) {
    At(plan, i, k) && plan[i].associated[k].orderId == slot
  }

  /** A position in the plan: within adjustment m, its first j protectives done. */
  predicate IsPosition(plan: seq<Planned>, m: int, j: int) {
    0 <= m <= |plan| && 0 <= j && (if m < |plan| then j <= |plan[m].associated| else j == 0)
  }

  /** (i, k) comes before position (m, j) in plan order. */
  ghost predicate Before(i: int, k: int, m: int, j: int) {
    i < m || (i == m && k < j)
  }

  /** The slot's live orders when the plan has been worked off up to position (m, j), from `orders` on. */
  function SlotAt(b: Broker, plan: seq<Planned>, orders: seq<Live>, slot: int, m: nat, j: nat): seq<Live>
    requires IsPosition(plan, m, j)
    decreases m, j
  {
    if j > 0 then
      var before, o := SlotAt(b, plan, orders, slot, m, j - 1), plan[m].associated[j - 1];
      if Proceeds(b, m) && o.orderId == slot then
        AfterAttempt(before, o, plan[m].NewQuantity(), b.cancel(m, j - 1), b.place(m, j - 1))
      else before
    else if m > 0 then SlotAt(b, plan, orders, slot, m - 1, |plan[m - 1].associated|)
    else orders
  }

  /** Every book of the run up to position (m, j), one for each call that can change it. */
  function Books(b: Broker, plan: seq<Planned>, start: Book, m: nat, j: nat): (books: seq<Book>)
    requires IsPosition(plan, m, j)
    ensures |books| > 0
    decreases m, j
  {
    if j > 0 then
      var before, o := Books(b, plan, start, m, j - 1), plan[m].associated[j - 1];
      if Proceeds(b, m) then
        before + AttemptBooks(Last(before), o, plan[m].NewQuantity(), b.cancel(m, j - 1), b.place(m, j - 1))
      else before
    else if m > 0 then Books(b, plan, start, m - 1, |plan[m - 1].associated|)
    else [start]
  }

  function Last(books: seq<Book>): Book
    requires |books| > 0
  {
    books[|books| - 1]
  }

  ghost predicate BookAt(b: Broker, plan: seq<Planned>, start: Book, book: Book, m: nat, j: nat)
    requires IsPosition(plan, m, j)
  {
    forall slot :: Content(book, slot) == SlotAt(b, plan, Content(start, slot), slot, m, j)
  }

  /** An attempt before (m, j) at the slot is warned of. */
  ghost predicate WarnedBefore(b: Broker, plan: seq<Planned>, slot: int, m: int, j: int) {
    exists i, k :: AtSlot(plan, i, k, slot) && Before(i, k, m, j) && Warned(b, i, k)
  }

  ghost predicate WarningsAt(b: Broker, plan: seq<Planned>, ws: seq<Warning>, m: nat, j: nat) {
    forall slot :: HasWarning(ws, slot) <==> WarnedBefore(b, plan, slot, m, j)
  }

  // ---------- The report ----------

  function FailuresUpTo(b: Broker, plan: seq<Planned>, m: nat): seq<Failure>
    requires m <= |plan|
  {
    if m == 0 then []
    else FailuresUpTo(b, plan, m - 1) + (if b.delta(m - 1) == Accepted then [] else [DeltaFailed(plan[m - 1].Symbol())])
  }

  /** The successes of one adjustment: the delta, and each of its first j protectives that the broker
      said, or is taken to have said, it re-created. */
  function SuccessesOf(b: Broker, plan: seq<Planned>, i: nat, j: nat): seq<Note>
    requires i < |plan| && j <= |plan[i].associated|
  {
    if b.delta(i) != Accepted then []
    else if j == 0 || !b.contractFound(i) then [Resized(plan[i].Symbol())]
    else SuccessesOf(b, plan, i, j - 1)
         + ReportOf(plan[i].associated[j - 1].orderId, plan[i].NewQuantity(), b.cancel(i, j - 1), b.place(i, j - 1))
  }

  function ReportOf(slot: int, quantity: nat, cancel: CancelAnswer, place: PlaceAnswer): seq<Note> {
    if cancel.Sent? && (place == Placed || place.NoStatus?) then [Reset(slot, quantity)] else []
  }

  function SuccessesUpTo(b: Broker, plan: seq<Planned>, m: nat): seq<Note>
    requires m <= |plan|
  {
    if m == 0 then [] else SuccessesUpTo(b, plan, m - 1) + SuccessesOf(b, plan, m - 1, |plan[m - 1].associated|)
  }

  // ---------- The method ----------

  /** Before adjustment m is dealt with. */
  ghost predicate Outer(b: Broker, plan: seq<Planned>, start: Book, trace: seq<Book>, r: Results, m: nat) {
    && m <= |plan| && trace == Books(b, plan, start, m, 0) && WarningsAt(b, plan, r.warnings, m, 0)
    && r.failures == FailuresUpTo(b, plan, m) && r.successes == SuccessesUpTo(b, plan, m)
  }

  /** Within adjustment m, its first j protectives done. */
  ghost predicate Inner(b: Broker, plan: seq<Planned>, start: Book, trace: seq<Book>, r: Results, m: nat, j: nat) {
    && m < |plan| && j <= |plan[m].associated| && Proceeds(b, m)
    && trace == Books(b, plan, start, m, j) && WarningsAt(b, plan, r.warnings, m, j)
    && r.failures == FailuresUpTo(b, plan, m + 1)
    && r.successes == SuccessesUpTo(b, plan, m) + SuccessesOf(b, plan, m, j)
  }

  method ExecuteResizePlan(plan: seq<Planned>, b: Broker, start: Book)
    returns (results: Results, book: Book, ghost trace: seq<Book>)
    ensures BookAt(b, plan, start, book, |plan|, 0)
    ensures WarningsAt(b, plan, results.warnings, |plan|, 0)
    ensures results.failures == FailuresUpTo(b, plan, |plan|) && results.successes == SuccessesUpTo(b, plan, |plan|)
    ensures trace == Books(b, plan, start, |plan|, 0) && book == Last(trace)
  {
    results := Results([], [], []);
    book := start;
    trace := [start];
    for m := 0 to |plan|
      invariant Outer(b, plan, start, trace, results, m) && book == Last(trace)
    {
      ghost var before := results;
      if b.delta(m) != Accepted {
        results := results.(failures := results.failures + [DeltaFailed(plan[m].Symbol())]);
        SkipAdjustment(b, plan, start, trace, before, results, m);
        continue;
      }
      results := results.(successes := results.successes + [Resized(plan[m].Symbol())]);
      if !b.contractFound(m) {
        results := results.(warnings := results.warnings + [ContractUnknown(plan[m].Symbol())]);
        SkipAdjustment(b, plan, start, trace, before, results, m);
        continue;
      }
      EnterAdjustment(b, plan, start, trace, before, results, m);
      results, book, trace := ResetProtectives(plan, b, start, m, results, book, trace);
      NextAdjustment(b, plan, start, trace, results, m);
    }
    SlotsOfLast(b, plan, start, |plan|, 0);
  }

  /** The loop over the protectives of one adjustment. */
  method ResetProtectives(plan: seq<Planned>, b: Broker, ghost start: Book, m: nat, before: Results, book0: Book,
                          ghost trace0: seq<Book>)
    returns (results: Results, book: Book, ghost trace: seq<Book>)
    requires Inner(b, plan, start, trace0, before, m, 0) && book0 == Last(trace0)
    ensures Inner(b, plan, start, trace, results, m, |plan[m].associated|) && book == Last(trace)
  {
    results, book, trace := before, book0, trace0;
    for j := 0 to |plan[m].associated|
      invariant Inner(b, plan, start, trace, results, m, j) && book == Last(trace)
    {
      ghost var steps: seq<Book>;
      ghost var r, trace' := results, trace;
      results, book, steps := ResetProtective(plan[m].associated[j], plan[m].NewQuantity(), b.cancel(m, j),
                                              b.place(m, j), results, book);
      trace := trace' + steps;
      ProtectiveDone(b, plan, start, trace', trace, r, results, m, j);
    }
  }

  /** What `ResetProtective` adds to the warnings. */
  ghost predicate AddsWarnings(before: seq<Warning>, after: seq<Warning>, slot: int, warned: bool) {
    exists more :: after == before + more && (forall w :: w in more ==> Names(w, slot)) && (more != [] <==> warned)
  }

  /** What one attempt adds to the report. */
  ghost predicate Reports(slot: int, quantity: nat, cancel: CancelAnswer, place: PlaceAnswer, before: Results,
                          after: Results) {
    && after.failures == before.failures
    && after.successes == before.successes + ReportOf(slot, quantity, cancel, place)
    && AddsWarnings(before.warnings, after.warnings, slot, !cancel.Sent? || place == PlaceRefused || place.PlaceRaised?)
  }

  /** Cancel one protective, require the reply, and re-create it at the new quantity. */
  method ResetProtective(o: Protective, quantity: nat, cancel: CancelAnswer, place: PlaceAnswer,
                         before: Results, start: Book)
    returns (results: Results, book: Book, ghost steps: seq<Book>)
    ensures steps == AttemptBooks(start, o, quantity, cancel, place) && book == Last(steps)
    ensures Reports(o.orderId, quantity, cancel, place, before, results)
  {
    var slot := o.orderId;
    results := before;
    assert before.successes + [] == before.successes && before.warnings + [] == before.warnings;
    book, steps := CancelAndPlace(o, quantity, cancel, place, start);
    if !cancel.Sent? {
      ghost var more := [];
      if cancel.CancelRaised? {
        results := results.(warnings := results.warnings + [CancelError(slot)]);
        more := [CancelError(slot)];
      }
      results := results.(warnings := results.warnings + [CancelUnconfirmed(slot)]);
      assert results.warnings == before.warnings + (more + [CancelUnconfirmed(slot)]);
      Adding(before.warnings, more + [CancelUnconfirmed(slot)], slot);
      return;
    }
    if place == Placed || place.NoStatus? {
      results := results.(successes := results.successes + [Reset(slot, quantity)]);
      Adding(before.warnings, [], slot);
    } else {
      results := results.(warnings := results.warnings + [Unprotected(slot)]);
      Adding(before.warnings, [Unprotected(slot)], slot);
    }
  }

  /** What the two calls, and a late effect of the first, do to the book. */
  method CancelAndPlace(o: Protective, quantity: nat, cancel: CancelAnswer, place: PlaceAnswer, start: Book)
    returns (book: Book, ghost steps: seq<Book>)
    ensures steps == AttemptBooks(start, o, quantity, cancel, place) && book == Last(steps)
  {
    var slot := o.orderId;
    var orders := Content(start, slot);
    if cancel.effect == AtOnce { orders := WithoutOriginals(orders); }
    book := start[slot := orders];
    steps := [book];
    if cancel.Sent? {
      if Lands(place) { orders := orders + [Recreated(Renewed(o, quantity))]; }
      assert orders == WithSuccessor(Content(start, slot), o, quantity, cancel, place);
      book := start[slot := orders];
      steps := steps + [book];
    } else {
      assert orders + [] == orders;
    }
    if cancel.effect == Late {
      book := start[slot := WithoutOriginals(orders)];
      steps := steps + [book];
    }
  }

  // ---------- Steps of the proof ----------

  lemma {:induction false} Adding(before: seq<Warning>, more: seq<Warning>, slot: int)
    requires forall w :: w in more ==> Names(w, slot)
    ensures AddsWarnings(before, before + more, slot, more != [])
  {
  }

  /** The slots of the last book. */
  lemma {:induction false} SlotsOfLast(b: Broker, plan: seq<Planned>, start: Book, m: nat, j: nat)
    requires IsPosition(plan, m, j)
    ensures BookAt(b, plan, start, Last(Books(b, plan, start, m, j)), m, j)
    decreases m, j
  {
    if j > 0 {
      SlotsOfLast(b, plan, start, m, j - 1);
      LastBook(b, plan, start, m, j - 1);
      SlotsStep(b, plan, start, Last(Books(b, plan, start, m, j - 1)), m, j - 1);
    } else if m > 0 {
      SlotsOfLast(b, plan, start, m - 1, |plan[m - 1].associated|);
      SlotsNextRow(b, plan, start, Last(Books(b, plan, start, m, 0)), m - 1);
    }
  }

  /** The book after the attempt at (m, j), which is not made when the adjustment does not proceed. */
  function Attempted(b: Broker, plan: seq<Planned>, book: Book, m: nat, j: nat): Book
    requires At(plan, m, j)
  {
    if Proceeds(b, m)
    then Last(AttemptBooks(book, plan[m].associated[j], plan[m].NewQuantity(), b.cancel(m, j), b.place(m, j)))
    else book
  }

  lemma {:induction false} LastBook(b: Broker, plan: seq<Planned>, start: Book, m: nat, j: nat)
    requires At(plan, m, j)
    ensures Last(Books(b, plan, start, m, j + 1)) == Attempted(b, plan, Last(Books(b, plan, start, m, j)), m, j)
  {
  }

  lemma {:induction false} SlotsStep(b: Broker, plan: seq<Planned>, start: Book, book: Book, m: nat, j: nat)
    requires At(plan, m, j) && BookAt(b, plan, start, book, m, j)
    ensures BookAt(b, plan, start, Attempted(b, plan, book, m, j), m, j + 1)
  {
    LastOfAttempt(book, plan[m].associated[j], plan[m].NewQuantity(), b.cancel(m, j), b.place(m, j));
  }

  lemma {:induction false} SlotsNextRow(b: Broker, plan: seq<Planned>, start: Book, book: Book, m: nat)
    requires m < |plan| && BookAt(b, plan, start, book, m, |plan[m].associated|)
    ensures BookAt(b, plan, start, book, m + 1, 0)
  {
  }

  /** An attempt changes only its slot. */
  lemma {:induction false} LastOfAttempt(book: Book, o: Protective, quantity: int, cancel: CancelAnswer,
                                         place: PlaceAnswer)
    ensures var last := Last(AttemptBooks(book, o, quantity, cancel, place));
            forall slot :: Content(last, slot) == if slot == o.orderId
                                                 then AfterAttempt(Content(book, slot), o, quantity, cancel, place)
                                                 else Content(book, slot)
  {
    var orders := Content(book, o.orderId);
    assert !cancel.Sent? ==> WithSuccessor(orders, o, quantity, cancel, place) == Kept(orders, cancel);
  }

  lemma {:induction false} WarningDone(b: Broker, plan: seq<Planned>, ws: seq<Warning>, ws': seq<Warning>,
                                       m: nat, j: nat)
    requires At(plan, m, j) && WarningsAt(b, plan, ws, m, j)
    requires AddsWarnings(ws, ws', plan[m].associated[j].orderId, Warned(b, m, j))
    ensures WarningsAt(b, plan, ws', m, j + 1)
  {
    var slot := plan[m].associated[j].orderId;
    var more :| ws' == ws + more && (forall w :: w in more ==> Names(w, slot)) && (more != [] <==> Warned(b, m, j));
    forall s ensures HasWarning(ws', s) <==> HasWarning(ws, s) || (more != [] && s == slot) {
      assert more != [] ==> more[0] in more && more[0] in ws' && Names(more[0], slot);
    }
    forall s
      ensures WarnedBefore(b, plan, s, m, j + 1) <==> WarnedBefore(b, plan, s, m, j) || (more != [] && s == slot)
    {
      WarnedStep(b, plan, s, m, j);
    }
  }

  lemma {:induction false} WarnedStep(b: Broker, plan: seq<Planned>, slot: int, m: nat, j: nat)
    requires At(plan, m, j)
    ensures WarnedBefore(b, plan, slot, m, j + 1)
       <==> WarnedBefore(b, plan, slot, m, j) || (AtSlot(plan, m, j, slot) && Warned(b, m, j))
  {
    if AtSlot(plan, m, j, slot) && Warned(b, m, j) { assert Before(m, j, m, j + 1); }
    if i, k :| AtSlot(plan, i, k, slot) && Before(i, k, m, j + 1) && Warned(b, i, k) {
      assert Before(i, k, m, j) || (i == m && k == j);
    }
  }

  lemma {:induction false} ProtectiveDone(b: Broker, plan: seq<Planned>, start: Book, trace: seq<Book>,
                                          trace': seq<Book>, r: Results, r': Results, m: nat, j: nat)
    requires At(plan, m, j) && Inner(b, plan, start, trace, r, m, j)
    requires trace' == trace + AttemptBooks(Last(trace), plan[m].associated[j], plan[m].NewQuantity(),
                                            b.cancel(m, j), b.place(m, j))
    requires Reports(plan[m].associated[j].orderId, plan[m].NewQuantity(), b.cancel(m, j), b.place(m, j), r, r')
    ensures Inner(b, plan, start, trace', r', m, j + 1)
  {
    WarningDone(b, plan, r.warnings, r'.warnings, m, j);
    SuccessDone(b, plan, r.successes, r'.successes, m, j);
  }

  lemma {:induction false} SuccessDone(b: Broker, plan: seq<Planned>, notes: seq<Note>, notes': seq<Note>, m: nat,
                                       j: nat)
    requires At(plan, m, j) && Proceeds(b, m)
    requires notes == SuccessesUpTo(b, plan, m) + SuccessesOf(b, plan, m, j)
    requires notes' == notes + ReportOf(plan[m].associated[j].orderId, plan[m].NewQuantity(),
                                        b.cancel(m, j), b.place(m, j))
    ensures notes' == SuccessesUpTo(b, plan, m) + SuccessesOf(b, plan, m, j + 1)
  {
  }

  lemma {:induction false} EnterAdjustment(b: Broker, plan: seq<Planned>, start: Book, trace: seq<Book>, r: Results,
                                           r': Results, m: nat)
    requires m < |plan| && Outer(b, plan, start, trace, r, m) && Proceeds(b, m)
    requires r' == r.(successes := r.successes + [Resized(plan[m].Symbol())])
    ensures Inner(b, plan, start, trace, r', m, 0)
  {
    assert r.failures + [] == r.failures;
  }

  /** An adjustment that does not proceed makes no call that changes the book. */
  lemma {:induction false} BooksSkipped(b: Broker, plan: seq<Planned>, start: Book, m: nat, j: nat)
    requires m < |plan| && !Proceeds(b, m) && j <= |plan[m].associated|
    ensures Books(b, plan, start, m, j) == Books(b, plan, start, m, 0)
  {
    if j == 0 {
    } else {
      BooksSkipped(b, plan, start, m, j - 1);
    }
  }

  lemma {:induction false} NextPosition(b: Broker, plan: seq<Planned>, m: nat)
    requires m < |plan|
    ensures forall slot ::
      WarnedBefore(b, plan, slot, m + 1, 0) <==> WarnedBefore(b, plan, slot, m, |plan[m].associated|)
  {
    assert forall i, k :: At(plan, i, k) ==> (Before(i, k, m + 1, 0) <==> Before(i, k, m, |plan[m].associated|));
  }

  lemma {:induction false} SkipAdjustment(b: Broker, plan: seq<Planned>, start: Book, trace: seq<Book>, r: Results,
                                          r': Results, m: nat)
    requires m < |plan| && Outer(b, plan, start, trace, r, m) && !Proceeds(b, m)
    requires r' == if b.delta(m) != Accepted then r.(failures := r.failures + [DeltaFailed(plan[m].Symbol())])
                   else r.(successes := r.successes + [Resized(plan[m].Symbol())],
                           warnings := r.warnings + [ContractUnknown(plan[m].Symbol())])
    ensures Outer(b, plan, start, trace, r', m + 1)
  {
    assert r.failures + [] == r.failures && r.successes + [] == r.successes;
    BooksSkipped(b, plan, start, m, |plan[m].associated|);
    SuccessesSkipped(b, plan, m, |plan[m].associated|);
    forall s ensures HasWarning(r'.warnings, s) <==> HasWarning(r.warnings, s) {}
    forall s ensures WarnedBefore(b, plan, s, m + 1, 0) <==> WarnedBefore(b, plan, s, m, 0) {
      assert forall i, k :: At(plan, i, k) && Warned(b, i, k) ==> (Before(i, k, m + 1, 0) <==> Before(i, k, m, 0));
    }
  }

  lemma {:induction false} SuccessesSkipped(b: Broker, plan: seq<Planned>, m: nat, j: nat)
    requires m < |plan| && !Proceeds(b, m) && j <= |plan[m].associated|
    ensures SuccessesOf(b, plan, m, j) == if b.delta(m) == Accepted then [Resized(plan[m].Symbol())] else []
  {
  }

  lemma {:induction false} NextAdjustment(b: Broker, plan: seq<Planned>, start: Book, trace: seq<Book>, r: Results,
                                          m: nat)
    requires m < |plan| && Inner(b, plan, start, trace, r, m, |plan[m].associated|)
    ensures Outer(b, plan, start, trace, r, m + 1)
  {
    NextPosition(b, plan, m);
  }

  // ---------- Two live orders at a time ----------

  ghost predicate OnePerSlot(book: Book) {
    forall slot :: |Content(book, slot)| <= 1
  }

  ghost predicate AlwaysOnePerSlot(books: seq<Book>) {
    forall n {:trigger OnePerSlot(books[n])} :: 0 <= n < |books| ==> OnePerSlot(books[n])
  }

  /** The re-creation at (i, k) lands while an order of the slot still works. */
  ghost predicate LandsOnLive(b: Broker, plan: seq<Planned>, start: Book, i: int, k: int) {
    && At(plan, i, k) && Proceeds(b, i) && b.cancel(i, k).Sent? && Lands(b.place(i, k))
    && var slot := plan[i].associated[k].orderId;
       Kept(SlotAt(b, plan, Content(start, slot), slot, i, k), b.cancel(i, k)) != []
  }

  lemma {:induction false} FewerOrders(orders: seq<Live>)
    ensures |WithoutOriginals(orders)| <= |orders|
  {
    if orders == [] {
    } else {
      FewerOrders(orders[1..]);
    }
  }

  lemma {:induction false} SlotChanged(book: Book, slot: int, orders: seq<Live>)
    requires OnePerSlot(book)
    ensures OnePerSlot(book[slot := orders]) <==> |orders| <= 1
  {
    var after := book[slot := orders];
    assert Content(after, slot) == orders;
    if |orders| <= 1 {
      forall s ensures |Content(after, s)| <= 1 { assert |Content(book, s)| <= 1; }
    }
  }

  lemma {:induction false} Joined(first: seq<Book>, second: seq<Book>)
    ensures AlwaysOnePerSlot(first + second) <==> AlwaysOnePerSlot(first) && AlwaysOnePerSlot(second)
  {
    var all := first + second;
    assert forall n :: 0 <= n < |first| ==> all[n] == first[n];
    assert forall n :: 0 <= n < |second| ==> all[|first| + n] == second[n];
  }

  lemma {:induction false} OneBook(book: Book)
    ensures AlwaysOnePerSlot([book]) <==> OnePerSlot(book)
  {
    assert [book][0] == book;
  }

  /** During one attempt: two orders work at a time exactly when the re-creation lands on a live one. */
  lemma {:induction false} OneAtATime(book: Book, o: Protective, quantity: int, cancel: CancelAnswer,
                                      place: PlaceAnswer)
    requires OnePerSlot(book)
    ensures AlwaysOnePerSlot(AttemptBooks(book, o, quantity, cancel, place))
       <==> !(cancel.Sent? && Lands(place) && Kept(Content(book, o.orderId), cancel) != [])
  {
    var slot, orders := o.orderId, Content(book, o.orderId);
    var kept, now := Kept(orders, cancel), WithSuccessor(orders, o, quantity, cancel, place);
    FewerOrders(orders);
    FewerOrders(now);
    SlotChanged(book, slot, kept);
    SlotChanged(book, slot, now);
    SlotChanged(book, slot, AfterAttempt(orders, o, quantity, cancel, place));
    var b1, b2 := book[slot := kept], book[slot := now];
    var b3 := book[slot := AfterAttempt(orders, o, quantity, cancel, place)];
    OneBook(b1);
    OneBook(b2);
    OneBook(b3);
    Joined([b1], if cancel.Sent? then [b2] else []);
    Joined([b1] + (if cancel.Sent? then [b2] else []), if cancel.effect == Late then [b3] else []);
  }

  ghost predicate NoneLandsOnLive(b: Broker, plan: seq<Planned>, start: Book, m: int, j: int) {
    forall i, k {:trigger LandsOnLive(b, plan, start, i, k)} ::
      Before(i, k, m, j) ==> !LandsOnLive(b, plan, start, i, k)
  }

  lemma {:induction false} OneMoreAttempt(b: Broker, plan: seq<Planned>, start: Book, m: nat, j: nat)
    requires At(plan, m, j)
    ensures NoneLandsOnLive(b, plan, start, m, j + 1)
       <==> NoneLandsOnLive(b, plan, start, m, j) && !LandsOnLive(b, plan, start, m, j)
  {
    assert Before(m, j, m, j + 1);
    forall i, k | Before(i, k, m, j + 1) ensures Before(i, k, m, j) || (i == m && k == j) {}
  }

  lemma {:induction false} NextRow(b: Broker, plan: seq<Planned>, start: Book, m: nat)
    requires m < |plan|
    requires var j := |plan[m].associated|;
             AlwaysOnePerSlot(Books(b, plan, start, m, j)) <==> NoneLandsOnLive(b, plan, start, m, j)
    ensures AlwaysOnePerSlot(Books(b, plan, start, m + 1, 0)) <==> NoneLandsOnLive(b, plan, start, m + 1, 0)
  {
    assert forall i, k :: At(plan, i, k) ==> (Before(i, k, m + 1, 0) <==> Before(i, k, m, |plan[m].associated|));
    assert Books(b, plan, start, m + 1, 0) == Books(b, plan, start, m, |plan[m].associated|);
  }

  /** For every plan and at every moment of the run: no slot has two live orders if and only if no re-creation
      lands while an order of its slot still works. */
  lemma {:induction false} NeverTwoLive(b: Broker, plan: seq<Planned>, start: Book, m: nat, j: nat)
    requires OnePerSlot(start) && IsPosition(plan, m, j)
    ensures AlwaysOnePerSlot(Books(b, plan, start, m, j)) <==> NoneLandsOnLive(b, plan, start, m, j)
    decreases m, j
  {
    if j > 0 {
      NeverTwoLive(b, plan, start, m, j - 1);
      NextAttempt(b, plan, start, m, j - 1);
    } else if m > 0 {
      NeverTwoLive(b, plan, start, m - 1, |plan[m - 1].associated|);
      NextRow(b, plan, start, m - 1);
    } else {
      NothingYet(b, plan, start);
    }
  }

  lemma {:induction false} NextAttempt(b: Broker, plan: seq<Planned>, start: Book, m: nat, j: nat)
    requires At(plan, m, j)
    requires AlwaysOnePerSlot(Books(b, plan, start, m, j)) <==> NoneLandsOnLive(b, plan, start, m, j)
    ensures AlwaysOnePerSlot(Books(b, plan, start, m, j + 1)) <==> NoneLandsOnLive(b, plan, start, m, j + 1)
  {
    OneMoreAttempt(b, plan, start, m, j);
    NextBooks(b, plan, start, m, j);
  }

  lemma {:induction false} NothingYet(b: Broker, plan: seq<Planned>, start: Book)
    requires OnePerSlot(start)
    ensures AlwaysOnePerSlot(Books(b, plan, start, 0, 0)) && NoneLandsOnLive(b, plan, start, 0, 0)
  {
    OneBook(start);
    assert forall i, k :: Before(i, k, 0, 0) ==> !At(plan, i, k);
  }

  lemma {:induction false} NextBooks(b: Broker, plan: seq<Planned>, start: Book, m: nat, j: nat)
    requires At(plan, m, j)
    ensures var before := Books(b, plan, start, m, j);
            AlwaysOnePerSlot(Books(b, plan, start, m, j + 1))
            <==> AlwaysOnePerSlot(before) && !LandsOnLive(b, plan, start, m, j)
  {
    if Proceeds(b, m) {
      var before, o := Books(b, plan, start, m, j), plan[m].associated[j];
      var steps := AttemptBooks(Last(before), o, plan[m].NewQuantity(), b.cancel(m, j), b.place(m, j));
      Joined(before, steps);
      SlotsOfLast(b, plan, start, m, j);
      if AlwaysOnePerSlot(before) {
        OneAtATime(Last(before), o, plan[m].NewQuantity(), b.cancel(m, j), b.place(m, j));
      }
    }
  }

  // ---------- How many orders a slot ends with ----------

  /** Attempts at the slot before (m, j) whose re-creation landed. */
  function Recreations(b: Broker, plan: seq<Planned>, slot: int, m: nat, j: nat): nat
    requires IsPosition(plan, m, j)
    decreases m, j
  {
    if j > 0 then
      Recreations(b, plan, slot, m, j - 1)
      + (if Proceeds(b, m) && plan[m].associated[j - 1].orderId == slot
            && b.cancel(m, j - 1).Sent? && Lands(b.place(m, j - 1)) then 1 else 0)
    else if m > 0 then Recreations(b, plan, slot, m - 1, |plan[m - 1].associated|)
    else 0
  }

  /** Some attempt at the slot before (m, j) took the original off the book. */
  predicate TakenOff(b: Broker, plan: seq<Planned>, slot: int, m: nat, j: nat)
    requires IsPosition(plan, m, j)
    decreases m, j
  {
    if j > 0 then
      || TakenOff(b, plan, slot, m, j - 1)
      || (Proceeds(b, m) && plan[m].associated[j - 1].orderId == slot && b.cancel(m, j - 1).effect != Never)
    else m > 0 && TakenOff(b, plan, slot, m - 1, |plan[m - 1].associated|)
  }

  predicate OnlyRecreated(orders: seq<Live>) { forall x :: x in orders ==> x.Recreated? }

  lemma {:induction false} AllRecreated(orders: seq<Live>)
    requires OnlyRecreated(orders)
    ensures WithoutOriginals(orders) == orders
  {
    if orders == [] {
    } else {
      assert orders[0] in orders && orders == [orders[0]] + orders[1..];
      AllRecreated(orders[1..]);
    }
  }

  /** The original, if it still works, and then n re-created orders. */
  ghost predicate Holds(orders: seq<Live>, original: seq<Live>, n: nat) {
    |orders| == |original| + n && original <= orders && OnlyRecreated(orders[|original|..])
  }

  lemma {:induction false} OriginalGone(orders: seq<Live>, original: seq<Live>, n: nat)
    requires Holds(orders, original, n) && (original == [] || (|original| == 1 && original[0].Original?))
    ensures Holds(WithoutOriginals(orders), [], n)
  {
    AllRecreated(orders[|original|..]);
    if original != [] {
      assert orders[0] == original[0] && WithoutOriginals(orders) == [] + WithoutOriginals(orders[1..]);
    } else {
      assert orders[0..] == orders;
    }
  }

  lemma {:induction false} OneMoreOrder(orders: seq<Live>, original: seq<Live>, n: nat, o: Protective)
    requires Holds(orders, original, n)
    ensures Holds(orders + [Recreated(o)], original, n + 1)
  {
    assert (orders + [Recreated(o)])[|original|..] == orders[|original|..] + [Recreated(o)];
  }

  /** An attempt, on a slot that holds the original or not and n re-created orders. */
  lemma {:induction false} AttemptHolds(orders: seq<Live>, original: seq<Live>, n: nat, o: Protective, quantity: int,
                                        cancel: CancelAnswer, place: PlaceAnswer)
    requires Holds(orders, original, n) && (original == [] || (|original| == 1 && original[0].Original?))
    ensures Holds(AfterAttempt(orders, o, quantity, cancel, place), if cancel.effect == Never then original else [],
                  n + if cancel.Sent? && Lands(place) then 1 else 0)
  {
    var kept, first := Kept(orders, cancel), if cancel.effect == AtOnce then [] else original;
    OriginalGone(orders, original, n);
    assert Holds(kept, first, n);
    OneMoreOrder(kept, first, n, Renewed(o, quantity));
    assert kept + [] == kept;
    var now, m := WithSuccessor(orders, o, quantity, cancel, place), n + if cancel.Sent? && Lands(place) then 1 else 0;
    assert Holds(now, first, m);
    OriginalGone(now, first, m);
  }

  /** For every plan, also one that names a slot more than once: the original stays until an attempt takes
      it off, and every re-creation that lands adds an order. */
  lemma {:induction false} LiveCount(b: Broker, plan: seq<Planned>, orders: seq<Live>, slot: int, m: nat, j: nat)
    requires IsPosition(plan, m, j) && |orders| == 1 && orders[0].Original?
    ensures Holds(SlotAt(b, plan, orders, slot, m, j), if TakenOff(b, plan, slot, m, j) then [] else orders,
                  Recreations(b, plan, slot, m, j))
    decreases m, j
  {
    if j > 0 {
      LiveCount(b, plan, orders, slot, m, j - 1);
      LiveCountStep(b, plan, orders, slot, m, j - 1);
    } else if m > 0 {
      LiveCount(b, plan, orders, slot, m - 1, |plan[m - 1].associated|);
    }
  }

  lemma {:induction false} LiveCountStep(b: Broker, plan: seq<Planned>, orders: seq<Live>, slot: int, m: nat, j: nat)
    requires At(plan, m, j) && |orders| == 1 && orders[0].Original?
    requires Holds(SlotAt(b, plan, orders, slot, m, j), if TakenOff(b, plan, slot, m, j) then [] else orders,
                   Recreations(b, plan, slot, m, j))
    ensures Holds(SlotAt(b, plan, orders, slot, m, j + 1), if TakenOff(b, plan, slot, m, j + 1) then [] else orders,
                  Recreations(b, plan, slot, m, j + 1))
  {
    var before, o := SlotAt(b, plan, orders, slot, m, j), plan[m].associated[j];
    var original := if TakenOff(b, plan, slot, m, j) then [] else orders;
    AttemptHolds(before, original, Recreations(b, plan, slot, m, j), o, plan[m].NewQuantity(), b.cancel(m, j),
                 b.place(m, j));
  }

  /** A slot ends with two live orders or more if and only if two re-creations landed, or one did and no
      cancel took effect. */
  lemma {:induction false} TwoLiveExactly(b: Broker, plan: seq<Planned>, start: Book, book: Book, slot: int)
    requires BookAt(b, plan, start, book, |plan|, 0)
    requires |Content(start, slot)| == 1 && Content(start, slot)[0].Original?
    ensures |Content(book, slot)| >= 2
       <==> var landed := Recreations(b, plan, slot, |plan|, 0);
            landed >= 2 || (landed == 1 && !TakenOff(b, plan, slot, |plan|, 0))
  {
    LiveCount(b, plan, Content(start, slot), slot, |plan|, 0);
  }

  // ---------- Plans that name every slot once ----------

  /** No two protectives share a slot. */
  ghost predicate DistinctSlots(plan: seq<Planned>) {
    forall i, k, i', k' ::
      (At(plan, i, k) && At(plan, i', k') && plan[i].associated[k].orderId == plan[i'].associated[k'].orderId)
      ==> i == i' && k == k'
  }

  /** Every protective of the plan is live, alone in its slot. */
  ghost predicate AllLive(plan: seq<Planned>, book: Book) {
    forall i, k :: At(plan, i, k) ==> Content(book, plan[i].associated[k].orderId) == [Original(plan[i].associated[k])]
  }

  /** What the one attempt at (i, k) leaves in its slot. */
  function SlotAfter(b: Broker, plan: seq<Planned>, i: nat, k: nat): seq<Live>
    requires i < |plan| && k < |plan[i].associated|
  {
    var o := plan[i].associated[k];
    if !Proceeds(b, i) then [Original(o)]
    else
      (if b.cancel(i, k).effect == Never then [Original(o)] else [])
      + (if b.cancel(i, k).Sent? && Lands(b.place(i, k)) then [Recreated(Renewed(o, plan[i].NewQuantity()))] else [])
  }

  lemma {:induction false} AttemptAlone(o: Protective, quantity: int, cancel: CancelAnswer, place: PlaceAnswer)
    ensures AfterAttempt([Original(o)], o, quantity, cancel, place)
         == (if cancel.effect == Never then [Original(o)] else [])
            + (if cancel.Sent? && Lands(place) then [Recreated(Renewed(o, quantity))] else [])
  {
    var next := Recreated(Renewed(o, quantity));
    assert [Original(o)][1..] == [] && WithoutOriginals([Original(o)]) == [] + WithoutOriginals([]) == [];
    assert [Original(o), next][1..] == [next] && [next][1..] == [];
    assert WithoutOriginals([next]) == [next] + WithoutOriginals([]) == [next];
    assert WithoutOriginals([Original(o), next]) == [] + WithoutOriginals([next]) == [next];
  }

  lemma {:induction false} OneAttempt(b: Broker, plan: seq<Planned>, i: nat, k: nat, m: nat, j: nat)
    requires DistinctSlots(plan) && At(plan, i, k) && IsPosition(plan, m, j)
    ensures var o := plan[i].associated[k];
            SlotAt(b, plan, [Original(o)], o.orderId, m, j)
              == if Before(i, k, m, j) then SlotAfter(b, plan, i, k) else [Original(o)]
    decreases m, j
  {
    if j > 0 {
      OneAttempt(b, plan, i, k, m, j - 1);
      if i == m && k == j - 1 {
        AttemptAlone(plan[i].associated[k], plan[i].NewQuantity(), b.cancel(i, k), b.place(i, k));
      } else {
        assert At(plan, m, j - 1) && plan[m].associated[j - 1].orderId != plan[i].associated[k].orderId;
      }
    } else if m > 0 {
      OneAttempt(b, plan, i, k, m - 1, |plan[m - 1].associated|);
    }
  }

  /** At the end of a run, a slot that the plan names once holds what its attempt left, and a warning names
      it if and only if that attempt is warned of. */
  lemma {:induction false} SlotInTheEnd(b: Broker, plan: seq<Planned>, start: Book, book: Book, ws: seq<Warning>,
                                        i: nat, k: nat)
    requires DistinctSlots(plan) && AllLive(plan, start) && At(plan, i, k)
    requires BookAt(b, plan, start, book, |plan|, 0) && WarningsAt(b, plan, ws, |plan|, 0)
    ensures Content(book, plan[i].associated[k].orderId) == SlotAfter(b, plan, i, k)
    ensures HasWarning(ws, plan[i].associated[k].orderId) <==> Warned(b, i, k)
  {
    var slot := plan[i].associated[k].orderId;
    OneAttempt(b, plan, i, k, |plan|, 0);
    assert Before(i, k, |plan|, 0) && AtSlot(plan, i, k, slot);
    if Warned(b, i, k) { assert WarnedBefore(b, plan, slot, |plan|, 0); }
  }

  /** The re-creation at (i, k) lands before the cancel has taken effect. */
  ghost predicate LandsTooSoon(b: Broker, plan: seq<Planned>, i: int, k: int) {
    && At(plan, i, k) && Proceeds(b, i) && b.cancel(i, k).Sent? && b.cancel(i, k).effect != AtOnce
    && Lands(b.place(i, k))
  }

  /** When the plan names every slot once: no slot has two live orders at any moment of the run if and only if
      every re-creation that lands does so after its cancel has taken effect. */
  lemma {:induction false} NeverTwoLiveOnce(b: Broker, plan: seq<Planned>, start: Book)
    requires DistinctSlots(plan) && AllLive(plan, start) && OnePerSlot(start)
    ensures AlwaysOnePerSlot(Books(b, plan, start, |plan|, 0)) <==> forall i, k :: !LandsTooSoon(b, plan, i, k)
  {
    NeverTwoLive(b, plan, start, |plan|, 0);
    forall i, k ensures LandsOnLive(b, plan, start, i, k) <==> LandsTooSoon(b, plan, i, k) {
      if At(plan, i, k) {
        OneAttempt(b, plan, i, k, i, k);
        assert [Original(plan[i].associated[k])][1..] == [] && WithoutOriginals([]) == [];
      }
    }
    assert forall i, k :: At(plan, i, k) ==> Before(i, k, |plan|, 0);
  }

  lemma {:induction false} NotInPlan(b: Broker, plan: seq<Planned>, orders: seq<Live>, slot: int, m: nat, j: nat)
    requires IsPosition(plan, m, j)
    requires forall i, k :: AtSlot(plan, i, k, slot) ==> !Proceeds(b, i)
    ensures SlotAt(b, plan, orders, slot, m, j) == orders
    decreases m, j
  {
    if j > 0 {
      NotInPlan(b, plan, orders, slot, m, j - 1);
      assert plan[m].associated[j - 1].orderId == slot ==> AtSlot(plan, m, j - 1, slot);
    } else if m > 0 {
      NotInPlan(b, plan, orders, slot, m - 1, |plan[m - 1].associated|);
    }
  }

  // ---------- What the run leaves behind ----------

  /** A slot keeps exactly its orders when no delta that names it succeeded, for every plan. */
  lemma {:induction false} FailedDeltaKeepsProtection(b: Broker, plan: seq<Planned>, start: Book, book: Book, slot: int)
    requires BookAt(b, plan, start, book, |plan|, 0)
    requires forall i, k :: AtSlot(plan, i, k, slot) ==> b.delta(i) != Accepted
    ensures Content(book, slot) == Content(start, slot)
  {
    NotInPlan(b, plan, Content(start, slot), slot, |plan|, 0);
  }

  /** Exactly which slots are left bare without a warning. It takes a cancel that was sent and took effect, and
      a reply to the re-creation that carries no status while no order was placed. */
  lemma {:induction false} SilentlyBare(b: Broker, plan: seq<Planned>, start: Book, book: Book, ws: seq<Warning>,
                                        i: nat, k: nat)
    requires DistinctSlots(plan) && AllLive(plan, start) && At(plan, i, k)
    requires BookAt(b, plan, start, book, |plan|, 0) && WarningsAt(b, plan, ws, |plan|, 0)
    ensures var slot, cancel := plan[i].associated[k].orderId, b.cancel(i, k);
            (Content(book, slot) == [] && !HasWarning(ws, slot))
            <==> Proceeds(b, i) && cancel.Sent? && cancel.effect != Never && b.place(i, k) == NoStatus(false)
  {
    SlotInTheEnd(b, plan, start, book, ws, i, k);
  }

  /** Exactly which slots end with two live orders and no warning: the cancel was sent and never took effect,
      and the re-creation landed without raising. */
  lemma {:induction false} SilentlyDoubled(b: Broker, plan: seq<Planned>, start: Book, book: Book, ws: seq<Warning>,
                                           i: nat, k: nat)
    requires DistinctSlots(plan) && AllLive(plan, start) && At(plan, i, k)
    requires BookAt(b, plan, start, book, |plan|, 0) && WarningsAt(b, plan, ws, |plan|, 0)
    ensures var slot := plan[i].associated[k].orderId;
            (|Content(book, slot)| == 2 && !HasWarning(ws, slot))
            <==> && Proceeds(b, i) && b.cancel(i, k) == Sent(Never)
                 && (b.place(i, k) == Placed || b.place(i, k) == NoStatus(true))
  {
    SlotInTheEnd(b, plan, start, book, ws, i, k);
  }

  /** A slot without a warning, after a delta that succeeded and a contract that was found, holds its order
      at the new quantity, unless the broker's reply carried no status; beside it the original works on when
      its cancel never took effect. */
  lemma {:induction false} UnwarnedSlotIsResized(b: Broker, plan: seq<Planned>, start: Book, book: Book,
                                                 ws: seq<Warning>, i: nat, k: nat)
    requires DistinctSlots(plan) && AllLive(plan, start) && At(plan, i, k)
    requires BookAt(b, plan, start, book, |plan|, 0) && WarningsAt(b, plan, ws, |plan|, 0)
    requires Proceeds(b, i) && !b.place(i, k).NoStatus?
    ensures var o := plan[i].associated[k];
            !HasWarning(ws, o.orderId) ==>
              Content(book, o.orderId)
                == (if b.cancel(i, k).effect == Never then [Original(o)] else [])
                   + [Recreated(o.(quantity := plan[i].NewQuantity() as real))]
  {
    SlotInTheEnd(b, plan, start, book, ws, i, k);
  }

  /** A broker that accepts the delta of a one-order plan and answers the two other calls as given. */
  function Answering(cancel: CancelAnswer, place: PlaceAnswer): Broker {
    Broker(i => Accepted, i => true, (i, k) => cancel, (i, k) => place)
  }

  /** A plan with one stop at order id 1, against that broker. */
  lemma {:induction false} OneStop(adj: ResizeDeltas.Adjustment, stop: Protective, cancel: CancelAnswer,
                                   place: PlaceAnswer)
    returns (plan: seq<Planned>, start: Book, book: Book)
    requires stop.orderId == 1 && cancel.Sent? && (place == Placed || place.NoStatus?)
    ensures plan == [Planned(adj, [stop])] && DistinctSlots(plan) && AllLive(plan, start)
    ensures var b := Answering(cancel, place);
            && BookAt(b, plan, start, book, 1, 0) && WarningsAt(b, plan, [], 1, 0)
            && Content(book, 1) == SlotAfter(b, plan, 0, 0)
  {
    plan := [Planned(adj, [stop])];
    var b := Answering(cancel, place);
    start := map[1 := [Original(stop)]];
    book := Last(Books(b, plan, start, 1, 0));
    SlotsOfLast(b, plan, start, 1, 0);
    OneAttempt(b, plan, 0, 0, 1, 0);
    forall slot ensures !WarnedBefore(b, plan, slot, 1, 0) {}
  }

  /** For every stop there is a run that leaves its slot bare and warns of nothing. */
  lemma {:induction false} ABareSlot(adj: ResizeDeltas.Adjustment, stop: Protective)
    returns (plan: seq<Planned>, b: Broker, start: Book, book: Book)
    requires stop.orderId == 1
    ensures plan == [Planned(adj, [stop])] && DistinctSlots(plan) && AllLive(plan, start)
    ensures BookAt(b, plan, start, book, 1, 0) && WarningsAt(b, plan, [], 1, 0) && Content(book, 1) == []
  {
    b := Answering(Sent(AtOnce), NoStatus(false));
    plan, start, book := OneStop(adj, stop, Sent(AtOnce), NoStatus(false));
  }

  /** And one that leaves two live orders, the stop and its successor, and warns of nothing. */
  lemma {:induction false} ADoubledSlot(adj: ResizeDeltas.Adjustment, stop: Protective)
    returns (plan: seq<Planned>, b: Broker, start: Book, book: Book)
    requires stop.orderId == 1
    ensures plan == [Planned(adj, [stop])] && DistinctSlots(plan) && AllLive(plan, start)
    ensures BookAt(b, plan, start, book, 1, 0) && WarningsAt(b, plan, [], 1, 0) && |Content(book, 1)| == 2
  {
    b := Answering(Sent(Never), Placed);
    plan, start, book := OneStop(adj, stop, Sent(Never), Placed);
  }
}
