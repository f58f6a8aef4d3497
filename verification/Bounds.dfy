/** Check-then-act: the pending-order limit and the test-mode limit are checked before the transaction
    opens, so they can be overrun, but only by the submissions in flight. */
module Bounds {
  import opened Money
  import opened Schema
  import opened Settlement
  import opened Purchases
  import opened History
  import opened Totals
  import opened Machine
  import opened Serial
  import Stock

  // ---------------------------------------------------------------- orders in review

  ghost function ReviewOf(customer: int): Order -> int {
    (row: Order) => if row.customer == customer && row.status == InReview then 1 else 0
  }

  /** count_pending_orders. */
  ghost function Reviewing(db: Db, customer: int): int {
    Total(db.orders, ReviewOf(customer))
  }

  ghost function SubmitsFor(customer: int): Tx -> int {
    (tx: Tx) => if tx.call.CReceipt? && tx.call.customer == customer then 1 else 0
  }

  /** Submissions of the customer past the check. */
  ghost function InFlight(s: State, customer: int): int {
    Total(s.txs, SubmitsFor(customer))
  }

  // ---------------------------------------------------------------- test orders

  ghost function OpenTest(reseller: int): Order -> int {
    (row: Order) => if row.reseller == reseller && row.isTest && !row.activated then 1 else 0
  }

  ghost function TestsFor(reseller: int): Tx -> int {
    (tx: Tx) => if tx.call.CReceipt? && tx.call.reseller == reseller && tx.call.isTest then 1 else 0
  }

  function TestsUsed(db: Db, reseller: int): (used: int) {
    if reseller in db.resellers then db.resellers[reseller].testUsed else 0
  }

  /** Test orders submitted or being submitted and not activated yet. */
  ghost function OutstandingTests(s: State, reseller: int): int {
    Total(s.txs, TestsFor(reseller)) + Total(s.db.orders, OpenTest(reseller))
  }

  // ---------------------------------------------------------------- the checks

  /** What submit_receipt checks before its transaction. */
  ghost predicate Checked(max: int, db: Db, e: Event) {
    match e
    case Begin(_, call) =>
      call.CReceipt? ==>
        && Reviewing(db, call.customer) < max
        && (call.isTest ==> call.reseller in db.resellers && db.resellers[call.reseller].testEnabled
                            && db.resellers[call.reseller].testUsed < db.resellers[call.reseller].testLimit)
    case _ => true
  }

  /** The call activates an order a second time. */
  predicate Reactivates(db: Db, call: Call) {
    call.CActivate? && call.order in db.orders && db.orders[call.order].activated
  }

  /** Every event passed its check. */
  ghost predicate CheckedRun(max: int, from: State, events: seq<Event>)
    decreases |events|
  {
    events == [] ||
    var last := |events| - 1;
    && CheckedRun(max, from, events[..last])
    && match Play(from, events[..last])
       case None => true
       case Some(mid) => Checked(max, mid.db, events[last])
  }

  /** No order is activated twice. */
  ghost predicate ActivatedOnce(from: State, events: seq<Event>)
    decreases |events|
  {
    events == [] ||
    var last := |events| - 1;
    && ActivatedOnce(from, events[..last])
    && match Play(from, events[..last])
       case None => true
       case Some(mid) => events[last].Auto? ==> !Reactivates(mid.db, events[last].call)
  }

  /** At no time are more than `k` submissions of the customer in flight. */
  ghost predicate AtMostInFlight(k: int, customer: int, from: State, events: seq<Event>)
    decreases |events|
  {
    && (events != [] ==> AtMostInFlight(k, customer, from, events[..|events| - 1]))
    && match Play(from, events) case None => true case Some(s) => InFlight(s, customer) <= k
  }

  /** At no time are more than `tests` test orders of the reseller outstanding. */
  ghost predicate AtMostOutstanding(tests: int, reseller: int, from: State, events: seq<Event>)
    decreases |events|
  {
    && (events != [] ==> AtMostOutstanding(tests, reseller, from, events[..|events| - 1]))
    && match Play(from, events) case None => true case Some(s) => OutstandingTests(s, reseller) <= tests
  }

  // ---------------------------------------------------------------- what one call does to the counts

  /** Both counts of one order row. */
  ghost predicate CountsAtMost(before: Option<Order>, after: Order, customer: int, reseller: int, review: int,
                               test: int) {
    && ReviewOf(customer)(after) <= (match before case None => 0 case Some(b) => ReviewOf(customer)(b)) + review
    && OpenTest(reseller)(after) <= (match before case None => 0 case Some(b) => OpenTest(reseller)(b)) + test
  }

  lemma PutCounts(orders: Orders, o: string, row: Order, customer: int, reseller: int, review: int, test: int)
    requires CountsAtMost(Get(orders, o), row, customer, reseller, review, test)
    ensures Total(orders[o := row], ReviewOf(customer)) <= Total(orders, ReviewOf(customer)) + review
    ensures Total(orders[o := row], OpenTest(reseller)) <= Total(orders, OpenTest(reseller)) + test
  {
    TotalPut(orders, ReviewOf(customer), o, row);
    TotalPut(orders, OpenTest(reseller), o, row);
  }

  lemma {:induction false} DeliverAddsNoReview(db: Db, cart: Cart, ids: seq<int>, n: nat, customer: int, reseller: int)
    requires n <= |cart.codes| && Admitted(db.orders, cart.codes, n)
    requires cart.kind.Instant? ==> n <= |ids| && forall i :: 0 <= i < n ==> ids[i] in db.codes
    ensures Total(Deliver(db, cart, ids, n).orders, ReviewOf(customer)) <= Total(db.orders, ReviewOf(customer))
    ensures Total(Deliver(db, cart, ids, n).orders, OpenTest(reseller)) <= Total(db.orders, OpenTest(reseller))
  {
    if n > 0 {
      DeliverAddsNoReview(db, cart, ids, n - 1, customer, reseller);
      Delivered(db, cart, ids, n - 1);
      UnitAddsNoReview(Deliver(db, cart, ids, n - 1), cart, ids, n - 1, customer, reseller);
    }
  }

  lemma UnitAddsNoReview(db: Db, cart: Cart, ids: seq<int>, i: nat, customer: int, reseller: int)
    requires i < |cart.codes| && cart.codes[i] !in db.orders
    requires cart.kind.Instant? ==> i < |ids| && ids[i] in db.codes
    ensures Total(PutOrder(db, cart, ids, i).orders, ReviewOf(customer)) <= Total(db.orders, ReviewOf(customer))
    ensures Total(PutOrder(db, cart, ids, i).orders, OpenTest(reseller)) <= Total(db.orders, OpenTest(reseller))
  {
    var order := NewOrder(cart, if cart.kind.Instant? then Some(db.codes[ids[i]].code) else None);
    PutCounts(db.orders, cart.codes[i], order, customer, reseller, 0, 0);
  }

  lemma BuyAddsNoReview(db: Db, cart: Cart, customer: int, reseller: int)
    requires Buy(db, cart).Some?
    ensures var d := Buy(db, cart).value;
            Reviewing(d, customer) <= Reviewing(db, customer) && d.resellers == db.resellers
            && Total(d.orders, OpenTest(reseller)) <= Total(db.orders, OpenTest(reseller))
  {
    var q := |cart.codes|;
    if cart.kind.Instant? {
      Stock.LowestIsLowest(db.codes, cart.package, q, 0, db.nextCode);
    }
    BuyShape(db, cart);
    DeliverAddsNoReview(Debit(db, cart.customer, cart.Cost(q)), cart, Picked(db, cart, q), q, customer, reseller);
  }

  function One(b: bool): int {
    if b then 1 else 0
  }

  lemma ReceiptCounts(db: Db, call: Call, customer: int, reseller: int)
    requires call.CReceipt? && Matches(db, call) && Spec(db, call).Some?
    ensures var d := Spec(db, call).value;
            && Reviewing(d, customer) <= Reviewing(db, customer) + One(call.customer == customer)
            && TestsUsed(d, reseller) == TestsUsed(db, reseller)
            && Total(d.orders, OpenTest(reseller))
                  <= Total(db.orders, OpenTest(reseller)) + One(call.reseller == reseller && call.isTest)
  {
    ReceiptTables(db, call.order, call.reseller, call.isTest, call.amount, call.row);
    var status := ReceiptStatus(db, call.order, call.reseller, call.isTest, call.amount, call.row);
    var commission := if call.isTest then 0 else RoundHalfAway(call.amount);
    MarkCounts(db.orders, call.order, status, commission, call.isTest, customer, reseller);
    assert Spec(db, call).value.orders == MarkReceipt(db.orders, call.order, status, commission, call.isTest);
    ReceiptKeepsTests(db, call, reseller);
  }

  lemma MarkCounts(orders: Orders, order: string, status: Status, commission: int, isTest: bool, customer: int,
                   reseller: int)
    requires order in orders
    ensures var after := MarkReceipt(orders, order, status, commission, isTest);
            && Total(after, ReviewOf(customer))
                  <= Total(orders, ReviewOf(customer)) + One(orders[order].customer == customer)
            && Total(after, OpenTest(reseller))
                  <= Total(orders, OpenTest(reseller)) + One(orders[order].reseller == reseller && isTest)
  {
    var row := MarkReceipt(orders, order, status, commission, isTest)[order];
    PutCounts(orders, order, row, customer, reseller,
              One(orders[order].customer == customer), One(orders[order].reseller == reseller && isTest));
  }

  lemma ReceiptKeepsTests(db: Db, call: Call, reseller: int)
    requires call.CReceipt? && Spec(db, call).Some?
    ensures TestsUsed(Spec(db, call).value, reseller) == TestsUsed(db, reseller)
  {
    ReceiptTables(db, call.order, call.reseller, call.isTest, call.amount, call.row);
  }

  lemma StatementCounts(db: Db, call: Call, customer: int, reseller: int)
    requires call.Single() && call.Valid() && Statement(db, call).Some?
    ensures var d := Statement(db, call).value;
            && Reviewing(d, customer) <= Reviewing(db, customer)
            && (Reactivates(db, call) || TestsUsed(d, reseller) + Total(d.orders, OpenTest(reseller))
               <= TestsUsed(db, reseller) + Total(db.orders, OpenTest(reseller)))
  {
    var d := Statement(db, call).value;
    match call
    case CCreateOrder(o, _, _, _, _) => PutCounts(db.orders, o, d.orders[o], customer, reseller, 0, 0);
    case CSetStatus(o, _) => if o in db.orders { PutCounts(db.orders, o, d.orders[o], customer, reseller, 0, 0); }
    case CSetPrice(o, _) => if o in db.orders { PutCounts(db.orders, o, d.orders[o], customer, reseller, 0, 0); }
    case CActivate(_) => ActivateCounts(db, call.order, customer, reseller);
    case _ =>
  }

  lemma ActivateCounts(db: Db, o: string, customer: int, reseller: int)
    requires o in db.orders
    ensures var d := Statement(db, CActivate(o)).value;
            && Reviewing(d, customer) <= Reviewing(db, customer)
            && (db.orders[o].activated || TestsUsed(d, reseller) + Total(d.orders, OpenTest(reseller))
               <= TestsUsed(db, reseller) + Total(db.orders, OpenTest(reseller)))
  {
    var d := Statement(db, CActivate(o)).value;
    var row := db.orders[o];
    var ended := if row.isTest && row.reseller == reseller && !row.activated then -1 else 0;
    PutCounts(db.orders, o, d.orders[o], customer, reseller, 0, ended);
  }

  lemma SpecCounts(db: Db, call: Call, customer: int, reseller: int)
    requires call.Valid() && Matches(db, call) && Spec(db, call).Some?
    ensures var d := Spec(db, call).value;
            && Reviewing(d, customer) <= Reviewing(db, customer) + One(call.CReceipt? && call.customer == customer)
            && (Reactivates(db, call) || TestsUsed(d, reseller) + Total(d.orders, OpenTest(reseller))
               <= TestsUsed(db, reseller) + Total(db.orders, OpenTest(reseller))
                  + One(call.CReceipt? && call.reseller == reseller && call.isTest))
  {
    match call
    case CPurchase(cart) => BuyAddsNoReview(db, cart, customer, reseller);
    case CReceipt(_, _, _, _, _, _) => ReceiptCounts(db, call, customer, reseller);
    case CCredit(_, _, _, _, _, _) => WalletKeepsCounts(db, call, reseller);
    case CRefund(_, _, _, _) => WalletKeepsCounts(db, call, reseller);
    case CConfirm(_) => WalletKeepsCounts(db, call, reseller);
    case _ => StatementCounts(db, call, customer, reseller);
  }

  lemma WalletKeepsCounts(db: Db, call: Call, reseller: int)
    requires (call.CCredit? || call.CRefund? || call.CConfirm?) && Spec(db, call).Some?
    ensures Spec(db, call).value.orders == db.orders
    ensures TestsUsed(Spec(db, call).value, reseller) == TestsUsed(db, reseller)
  {
    if call.CCredit? {
      if Deduct(db.resellers, db.ledger, call.reseller, call.amount, ForTopup(call.topup), call.row).Deducted? {}
    }
  }

  // ---------------------------------------------------------------- what one event does

  /** Only passing the check adds to "in review or in flight", and to "used or outstanding". */
  lemma FireCounts(start: Db, s: State, e: Event, customer: int, reseller: int)
    requires Inv(start, s) && Enabled(s, e)
    ensures var next := Fire(s, e);
            && Reviewing(next.db, customer) + InFlight(next, customer)
               <= Reviewing(s.db, customer) + InFlight(s, customer)
                  + One(e.Begin? && e.call.CReceipt? && e.call.customer == customer)
            && ((e.Auto? && Reactivates(s.db, e.call))
               || TestsUsed(next.db, reseller) + OutstandingTests(next, reseller)
               <= TestsUsed(s.db, reseller) + OutstandingTests(s, reseller)
                  + One(e.Begin? && e.call.CReceipt? && e.call.reseller == reseller && e.call.isTest))
  {
    match e
    case Begin(t, call) =>
      TotalPut(s.txs, SubmitsFor(customer), t, Tx(call, 0, IDLE));
      TotalPut(s.txs, TestsFor(reseller), t, Tx(call, 0, IDLE));
    case Advance(t) =>
      if t in Fire(s, e).txs {
        TotalPut(s.txs, SubmitsFor(customer), t, Fire(s, e).txs[t]);
        TotalPut(s.txs, TestsFor(reseller), t, Fire(s, e).txs[t]);
      } else {
        TotalWithout(s.txs, SubmitsFor(customer), t);
        TotalWithout(s.txs, TestsFor(reseller), t);
      }
    case Commit(t) =>
      TotalWithout(s.txs, SubmitsFor(customer), t);
      TotalWithout(s.txs, TestsFor(reseller), t);
      FireCommit(start, s, t);
      SpecCounts(s.db, s.txs[t].call, customer, reseller);
    case Abort(t) =>
      TotalWithout(s.txs, SubmitsFor(customer), t);
      TotalWithout(s.txs, TestsFor(reseller), t);
    case Auto(call) => SpecCounts(s.db, call, customer, reseller);
  }

  lemma {:induction false} RunReviews(start: Db, from: State, events: seq<Event>, s: State, max: int, k: int,
                                      customer: int)
    requires Inv(start, from) && Run(from, events, s)
    requires CheckedRun(max, from, events) && AtMostInFlight(k, customer, from, events)
    requires Reviewing(from.db, customer) + InFlight(from, customer) <= max + k - 1
    ensures Reviewing(s.db, customer) + InFlight(s, customer) <= max + k - 1
    decreases |events|
  {
    if events != [] {
      var last := |events| - 1;
      var mid := Play(from, events[..last]).value;
      RunReviews(start, from, events[..last], mid, max, k, customer);
      RunKeeps(start, from, events[..last], mid);
      FireCounts(start, mid, events[last], customer, 0);
    }
  }

  lemma {:induction false} RunTests(start: Db, from: State, events: seq<Event>, s: State, max: int, tests: int,
                                    reseller: int)
    requires Inv(start, from) && Run(from, events, s)
    requires CheckedRun(max, from, events) && ActivatedOnce(from, events)
    requires AtMostOutstanding(tests, reseller, from, events)
    requires reseller in from.db.resellers
    requires TestsUsed(from.db, reseller) + OutstandingTests(from, reseller)
            <= from.db.resellers[reseller].testLimit - 1 + tests
    ensures reseller in s.db.resellers && s.db.resellers[reseller].testLimit == from.db.resellers[reseller].testLimit
    ensures TestsUsed(s.db, reseller) + OutstandingTests(s, reseller) <= s.db.resellers[reseller].testLimit - 1 + tests
    decreases |events|
  {
    if events != [] {
      var last := |events| - 1;
      var mid := Play(from, events[..last]).value;
      RunTests(start, from, events[..last], mid, max, tests, reseller);
      RunKeeps(start, from, events[..last], mid);
      FireCounts(start, mid, events[last], 0, reseller);
      FireGrows(start, mid, events[last]);
    }
  }

  lemma FireGrows(start: Db, s: State, e: Event)
    requires Inv(start, s) && Enabled(s, e)
    ensures Grows(s.db, Fire(s, e).db)
  {
    match e
    case Commit(t) =>
      FireCommit(start, s, t);
      SpecGrows(s.db, s.txs[t].call);
    case Auto(call) => SpecGrows(s.db, call);
    case _ =>
  }

  /** With at most k submissions of a customer past the check at any time, the orders in review never
      exceed the limit by more than k - 1, in any interleaving. */
  lemma ReviewLimit(start: Db, events: seq<Event>, s: State, max: nat, k: nat, customer: int)
    requires Numbered(start) && Run(Start(start), events, s) && k >= 1
    requires CheckedRun(max, Start(start), events) && AtMostInFlight(k, customer, Start(start), events)
    requires Reviewing(start, customer) <= max
    ensures Reviewing(s.db, customer) <= max + k - 1
  {
    RunReviews(start, Start(start), events, s, max, k, customer);
    TotalAtLeast(s.txs, SubmitsFor(customer));
  }

  /** With at most `tests` test orders of a reseller outstanding at any time and each activated once, the
      counter of used test orders never exceeds the limit by more than tests - 1, in any interleaving. */
  lemma TestModeLimit(start: Db, events: seq<Event>, s: State, max: nat, tests: nat, reseller: int)
    requires Numbered(start) && Run(Start(start), events, s)
    requires CheckedRun(max, Start(start), events) && ActivatedOnce(Start(start), events)
    requires AtMostOutstanding(tests, reseller, Start(start), events)
    requires reseller in start.resellers
    requires start.resellers[reseller].testUsed + Total(start.orders, OpenTest(reseller))
             <= start.resellers[reseller].testLimit - 1 + tests
    ensures reseller in s.db.resellers
    ensures s.db.resellers[reseller].testUsed <= start.resellers[reseller].testLimit - 1 + tests
  {
    RunTests(start, Start(start), events, s, max, tests, reseller);
    TotalAtLeast(s.txs, TestsFor(reseller));
    TotalAtLeast(s.db.orders, OpenTest(reseller));
  }

  /** A reseller's row after `k` activations of test orders. */
  function Activations(wallets: Wallets, order: Order, k: nat): (after: Wallets) {
    if k == 0 then wallets else CountTest(Activations(wallets, order, k - 1), order)
  }

  /** The statement assigns the counter first and compares the counter plus one afterwards: the mode is
      still on after k >= 1 activations exactly while at least two more orders are left. */
  lemma {:induction false} TestModeAfter(wallets: Wallets, order: Order, k: nat)
    requires order.isTest && order.reseller in wallets && wallets[order.reseller].testEnabled
    ensures order.reseller in Activations(wallets, order, k)
    ensures var row := wallets[order.reseller]; var after := Activations(wallets, order, k)[order.reseller];
            && after == row.(testUsed := row.testUsed + k, testEnabled := after.testEnabled)
            && (after.testEnabled <==> k == 0 || row.testUsed + k + 1 < row.testLimit)
  {
    if k > 0 {
      TestModeAfter(wallets, order, k - 1);
    }
  }

  /** Test mode is documented to last for `testLimit` successful orders.  It does if and only if the limit
      is at most one; from two on it ends one order early. */
  lemma TestModeLastsExactlyWhen(wallets: Wallets, order: Order)
    requires order.isTest && order.reseller in wallets
    requires wallets[order.reseller].testEnabled && wallets[order.reseller].testUsed == 0
    ensures var limit := wallets[order.reseller].testLimit;
            (forall k: nat :: k < limit ==>
               && order.reseller in Activations(wallets, order, k)
               && Activations(wallets, order, k)[order.reseller].testEnabled)
            <==> limit <= 1
  {
    var limit := wallets[order.reseller].testLimit;
    forall k: nat | k < limit
      ensures order.reseller in Activations(wallets, order, k)
      ensures Activations(wallets, order, k)[order.reseller].testEnabled <==> k == 0 || k + 1 < limit
    {
      TestModeAfter(wallets, order, k);
    }
    if limit > 1 {
      TestModeAfter(wallets, order, limit - 1);
    }
  }
}
