/** The customer's prepaid wallet over whole runs: conservation, and exactly when it fails. */
module CustomerWallet {
  import opened Money
  import opened Schema
  import opened Settlement
  import opened Purchases
  import opened History
  import opened Totals
  import opened Machine
  import opened Serial
  import CommissionWallet
  import Stock

  ghost function Credited(customer: int): Topup -> int {
    (row: Topup) => if row.customer == customer && row.credited then row.amount else 0
  }

  ghost function Spent(customer: int): Order -> int {
    (row: Order) => if row.customer == customer && row.fromWallet then row.price else 0
  }

  /** The balance beyond credited top-ups less wallet-paid orders; zero when money is conserved. */
  ghost function Excess(db: Db, customer: int): int {
    (if customer in db.customers then db.customers[customer].balance else 0)
    - Total(db.topups, Credited(customer)) + Total(db.orders, Spent(customer))
  }

  /** A confirmation of a top-up that is already credited pays it out again. */
  function Repeated(db: Db, call: Call, customer: int): (amount: int) {
    if call.CCredit? && call.customer == customer && call.topup in db.topups && db.topups[call.topup].credited
    then call.paid else 0
  }

  lemma {:induction false} DeliverSpends(db: Db, cart: Cart, ids: seq<int>, n: nat, customer: int)
    requires n <= |cart.codes| && Admitted(db.orders, cart.codes, n)
    requires cart.kind.Instant? ==> n <= |ids| && forall i :: 0 <= i < n ==> ids[i] in db.codes
    ensures Total(Deliver(db, cart, ids, n).orders, Spent(customer))
            == Total(db.orders, Spent(customer)) + if customer == cart.customer then cart.Cost(n) else 0
  {
    if n > 0 {
      DeliverSpends(db, cart, ids, n - 1, customer);
      Delivered(db, cart, ids, n - 1);
      UnitSpends(Deliver(db, cart, ids, n - 1), cart, ids, n - 1, customer);
    }
  }

  lemma UnitSpends(db: Db, cart: Cart, ids: seq<int>, i: nat, customer: int)
    requires i < |cart.codes| && cart.codes[i] !in db.orders
    requires cart.kind.Instant? ==> i < |ids| && ids[i] in db.codes
    ensures Total(PutOrder(db, cart, ids, i).orders, Spent(customer))
            == Total(db.orders, Spent(customer)) + if customer == cart.customer then cart.price else 0
  {
    var order := NewOrder(cart, if cart.kind.Instant? then Some(db.codes[ids[i]].code) else None);
    TotalPut(db.orders, Spent(customer), cart.codes[i], order);
  }

  lemma BuyExcess(db: Db, cart: Cart, customer: int)
    requires Buy(db, cart).Some?
    ensures Excess(Buy(db, cart).value, customer) == Excess(db, customer)
  {
    var q := |cart.codes|;
    var ids := Picked(db, cart, q);
    if cart.kind.Instant? {
      Stock.LowestIsLowest(db.codes, cart.package, q, 0, db.nextCode);
    }
    BuyShape(db, cart);
    DeliverSpends(Debit(db, cart.customer, cart.Cost(q)), cart, ids, q, customer);
  }

  lemma CreditExcess(db: Db, call: Call, customer: int)
    requires call.CCredit? && Matches(db, call) && Spec(db, call).Some?
    ensures Excess(Spec(db, call).value, customer) == Excess(db, customer) + Repeated(db, call, customer)
  {
    var paid := Deduct(db.resellers, db.ledger, call.reseller, call.amount, ForTopup(call.topup), call.row);
    var d := Spec(db, call).value;
    if paid.Deducted? {
      TotalPut(db.topups, Credited(customer), call.topup, d.topups[call.topup]);
    } else {
      TotalPut(db.topups, Credited(customer), call.topup, d.topups[call.topup]);
    }
  }

  lemma ReceiptExcess(db: Db, call: Call, customer: int)
    requires call.CReceipt? && Spec(db, call).Some?
    ensures Excess(Spec(db, call).value, customer) == Excess(db, customer)
  {
    var d := Spec(db, call).value;
    ReceiptTables(db, call.order, call.reseller, call.isTest, call.amount, call.row);
    MarkSpends(db.orders, call.order, ReceiptStatus(db, call.order, call.reseller, call.isTest, call.amount, call.row),
               if call.isTest then 0 else RoundHalfAway(call.amount), call.isTest, customer);
    assert d.customers == db.customers && d.topups == db.topups;
  }

  lemma MarkSpends(orders: Orders, order: string, status: Status, commission: int, isTest: bool, customer: int)
    ensures Total(MarkReceipt(orders, order, status, commission, isTest), Spent(customer))
            == Total(orders, Spent(customer))
  {
    if order in orders {
      TotalPut(orders, Spent(customer), order, MarkReceipt(orders, order, status, commission, isTest)[order]);
    }
  }

  lemma StatementExcess(db: Db, call: Call, customer: int)
    requires call.Single() && Matches(db, call) && Statement(db, call).Some?
    ensures Excess(Statement(db, call).value, customer) == Excess(db, customer)
  {
    var d := Statement(db, call).value;
    match call
    case CCreateOrder(o, _, _, _, _) => TotalPut(db.orders, Spent(customer), o, d.orders[o]);
    case CSetStatus(o, _) => if o in db.orders { TotalPut(db.orders, Spent(customer), o, d.orders[o]); }
    case CSetPrice(o, _) => TotalPut(db.orders, Spent(customer), o, d.orders[o]);
    case CActivate(o) => TotalPut(db.orders, Spent(customer), o, d.orders[o]);
    case CNewTopup(t, _, _, _) => TotalPut(db.topups, Credited(customer), t, d.topups[t]);
    case CRejectTopup(t) => if t in db.topups { TotalPut(db.topups, Credited(customer), t, d.topups[t]); }
    case _ =>
  }

  lemma SpecExcess(db: Db, call: Call, customer: int)
    requires Matches(db, call) && Spec(db, call).Some?
    ensures Excess(Spec(db, call).value, customer) == Excess(db, customer) + Repeated(db, call, customer)
  {
    match call
    case CPurchase(cart) => BuyExcess(db, cart, customer);
    case CReceipt(_, _, _, _, _, _) => ReceiptExcess(db, call, customer);
    case CCredit(_, _, _, _, _, _) => CreditExcess(db, call, customer);
    case CRefund(_, _, _, _) =>
    case CConfirm(_) =>
    case _ => StatementExcess(db, call, customer);
  }

  /** No top-up of the customer is confirmed when it is already credited. */
  ghost predicate NeverRepeated(start: Db, log: seq<Call>, customer: int) {
    log == [] ||
    var last := |log| - 1;
    && NeverRepeated(start, log[..last], customer)
    && match Replay(start, log[..last])
       case None => true
       case Some(d) =>
         !(log[last].CCredit? && log[last].customer == customer
           && log[last].topup in d.topups && d.topups[log[last].topup].credited)
  }

  lemma {:induction false} ReplayExcess(start: Db, log: seq<Call>, customer: int)
    requires AllValid(log) && Replay(start, log).Some?
    ensures var change := Excess(Replay(start, log).value, customer) - Excess(start, customer);
            change >= 0 && (change == 0 <==> NeverRepeated(start, log, customer))
  {
    if log != [] {
      var last := |log| - 1;
      ReplayExcess(start, log[..last], customer);
      SpecExcess(Replay(start, log[..last]).value, log[last], customer);
    }
  }

  /** Conservation in every interleaving, with its exact condition: balance, credited top-ups and
      wallet-paid orders keep their difference if and only if no top-up was confirmed once it was
      already credited.  The service checks that before it opens its transaction. */
  lemma ConservedUnlessRepeated(start: Db, events: seq<Event>, s: State, customer: int)
    requires Numbered(start) && Run(Start(start), events, s)
    ensures Excess(s.db, customer) == Excess(start, customer) <==> NeverRepeated(start, s.log, customer)
    ensures Excess(s.db, customer) >= Excess(start, customer)
  {
    EveryInterleavingIsSerial(start, events, s);
    ReplayExcess(start, s.log, customer);
  }

  // ---------------------------------------------------------------- confirmations as atomic calls

  ghost predicate PendingIsUncredited(db: Db) {
    forall t :: t in db.topups && db.topups[t].status == TopupPending ==> !db.topups[t].credited
  }

  /** Each confirmation found its top-up pending, check and transaction taken as one step. */
  ghost predicate CheckedAtomically(start: Db, log: seq<Call>) {
    log == [] ||
    var last := |log| - 1;
    && CheckedAtomically(start, log[..last])
    && match Replay(start, log[..last])
       case None => true
       case Some(d) =>
         log[last].CCredit? && log[last].topup in d.topups ==> d.topups[log[last].topup].status == TopupPending
  }

  /** The calls that leave the top-ups alone. */
  lemma NoTopup(db: Db, call: Call)
    requires !call.CCredit? && !call.CNewTopup? && !call.CRejectTopup? && Spec(db, call).Some?
    ensures Spec(db, call).value.topups == db.topups
  {
    match call
    case CPurchase(cart) => BuyShape(db, cart);
    case CReceipt(o, _, reseller, isTest, amount, row) => ReceiptTables(db, o, reseller, isTest, amount, row);
    case CRefund(_, _, _, _) =>
    case CConfirm(_) =>
    case _ =>
  }

  lemma SpecPending(db: Db, call: Call)
    requires PendingIsUncredited(db) && Spec(db, call).Some?
    ensures PendingIsUncredited(Spec(db, call).value)
  {
    match call
    case CCredit(_, _, _, _, _, _) => CreditPending(db, call);
    case CNewTopup(_, _, _, _) =>
    case CRejectTopup(t) => if t in db.topups {}
    case _ => NoTopup(db, call);
  }

  lemma CreditPending(db: Db, call: Call)
    requires PendingIsUncredited(db) && call.CCredit? && Spec(db, call).Some?
    ensures PendingIsUncredited(Spec(db, call).value)
  {
    CreditTopups(db, call);
    if call.topup in db.topups {}
  }

  /** A confirmation marks its top-up and no other. */
  lemma CreditTopups(db: Db, call: Call)
    requires call.CCredit? && Spec(db, call).Some?
    ensures Spec(db, call).value.topups == MarkTopup(db.topups, call.topup, TopupConfirmed)
            || Spec(db, call).value.topups == MarkTopup(db.topups, call.topup, TopupShort)
  {
    if Deduct(db.resellers, db.ledger, call.reseller, call.amount, ForTopup(call.topup), call.row).Deducted? {
      assert Spec(db, call).value.topups == MarkTopup(db.topups, call.topup, TopupConfirmed);
    } else {
      assert Spec(db, call).value.topups == MarkTopup(db.topups, call.topup, TopupShort);
    }
  }

  lemma {:induction false} AtomicChecksNeverRepeat(start: Db, log: seq<Call>, customer: int)
    requires PendingIsUncredited(start) && Replay(start, log).Some? && CheckedAtomically(start, log)
    ensures PendingIsUncredited(Replay(start, log).value) && NeverRepeated(start, log, customer)
  {
    if log != [] {
      var last := |log| - 1;
      AtomicChecksNeverRepeat(start, log[..last], customer);
      SpecPending(Replay(start, log[..last]).value, log[last]);
    }
  }

  /** Over every run of atomic calls from an account that balances, the wallet balance is the sum of the
      credited top-ups less the sum of the prices of the wallet-paid orders. */
  lemma WalletConserved(start: Db, log: seq<Call>, customer: int)
    requires AllValid(log) && Replay(start, log).Some? && CheckedAtomically(start, log)
    requires PendingIsUncredited(start) && Excess(start, customer) == 0
    requires customer in start.customers
    ensures var d := Replay(start, log).value;
            && customer in d.customers
            && d.customers[customer].balance == Total(d.topups, Credited(customer)) - Total(d.orders, Spent(customer))
  {
    AtomicChecksNeverRepeat(start, log, customer);
    ReplayExcess(start, log, customer);
    CommissionWallet.ReplayGrows(start, log);
  }

  lemma SpecKeepsRejected(db: Db, call: Call, topup: int)
    requires topup in db.topups && db.topups[topup].status == TopupRejected && Spec(db, call).Some?
    requires !(call.CCredit? && call.topup == topup)
    ensures topup in Spec(db, call).value.topups
    ensures Spec(db, call).value.topups[topup] == db.topups[topup]
  {
    match call
    case CCredit(t, _, _, _, _, _) =>
      CreditTopups(db, call);
      if t in db.topups {}
    case CNewTopup(_, _, _, _) =>
    case CRejectTopup(t) => if t in db.topups {}
    case _ => NoTopup(db, call);
  }

  /** A top-up that was rejected is never credited afterwards, when confirmations are atomic. */
  lemma {:induction false} RejectedIsNeverCredited(start: Db, log: seq<Call>, topup: int)
    requires Replay(start, log).Some? && CheckedAtomically(start, log)
    requires topup in start.topups && start.topups[topup].status == TopupRejected
    ensures topup in Replay(start, log).value.topups
    ensures Replay(start, log).value.topups[topup] == start.topups[topup]
  {
    if log != [] {
      var last := |log| - 1;
      RejectedIsNeverCredited(start, log[..last], topup);
      SpecKeepsRejected(Replay(start, log[..last]).value, log[last], topup);
    }
  }

  // ---------------------------------------------------------------- never negative

  ghost predicate Solvent(db: Db) {
    forall c :: c in db.customers ==> db.customers[c].balance >= 0
  }

  lemma SpecSolvent(db: Db, call: Call)
    requires Solvent(db) && call.Valid() && Spec(db, call).Some?
    ensures Solvent(Spec(db, call).value)
  {
    match call
    case CPurchase(cart) => BuyShape(db, cart);
    case CReceipt(o, _, reseller, isTest, amount, row) => ReceiptTables(db, o, reseller, isTest, amount, row);
    case CCredit(topup, reseller, customer, _, amount, row) =>
      if Deduct(db.resellers, db.ledger, reseller, amount, ForTopup(topup), row).Deducted? {}
      if customer in db.customers {}
    case CRefund(_, _, _, _) =>
    case CConfirm(_) =>
    case _ =>
  }

  lemma {:induction false} ReplaySolvent(start: Db, log: seq<Call>)
    requires Solvent(start) && AllValid(log) && Replay(start, log).Some?
    ensures Solvent(Replay(start, log).value)
  {
    if log != [] {
      var last := |log| - 1;
      ReplaySolvent(start, log[..last]);
      SpecSolvent(Replay(start, log[..last]).value, log[last]);
    }
  }

  /** No interleaving of purchases overdraws a customer. */
  lemma NobodyOverdraws(start: Db, events: seq<Event>, s: State)
    requires Numbered(start) && Run(Start(start), events, s)
    requires forall c :: c in start.customers ==> start.customers[c].balance >= 0
    ensures forall c :: c in s.db.customers ==> s.db.customers[c].balance >= 0
  {
    EveryInterleavingIsSerial(start, events, s);
    ReplaySolvent(start, s.log);
  }
}
