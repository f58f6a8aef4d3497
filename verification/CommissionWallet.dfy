/** The reseller's commission wallet over whole runs: the balance against the ledger, the credit limit,
    and one deduction per order. */
module CommissionWallet {
  import opened Money
  import opened Schema
  import opened Settlement
  import opened Purchases
  import opened History
  import opened Totals
  import opened Machine
  import opened Serial

  ghost function Booked(reseller: int): LedgerRow -> int {
    (row: LedgerRow) => if row.confirmed && row.reseller == reseller then row.amount else 0
  }

  /** The balance beyond what the confirmed ledger rows add up to. */
  ghost function Surplus(db: Db, reseller: int): int {
    (if reseller in db.resellers then db.resellers[reseller].balance else 0) - Total(db.ledger, Booked(reseller))
  }

  /** The reseller and the exact amount a call deducts, if it deducts at all. */
  function Charge(db: Db, call: Call, reseller: int): (amount: Option<int>) {
    match call
    case CReceipt(order, _, r, isTest, amount, row) =>
      if r == reseller && !isTest && Deduct(db.resellers, db.ledger, r, amount, ForOrder(order), row).Deducted?
      then Some(amount) else None
    case CCredit(topup, r, _, _, amount, row) =>
      if r == reseller && Deduct(db.resellers, db.ledger, r, amount, ForTopup(topup), row).Deducted?
      then Some(amount) else None
    case _ => None
  }

  /** What a call adds to the surplus. */
  function Gain(db: Db, call: Call, reseller: int): (gain: int) {
    match Charge(db, call, reseller)
    case Some(amount) => if reseller in db.resellers then DeductionGain(db.resellers[reseller].balance, amount) else 0
    case None => 0
  }

  /** The calls that leave both the wallets and the ledger alone. */
  lemma NoWallet(db: Db, call: Call)
    requires !call.CReceipt? && !call.CCredit? && !call.CRefund?
    requires !call.CConfirm? && !call.CRequest? && !call.CActivate?
    requires Spec(db, call).Some?
    ensures Spec(db, call).value.resellers == db.resellers && Spec(db, call).value.ledger == db.ledger
  {
    if call.CPurchase? {
      BuyShape(db, call.cart);
    }
  }

  lemma DeductSurplus(db: Db, wallets: Wallets, ledger: Ledger, reseller: int, amount: int, reference: Reference,
                      row: int, who: int)
    requires amount >= 0
    requires Deduct(db.resellers, db.ledger, reseller, amount, reference, row) == Deducted(wallets, ledger)
    ensures var d := db.(resellers := wallets, ledger := ledger);
            Surplus(d, who) == Surplus(db, who) +
              if who == reseller then DeductionGain(db.resellers[reseller].balance, amount) else 0
  {
    TotalPut(db.ledger, Booked(who), row, ledger[row]);
    DeductedAgainstLedger(db.resellers[reseller].balance, amount);
  }

  lemma ReceiptSurplus(db: Db, call: Call, reseller: int)
    requires call.CReceipt? && call.Valid() && Spec(db, call).Some?
    ensures Surplus(Spec(db, call).value, reseller) == Surplus(db, reseller) + Gain(db, call, reseller)
  {
    ReceiptTables(db, call.order, call.reseller, call.isTest, call.amount, call.row);
    var reference := ForOrder(call.order);
    var paid := Deduct(db.resellers, db.ledger, call.reseller, call.amount, reference, call.row);
    if call.isTest {
    } else if paid.Deducted? {
      DeductSurplus(db, paid.wallets, paid.ledger, call.reseller, call.amount, reference, call.row, reseller);
    }
  }

  lemma CreditSurplus(db: Db, call: Call, reseller: int)
    requires call.CCredit? && call.Valid() && Spec(db, call).Some?
    ensures Surplus(Spec(db, call).value, reseller) == Surplus(db, reseller) + Gain(db, call, reseller)
  {
    var reference := ForTopup(call.topup);
    var paid := Deduct(db.resellers, db.ledger, call.reseller, call.amount, reference, call.row);
    CreditTables(db, call.topup, call.reseller, call.customer, call.paid, call.amount, call.row);
    if paid.Deducted? {
      DeductSurplus(db, paid.wallets, paid.ledger, call.reseller, call.amount, reference, call.row, reseller);
      SameSurplus(Spec(db, call).value, db.(resellers := paid.wallets, ledger := paid.ledger), reseller);
    } else {
      SameSurplus(Spec(db, call).value, db, reseller);
    }
  }

  lemma SameSurplus(d: Db, e: Db, reseller: int)
    requires d.resellers == e.resellers && d.ledger == e.ledger
    ensures Surplus(d, reseller) == Surplus(e, reseller)
  {
  }

  /** Balance and ledger move together, up to the half-cent gain of a deduction. */
  lemma SpecSurplus(db: Db, call: Call, reseller: int)
    requires call.Valid() && Spec(db, call).Some?
    ensures Surplus(Spec(db, call).value, reseller) == Surplus(db, reseller) + Gain(db, call, reseller)
  {
    var d := Spec(db, call).value;
    match call
    case CReceipt(_, _, _, _, _, _) => ReceiptSurplus(db, call, reseller);
    case CCredit(_, _, _, _, _, _) => CreditSurplus(db, call, reseller);
    case CRefund(_, _, _, row) => TotalPut(db.ledger, Booked(reseller), row, d.ledger[row]);
    case CConfirm(row) => TotalPut(db.ledger, Booked(reseller), row, d.ledger[row]);
    case CRequest(row, _, _) => TotalPut(db.ledger, Booked(reseller), row, d.ledger[row]);
    case CActivate(_) =>
    case _ => NoWallet(db, call);
  }

  /** The deductions of a run whose exact commission is half way between two cents. */
  ghost function HalfCentDeductions(start: Db, log: seq<Call>, reseller: int): (count: nat) {
    if log == [] then 0
    else
      var last := |log| - 1;
      HalfCentDeductions(start, log[..last], reseller) +
      match Replay(start, log[..last])
      case None => 0
      case Some(d) =>
        match Charge(d, log[last], reseller)
        case Some(amount) => if HalfCent(amount) then 1 else 0
        case None => 0
  }

  lemma {:induction false} ReplaySurplus(start: Db, log: seq<Call>, reseller: int)
    requires AllValid(log) && Replay(start, log).Some?
    ensures 0 <= Surplus(Replay(start, log).value, reseller) - Surplus(start, reseller)
              <= HalfCentDeductions(start, log, reseller)
  {
    if log != [] {
      var last := |log| - 1;
      ReplaySurplus(start, log[..last], reseller);
      SpecSurplus(Replay(start, log[..last]).value, log[last], reseller);
    }
  }

  /** In every interleaving the balance is the initial balance plus the confirmed ledger rows since,
      and at most one cent more per half-cent deduction; never less.  A pending top-up is credited once,
      however many confirmations race for it. */
  lemma BalanceFollowsLedger(start: Db, events: seq<Event>, s: State, reseller: int)
    requires Numbered(start) && Run(Start(start), events, s)
    requires reseller in start.resellers
    ensures reseller in s.db.resellers
    ensures var booked := Total(s.db.ledger, Booked(reseller)) - Total(start.ledger, Booked(reseller));
            0 <= s.db.resellers[reseller].balance - (start.resellers[reseller].balance + booked)
              <= HalfCentDeductions(start, s.log, reseller)
  {
    EveryInterleavingIsSerial(start, events, s);
    ReplaySurplus(start, s.log, reseller);
    ReplayGrows(start, s.log);
  }

  lemma {:induction false} ReplayGrows(start: Db, log: seq<Call>)
    requires Replay(start, log).Some?
    ensures Grows(start, Replay(start, log).value)
  {
    if log != [] {
      var last := |log| - 1;
      ReplayGrows(start, log[..last]);
      var d := Replay(start, log[..last]).value;
      SpecGrows(d, log[last]);
      GrowsTrans(start, d, Replay(start, log).value);
    }
  }

  // ---------------------------------------------------------------- the credit limit

  ghost predicate WithinCredit(db: Db) {
    forall r :: r in db.resellers ==> db.resellers[r].balance >= -db.resellers[r].limit
  }

  ghost predicate PendingIsPositive(db: Db) {
    forall row :: row in db.ledger && !db.ledger[row].confirmed ==> db.ledger[row].amount >= 0
  }

  lemma DeductWithinCredit(db: Db, reseller: int, amount: int, reference: Reference, row: int)
    requires WithinCredit(db) && PendingIsPositive(db)
    requires Deduct(db.resellers, db.ledger, reseller, amount, reference, row).Deducted?
    ensures var paid := Deduct(db.resellers, db.ledger, reseller, amount, reference, row);
            var d := db.(resellers := paid.wallets, ledger := paid.ledger);
            WithinCredit(d) && PendingIsPositive(d)
  {
    StoredKeepsFloor(CENT * db.resellers[reseller].balance - amount, db.resellers[reseller].limit);
  }

  lemma ReceiptWithinCredit(db: Db, call: Call)
    requires WithinCredit(db) && PendingIsPositive(db) && call.CReceipt? && Spec(db, call).Some?
    ensures WithinCredit(Spec(db, call).value) && PendingIsPositive(Spec(db, call).value)
  {
    ReceiptTables(db, call.order, call.reseller, call.isTest, call.amount, call.row);
    if call.isTest {
    } else if Deduct(db.resellers, db.ledger, call.reseller, call.amount, ForOrder(call.order), call.row).Deducted? {
      DeductWithinCredit(db, call.reseller, call.amount, ForOrder(call.order), call.row);
    }
  }

  lemma CreditWithinCredit(db: Db, call: Call)
    requires WithinCredit(db) && PendingIsPositive(db) && call.CCredit? && Spec(db, call).Some?
    ensures WithinCredit(Spec(db, call).value) && PendingIsPositive(Spec(db, call).value)
  {
    if Deduct(db.resellers, db.ledger, call.reseller, call.amount, ForTopup(call.topup), call.row).Deducted? {
      DeductWithinCredit(db, call.reseller, call.amount, ForTopup(call.topup), call.row);
    }
  }

  lemma SpecWithinCredit(db: Db, call: Call)
    requires WithinCredit(db) && PendingIsPositive(db) && call.Valid() && Spec(db, call).Some?
    ensures WithinCredit(Spec(db, call).value) && PendingIsPositive(Spec(db, call).value)
  {
    match call
    case CReceipt(_, _, _, _, _, _) => ReceiptWithinCredit(db, call);
    case CCredit(_, _, _, _, _, _) => CreditWithinCredit(db, call);
    case CRefund(_, _, _, _) =>
    case CConfirm(_) =>
    case CRequest(_, _, _) =>
    case CActivate(order) =>
      if db.orders[order].isTest && db.orders[order].reseller in db.resellers {}
    case _ => NoWallet(db, call);
  }

  lemma {:induction false} ReplayWithinCredit(start: Db, log: seq<Call>)
    requires WithinCredit(start) && PendingIsPositive(start) && AllValid(log) && Replay(start, log).Some?
    ensures WithinCredit(Replay(start, log).value) && PendingIsPositive(Replay(start, log).value)
  {
    if log != [] {
      var last := |log| - 1;
      ReplayWithinCredit(start, log[..last]);
      SpecWithinCredit(Replay(start, log[..last]).value, log[last]);
    }
  }

  /** No interleaving takes a balance below minus the credit limit, although the check is made on the
      exact value and the column stores a rounded one. */
  lemma CreditLimitHolds(start: Db, events: seq<Event>, s: State)
    requires Numbered(start) && Run(Start(start), events, s)
    requires forall r :: r in start.resellers ==> start.resellers[r].balance >= -start.resellers[r].limit
    requires forall row :: row in start.ledger && !start.ledger[row].confirmed ==> start.ledger[row].amount >= 0
    ensures forall r :: r in s.db.resellers ==> s.db.resellers[r].balance >= -s.db.resellers[r].limit
  {
    EveryInterleavingIsSerial(start, events, s);
    ReplayWithinCredit(start, s.log);
  }

  // ---------------------------------------------------------------- one deduction per order

  ghost function DeductionFor(order: string): LedgerRow -> int {
    (row: LedgerRow) => if row.kind == DeductionRow && row.reference == ForOrder(order) then 1 else 0
  }

  ghost function Deductions(db: Db, order: string): int {
    Total(db.ledger, DeductionFor(order))
  }

  /** The call is this order's receipt, it is not a test order, and the credit sufficed. */
  predicate PassesReceipt(db: Db, call: Call, order: string) {
    call.CReceipt? && call.order == order && !call.isTest
    && Deduct(db.resellers, db.ledger, call.reseller, call.amount, ForOrder(order), call.row).Deducted?
  }

  lemma SpecDeductions(db: Db, call: Call, order: string)
    requires Spec(db, call).Some?
    ensures Deductions(Spec(db, call).value, order)
            == Deductions(db, order) + if PassesReceipt(db, call, order) then 1 else 0
  {
    var d := Spec(db, call).value;
    var f := DeductionFor(order);
    match call
    case CReceipt(_, _, _, _, _, _) => ReceiptDeductions(db, call, order);
    case CCredit(_, _, _, _, _, _) => CreditDeductions(db, call, order);
    case CRefund(_, _, _, row) => TotalPut(db.ledger, f, row, d.ledger[row]);
    case CConfirm(row) => TotalPut(db.ledger, f, row, d.ledger[row]);
    case CRequest(row, _, _) => TotalPut(db.ledger, f, row, d.ledger[row]);
    case CActivate(_) =>
    case _ => NoWallet(db, call);
  }

  lemma CreditDeductions(db: Db, call: Call, order: string)
    requires call.CCredit? && Spec(db, call).Some?
    ensures Deductions(Spec(db, call).value, order) == Deductions(db, order)
  {
    var paid := Deduct(db.resellers, db.ledger, call.reseller, call.amount, ForTopup(call.topup), call.row);
    if paid.Deducted? {
      TotalPut(db.ledger, DeductionFor(order), call.row, paid.ledger[call.row]);
    }
  }

  lemma ReceiptDeductions(db: Db, call: Call, order: string)
    requires call.CReceipt? && Spec(db, call).Some?
    ensures Deductions(Spec(db, call).value, order)
            == Deductions(db, order) + if PassesReceipt(db, call, order) then 1 else 0
  {
    ReceiptTables(db, call.order, call.reseller, call.isTest, call.amount, call.row);
    var paid := Deduct(db.resellers, db.ledger, call.reseller, call.amount, ForOrder(call.order), call.row);
    if call.isTest {
    } else if paid.Deducted? {
      TotalPut(db.ledger, DeductionFor(order), call.row, paid.ledger[call.row]);
    }
  }

  /** How often the order passed receipt submission in a run. */
  ghost function Passed(start: Db, log: seq<Call>, order: string): (count: nat) {
    if log == [] then 0
    else
      var last := |log| - 1;
      Passed(start, log[..last], order) +
      match Replay(start, log[..last])
      case None => 0
      case Some(d) => if PassesReceipt(d, log[last], order) then 1 else 0
  }

  ghost function Submitted(log: seq<Call>, order: string): (count: nat) {
    if log == [] then 0
    else
      var last := |log| - 1;
      Submitted(log[..last], order) + if log[last].CReceipt? && log[last].order == order then 1 else 0
  }

  /** An order that no longer awaits payment never does again. */
  lemma SpecLeavesAwaiting(db: Db, call: Call, order: string)
    requires call.Valid() && Matches(db, call) && Spec(db, call).Some? && order in db.orders
    requires db.orders[order].status != AwaitingPayment || (call.CReceipt? && call.order == order)
    ensures order in Spec(db, call).value.orders && Spec(db, call).value.orders[order].status != AwaitingPayment
  {
    match call
    case CPurchase(cart) => BuyShape(db, cart);
    case CReceipt(o, _, reseller, isTest, amount, row) => ReceiptTables(db, o, reseller, isTest, amount, row);
    case CCredit(_, _, _, _, _, _) =>
    case CRefund(_, _, _, _) =>
    case CConfirm(_) =>
    case _ => StatementLeavesAwaiting(db, call, order);
  }

  lemma StatementLeavesAwaiting(db: Db, call: Call, order: string)
    requires call.Single() && call.Valid() && Statement(db, call).Some?
    requires order in db.orders && db.orders[order].status != AwaitingPayment
    ensures order in Statement(db, call).value.orders
    ensures Statement(db, call).value.orders[order].status != AwaitingPayment
  {
  }

  lemma {:induction false} ReplayDeductions(start: Db, log: seq<Call>, order: string)
    requires Replay(start, log).Some?
    ensures Deductions(Replay(start, log).value, order) == Deductions(start, order) + Passed(start, log, order)
  {
    if log != [] {
      var last := |log| - 1;
      ReplayDeductions(start, log[..last], order);
      SpecDeductions(Replay(start, log[..last]).value, log[last], order);
    }
  }

  ghost predicate WalletOrdersSettled(db: Db) {
    forall o :: o in db.orders && db.orders[o].fromWallet ==> db.orders[o].status != AwaitingPayment
  }

  lemma BuySettles(db: Db, cart: Cart)
    requires WalletOrdersSettled(db) && Buy(db, cart).Some?
    ensures WalletOrdersSettled(Buy(db, cart).value)
  {
    DeliverSettles(Debit(db, cart.customer, cart.Cost(|cart.codes|)), cart, Picked(db, cart, |cart.codes|),
                   |cart.codes|);
  }

  lemma {:induction false} DeliverSettles(db: Db, cart: Cart, ids: seq<int>, n: nat)
    requires WalletOrdersSettled(db) && n <= |cart.codes|
    ensures WalletOrdersSettled(Deliver(db, cart, ids, n))
  {
    if n > 0 {
      DeliverSettles(db, cart, ids, n - 1);
      var before := Deliver(db, cart, ids, n - 1);
      if cart.kind.Instant? && n - 1 < |ids| && ids[n - 1] in before.codes {}
    }
  }

  lemma SpecSettles(db: Db, call: Call)
    requires WalletOrdersSettled(db) && call.Valid() && Spec(db, call).Some?
    ensures WalletOrdersSettled(Spec(db, call).value)
  {
    match call
    case CPurchase(cart) => BuySettles(db, cart);
    case CReceipt(_, _, _, _, _, _) => ReceiptSettles(db, call);
    case CCredit(topup, reseller, _, _, amount, row) =>
      if Deduct(db.resellers, db.ledger, reseller, amount, ForTopup(topup), row).Deducted? {}
    case CRefund(_, _, _, _) =>
    case CConfirm(_) =>
    case _ => StatementSettles(db, call);
  }

  lemma ReceiptSettles(db: Db, call: Call)
    requires WalletOrdersSettled(db) && call.CReceipt? && Spec(db, call).Some?
    ensures WalletOrdersSettled(Spec(db, call).value)
  {
    ReceiptTables(db, call.order, call.reseller, call.isTest, call.amount, call.row);
    if call.order in db.orders {}
  }

  lemma StatementSettles(db: Db, call: Call)
    requires WalletOrdersSettled(db) && call.Single() && call.Valid() && Statement(db, call).Some?
    ensures WalletOrdersSettled(Statement(db, call).value)
  {
    match call
    case CSetStatus(o, _) => if o in db.orders {}
    case CSetPrice(o, _) => if o in db.orders {}
    case _ =>
  }

  // ---------------------------------------------------------------- deduction and refund

  /** No call of the log from number `n` on is a receipt of the order. */
  ghost predicate NoReceipt(log: seq<Call>, n: nat, order: string) {
    forall i :: n <= i < |log| ==> !(log[i].CReceipt? && log[i].order == order)
  }

  /** Only a receipt of the order writes its commission. */
  lemma SpecKeepsCommission(db: Db, call: Call, order: string)
    requires Spec(db, call).Some? && order in db.orders && !(call.CReceipt? && call.order == order)
    ensures order in Spec(db, call).value.orders
    ensures Spec(db, call).value.orders[order].commission == db.orders[order].commission
  {
    match call
    case CPurchase(cart) => BuyShape(db, cart);
    case CReceipt(o, _, reseller, isTest, amount, row) => ReceiptTables(db, o, reseller, isTest, amount, row);
    case CCredit(topup, reseller, _, _, amount, row) =>
      if Deduct(db.resellers, db.ledger, reseller, amount, ForTopup(topup), row).Deducted? {}
    case CRefund(_, _, _, _) =>
    case CConfirm(_) =>
    case _ => StatementKeepsCommission(db, call, order);
  }

  lemma StatementKeepsCommission(db: Db, call: Call, order: string)
    requires call.Single() && Statement(db, call).Some? && order in db.orders
    ensures order in Statement(db, call).value.orders
    ensures Statement(db, call).value.orders[order].commission == db.orders[order].commission
  {
  }

  lemma {:induction false} ReplayKeepsCommission(start: Db, log: seq<Call>, order: string)
    requires Replay(start, log).Some? && order in start.orders && NoReceipt(log, 0, order)
    ensures order in Replay(start, log).value.orders
    ensures Replay(start, log).value.orders[order].commission == start.orders[order].commission
  {
    if log != [] {
      var last := |log| - 1;
      ReplayKeepsCommission(start, log[..last], order);
      SpecKeepsCommission(Replay(start, log[..last]).value, log[last], order);
    }
  }

  /** What one deduction and one refund of the stored commission add up to. */
  lemma RefundAgainstDeduction(db: Db, receipt: Call, between: Db, row: int)
    requires receipt.CReceipt? && receipt.Valid() && Matches(db, receipt) && PassesReceipt(db, receipt, receipt.order)
    requires Refund(between, receipt.reseller, RoundHalfAway(receipt.amount), receipt.order, row).Some?
    ensures Spec(db, receipt).Some?
    ensures var r := receipt.reseller; var d := Spec(db, receipt).value;
            var after := Refund(between, r, RoundHalfAway(receipt.amount), receipt.order, row).value;
            && r in db.resellers && r in d.resellers && r in between.resellers && r in after.resellers
            && (d.resellers[r].balance - db.resellers[r].balance)
               + (after.resellers[r].balance - between.resellers[r].balance)
               == (if receipt.amount % 10000 == 5000 && d.resellers[r].balance > 0 then 1 else 0)
            && receipt.row in d.ledger && row in after.ledger
            && d.ledger[receipt.row].amount + after.ledger[row].amount == 0
  {
    var wallet := db.resellers[receipt.reseller];
    DeductedAgainstLedger(wallet.balance, receipt.amount);
    StoredIsNearest(CENT * wallet.balance - receipt.amount);
  }

  /** A passing receipt stores the rounded commission. */
  lemma ReceiptStores(db: Db, receipt: Call)
    requires receipt.CReceipt? && Matches(db, receipt) && PassesReceipt(db, receipt, receipt.order)
    ensures Spec(db, receipt).Some? && receipt.order in Spec(db, receipt).value.orders
    ensures Spec(db, receipt).value.orders[receipt.order].commission == RoundHalfAway(receipt.amount)
  {
  }

  /** Refunding, on dispute approval, the commission stored at receipt gives the balance back, or one
      cent more; one cent exactly when the exact commission was a half-cent tie and the deducted balance
      is positive.  Whatever commits in between, in any interleaving, but another receipt of the order. */
  lemma RefundUndoesDeduction(start: Db, early: seq<Event>, s: State, t: int, late: seq<Event>, s': State, row: int)
    requires Numbered(start) && Run(Start(start), early, s) && Enabled(s, Commit(t))
    requires s.txs[t].call.CReceipt? && PassesReceipt(s.db, s.txs[t].call, s.txs[t].call.order)
    requires Run(Fire(s, Commit(t)), late, s') && NoReceipt(s'.log, |s.log| + 1, s.txs[t].call.order)
    ensures var receipt := s.txs[t].call; var r := receipt.reseller; var d := Fire(s, Commit(t)).db;
            && receipt.order in s'.db.orders
            && var refund := Refund(s'.db, r, s'.db.orders[receipt.order].commission, receipt.order, row);
               refund.Some? ==>
                 && r in s.db.resellers && r in d.resellers && r in s'.db.resellers && r in refund.value.resellers
                 && (d.resellers[r].balance - s.db.resellers[r].balance)
                    + (refund.value.resellers[r].balance - s'.db.resellers[r].balance)
                    == (if receipt.amount % 10000 == 5000 && d.resellers[r].balance > 0 then 1 else 0)
                 && receipt.row in d.ledger && row in refund.value.ledger
                 && d.ledger[receipt.row].amount + refund.value.ledger[row].amount == 0
  {
    var receipt := s.txs[t].call;
    CommissionKept(start, early, s, t, late, s');
    var refund := Refund(s'.db, receipt.reseller, RoundHalfAway(receipt.amount), receipt.order, row);
    if refund.Some? {
      RefundAgainstDeduction(s.db, receipt, s'.db, row);
    }
  }

  lemma CommissionKept(start: Db, early: seq<Event>, s: State, t: int, late: seq<Event>, s': State)
    requires Numbered(start) && Run(Start(start), early, s) && Enabled(s, Commit(t))
    requires s.txs[t].call.CReceipt? && PassesReceipt(s.db, s.txs[t].call, s.txs[t].call.order)
    requires Run(Fire(s, Commit(t)), late, s') && NoReceipt(s'.log, |s.log| + 1, s.txs[t].call.order)
    ensures var receipt := s.txs[t].call;
            && receipt.Valid() && Matches(s.db, receipt) && Spec(s.db, receipt) == Some(Fire(s, Commit(t)).db)
            && receipt.order in s'.db.orders && s'.db.orders[receipt.order].commission == RoundHalfAway(receipt.amount)
  {
    var receipt := s.txs[t].call;
    var paid := Fire(s, Commit(t));
    assert (early + [Commit(t)])[..|early|] == early;
    AllOrNothing(start, early, s, t);
    RunKeeps(start, Start(start), early, s);
    LaterIsReplay(start, early + [Commit(t)], paid, late, s');
    ReceiptStores(s.db, receipt);
    ReplayKeepsCommission(paid.db, s'.log[|paid.log|..], receipt.order);
  }
}
