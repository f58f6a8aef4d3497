/** What each database transaction of the settlement code does to the tables when nothing runs beside
    it.  `Spec(db, call)` is the table state it commits, or None when it is refused or fails and rolls
    back.  Values that the code reads before it opens the transaction (prices, percents, the test-mode
    flag, generated order codes, fresh row ids) are parameters of the call. */
module Settlement {
  import opened Money
  import opened Schema
  import opened Stock

  // ---------------------------------------------------------------- customer purchases

  /** `Instant` delivers charge codes: `linked` tells the bulk purchase, which writes `sold_order_id`
      inside the transaction, from the single purchase, which writes it afterwards.  `ByHand` is a
      package order paid from the wallet and activated by the reseller later. */
  datatype Kind = Instant(linked: bool) | ByHand

  /** One purchase: `codes` are the generated order codes, one per unit. */
  datatype Cart = Cart(
    kind: Kind, reseller: int, package: int, customer: int, price: int, codes: seq<string>)
  {
    /** What the callers guarantee: at least one unit, exactly one by hand, no negative price. */
    predicate Valid() {
      |codes| >= 1 && (kind.ByHand? ==> |codes| == 1) && price >= 0
    }

    /** The price of `n` units. */
    function Cost(n: nat): int {
      if n == 0 then 0 else Cost(n - 1) + price
    }

    lemma {:induction false} CostIsProduct(n: nat)
      ensures Cost(n) == price * n
    {
      if n > 0 {
        CostIsProduct(n - 1);
      }
    }
  }

  function NewOrder(cart: Cart, delivered: Option<string>): (order: Order) {
    Order(cart.reseller, cart.package, cart.customer,
          if cart.kind.Instant? then Activated else Confirmed, cart.kind.Instant?,
          cart.price, 0, false, true, delivered, cart.kind.Instant?)
  }

  /** The `n` codes to deliver; a by-hand order delivers none. */
  function Picked(db: Db, cart: Cart, n: nat): (ids: seq<int>) {
    if cart.kind.Instant? then Lowest(db.codes, cart.package, n, 0, db.nextCode) else []
  }

  /** Insert the order for unit `i` and mark its code sold. */
  function PutOrder(db: Db, cart: Cart, ids: seq<int>, i: nat): (after: Db)
    requires i < |cart.codes|
  {
    var order := cart.codes[i];
    if cart.kind.Instant? && i < |ids| && ids[i] in db.codes then
      var row := db.codes[ids[i]];
      db.(orders := db.orders[order := NewOrder(cart, Some(row.code))],
          codes := db.codes[ids[i] := SoldRow(row, cart.customer, if cart.kind.linked then Some(order) else None)])
    else
      db.(orders := db.orders[order := NewOrder(cart, None)])
  }

  function Deliver(db: Db, cart: Cart, ids: seq<int>, n: nat): (after: Db)
    requires n <= |cart.codes|
  {
    if n == 0 then db else PutOrder(Deliver(db, cart, ids, n - 1), cart, ids, n - 1)
  }

  function Debit(db: Db, customer: int, amount: int): (after: Db)
    requires customer in db.customers
  {
    var row := db.customers[customer];
    db.(customers := db.customers[customer := row.(balance := row.balance - amount)])
  }

  /** The unique key on order_code admits the first `n` inserts. */
  predicate Admitted(orders: map<string, Order>, codes: seq<string>, n: nat)
    requires n <= |codes|
  {
    n == 0 || (Admitted(orders, codes, n - 1) && codes[n - 1] !in orders && codes[n - 1] !in Among(codes, n - 1))
  }

  lemma {:induction false} AdmittedApart(orders: map<string, Order>, codes: seq<string>, n: nat)
    requires n <= |codes| && Admitted(orders, codes, n)
    ensures orders.Keys !! Among(codes, n)
  {
    if n > 0 {
      AdmittedApart(orders, codes, n - 1);
    }
  }

  /** One transaction that buys the first `n` units of a cart. */
  function BuyFirst(db: Db, cart: Cart, n: nat): (after: Option<Db>)
    requires n <= |cart.codes|
  {
    if cart.customer !in db.customers || db.customers[cart.customer].balance < cart.Cost(n) then None
    else if cart.kind.Instant? && |Picked(db, cart, n)| < n then None
    else if cart.package !in db.packages || !Admitted(db.orders, cart.codes, n) then None
    else Some(Deliver(Debit(db, cart.customer, cart.Cost(n)), cart, Picked(db, cart, n), n))
  }

  function Buy(db: Db, cart: Cart): (after: Option<Db>) {
    BuyFirst(db, cart, |cart.codes|)
  }

  // ---------------------------------------------------------------- the reseller's commission wallet

  type Wallets = map<int, Reseller>
  type Ledger = map<int, LedgerRow>

  /** How a deduction inside an open transaction ends: `Short` is InsufficientCreditError, which the
      callers catch; `Broken` is any error they do not. */
  datatype Deduction = Deducted(wallets: Wallets, ledger: Ledger) | Short | Broken

  function Deduct(wallets: Wallets, ledger: Ledger, reseller: int, amount: int, reference: Reference, row: int)
    : (d: Deduction)
  {
    if reseller !in wallets then Broken
    else
      var wallet := wallets[reseller];
      var exact := CENT * wallet.balance - amount;
      if exact < -(CENT * wallet.limit) then Short
      else if row in ledger then Broken
      else Deducted(
        wallets[reseller := wallet.(balance := RoundHalfAway(exact))],
        ledger[row := LedgerRow(reseller, DeductionRow, RoundHalfAway(-amount), true, reference)])
  }

  function Pay(wallets: Wallets, reseller: int, amount: int): (after: Wallets)
    requires reseller in wallets
  {
    wallets[reseller := wallets[reseller].(balance := wallets[reseller].balance + amount)]
  }

  function Refund(db: Db, reseller: int, paid: int, order: string, row: int): (after: Option<Db>) {
    if reseller !in db.resellers || row in db.ledger then None
    else Some(db.(
      resellers := Pay(db.resellers, reseller, paid),
      ledger := db.ledger[row := LedgerRow(reseller, RefundRow, paid, true, ForOrder(order))]))
  }

  function ConfirmTopup(db: Db, row: int): (after: Option<Db>) {
    if row !in db.ledger || db.ledger[row].confirmed || db.ledger[row].reseller !in db.resellers then None
    else Some(db.(
      resellers := Pay(db.resellers, db.ledger[row].reseller, db.ledger[row].amount),
      ledger := db.ledger[row := db.ledger[row].(confirmed := true)]))
  }

  // ---------------------------------------------------------------- statements on one table

  type Orders = map<string, Order>

  function MarkReceipt(orders: Orders, order: string, status: Status, commission: int, isTest: bool): (after: Orders) {
    if order in orders
    then orders[order := orders[order].(status := status, commission := commission, isTest := isTest)]
    else orders
  }

  function SetStatus(orders: Orders, order: string, status: Status): (after: Orders) {
    if order in orders then orders[order := orders[order].(status := status)] else orders
  }

  function SetPrice(orders: Orders, order: string, price: int): (after: Orders) {
    if order in orders then orders[order := orders[order].(price := price)] else orders
  }

  function AddBalance(customers: map<int, Customer>, customer: int, amount: int): (after: map<int, Customer>) {
    if customer in customers
    then customers[customer := customers[customer].(balance := customers[customer].balance + amount)]
    else customers
  }

  function MarkTopup(topups: map<int, Topup>, topup: int, status: TopupStatus): (after: map<int, Topup>) {
    if topup in topups then topups[topup := topups[topup].(status := status, credited := true)] else topups
  }

  function RejectTopup(topups: map<int, Topup>, topup: int): (after: map<int, Topup>) {
    if topup in topups then topups[topup := topups[topup].(status := TopupRejected)] else topups
  }

  function DeleteCode(codes: Shelf, id: int): (after: Shelf) {
    if id in codes && !codes[id].sold then codes - {id} else codes
  }

  function ClearCodes(codes: Shelf, package: int): (after: Shelf) {
    map id | id in codes && !Open(codes, package, id) :: codes[id]
  }

  function DropCodes(codes: Shelf, packages: set<int>): (after: Shelf) {
    map id | id in codes && codes[id].package !in packages :: codes[id]
  }

  function LinkOrder(codes: Shelf, id: int, order: string): (after: Shelf) {
    if id in codes then codes[id := codes[id].(soldOrder := Some(order))] else codes
  }

  /** The counter of an activated test order.  MySQL assigns left to right, so the CASE already sees
      the incremented counter. */
  function CountTest(wallets: Wallets, order: Order): (after: Wallets) {
    if order.isTest && order.reseller in wallets then
      var wallet := wallets[order.reseller];
      var used := wallet.testUsed + 1;
      wallets[order.reseller := wallet.(
        testUsed := used,
        testEnabled := if used + 1 >= wallet.testLimit then false else wallet.testEnabled)]
    else wallets
  }

  predicate HasOrder(orders: Orders, packages: set<int>) {
    exists o | o in orders :: orders[o].package in packages
  }

  // ---------------------------------------------------------------- receipts and customer top-ups

  function Receipt(db: Db, order: string, reseller: int, isTest: bool, amount: int, row: int): (after: Option<Db>) {
    if isTest then Some(db.(orders := MarkReceipt(db.orders, order, InReview, 0, true)))
    else match Deduct(db.resellers, db.ledger, reseller, amount, ForOrder(order), row)
      case Broken => None
      case Short => Some(db.(orders := MarkReceipt(db.orders, order, FailedCredit, RoundHalfAway(amount), false)))
      case Deducted(wallets, ledger) => Some(db.(
        resellers := wallets, ledger := ledger,
        orders := MarkReceipt(db.orders, order, InReview, RoundHalfAway(amount), false)))
  }

  /** Where a receipt leaves the order. */
  function ReceiptStatus(db: Db, order: string, reseller: int, isTest: bool, amount: int, row: int): (status: Status) {
    if isTest || Deduct(db.resellers, db.ledger, reseller, amount, ForOrder(order), row).Deducted?
    then InReview else FailedCredit
  }

  /** The tables a receipt can touch. */
  lemma ReceiptTables(db: Db, order: string, reseller: int, isTest: bool, amount: int, row: int)
    requires Receipt(db, order, reseller, isTest, amount, row).Some?
    ensures var d := Receipt(db, order, reseller, isTest, amount, row).value;
            && d == db.(orders := d.orders, resellers := d.resellers, ledger := d.ledger)
            && (var paid := Deduct(db.resellers, db.ledger, reseller, amount, ForOrder(order), row);
                if !isTest && paid.Deducted? then paid == Deducted(d.resellers, d.ledger)
                else d.resellers == db.resellers && d.ledger == db.ledger)
            && d.orders == MarkReceipt(db.orders, order, ReceiptStatus(db, order, reseller, isTest, amount, row),
                                       if isTest then 0 else RoundHalfAway(amount), isTest)
  {
  }

  function CreditTopup(db: Db, topup: int, reseller: int, customer: int, paid: int, amount: int, row: int)
    : (after: Option<Db>)
  {
    match Deduct(db.resellers, db.ledger, reseller, amount, ForTopup(topup), row)
    case Broken => None
    case Short => Some(db.(
      customers := AddBalance(db.customers, customer, paid),
      topups := MarkTopup(db.topups, topup, TopupShort)))
    case Deducted(wallets, ledger) => Some(db.(
      customers := AddBalance(db.customers, customer, paid),
      resellers := wallets, ledger := ledger,
      topups := MarkTopup(db.topups, topup, TopupConfirmed)))
  }

  /** The wallets and the ledger after a top-up confirmation. */
  lemma CreditTables(db: Db, topup: int, reseller: int, customer: int, paid: int, amount: int, row: int)
    requires CreditTopup(db, topup, reseller, customer, paid, amount, row).Some?
    ensures var d := CreditTopup(db, topup, reseller, customer, paid, amount, row).value;
            var deducted := Deduct(db.resellers, db.ledger, reseller, amount, ForTopup(topup), row);
            if deducted.Deducted? then deducted == Deducted(d.resellers, d.ledger)
            else d.resellers == db.resellers && d.ledger == db.ledger
  {
  }

  // ---------------------------------------------------------------- every call

  datatype Call =
    // transactions of several statements
    | CPurchase(cart: Cart)
    | CReceipt(order: string, customer: int, reseller: int, isTest: bool, amount: int, row: int)
    | CCredit(topup: int, reseller: int, customer: int, paid: int, amount: int, row: int)
    | CRefund(reseller: int, paid: int, order: string, row: int)
    | CConfirm(row: int)
    // single statements, committed as they run
    | CRequest(row: int, reseller: int, paid: int)
    | CCreateOrder(order: string, reseller: int, package: int, customer: int, price: int)
    | CSetStatus(order: string, status: Status)
    | CSetPrice(order: string, price: int)
    | CActivate(order: string)
    | CAddCode(package: int, code: string)
    | CDeleteCode(id: int)
    | CClearCodes(package: int)
    | CDropPackages(packages: set<int>)
    | CLinkOrder(id: int, order: string)
    | CNewTopup(topup: int, reseller: int, customer: int, paid: int)
    | CRejectTopup(topup: int)
    | CNewCustomer(customer: int, reseller: int, user: int)
    | CNewPackage(package: int, offer: Package)
  {
    predicate Single() {
      !CPurchase? && !CReceipt? && !CCredit? && !CRefund? && !CConfirm?
    }

    /** What the callers guarantee about the parameters: money is not negative, and the statements
        that overwrite a status write one of the four the handlers use. */
    predicate Valid() {
      match this
      case CPurchase(cart) => cart.Valid()
      case CReceipt(_, _, _, _, amount, _) => amount >= 0
      case CCredit(_, _, _, paid, amount, _) => paid > 0 && amount >= 0
      case CRefund(_, paid, _, _) => paid >= 0
      case CRequest(_, _, paid) => paid >= 0
      case CSetStatus(_, status) => status in {Confirmed, Rejected, RefundPending, Refunded}
      case CNewTopup(_, _, _, paid) => paid > 0
      case _ => true
    }
  }

  /** The single statements, each on its own. */
  function Statement(db: Db, call: Call): (after: Option<Db>)
    requires call.Single()
  {
    match call
    case CRequest(row, reseller, paid) =>
      if row in db.ledger || reseller !in db.resellers then None
      else Some(db.(ledger := db.ledger[row := LedgerRow(reseller, TopupRow, paid, false, NoReference)]))
    case CCreateOrder(order, reseller, package, customer, price) =>
      if order in db.orders || package !in db.packages then None
      else if customer !in db.customers || reseller !in db.resellers then None
      else Some(db.(orders := db.orders[order := Order(
        reseller, package, customer, AwaitingPayment, false, price, 0, false, false, None, false)]))
    case CSetStatus(order, status) => Some(db.(orders := SetStatus(db.orders, order, status)))
    case CSetPrice(order, price) => Some(db.(orders := SetPrice(db.orders, order, price)))
    case CActivate(order) =>
      if order !in db.orders then None
      else Some(db.(
        orders := db.orders[order := db.orders[order].(status := Activated, activated := true)],
        resellers := CountTest(db.resellers, db.orders[order])))
    case CAddCode(package, code) =>
      if package !in db.packages then None
      else Some(db.(codes := db.codes[db.nextCode := ChargeCode(package, code, false, None, None)],
                    nextCode := db.nextCode + 1))
    case CDeleteCode(id) => Some(db.(codes := DeleteCode(db.codes, id)))
    case CClearCodes(package) => Some(db.(codes := ClearCodes(db.codes, package)))
    case CDropPackages(packages) =>
      // refused when an order restricts one of them, otherwise their charge codes go with them
      if HasOrder(db.orders, packages) then None
      else Some(db.(packages := db.packages - packages, codes := DropCodes(db.codes, packages)))
    case CLinkOrder(id, order) => Some(db.(codes := LinkOrder(db.codes, id, order)))
    case CNewTopup(topup, reseller, customer, paid) =>
      if topup in db.topups || reseller !in db.resellers || customer !in db.customers then None
      else Some(db.(topups := db.topups[topup := Topup(reseller, customer, paid, TopupPending, false)]))
    case CRejectTopup(topup) => Some(db.(topups := RejectTopup(db.topups, topup)))
    case CNewCustomer(customer, reseller, user) =>
      if customer in db.customers then None
      else Some(db.(customers := db.customers[customer := Customer(reseller, user, 0)]))
    case CNewPackage(package, offer) =>
      if package in db.packages then None
      else Some(db.(packages := db.packages[package := offer]))
  }

  function Spec(db: Db, call: Call): (after: Option<Db>) {
    match call
    case CPurchase(cart) => Buy(db, cart)
    case CReceipt(order, _, reseller, isTest, amount, row) => Receipt(db, order, reseller, isTest, amount, row)
    case CCredit(topup, reseller, customer, paid, amount, row) =>
      CreditTopup(db, topup, reseller, customer, paid, amount, row)
    case CRefund(reseller, paid, order, row) => Refund(db, reseller, paid, order, row)
    case CConfirm(row) => ConfirmTopup(db, row)
    case _ => Statement(db, call)
  }

  /** What a call's parameters took from rows whose columns never change again: the customer wallet
      credit carries the top-up's own amount, the receipt the order's own customer and reseller, and a
      price is only ever overwritten on an order that was not paid from the wallet.  The handlers'
      dialogue states guarantee the last. */
  predicate Matches(db: Db, call: Call) {
    match call
    case CCredit(topup, reseller, customer, paid, _, _) =>
      && topup in db.topups && customer in db.customers
      && var row := db.topups[topup]; row.reseller == reseller && row.customer == customer && row.amount == paid
    case CReceipt(order, customer, reseller, _, _, _) =>
      order in db.orders && db.orders[order].customer == customer && db.orders[order].reseller == reseller
    case CSetPrice(order, _) => order in db.orders && !db.orders[order].fromWallet
    case _ => true
  }

  // ---------------------------------------------------------------- runs, one call at a time

  /** The state after running the calls one at a time, each to its commit; None when one of them is
      refused. */
  function Replay(db: Db, log: seq<Call>): (after: Option<Db>) {
    if log == [] then Some(db)
    else
      match Replay(db, log[..|log| - 1])
      case None => None
      case Some(d) => if Matches(d, log[|log| - 1]) then Spec(d, log[|log| - 1]) else None
  }

  ghost predicate AllValid(log: seq<Call>) {
    forall i :: 0 <= i < |log| ==> log[i].Valid()
  }
}
