/** What no call ever takes back: the rows and columns that only grow. */
module History {
  import opened Money
  import opened Schema
  import opened Stock
  import opened Settlement
  import opened Purchases

  predicate SameOrder(o: Order, p: Order) {
    && o.reseller == p.reseller && o.package == p.package && o.customer == p.customer
    && o.charge == p.charge && o.fromWallet == p.fromWallet && o.delivered == p.delivered
  }

  /** Orders, top-ups, customers and resellers are never deleted, and these columns never change. */
  ghost predicate Grows(db: Db, d: Db) {
    && (forall o :: o in db.orders ==> o in d.orders && SameOrder(db.orders[o], d.orders[o]))
    && (forall t :: t in db.topups ==>
          && t in d.topups && d.topups[t].reseller == db.topups[t].reseller
          && d.topups[t].customer == db.topups[t].customer && d.topups[t].amount == db.topups[t].amount)
    && (forall c :: c in db.customers ==>
          && c in d.customers && d.customers[c].user == db.customers[c].user
          && d.customers[c].reseller == db.customers[c].reseller)
    && (forall r :: r in db.resellers ==>
          && r in d.resellers && d.resellers[r].limit == db.resellers[r].limit
          && d.resellers[r].testLimit == db.resellers[r].testLimit)
    && db.nextCode <= d.nextCode
  }

  /** Every code row was numbered by the table's counter. */
  ghost predicate Numbered(db: Db) {
    db.nextCode >= 0 && forall id :: id in db.codes ==> 0 <= id < db.nextCode
  }

  lemma BuyShape(db: Db, cart: Cart)
    requires Buy(db, cart).Some?
    ensures var d := Buy(db, cart).value; var q := |cart.codes|; var ids := Picked(db, cart, q);
            && cart.customer in db.customers
            && d == Debit(db, cart.customer, cart.Cost(q)).(orders := d.orders, codes := d.codes)
            && d.codes.Keys == db.codes.Keys
            && (forall o :: o in db.orders ==> o in d.orders && d.orders[o] == db.orders[o])
            && (forall id :: id in db.codes && db.codes[id].sold ==> d.codes[id] == db.codes[id])
  {
    var q := |cart.codes|;
    var ids := Picked(db, cart, q);
    if cart.kind.Instant? {
      LowestIsLowest(db.codes, cart.package, q, 0, db.nextCode);
      AmongIsPrefix(ids, q);
    }
    AdmittedApart(db.orders, cart.codes, q);
    var charged := Debit(db, cart.customer, cart.Cost(q));
    Delivered(charged, cart, ids, q);
    OthersUntouched(charged, cart, ids, q);
  }

  lemma {:induction false} OthersUntouched(db: Db, cart: Cart, ids: seq<int>, n: nat)
    requires n <= |cart.codes|
    requires cart.kind.Instant? ==> n <= |ids| && forall i :: 0 <= i < n ==> ids[i] in db.codes
    ensures var d := Deliver(db, cart, ids, n);
            && (forall o :: o in db.orders && o !in Among(cart.codes, n) ==>
                  o in d.orders && d.orders[o] == db.orders[o])
            && (forall id :: id in db.codes && (cart.kind.ByHand? || id !in Among(ids, n)) ==>
                  id in d.codes && d.codes[id] == db.codes[id])
  {
    if n > 0 {
      OthersUntouched(db, cart, ids, n - 1);
    }
  }

  lemma GrowsTrans(a: Db, b: Db, c: Db)
    requires Grows(a, b) && Grows(b, c)
    ensures Grows(a, c)
  {
  }

  lemma SpecGrows(db: Db, call: Call)
    requires Spec(db, call).Some?
    ensures Grows(db, Spec(db, call).value)
  {
    match call
    case CPurchase(cart) => BuyShape(db, cart);
    case CReceipt(order, _, reseller, isTest, amount, row) =>
      ReceiptGrows(db, order, reseller, isTest, amount, row);
    case CCredit(topup, reseller, customer, paid, amount, row) =>
      CreditGrows(db, topup, reseller, customer, paid, amount, row);
    case CRefund(_, _, _, _) =>
    case CConfirm(_) =>
    case _ => StatementGrows(db, call);
  }

  lemma ReceiptGrows(db: Db, order: string, reseller: int, isTest: bool, amount: int, row: int)
    requires Receipt(db, order, reseller, isTest, amount, row).Some?
    ensures Grows(db, Receipt(db, order, reseller, isTest, amount, row).value)
  {
    ReceiptTables(db, order, reseller, isTest, amount, row);
    MarkKeeps(db.orders, order, ReceiptStatus(db, order, reseller, isTest, amount, row),
              if isTest then 0 else RoundHalfAway(amount), isTest);
  }

  lemma MarkKeeps(orders: Orders, order: string, status: Status, commission: int, isTest: bool)
    ensures var after := MarkReceipt(orders, order, status, commission, isTest);
            forall o :: o in orders ==> o in after && SameOrder(orders[o], after[o])
  {
    if order in orders {}
  }

  lemma CreditGrows(db: Db, topup: int, reseller: int, customer: int, paid: int, amount: int, row: int)
    requires CreditTopup(db, topup, reseller, customer, paid, amount, row).Some?
    ensures Grows(db, CreditTopup(db, topup, reseller, customer, paid, amount, row).value)
  {
    match Deduct(db.resellers, db.ledger, reseller, amount, ForTopup(topup), row)
    case Short =>
    case Deducted(_, _) =>
  }

  lemma StatementGrows(db: Db, call: Call)
    requires call.Single() && Statement(db, call).Some?
    ensures Grows(db, Statement(db, call).value)
  {
  }

  /** Codes are numbered by the counter, whatever runs. */
  lemma NumberedStays(db: Db, call: Call)
    requires Numbered(db) && Spec(db, call).Some?
    ensures Numbered(Spec(db, call).value)
  {
    if call.Single() {
      StatementNumbers(db, call);
    } else {
      LeavesShelf(db, call);
    }
  }

  /** Transactions put no code on the shelf and take none off it. */
  lemma LeavesShelf(db: Db, call: Call)
    requires !call.Single() && Spec(db, call).Some?
    ensures Spec(db, call).value.nextCode == db.nextCode && Spec(db, call).value.codes.Keys == db.codes.Keys
    ensures !call.CPurchase? ==> Spec(db, call).value.codes == db.codes
  {
    match call
    case CPurchase(cart) => BuyShape(db, cart);
    case CReceipt(order, _, reseller, isTest, amount, row) => ReceiptTables(db, order, reseller, isTest, amount, row);
    case CCredit(topup, reseller, _, _, amount, row) =>
      if Deduct(db.resellers, db.ledger, reseller, amount, ForTopup(topup), row).Deducted? {}
    case CRefund(_, _, _, _) =>
    case CConfirm(_) =>
  }

  lemma StatementNumbers(db: Db, call: Call)
    requires Numbered(db) && call.Single() && Statement(db, call).Some?
    ensures Numbered(Statement(db, call).value)
  {
    match call
    case CAddCode(_, _) =>
    case CDeleteCode(_) =>
    case CClearCodes(_) =>
    case CDropPackages(_) =>
    case CLinkOrder(_, _) =>
    case _ =>
  }

  /** A call whose parameters were read from immutable columns still matches later. */
  lemma MatchesStays(db: Db, d: Db, call: Call)
    requires Matches(db, call) && Grows(db, d)
    ensures Matches(d, call)
  {
  }
}
