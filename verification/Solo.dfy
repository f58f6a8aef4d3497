/** A transaction that has the tables to itself does what `Spec` says: it dies where Spec refuses, and
    otherwise its writes are the difference. */
module Solo {
  import opened Money
  import opened Schema
  import opened Stock
  import opened Settlement
  import opened Purchases
  import opened Machine

  // ---------------------------------------------------------------- purchases

  /** After `i` units: the tables as the transaction sees them. */
  ghost predicate Sold(cart: Cart, db: Db, l: Local, i: nat) {
    && i < |cart.codes| && cart.customer in db.customers
    && Publish(db, l.w) == Deliver(Debit(db, cart.customer, cart.Cost(|cart.codes|)), cart, l.ids, i)
    && Admitted(db.orders, cart.codes, i)
    && (i > 0 ==> cart.package in db.packages)
    && l.w.orders.Keys == Among(cart.codes, i)
    && (if cart.kind.Instant? then i <= |l.ids| && l.w.codes.Keys == Among(l.ids, i) else l.w.codes == map[])
  }

  ghost predicate PurchaseShape(cart: Cart, db: Db, l: Local) {
    var q := |cart.codes|;
    match l.phase
    case Dead => Buy(db, cart).None?
    case Ready => Buy(db, cart) == Some(Publish(db, l.w))
    case At(pc) =>
      && (pc > 0 ==> cart.customer in db.customers && db.customers[cart.customer].balance >= cart.Cost(q))
      && (pc <= 2 ==> l.w == NOTHING)
      && (pc <= 1 ==> l.ids == []) && (pc == 1 ==> cart.kind.Instant?)
      && (pc >= 2 ==> l.ids == Picked(db, cart, q) && (cart.kind.Instant? ==> |l.ids| == q))
      && (pc >= 3 ==> Sold(cart, db, l, pc - 3))
  }

  lemma PurchaseStepMeets(cart: Cart, db: Db, l: Local)
    requires cart.Valid() && l.phase.At? && PurchaseShape(cart, db, l)
    ensures PurchaseShape(cart, db, PurchaseStep(cart, db, l, l.phase.pc))
  {
    if l.phase.pc < 2 {
      LockMeets(cart, db, l);
    } else if l.phase.pc == 2 {
      ChargeMeets(cart, db, l);
    } else if SellStep(cart, db, l, l.phase.pc - 3).phase.Dead? {
      SellRefused(cart, db, l, l.phase.pc - 3);
    } else {
      SellStepMeets(cart, db, l, l.phase.pc - 3);
    }
  }

  /** Lock the wallet, lock the codes. */
  lemma LockMeets(cart: Cart, db: Db, l: Local)
    requires cart.Valid() && l.phase.At? && l.phase.pc < 2 && PurchaseShape(cart, db, l)
    ensures PurchaseShape(cart, db, PurchaseStep(cart, db, l, l.phase.pc))
  {
    if cart.customer in db.customers {
      if l.phase.pc == 0 {
        if cart.kind.Instant? {}
      }
    }
  }

  /** Charge the wallet. */
  lemma ChargeMeets(cart: Cart, db: Db, l: Local)
    requires cart.Valid() && l.phase == At(2) && PurchaseShape(cart, db, l)
    ensures PurchaseShape(cart, db, PurchaseStep(cart, db, l, 2))
  {
    var buyer := db.customers[cart.customer];
    var charged := buyer.(balance := buyer.balance - cart.Cost(|cart.codes|));
    assert PurchaseStep(cart, db, l, 2) == l.(phase := At(3), w := Charged(cart.customer, charged));
    ChargedIsDebit(cart, db, l.(phase := At(3), w := Charged(cart.customer, charged)));
  }

  function Charged(customer: int, row: Customer): (w: Writes) {
    NOTHING.(customers := map[customer := row])
  }

  lemma ChargedIsDebit(cart: Cart, db: Db, next: Local)
    requires cart.Valid() && cart.customer in db.customers
    requires var buyer := db.customers[cart.customer];
             next.w == Charged(cart.customer, buyer.(balance := buyer.balance - cart.Cost(|cart.codes|)))
    ensures Sold(cart, db, next, 0)
  {
    assert Publish(db, next.w) == Debit(db, cart.customer, cart.Cost(|cart.codes|));
  }

  /** The insert of unit `i` fails only if the whole purchase is refused. */
  lemma SellRefused(cart: Cart, db: Db, l: Local, i: nat)
    requires cart.Valid() && l.phase == At(i + 3) && PurchaseShape(cart, db, l)
    requires SellStep(cart, db, l, i).phase.Dead?
    ensures Buy(db, cart).None?
  {
    if cart.kind.Instant? {
      LowestIsLowest(db.codes, cart.package, |cart.codes|, 0, db.nextCode);
      assert Open(db.codes, cart.package, l.ids[i]);
    }
    assert !Admitted(db.orders, cart.codes, i + 1) || cart.package !in db.packages;
    RefusedInsert(db.orders, cart.codes, i + 1, |cart.codes|);
  }

  lemma {:induction false} RefusedInsert(orders: Orders, codes: seq<string>, n: nat, q: nat)
    requires n <= q <= |codes|
    ensures Admitted(orders, codes, q) ==> Admitted(orders, codes, n)
  {
    if n < q {
      RefusedInsert(orders, codes, n, q - 1);
    }
  }

  /** The insert of unit `i` goes through: one more order, one code more sold. */
  lemma SellStepMeets(cart: Cart, db: Db, l: Local, i: nat)
    requires cart.Valid() && l.phase == At(i + 3) && PurchaseShape(cart, db, l)
    requires !SellStep(cart, db, l, i).phase.Dead?
    ensures PurchaseShape(cart, db, SellStep(cart, db, l, i))
  {
    var next := SellStep(cart, db, l, i);
    PickedAreOpen(cart, db, l, i);
    SellStepPublishes(cart, db, l, i);
    SellStepWrites(cart, db, l, i);
    if next.phase.Ready? {
      BuyIs(cart, db, Publish(db, next.w));
    } else {
      SoldMore(cart, db, l, i);
      ShapeAfterSale(cart, db, l, i, next);
    }
  }

  lemma PickedAreOpen(cart: Cart, db: Db, l: Local, i: nat)
    requires l.phase == At(i + 3) && PurchaseShape(cart, db, l)
    ensures cart.kind.Instant? ==> l.ids[i] !in Among(l.ids, i) && l.ids[i] in db.codes
  {
    if cart.kind.Instant? {
      LowestIsLowest(db.codes, cart.package, |cart.codes|, 0, db.nextCode);
      AmongIsPrefix(l.ids, i);
    }
  }

  lemma ShapeAfterSale(cart: Cart, db: Db, l: Local, i: nat, next: Local)
    requires l.phase == At(i + 3) && PurchaseShape(cart, db, l)
    requires next.phase == At(i + 4) && next.ids == l.ids && Sold(cart, db, next, i + 1)
    ensures PurchaseShape(cart, db, next)
  {
  }

  lemma BuyIs(cart: Cart, db: Db, after: Db)
    requires var q := |cart.codes|; var ids := Picked(db, cart, q);
             && cart.customer in db.customers && db.customers[cart.customer].balance >= cart.Cost(q)
             && (cart.kind.Instant? ==> |ids| == q)
             && cart.package in db.packages && Admitted(db.orders, cart.codes, q)
             && after == Deliver(Debit(db, cart.customer, cart.Cost(q)), cart, ids, q)
    ensures Buy(db, cart) == Some(after)
  {
  }

  lemma SoldMore(cart: Cart, db: Db, l: Local, i: nat)
    requires Sold(cart, db, l, i) && i + 1 < |cart.codes| && !SellStep(cart, db, l, i).phase.Dead?
    requires Publish(db, SellStep(cart, db, l, i).w)
             == Deliver(Debit(db, cart.customer, cart.Cost(|cart.codes|)), cart, l.ids, i + 1)
    ensures Sold(cart, db, SellStep(cart, db, l, i), i + 1)
  {
    SellStepWrites(cart, db, l, i);
  }

  /** The rows one insert adds to the transaction's writes. */
  lemma SellStepWrites(cart: Cart, db: Db, l: Local, i: nat)
    requires i < |cart.codes| && !SellStep(cart, db, l, i).phase.Dead?
    ensures var next := SellStep(cart, db, l, i); var order := cart.codes[i];
            && next.phase == (if i + 1 == |cart.codes| then Ready else At(i + 4))
            && next.ids == l.ids
            && order !in db.orders && order !in l.w.orders && cart.package in db.packages
            && next.w.orders.Keys == l.w.orders.Keys + {order}
            && (if cart.kind.Instant? then i < |l.ids| && next.w.codes.Keys == l.w.codes.Keys + {l.ids[i]}
                else next.w.codes == l.w.codes)
  {
  }

  lemma SellStepPublishes(cart: Cart, db: Db, l: Local, i: nat)
    requires cart.Valid() && l.phase == At(i + 3) && PurchaseShape(cart, db, l)
    requires !SellStep(cart, db, l, i).phase.Dead?
    requires cart.kind.Instant? ==> l.ids[i] !in Among(l.ids, i) && l.ids[i] in db.codes
    ensures Publish(db, SellStep(cart, db, l, i).w)
            == Deliver(Debit(db, cart.customer, cart.Cost(|cart.codes|)), cart, l.ids, i + 1)
  {
    var before := Publish(db, l.w);
    var order := cart.codes[i];
    if cart.kind.Instant? {
      var id := l.ids[i];
      assert id !in l.w.codes;
      assert before.codes[id] == db.codes[id];
      var row := db.codes[id];
      MergePut(db.orders, l.w.orders, order, NewOrder(cart, Some(row.code)));
      MergePut(db.codes, l.w.codes, id, SoldRow(row, cart.customer, if cart.kind.linked then Some(order) else None));
    } else {
      MergePut(db.orders, l.w.orders, order, NewOrder(cart, None));
    }
    assert Publish(db, SellStep(cart, db, l, i).w) == PutOrder(before, cart, l.ids, i);
  }

  // ---------------------------------------------------------------- the commission wallet

  /** The wallet is charged and the ledger row is still to come. */
  ghost predicate HalfDeducted(db: Db, base: Writes, l: Local, reseller: int, amount: int) {
    && reseller in db.resellers && !l.short
    && var wallet := db.resellers[reseller]; var exact := CENT * wallet.balance - amount;
       exact >= -(CENT * wallet.limit)
       && l.w == base.(resellers := map[reseller := wallet.(balance := RoundHalfAway(exact))])
  }

  /** The deduction is over: short of credit, or both its rows are written. */
  ghost predicate DeductDone(db: Db, base: Writes, l: Local, reseller: int, amount: int, reference: Reference,
                             row: int) {
    var d := Deduct(db.resellers, db.ledger, reseller, amount, reference, row);
    if l.short then d.Short? && l.w == base
    else && d == Deducted(db.resellers + l.w.resellers, db.ledger + l.w.ledger)
         && l.w == base.(resellers := l.w.resellers, ledger := l.w.ledger)
  }

  lemma DeductStepMeets(db: Db, base: Writes, l: Local, first: bool, pc: nat, done: nat,
                        reseller: int, amount: int, reference: Reference, row: int)
    requires first ==> l.w == base && !l.short
    requires !first ==> HalfDeducted(db, base, l, reseller, amount)
    requires base == base.(resellers := map[], ledger := map[]) && pc + 1 != done
    ensures var next := DeductStep(db, l, first, pc, done, reseller, amount, reference, row);
            && (next.phase.Dead? ==> Deduct(db.resellers, db.ledger, reseller, amount, reference, row).Broken?)
            && !next.phase.Ready?
            && (next.phase.At? ==> next.phase.pc == done || (first && next.phase.pc == pc + 1))
            && (next.phase == At(done) ==> DeductDone(db, base, next, reseller, amount, reference, row))
            && (next.phase == At(pc + 1) ==> HalfDeducted(db, base, next, reseller, amount))
  {
  }

  ghost predicate ReceiptShape(order: string, reseller: int, isTest: bool, amount: int, row: int, db: Db, l: Local) {
    var result := Receipt(db, order, reseller, isTest, amount, row);
    match l.phase
    case Dead => result.None?
    case Ready => result == Some(Publish(db, l.w))
    case At(pc) =>
      && pc <= 2
      && (pc == 0 ==> l.w == NOTHING && !l.short)
      && (pc == 1 ==> !isTest && HalfDeducted(db, NOTHING, l, reseller, amount))
      && (pc == 2 ==> if isTest then l.w == NOTHING && !l.short
                      else DeductDone(db, NOTHING, l, reseller, amount, ForOrder(order), row))
  }

  lemma ReceiptStepMeets(order: string, reseller: int, isTest: bool, amount: int, row: int, db: Db, l: Local)
    requires l.phase.At? && ReceiptShape(order, reseller, isTest, amount, row, db, l)
    ensures ReceiptShape(order, reseller, isTest, amount, row, db,
                         ReceiptStep(order, reseller, isTest, amount, row, db, l, l.phase.pc))
  {
    var pc := l.phase.pc;
    if pc <= 1 && (pc == 1 || !isTest) {
      DeductStepMeets(db, NOTHING, l, pc == 0, 0, 2, reseller, amount, ForOrder(order), row);
    } else if pc == 2 {
      ReceiptMarkMeets(order, reseller, isTest, amount, row, db, l);
    }
  }

  /** What the last statement of a receipt writes. */
  function OrderWrites(orders: Orders, order: string, status: Status, commission: int,
                       isTest: bool): (written: Orders) {
    match Get(orders, order)
    case None => map[]
    case Some(o) => map[order := o.(status := status, commission := commission, isTest := isTest)]
  }

  lemma OrderMarked(orders: Orders, order: string, status: Status, commission: int, isTest: bool)
    ensures orders + OrderWrites(orders, order, status, commission, isTest)
            == MarkReceipt(orders, order, status, commission, isTest)
  {
  }

  lemma ReceiptMarkMeets(order: string, reseller: int, isTest: bool, amount: int, row: int, db: Db, l: Local)
    requires l.phase == At(2) && ReceiptShape(order, reseller, isTest, amount, row, db, l)
    ensures ReceiptShape(order, reseller, isTest, amount, row, db,
                         ReceiptStep(order, reseller, isTest, amount, row, db, l, 2))
  {
    var next := ReceiptStep(order, reseller, isTest, amount, row, db, l, 2);
    var status := if l.short then FailedCredit else InReview;
    var commission := if isTest then 0 else RoundHalfAway(amount);
    OrderMarked(db.orders, order, status, commission, isTest);
    assert next.w == l.w.(orders := OrderWrites(db.orders, order, status, commission, isTest));
    assert Publish(db, next.w) == db.(
      resellers := db.resellers + l.w.resellers, ledger := db.ledger + l.w.ledger,
      orders := MarkReceipt(db.orders, order, status, commission, isTest));
  }

  ghost predicate CreditShape(topup: int, reseller: int, customer: int, paid: int, amount: int, row: int, db: Db,
                              l: Local) {
    var result := CreditTopup(db, topup, reseller, customer, paid, amount, row);
    var credited := NOTHING.(customers := l.w.customers);
    match l.phase
    case Dead => result.None?
    case Ready => result == Some(Publish(db, l.w))
    case At(pc) =>
      && pc <= 3
      && (pc <= 1 ==> l.w == credited && !l.short)
      && (pc == 0 ==> l.w == NOTHING)
      && (pc >= 1 ==> db.customers + l.w.customers == AddBalance(db.customers, customer, paid))
      && (pc == 2 ==> HalfDeducted(db, credited, l, reseller, amount))
      && (pc == 3 ==> DeductDone(db, credited, l, reseller, amount, ForTopup(topup), row))
  }

  lemma CreditStepMeets(topup: int, reseller: int, customer: int, paid: int, amount: int, row: int, db: Db, l: Local)
    requires l.phase.At? && CreditShape(topup, reseller, customer, paid, amount, row, db, l)
    ensures CreditShape(topup, reseller, customer, paid, amount, row, db,
                        CreditStep(topup, reseller, customer, paid, amount, row, db, l, l.phase.pc))
  {
    var pc := l.phase.pc;
    var credited := NOTHING.(customers := l.w.customers);
    var next := CreditStep(topup, reseller, customer, paid, amount, row, db, l, pc);
    if pc == 0 {
      assert db.customers + next.w.customers == AddBalance(db.customers, customer, paid);
    } else if pc <= 2 {
      DeductStepMeets(db, credited, l, pc == 1, 1, 3, reseller, amount, ForTopup(topup), row);
    } else {
      CreditMarkMeets(topup, reseller, customer, paid, amount, row, db, l);
    }
  }

  /** What the last statement of a top-up confirmation writes. */
  function TopupWrites(topups: map<int, Topup>, topup: int, status: TopupStatus): (written: map<int, Topup>) {
    match Get(topups, topup)
    case None => map[]
    case Some(t) => map[topup := t.(status := status, credited := true)]
  }

  lemma TopupMarked(topups: map<int, Topup>, topup: int, status: TopupStatus)
    ensures topups + TopupWrites(topups, topup, status) == MarkTopup(topups, topup, status)
  {
  }

  lemma CreditMarkMeets(topup: int, reseller: int, customer: int, paid: int, amount: int, row: int, db: Db, l: Local)
    requires l.phase == At(3) && CreditShape(topup, reseller, customer, paid, amount, row, db, l)
    ensures CreditShape(topup, reseller, customer, paid, amount, row, db,
                        CreditStep(topup, reseller, customer, paid, amount, row, db, l, 3))
  {
    var next := CreditStep(topup, reseller, customer, paid, amount, row, db, l, 3);
    var status := if l.short then TopupShort else TopupConfirmed;
    TopupMarked(db.topups, topup, status);
    assert next.w == l.w.(topups := TopupWrites(db.topups, topup, status));
    assert Publish(db, next.w) == db.(
      customers := AddBalance(db.customers, customer, paid),
      resellers := db.resellers + l.w.resellers, ledger := db.ledger + l.w.ledger,
      topups := MarkTopup(db.topups, topup, status));
  }

  ghost predicate RefundShape(reseller: int, paid: int, order: string, row: int, db: Db, l: Local) {
    var result := Refund(db, reseller, paid, order, row);
    match l.phase
    case Dead => result.None?
    case Ready => result == Some(Publish(db, l.w))
    case At(pc) =>
      && pc <= 1 && (pc == 0 ==> l.w == NOTHING)
      && (pc == 1 ==> reseller in db.resellers && l.w == NOTHING.(resellers := map[
            reseller := db.resellers[reseller].(balance := db.resellers[reseller].balance + paid)]))
  }

  lemma RefundStepMeets(reseller: int, paid: int, order: string, row: int, db: Db, l: Local)
    requires l.phase.At? && RefundShape(reseller, paid, order, row, db, l)
    ensures RefundShape(reseller, paid, order, row, db, RefundStep(reseller, paid, order, row, db, l, l.phase.pc))
  {
    var next := RefundStep(reseller, paid, order, row, db, l, l.phase.pc);
    if next.phase.Ready? {
      assert Publish(db, next.w) == Refund(db, reseller, paid, order, row).value;
    }
  }

  ghost predicate ConfirmShape(row: int, db: Db, l: Local) {
    var result := ConfirmTopup(db, row);
    match l.phase
    case Dead => result.None?
    case Ready => result == Some(Publish(db, l.w))
    case At(pc) =>
      && pc <= 1 && (pc == 0 ==> l.w == NOTHING)
      && (pc == 1 ==> row in db.ledger && !db.ledger[row].confirmed
                      && l.w == NOTHING.(ledger := map[row := db.ledger[row].(confirmed := true)]))
  }

  lemma ConfirmStepMeets(row: int, db: Db, l: Local)
    requires l.phase.At? && ConfirmShape(row, db, l)
    ensures ConfirmShape(row, db, ConfirmStep(row, db, l, l.phase.pc))
  {
    var next := ConfirmStep(row, db, l, l.phase.pc);
    if next.phase.Ready? {
      assert Publish(db, next.w) == ConfirmTopup(db, row).value;
    }
  }

  // ---------------------------------------------------------------- every transaction

  ghost predicate Shape(call: Call, db: Db, l: Local) {
    match call
    case CPurchase(cart) => PurchaseShape(cart, db, l)
    case CReceipt(order, _, reseller, isTest, amount, row) => ReceiptShape(order, reseller, isTest, amount, row, db, l)
    case CCredit(topup, reseller, customer, paid, amount, row) =>
      CreditShape(topup, reseller, customer, paid, amount, row, db, l)
    case CRefund(reseller, paid, order, row) => RefundShape(reseller, paid, order, row, db, l)
    case CConfirm(row) => ConfirmShape(row, db, l)
    case _ => true
  }

  lemma StepMeets(call: Call, db: Db, l: Local)
    requires call.Valid() && !call.Single() && l.phase.At? && Shape(call, db, l)
    ensures Shape(call, db, Step(call, db, l))
  {
    match call
    case CPurchase(cart) => PurchaseStepMeets(cart, db, l);
    case CReceipt(order, _, reseller, isTest, amount, row) =>
      ReceiptStepMeets(order, reseller, isTest, amount, row, db, l);
    case CCredit(topup, reseller, customer, paid, amount, row) =>
      CreditStepMeets(topup, reseller, customer, paid, amount, row, db, l);
    case CRefund(reseller, paid, order, row) => RefundStepMeets(reseller, paid, order, row, db, l);
    case CConfirm(row) => ConfirmStepMeets(row, db, l);
  }

  lemma {:induction false} ExecMeets(call: Call, db: Db, n: nat)
    requires call.Valid() && !call.Single()
    ensures Shape(call, db, Exec(call, db, n))
  {
    if n > 0 {
      ExecMeets(call, db, n - 1);
      if Exec(call, db, n - 1).phase.At? {
        StepMeets(call, db, Exec(call, db, n - 1));
      }
    }
  }

  /** Run alone, a transaction commits exactly what Spec says, and dies only where Spec refuses. */
  lemma SoloMeetsSpec(call: Call, db: Db, n: nat)
    requires call.Valid() && !call.Single()
    ensures Exec(call, db, n).phase.Ready? ==> Spec(db, call) == Some(Publish(db, Exec(call, db, n).w))
    ensures Exec(call, db, n).phase.Dead? ==> Spec(db, call).None?
  {
    ExecMeets(call, db, n);
  }
}
