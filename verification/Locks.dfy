/** Row locks isolate: what a transaction has read and written so far does not depend on what the
    others commit meanwhile. */
module Locks {
  import opened Money
  import opened Schema
  import opened Stock
  import opened Settlement
  import opened Purchases
  import opened History
  import opened Machine

  // ---------------------------------------------------------------- a transaction does not notice the others

  predicate SameRow(db: Db, d: Db, row: Row) {
    match row
    case CustomerRow(c) => Get(db.customers, c) == Get(d.customers, c)
    case CodeRow(id) => Get(db.codes, id) == Get(d.codes, id)
    case OrderRow(o) => Get(db.orders, o) == Get(d.orders, o)
    case ResellerRow(r) => Get(db.resellers, r) == Get(d.resellers, r)
    case EntryRow(e) => Get(db.ledger, e) == Get(d.ledger, e)
    case TopupKey(t) => Get(db.topups, t) == Get(d.topups, t)
  }

  /** Between `db` and `d` others committed: not the rows in `held`, not the packages in `shared`, and
      nothing came back on the shelf below the old counter. */
  ghost predicate Undisturbed(db: Db, d: Db, held: set<Row>, shared: set<int>) {
    && (forall row :: row in held ==> SameRow(db, d, row))
    && (forall p :: p in shared && p in db.packages ==> p in d.packages)
    && db.nextCode <= d.nextCode
    && (forall p, id :: id < db.nextCode && Open(d.codes, p, id) ==> Open(db.codes, p, id))
  }

  lemma PurchaseStepFrame(cart: Cart, db: Db, d: Db, l: Local, pc: nat)
    requires var next := PurchaseStep(cart, db, l, pc);
             !next.phase.Dead? && Undisturbed(db, d, next.held, next.shared)
    requires pc > 0 ==> CustomerRow(cart.customer) in l.held
    requires pc >= 3 && cart.kind.Instant? ==> forall id :: id in l.ids ==> CodeRow(id) in l.held
    ensures PurchaseStep(cart, d, l, pc) == PurchaseStep(cart, db, l, pc)
  {
    var next := PurchaseStep(cart, db, l, pc);
    assert CustomerRow(cart.customer) in next.held;
    assert SameRow(db, d, CustomerRow(cart.customer));
    if pc == 1 {
      var q := |cart.codes|;
      var ids := Lowest(db.codes, cart.package, q, 0, db.nextCode);
      forall id | id in ids
        ensures Get(d.codes, id) == Get(db.codes, id)
      {
        assert CodeRow(id) in next.held;
        assert SameRow(db, d, CodeRow(id));
      }
      LowestFrame(db.codes, d.codes, cart.package, q, 0, db.nextCode, d.nextCode);
    } else if 3 <= pc && pc - 3 < |cart.codes| {
      var i := pc - 3;
      assert SameRow(db, d, OrderRow(cart.codes[i]));
      assert cart.package in next.shared;
      if cart.kind.Instant? {
        assert SameRow(db, d, CodeRow(l.ids[i]));
      }
    }
  }

  lemma DeductStepFrame(db: Db, d: Db, l: Local, first: bool, pc: nat, done: nat,
                        reseller: int, amount: int, reference: Reference, row: int)
    requires var next := DeductStep(db, l, first, pc, done, reseller, amount, reference, row);
             !next.phase.Dead? && Undisturbed(db, d, next.held, next.shared)
    ensures DeductStep(d, l, first, pc, done, reseller, amount, reference, row)
            == DeductStep(db, l, first, pc, done, reseller, amount, reference, row)
  {
    if first {
      assert SameRow(db, d, ResellerRow(reseller));
    } else {
      assert SameRow(db, d, EntryRow(row));
    }
  }

  lemma ReceiptStepFrame(order: string, reseller: int, isTest: bool, amount: int, row: int, db: Db, d: Db, l: Local,
                         pc: nat)
    requires var next := ReceiptStep(order, reseller, isTest, amount, row, db, l, pc);
             !next.phase.Dead? && Undisturbed(db, d, next.held, next.shared)
    ensures ReceiptStep(order, reseller, isTest, amount, row, d, l, pc)
            == ReceiptStep(order, reseller, isTest, amount, row, db, l, pc)
  {
    if pc <= 1 && (pc == 1 || !isTest) {
      DeductStepFrame(db, d, l, pc == 0, 0, 2, reseller, amount, ForOrder(order), row);
    } else if pc == 2 {
      assert SameRow(db, d, OrderRow(order));
    }
  }

  lemma CreditStepFrame(topup: int, reseller: int, customer: int, paid: int, amount: int, row: int,
                        db: Db, d: Db, l: Local, pc: nat)
    requires var next := CreditStep(topup, reseller, customer, paid, amount, row, db, l, pc);
             !next.phase.Dead? && Undisturbed(db, d, next.held, next.shared)
    ensures CreditStep(topup, reseller, customer, paid, amount, row, d, l, pc)
            == CreditStep(topup, reseller, customer, paid, amount, row, db, l, pc)
  {
    if pc == 0 {
      assert SameRow(db, d, CustomerRow(customer));
    } else if pc <= 2 {
      DeductStepFrame(db, d, l, pc == 1, 1, 3, reseller, amount, ForTopup(topup), row);
    } else if pc == 3 {
      assert SameRow(db, d, TopupKey(topup));
    }
  }

  lemma RefundStepFrame(reseller: int, paid: int, order: string, row: int, db: Db, d: Db, l: Local, pc: nat)
    requires var next := RefundStep(reseller, paid, order, row, db, l, pc);
             !next.phase.Dead? && Undisturbed(db, d, next.held, next.shared)
    ensures RefundStep(reseller, paid, order, row, d, l, pc) == RefundStep(reseller, paid, order, row, db, l, pc)
  {
    assert SameRow(db, d, if pc == 0 then ResellerRow(reseller) else EntryRow(row));
  }

  lemma ConfirmStepFrame(row: int, db: Db, d: Db, l: Local, pc: nat)
    requires pc > 0 ==> EntryRow(row) in l.held
    requires var next := ConfirmStep(row, db, l, pc);
             !next.phase.Dead? && Undisturbed(db, d, next.held, next.shared)
    ensures ConfirmStep(row, d, l, pc) == ConfirmStep(row, db, l, pc)
  {
    assert SameRow(db, d, EntryRow(row));
    if pc == 1 {
      assert SameRow(db, d, ResellerRow(db.ledger[row].reseller));
    }
  }

  /** What a transaction reads it holds, so a statement gives the same result after others commit. */
  lemma StepFrame(call: Call, db: Db, d: Db, l: Local)
    requires Holding(call, l)
    requires var next := Step(call, db, l); !next.phase.Dead? && Undisturbed(db, d, next.held, next.shared)
    ensures Step(call, d, l) == Step(call, db, l)
  {
    if l.phase.At? {
      match call
      case CPurchase(cart) => PurchaseStepFrame(cart, db, d, l, l.phase.pc);
      case CReceipt(order, _, reseller, isTest, amount, row) =>
        ReceiptStepFrame(order, reseller, isTest, amount, row, db, d, l, l.phase.pc);
      case CCredit(topup, reseller, customer, paid, amount, row) =>
        CreditStepFrame(topup, reseller, customer, paid, amount, row, db, d, l, l.phase.pc);
      case CRefund(reseller, paid, order, row) => RefundStepFrame(reseller, paid, order, row, db, d, l, l.phase.pc);
      case CConfirm(row) => ConfirmStepFrame(row, db, d, l, l.phase.pc);
    }
  }

  /** The locks the next statement relies on. */
  ghost predicate Holding(call: Call, l: Local) {
    l.phase.At? ==>
      match call
      case CPurchase(cart) =>
        && (l.phase.pc > 0 ==> CustomerRow(cart.customer) in l.held)
        && (l.phase.pc >= 2 && cart.kind.Instant? ==> forall id :: id in l.ids ==> CodeRow(id) in l.held)
      case CConfirm(row) => l.phase.pc > 0 ==> EntryRow(row) in l.held
      case _ => true
  }

  /** A transaction's writes are rows it holds, and it puts no code back on the shelf. */
  ghost predicate Within(l: Local) {
    && (forall c :: c in l.w.customers ==> CustomerRow(c) in l.held)
    && (forall id :: id in l.w.codes ==> CodeRow(id) in l.held && l.w.codes[id].sold)
    && (forall o :: o in l.w.orders ==> OrderRow(o) in l.held)
    && (forall r :: r in l.w.resellers ==> ResellerRow(r) in l.held)
    && (forall e :: e in l.w.ledger ==> EntryRow(e) in l.held)
    && (forall t :: t in l.w.topups ==> TopupKey(t) in l.held)
  }

  lemma PurchaseKeepsLocks(cart: Cart, db: Db, l: Local)
    requires l.phase.At? && Holding(CPurchase(cart), l) && Within(l)
    requires !PurchaseStep(cart, db, l, l.phase.pc).phase.Dead?
    ensures var next := PurchaseStep(cart, db, l, l.phase.pc);
            Holding(CPurchase(cart), next) && Within(next) && l.held <= next.held && l.shared <= next.shared
  {
  }

  lemma DeductKeepsLocks(db: Db, l: Local, first: bool, pc: nat, done: nat,
                         reseller: int, amount: int, reference: Reference, row: int)
    requires Within(l)
    requires !DeductStep(db, l, first, pc, done, reseller, amount, reference, row).phase.Dead?
    ensures var next := DeductStep(db, l, first, pc, done, reseller, amount, reference, row);
            Within(next) && l.held <= next.held && l.shared <= next.shared
  {
  }

  lemma ReceiptKeepsLocks(order: string, reseller: int, isTest: bool, amount: int, row: int, db: Db, l: Local, pc: nat)
    requires Within(l) && !ReceiptStep(order, reseller, isTest, amount, row, db, l, pc).phase.Dead?
    ensures var next := ReceiptStep(order, reseller, isTest, amount, row, db, l, pc);
            Within(next) && l.held <= next.held && l.shared <= next.shared
  {
    if pc <= 1 && (pc == 1 || !isTest) {
      DeductKeepsLocks(db, l, pc == 0, 0, 2, reseller, amount, ForOrder(order), row);
    }
  }

  lemma CreditKeepsLocks(topup: int, reseller: int, customer: int, paid: int, amount: int, row: int,
                         db: Db, l: Local, pc: nat)
    requires Within(l) && !CreditStep(topup, reseller, customer, paid, amount, row, db, l, pc).phase.Dead?
    ensures var next := CreditStep(topup, reseller, customer, paid, amount, row, db, l, pc);
            Within(next) && l.held <= next.held && l.shared <= next.shared
  {
    if 1 <= pc <= 2 {
      DeductKeepsLocks(db, l, pc == 1, 1, 3, reseller, amount, ForTopup(topup), row);
    }
  }

  lemma RefundKeepsLocks(call: Call, db: Db, l: Local)
    requires call.CRefund? && l.phase.At? && Within(l) && !Step(call, db, l).phase.Dead?
    ensures Within(Step(call, db, l))
    ensures l.held <= Step(call, db, l).held && l.shared <= Step(call, db, l).shared
  {
  }

  lemma ConfirmKeepsLocks(call: Call, db: Db, l: Local)
    requires call.CConfirm? && l.phase.At? && Holding(call, l) && Within(l) && !Step(call, db, l).phase.Dead?
    ensures Holding(call, Step(call, db, l)) && Within(Step(call, db, l))
    ensures l.held <= Step(call, db, l).held && l.shared <= Step(call, db, l).shared
  {
  }

  lemma StepKeepsLocks(call: Call, db: Db, l: Local)
    requires Holding(call, l) && Within(l) && !Step(call, db, l).phase.Dead?
    ensures Holding(call, Step(call, db, l)) && Within(Step(call, db, l))
    ensures l.held <= Step(call, db, l).held && l.shared <= Step(call, db, l).shared
  {
    if l.phase.At? {
      match call
      case CPurchase(cart) => PurchaseKeepsLocks(cart, db, l);
      case CReceipt(order, _, reseller, isTest, amount, row) =>
        ReceiptKeepsLocks(order, reseller, isTest, amount, row, db, l, l.phase.pc);
      case CCredit(topup, reseller, customer, paid, amount, row) =>
        CreditKeepsLocks(topup, reseller, customer, paid, amount, row, db, l, l.phase.pc);
      case CRefund(_, _, _, _) => RefundKeepsLocks(call, db, l);
      case CConfirm(_) => ConfirmKeepsLocks(call, db, l);
    }
  }

  lemma {:induction false} ExecKeepsLocks(call: Call, db: Db, n: nat)
    requires !Exec(call, db, n).phase.Dead?
    ensures Holding(call, Exec(call, db, n)) && Within(Exec(call, db, n))
    ensures n > 0 ==> !Exec(call, db, n - 1).phase.Dead?
                      && Exec(call, db, n - 1).held <= Exec(call, db, n).held
                      && Exec(call, db, n - 1).shared <= Exec(call, db, n).shared
  {
    if n > 0 {
      ExecKeepsLocks(call, db, n - 1);
      StepKeepsLocks(call, db, Exec(call, db, n - 1));
    }
  }

  /** Everything a transaction has done so far it would do again after others commit. */
  lemma {:induction false} ExecFrame(call: Call, db: Db, d: Db, n: nat)
    requires !Exec(call, db, n).phase.Dead?
    requires Undisturbed(db, d, Exec(call, db, n).held, Exec(call, db, n).shared)
    ensures Exec(call, d, n) == Exec(call, db, n)
  {
    if n > 0 {
      ExecKeepsLocks(call, db, n);
      ExecFrame(call, db, d, n - 1);
      ExecKeepsLocks(call, db, n - 1);
      StepFrame(call, db, d, Exec(call, db, n - 1));
    }
  }
}
