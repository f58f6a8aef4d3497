/** The order lifecycle: creation, receipt submission, and the status changes of reseller and operator. */
module OrderService {
  import opened Money
  import opened Schema
  import opened Settlement
  import opened Sessions
  import opened WalletService
  import opened Blacklist
  import opened Totals
  import opened OrderCodes
  import opened Purchases
  import History
  import Machine
  import Serial
  import Bounds

  /** MAX_PENDING_ORDERS_PER_CUSTOMER, unless the environment overrides it. */
  const MAX_PENDING := 3

  datatype Result<+T> = Success(value: T) | Failure(error: OrderError)

  /** `Failed` is any other error: it reaches the caller after the rollback.  `InsufficientCredit` is
      raised after the commit. */
  datatype OrderError =
    | CustomerBlacklisted
    | NoSuchPackage
    | InsufficientBalance
    | NoSuchOrder
    | TooManyPending(pending: nat)
    | InsufficientCredit
    | Failed

  // ---------------------------------------------------------------- creation

  /** Refused for a blacklisted customer; otherwise the order starts in awaiting_payment at the
      package's price. */
  method CreateOrder(s: Session, reseller: int, package: int, customer: int, stamp: Stamp) returns (r: Result<string>)
    requires !s.open
    modifies s
    ensures !s.open
    ensures r.Failure? ==> s.committed == old(s.committed)
    ensures var db := old(s.committed);
            r == Failure(CustomerBlacklisted) <==>
              && customer in db.customers
              && exists i :: 0 <= i < |db.blacklist| && db.blacklist[i].user == db.customers[customer].user
                   && (db.blacklist[i].isGlobal || db.blacklist[i].reporter == Some(reseller))
    ensures r == Failure(NoSuchPackage) <==> r != Failure(CustomerBlacklisted) && package !in old(s.committed).packages
    ensures var db := old(s.committed);
            r.Success? <==>
              && r != Failure(CustomerBlacklisted)
              && reseller in db.resellers && package in db.packages && customer in db.customers
              && PackageCode(db.resellers[reseller].prefix, stamp) !in db.orders
    ensures var db := old(s.committed);
            r.Success? ==>
              var order := PackageCode(db.resellers[reseller].prefix, stamp);
              && r.value == order
              && s.committed == db.(orders := db.orders[order := Order(
                   reseller, package, customer, AwaitingPayment, false, db.packages[package].price,
                   0, false, false, None, false)])
    ensures r.Success? ==>
              && reseller in old(s.committed).resellers && package in old(s.committed).packages
              && var price := old(s.committed).packages[package].price;
                 Spec(old(s.committed), CCreateOrder(r.value, reseller, package, customer, price)) == Some(s.committed)
    ensures r == Failure(Failed) && reseller in old(s.committed).resellers && package in old(s.committed).packages ==>
              var order := PackageCode(old(s.committed).resellers[reseller].prefix, stamp);
              var price := old(s.committed).packages[package].price;
              Spec(old(s.committed), CCreateOrder(order, reseller, package, customer, price)).None?
  {
    if Refuses(s.committed, customer, reseller) {
      return Failure(CustomerBlacklisted);
    }
    if package !in s.committed.packages {
      return Failure(NoSuchPackage);
    }
    if reseller !in s.committed.resellers {
      return Failure(Failed);
    }
    var order := PackageCode(s.committed.resellers[reseller].prefix, stamp);
    if order in s.committed.orders || customer !in s.committed.customers {
      return Failure(Failed);
    }
    s.Execute(s.committed.(orders := s.committed.orders[order := Order(
      reseller, package, customer, AwaitingPayment, false, s.committed.packages[package].price,
      0, false, false, None, false)]));
    return Success(order);
  }

  function WalletCart(db: Db, reseller: int, package: int, customer: int, stamp: Stamp): (cart: Cart)
    requires reseller in db.resellers && package in db.packages
  {
    Cart(ByHand, reseller, package, customer, db.packages[package].price,
         [PackageCode(db.resellers[reseller].prefix, stamp)])
  }

  /** A package paid from the wallet.  The balance is checked twice, before the transaction and on the
      locked row. */
  method CreateOrderPaidByWallet(s: Session, reseller: int, package: int, customer: int, stamp: Stamp)
    returns (r: Result<string>)
    requires !s.open
    modifies s
    ensures !s.open
    ensures r.Failure? ==> s.committed == old(s.committed)
    ensures r.Success? ==>
              && reseller in old(s.committed).resellers && package in old(s.committed).packages
              && var cart := WalletCart(old(s.committed), reseller, package, customer, stamp);
                 Buy(old(s.committed), cart) == Some(s.committed)
    ensures var db := old(s.committed);
            r == Failure(CustomerBlacklisted) <==>
              && customer in db.customers
              && exists i :: 0 <= i < |db.blacklist| && db.blacklist[i].user == db.customers[customer].user
                   && (db.blacklist[i].isGlobal || db.blacklist[i].reporter == Some(reseller))
    ensures r == Failure(NoSuchPackage) <==> r != Failure(CustomerBlacklisted) && package !in old(s.committed).packages
    ensures var db := old(s.committed);
            r == Failure(InsufficientBalance) <==>
              && r != Failure(CustomerBlacklisted) && package in db.packages && customer in db.customers
              && db.customers[customer].balance < db.packages[package].price
    ensures var db := old(s.committed);
            r.Success? <==>
              && r != Failure(CustomerBlacklisted)
              && reseller in db.resellers && package in db.packages && customer in db.customers
              && db.customers[customer].balance >= db.packages[package].price
              && PackageCode(db.resellers[reseller].prefix, stamp) !in db.orders
    ensures var db := old(s.committed);
            r.Success? ==>
              var order := PackageCode(db.resellers[reseller].prefix, stamp);
              var price, buyer := db.packages[package].price, db.customers[customer];
              && r.value == order
              && s.committed == db.(
                   customers := db.customers[customer := buyer.(balance := buyer.balance - price)],
                   orders := db.orders[order := Order(
                     reseller, package, customer, Confirmed, false, price, 0, false, true, None, false)])
  {
    if Refuses(s.committed, customer, reseller) {
      return Failure(CustomerBlacklisted);
    }
    if package !in s.committed.packages {
      return Failure(NoSuchPackage);
    }
    if customer !in s.committed.customers {
      return Failure(Failed);
    }
    var price := s.committed.packages[package].price;
    if s.committed.customers[customer].balance < price {
      return Failure(InsufficientBalance);
    }
    if reseller !in s.committed.resellers {
      return Failure(Failed);
    }
    r := PayFromWallet(s, WalletCart(s.committed, reseller, package, customer, stamp));
  }

  /** The transaction, on whatever was committed since the price was read. */
  method PayFromWallet(s: Session, cart: Cart) returns (r: Result<string>)
    requires !s.open && cart.kind.ByHand? && |cart.codes| == 1
    modifies s
    ensures !s.open
    ensures r.Failure? ==> s.committed == old(s.committed)
    ensures r.Failure? ==> r.error.InsufficientBalance? || r.error.Failed?
    ensures r.Success? ==> Buy(old(s.committed), cart) == Some(s.committed)
    ensures var db := old(s.committed);
            r == Failure(InsufficientBalance) <==>
              cart.customer in db.customers && db.customers[cart.customer].balance < cart.price
    ensures var db := old(s.committed);
            r.Success? <==>
              && cart.customer in db.customers && db.customers[cart.customer].balance >= cart.price
              && cart.package in db.packages && cart.codes[0] !in db.orders
    ensures var db := old(s.committed);
            r.Success? ==>
              var buyer := db.customers[cart.customer];
              && r.value == cart.codes[0]
              && s.committed == db.(
                   customers := db.customers[cart.customer := buyer.(balance := buyer.balance - cart.price)],
                   orders := db.orders[cart.codes[0] := Order(
                     cart.reseller, cart.package, cart.customer, Confirmed, false, cart.price,
                     0, false, true, None, false)])
  {
    var order := cart.codes[0];
    s.Begin();
    if cart.customer !in s.work.customers {
      s.Rollback();
      return Failure(Failed);
    }
    if s.work.customers[cart.customer].balance < cart.price {
      s.Rollback();
      return Failure(InsufficientBalance);
    }
    s.work := Debit(s.work, cart.customer, cart.price);
    if order in s.work.orders || cart.package !in s.work.packages {
      s.Rollback();
      return Failure(Failed);
    }
    s.work := s.work.(orders := s.work.orders[order := Order(
      cart.reseller, cart.package, cart.customer, Confirmed, false, cart.price, 0, false, true, None, false)]);
    ByHandBought(s.committed, cart, s.work);
    s.Commit();
    return Success(order);
  }

  /** The transaction of a package paid from the wallet is the cart's. */
  lemma ByHandBought(db: Db, cart: Cart, after: Db)
    requires cart.kind.ByHand? && |cart.codes| == 1 && cart.codes[0] !in db.orders
    requires cart.package in db.packages && cart.customer in db.customers
    requires db.customers[cart.customer].balance >= cart.price
    requires var buyer := db.customers[cart.customer];
             after == db.(
               customers := db.customers[cart.customer := buyer.(balance := buyer.balance - cart.price)],
               orders := db.orders[cart.codes[0] := Order(
                 cart.reseller, cart.package, cart.customer, Confirmed, false, cart.price, 0, false, true,
                 None, false)])
    ensures Buy(db, cart) == Some(after)
  {
    OneUnit(cart);
    assert Admitted(db.orders, cart.codes, 0) && Among(cart.codes, 0) == {};
    DeliverOne(Debit(db, cart.customer, cart.price), cart, []);
  }

  lemma OneUnit(cart: Cart)
    ensures cart.Cost(1) == cart.price
  {
    assert cart.Cost(1) == cart.Cost(0) + cart.price;
  }

  // ---------------------------------------------------------------- receipts

  function InReviewOf(orders: Orders, customer: int): (pending: set<string>) {
    set o | o in orders && orders[o].customer == customer && orders[o].status == InReview
  }

  /** count_pending_orders. */
  function CountPending(db: Db, customer: int): (count: nat) {
    |InReviewOf(db.orders, customer)|
  }

  /** What the limit in `Bounds` counts is what the service counts. */
  lemma CountIsReviewing(db: Db, customer: int)
    ensures CountPending(db, customer) == Bounds.Reviewing(db, customer)
  {
    CountIsTotal(db.orders, customer);
  }

  lemma {:induction false} CountIsTotal(orders: Orders, customer: int)
    ensures |InReviewOf(orders, customer)| == Total(orders, Bounds.ReviewOf(customer))
    decreases orders.Keys
  {
    if orders.Keys == {} {
      assert InReviewOf(orders, customer) == {};
    } else {
      var k :| k in orders.Keys;
      CountIsTotal(orders - {k}, customer);
      TotalWithout(orders, Bounds.ReviewOf(customer), k);
      OneOrderLess(orders, customer, k);
    }
  }

  lemma OneOrderLess(orders: Orders, customer: int, k: string)
    requires k in orders
    ensures |InReviewOf(orders, customer)|
            == |InReviewOf(orders - {k}, customer)| + Bounds.ReviewOf(customer)(orders[k])
  {
    assert InReviewOf(orders - {k}, customer) == InReviewOf(orders, customer) - {k};
  }

  /** The limit on orders in review, counted as the service counts: with at most k submissions past the check
      at any time it is overrun by at most k - 1, in any interleaving. */
  lemma PendingLimit(start: Db, events: seq<Machine.Event>, s: Machine.State, k: nat, customer: int)
    requires History.Numbered(start) && Machine.Run(Serial.Start(start), events, s) && k >= 1
    requires Bounds.CheckedRun(MAX_PENDING, Serial.Start(start), events)
    requires Bounds.AtMostInFlight(k, customer, Serial.Start(start), events)
    requires |set o | o in start.orders && start.orders[o].customer == customer
                      && start.orders[o].status == InReview| <= MAX_PENDING
    ensures |set o | o in s.db.orders && s.db.orders[o].customer == customer
                     && s.db.orders[o].status == InReview| <= MAX_PENDING + k - 1
  {
    CountIsReviewing(start, customer);
    CountIsReviewing(s.db, customer);
    Bounds.ReviewLimit(start, events, s, MAX_PENDING, k, customer);
  }

  /** The reseller is in test mode and below its limit. */
  predicate InTestMode(reseller: Reseller) {
    reseller.testEnabled && reseller.testUsed < reseller.testLimit
  }

  /** What submit_receipt computes from what it reads before its transaction. */
  function ReceiptCall(db: Db, order: string, row: int): (call: Call)
    requires order in db.orders && db.orders[order].reseller in db.resellers
  {
    var o := db.orders[order];
    var reseller := db.resellers[o.reseller];
    var isTest := InTestMode(reseller);
    CReceipt(order, o.customer, o.reseller, isTest, if isTest then 0 else Commission(o.price, reseller.percent), row)
  }

  /** The call carries the order's own columns and passed the checks that the limits are about; with a price
      and a percent that are not negative it is one the theorems over runs are about. */
  lemma ReceiptMatches(db: Db, order: string, row: int, t: nat)
    requires order in db.orders && db.orders[order].reseller in db.resellers
    ensures Matches(db, ReceiptCall(db, order, row))
    ensures CountPending(db, db.orders[order].customer) < MAX_PENDING ==>
              Bounds.Checked(MAX_PENDING, db, Machine.Begin(t, ReceiptCall(db, order, row)))
    ensures db.orders[order].price >= 0 && db.resellers[db.orders[order].reseller].percent >= 0 ==>
              ReceiptCall(db, order, row).Valid()
  {
    CountIsReviewing(db, db.orders[order].customer);
  }

  /** A receipt: no deduction for a test order, otherwise status and deduction in one transaction.  The first
      clauses relate the call to the specification of the interleaved runs, the others say what it leaves. */
  method SubmitReceipt(s: Session, order: string, row: int) returns (r: Result<()>)
    requires !s.open
    modifies s
    ensures !s.open
    ensures r.Success? || r.error.InsufficientCredit? ==>
              && order in old(s.committed).orders
              && old(s.committed).orders[order].reseller in old(s.committed).resellers
              && Spec(old(s.committed), ReceiptCall(old(s.committed), order, row)) == Some(s.committed)
    ensures r.Failure? && !r.error.InsufficientCredit? ==> s.committed == old(s.committed)
    ensures r == Failure(NoSuchOrder) <==> order !in old(s.committed).orders
    ensures r == Failure(Failed) && old(s.committed).orders[order].reseller in old(s.committed).resellers ==>
              Spec(old(s.committed), ReceiptCall(old(s.committed), order, row)).None?
    ensures var db := old(s.committed);
            (r.Failure? && r.error.TooManyPending?) <==>
              && order in db.orders
              && |set o | o in db.orders && db.orders[o].customer == db.orders[order].customer
                          && db.orders[o].status == InReview| >= MAX_PENDING
    ensures var db := old(s.committed);
            order in db.orders && !(r.Failure? && r.error.TooManyPending?)
            && db.orders[order].reseller in db.resellers ==>
              var o := db.orders[order];
              var reseller := db.resellers[o.reseller];
              var commission := o.price * reseller.percent;
              var left := CENT * reseller.balance - commission;
              if reseller.testEnabled && reseller.testUsed < reseller.testLimit then
                && r.Success?
                && s.committed == db.(
                     orders := db.orders[order := o.(status := InReview, commission := 0, isTest := true)])
              else if left < -(CENT * reseller.limit) then
                && r == Failure(InsufficientCredit)
                && s.committed == db.(orders := db.orders[order := o.(
                     status := FailedCredit, commission := RoundHalfAway(commission), isTest := false)])
              else if row in db.ledger then r == Failure(Failed)
              else
                && r.Success?
                && s.committed == db.(
                     orders := db.orders[order := o.(
                       status := InReview, commission := RoundHalfAway(commission), isTest := false)],
                     resellers := db.resellers[o.reseller := reseller.(balance := RoundHalfAway(left))],
                     ledger := db.ledger[row := LedgerRow(
                       o.reseller, DeductionRow, RoundHalfAway(-commission), true, ForOrder(order))])
  {
    if order !in s.committed.orders {
      return Failure(NoSuchOrder);
    }
    var o := s.committed.orders[order];
    var pending := CountPending(s.committed, o.customer);
    if pending >= MAX_PENDING {
      return Failure(TooManyPending(pending));
    }
    if o.reseller !in s.committed.resellers {
      return Failure(Failed);
    }
    var reseller := s.committed.resellers[o.reseller];
    var isTest := InTestMode(reseller);
    var commission := 0;
    if !isTest {
      commission := Commission(o.price, reseller.percent);
    }
    var insufficientCredit := false;
    s.Begin();
    if !isTest {
      var outcome := DeductCommissionInTx(s, o.reseller, commission, ForOrder(order), row);
      if outcome.Raised? {
        s.Rollback();
        return Failure(Failed);
      }
      if outcome.OverLimit? {
        insufficientCredit := true;
        s.work := s.work.(orders := MarkReceipt(s.work.orders, order, FailedCredit, RoundHalfAway(commission), isTest));
      } else {
        s.work := s.work.(orders := MarkReceipt(s.work.orders, order, InReview, RoundHalfAway(commission), isTest));
      }
    } else {
      s.work := s.work.(orders := MarkReceipt(s.work.orders, order, InReview, RoundHalfAway(commission), isTest));
    }
    s.Commit();
    if insufficientCredit {
      return Failure(InsufficientCredit);
    }
    return Success(());
  }

  // ---------------------------------------------------------------- status changes

  /** confirm_order, reject_order: an UPDATE that does not look at the current status. */
  method WriteStatus(s: Session, order: string, status: Status)
    requires !s.open
    modifies s
    ensures !s.open && Spec(old(s.committed), CSetStatus(order, status)) == Some(s.committed)
    ensures var db := old(s.committed);
            s.committed ==
              if order !in db.orders then db
              else db.(orders := db.orders[order := db.orders[order].(status := status)])
  {
    if order in s.committed.orders {
      s.Execute(s.committed.(orders := s.committed.orders[order := s.committed.orders[order].(status := status)]));
    }
  }

  method ConfirmOrder(s: Session, order: string)
    requires !s.open
    modifies s
    ensures !s.open && Spec(old(s.committed), CSetStatus(order, Confirmed)) == Some(s.committed)
    ensures var db := old(s.committed);
            s.committed ==
              if order !in db.orders then db
              else db.(orders := db.orders[order := db.orders[order].(status := Confirmed)])
  {
    WriteStatus(s, order, Confirmed);
  }

  method RejectOrder(s: Session, order: string)
    requires !s.open
    modifies s
    ensures !s.open && Spec(old(s.committed), CSetStatus(order, Rejected)) == Some(s.committed)
    ensures var db := old(s.committed);
            s.committed ==
              if order !in db.orders then db
              else db.(orders := db.orders[order := db.orders[order].(status := Rejected)])
  {
    WriteStatus(s, order, Rejected);
  }

  /** Deciding on a receipt frees one of the customer's places in review, and nobody else's, and moves no
      money: the commission deducted at the receipt stays deducted after a rejection. */
  lemma DecisionFreesPlace(db: Db, order: string, status: Status, customer: int)
    requires order in db.orders && status in {Confirmed, Rejected}
    ensures var d := Spec(db, CSetStatus(order, status)).value;
            && CountPending(d, customer) == CountPending(db, customer)
                 - (if db.orders[order].customer == customer && db.orders[order].status == InReview then 1 else 0)
            && d.resellers == db.resellers && d.ledger == db.ledger && d.customers == db.customers
  {
    PlaceFreed(db.orders, order, status, customer);
  }

  lemma PlaceFreed(orders: Orders, order: string, status: Status, customer: int)
    requires order in orders && status != InReview
    ensures |InReviewOf(SetStatus(orders, order, status), customer)| == |InReviewOf(orders, customer)|
              - (if orders[order].customer == customer && orders[order].status == InReview then 1 else 0)
  {
    assert InReviewOf(SetStatus(orders, order, status), customer) == InReviewOf(orders, customer) - {order};
  }

  /** The status, and then the test counter in a statement of its own. */
  method ActivateOrder(s: Session, order: string) returns (ok: bool)
    requires !s.open
    modifies s
    ensures !s.open && ok == Spec(old(s.committed), CActivate(order)).Some?
    ensures Some(s.committed) == if ok then Spec(old(s.committed), CActivate(order)) else Some(old(s.committed))
    ensures ok <==> order in old(s.committed).orders
    ensures var db := old(s.committed);
            ok ==>
              var o := db.orders[order];
              && s.committed == db.(
                   orders := db.orders[order := o.(status := Activated, activated := true)],
                   resellers := s.committed.resellers)
              && if !o.isTest || o.reseller !in db.resellers then s.committed.resellers == db.resellers
                 else
                   var r := db.resellers[o.reseller];
                   s.committed.resellers == db.resellers[o.reseller := r.(
                     testUsed := r.testUsed + 1, testEnabled := r.testEnabled && r.testUsed + 2 < r.testLimit)]
  {
    if order !in s.committed.orders {
      return false;
    }
    var reseller := s.committed.orders[order].reseller;
    s.Execute(s.committed.(
      orders := s.committed.orders[order := s.committed.orders[order].(status := Activated, activated := true)]));
    IncrementTestCounterIfNeeded(s, reseller, order);
    return true;
  }

  /** The assignments run left to right: the CASE reads the counter already incremented.  The caller
      passes the order's own reseller. */
  method IncrementTestCounterIfNeeded(s: Session, reseller: int, order: string)
    requires !s.open
    requires order in s.committed.orders ==> s.committed.orders[order].reseller == reseller
    modifies s
    ensures !s.open
    ensures s.committed ==
            if order in old(s.committed).orders
            then old(s.committed).(resellers := CountTest(old(s.committed).resellers, old(s.committed).orders[order]))
            else old(s.committed)
  {
    if order in s.committed.orders && s.committed.orders[order].isTest && reseller in s.committed.resellers {
      var row := s.committed.resellers[reseller];
      row := row.(testUsed := row.testUsed + 1);
      row := row.(testEnabled := if row.testUsed + 1 >= row.testLimit then false else row.testEnabled);
      s.Execute(s.committed.(resellers := s.committed.resellers[reseller := row]));
    }
  }
}
