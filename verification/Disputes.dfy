/** Disputes over fake receipts, and the blacklist they lead to.  The functions say what one completed
    call of the dispute and blacklist services leaves; calls run one after another. */
module Disputes {
  import opened Schema
  import opened Stock
  import opened Settlement
  import opened Purchases
  import opened History
  import opened Blacklist

  const AUTO_BLACKLIST_THRESHOLD := 3

  // ---------------------------------------------------------------- what the calls do

  /** The dispute is about an order of this Telegram user. */
  predicate Against(db: Db, dispute: Dispute, user: int) {
    dispute.order in db.orders && db.orders[dispute.order].customer in db.customers
    && db.customers[db.orders[dispute.order].customer].user == user
  }

  /** The approved disputes over the user's orders, at whichever reseller. */
  function FakeReceipts(db: Db, user: int): (disputes: set<int>) {
    set id | id in db.disputes && db.disputes[id].review == Approved && Against(db, db.disputes[id], user)
  }

  /** Approved, about an order there is, of a customer there is, who is this Telegram user. */
  lemma FakesAreRows(db: Db, user: int)
    ensures FakeReceipts(db, user) ==
              set i | i in db.disputes && db.disputes[i].review == Approved && db.disputes[i].order in db.orders
                      && db.orders[db.disputes[i].order].customer in db.customers
                      && db.customers[db.orders[db.disputes[i].order].customer].user == user
  {
    var rows := set i | i in db.disputes && db.disputes[i].review == Approved && db.disputes[i].order in db.orders
                        && db.orders[db.disputes[i].order].customer in db.customers
                        && db.customers[db.orders[db.disputes[i].order].customer].user == user;
    assert forall id :: id in rows <==> id in FakeReceipts(db, user);
  }

  function AutoBlacklist(db: Db, user: int): (after: Db) {
    if |FakeReceipts(db, user)| >= AUTO_BLACKLIST_THRESHOLD && !IsBlacklisted(db, user, None)
    then db.(blacklist := db.blacklist + [Entry(user, None, true, true)])
    else db
  }

  function Reviewed(disputes: map<int, Dispute>, id: int, review: Review): (after: map<int, Dispute>) {
    if id in disputes then disputes[id := disputes[id].(review := review)] else disputes
  }

  /** The order's status is written first, by a statement of its own. */
  function Open(db: Db, id: int, order: string, reseller: int): (after: Db) {
    db.(orders := SetStatus(db.orders, order, RefundPending), disputes := Opened(db, id, order, reseller))
  }

  /** The dispute is inserted when its keys allow. */
  function Opened(db: Db, id: int, order: string, reseller: int): (after: map<int, Dispute>) {
    if id in db.disputes || order !in db.orders || reseller !in db.resellers then db.disputes
    else db.disputes[id := Dispute(order, reseller, ReviewPending)]
  }

  /** Refund the stored commission, mark the dispute and the order, and look at the customer's record.
      No status is checked: a dispute approved twice is refunded twice. */
  function Approve(db: Db, id: int, row: int): (after: Option<Db>) {
    if id !in db.disputes || db.disputes[id].order !in db.orders then None
    else
      var dispute := db.disputes[id];
      var order := db.orders[dispute.order];
      match Refund(db, dispute.reseller, order.commission, dispute.order, row)
      case None => None
      case Some(paid) =>
        var marked := paid.(disputes := Reviewed(db.disputes, id, Approved),
                            orders := SetStatus(db.orders, dispute.order, Refunded));
        if order.customer in db.customers then Some(AutoBlacklist(marked, db.customers[order.customer].user))
        else Some(marked)
  }

  // ---------------------------------------------------------------- sequential runs

  datatype Op =
    | OpenDispute(id: int, order: string, reseller: int)
    | ApproveDispute(id: int, row: int)
    | RejectDispute(id: int)
    | Report(user: int, reporter: Option<int>, isGlobal: bool)
    | Ordering(call: Call)      // the calls that create an order
    | Other(call: Call)         // every other call of the settlement code
  {
    predicate Valid() {
      match this
      case Ordering(call) => call.CPurchase? || call.CCreateOrder?
      case Other(call) => !call.CPurchase? && !call.CCreateOrder?
      case _ => true
    }
  }

  function Or<T>(after: Option<T>, before: T): (t: T) {
    match after case None => before case Some(t) => t
  }

  function Buyer(call: Call): (customer: int)
    requires call.CPurchase? || call.CCreateOrder?
  {
    if call.CPurchase? then call.cart.customer else call.customer
  }

  function Seller(call: Call): (reseller: int)
    requires call.CPurchase? || call.CCreateOrder?
  {
    if call.CPurchase? then call.cart.reseller else call.reseller
  }

  /** One call; a refused one changes nothing. */
  function Perform(db: Db, op: Op): (after: Db)
    requires op.Valid()
  {
    match op
    case OpenDispute(id, order, reseller) => Open(db, id, order, reseller)
    case ApproveDispute(id, row) => Or(Approve(db, id, row), db)
    case RejectDispute(id) => db.(disputes := Reviewed(db.disputes, id, Denied))
    case Report(user, reporter, isGlobal) => db.(blacklist := db.blacklist + [Entry(user, reporter, isGlobal, false)])
    case Ordering(call) => if Refuses(db, Buyer(call), Seller(call)) then db else Or(Spec(db, call), db)
    case Other(call) => Or(Spec(db, call), db)
  }

  function PerformAll(db: Db, ops: seq<Op>): (after: Db)
    requires forall i :: 0 <= i < |ops| ==> ops[i].Valid()
  {
    if ops == [] then db else Perform(PerformAll(db, ops[..|ops| - 1]), ops[|ops| - 1])
  }

  // ---------------------------------------------------------------- the invariant

  /** The foreign keys from disputes to orders to customers. */
  ghost predicate Linked(db: Db) {
    && (forall o :: o in db.orders ==> db.orders[o].customer in db.customers)
    && (forall id :: id in db.disputes ==> db.disputes[id].order in db.orders)
  }

  /** Everyone with enough approved disputes is on the global list. */
  ghost predicate Punished(db: Db) {
    forall user :: |FakeReceipts(db, user)| >= AUTO_BLACKLIST_THRESHOLD ==> ListedGlobally(db, user)
  }

  /** At most one automatic entry a user. */
  ghost predicate AutomaticOnce(db: Db) {
    && (forall i :: 0 <= i < |db.blacklist| && db.blacklist[i].automatic ==> db.blacklist[i].isGlobal)
    && (forall i, j :: 0 <= i < j < |db.blacklist| && db.blacklist[i].automatic && db.blacklist[j].automatic ==>
          db.blacklist[i].user != db.blacklist[j].user)
  }

  ghost predicate Inv(db: Db) {
    Linked(db) && Punished(db) && AutomaticOnce(db)
  }

  /** The settlement calls leave disputes and blacklist alone. */
  lemma SpecLeavesDisputes(db: Db, call: Call)
    requires Spec(db, call).Some?
    ensures Spec(db, call).value.disputes == db.disputes && Spec(db, call).value.blacklist == db.blacklist
  {
    match call
    case CPurchase(cart) => BuyShape(db, cart);
    case CReceipt(o, _, reseller, isTest, amount, row) => ReceiptTables(db, o, reseller, isTest, amount, row);
    case CCredit(topup, reseller, _, _, amount, row) =>
      if Deduct(db.resellers, db.ledger, reseller, amount, ForTopup(topup), row).Deducted? {}
    case CRefund(_, _, _, _) =>
    case CConfirm(_) =>
    case _ => StatementLeavesDisputes(db, call);
  }

  lemma StatementLeavesDisputes(db: Db, call: Call)
    requires call.Single() && Statement(db, call).Some?
    ensures Statement(db, call).value.disputes == db.disputes && Statement(db, call).value.blacklist == db.blacklist
  {
  }

  /** ... and put no order on the books whose customer is not there. */
  lemma SpecKeepsLinks(db: Db, call: Call)
    requires Linked(db) && Spec(db, call).Some?
    ensures Linked(Spec(db, call).value)
  {
    SpecGrows(db, call);
    SpecLeavesDisputes(db, call);
    NewOrdersHaveBuyer(db, call);
    var d := Spec(db, call).value;
    forall o | o in d.orders
      ensures d.orders[o].customer in d.customers
    {
      if o in db.orders {
        assert SameOrder(db.orders[o], d.orders[o]);
      }
    }
  }

  lemma {:induction false} DeliversToBuyer(db: Db, cart: Cart, ids: seq<int>, n: nat)
    requires n <= |cart.codes|
    ensures var d := Deliver(db, cart, ids, n);
            forall o :: o in d.orders && o !in db.orders ==>
              d.orders[o].customer == cart.customer && d.orders[o].reseller == cart.reseller
  {
    if n > 0 {
      DeliversToBuyer(db, cart, ids, n - 1);
      var before := Deliver(db, cart, ids, n - 1);
      if cart.kind.Instant? && n - 1 < |ids| && ids[n - 1] in before.codes {}
    }
  }

  lemma NewOrdersAreTheBuyers(db: Db, cart: Cart)
    requires Buy(db, cart).Some?
    ensures var d := Buy(db, cart).value;
            && cart.customer in db.customers && d.customers.Keys == db.customers.Keys
            && forall o :: o in d.orders ==>
                 if o in db.orders then d.orders[o] == db.orders[o]
                 else d.orders[o].customer == cart.customer && d.orders[o].reseller == cart.reseller
  {
    BuyShape(db, cart);
    DeliversToBuyer(Debit(db, cart.customer, cart.Cost(|cart.codes|)), cart, Picked(db, cart, |cart.codes|),
                    |cart.codes|);
  }

  /** As long as nothing new is approved, nobody's record grows. */
  lemma RecordStays(db: Db, d: Db, user: int)
    requires Linked(db) && Grows(db, d)
    requires forall id :: id in d.disputes && d.disputes[id].review == Approved ==>
               id in db.disputes && db.disputes[id] == d.disputes[id]
    ensures FakeReceipts(d, user) <= FakeReceipts(db, user)
    ensures |FakeReceipts(d, user)| <= |FakeReceipts(db, user)|
  {
    forall id | id in FakeReceipts(d, user)
      ensures id in FakeReceipts(db, user)
    {
      var o := db.disputes[id].order;
      assert o in db.orders && SameOrder(db.orders[o], d.orders[o]);
    }
    Fewer(FakeReceipts(d, user), FakeReceipts(db, user));
  }

  lemma ListStays(db: Db, d: Db, user: int)
    requires db.blacklist <= d.blacklist && ListedGlobally(db, user)
    ensures ListedGlobally(d, user)
  {
    var i :| 0 <= i < |db.blacklist| && db.blacklist[i].user == user && db.blacklist[i].isGlobal;
    assert d.blacklist[i] == db.blacklist[i];
  }

  lemma PunishedStays(db: Db, d: Db)
    requires Linked(db) && Punished(db) && Grows(db, d) && db.blacklist <= d.blacklist
    requires forall id :: id in d.disputes && d.disputes[id].review == Approved ==>
               id in db.disputes && db.disputes[id] == d.disputes[id]
    ensures Punished(d)
  {
    forall user | |FakeReceipts(d, user)| >= AUTO_BLACKLIST_THRESHOLD
      ensures ListedGlobally(d, user)
    {
      RecordStays(db, d, user);
      ListStays(db, d, user);
    }
  }

  /** Records do not depend on the list. */
  lemma SameRecord(db: Db, d: Db, user: int)
    requires d == db.(blacklist := d.blacklist)
    ensures FakeReceipts(d, user) == FakeReceipts(db, user)
  {
    assert forall id :: id in db.disputes ==> Against(d, db.disputes[id], user) == Against(db, db.disputes[id], user);
  }

  /** The automatic entry is written once, and right after it is due. */
  lemma AutoBlacklistLists(db: Db, user: int)
    requires AutomaticOnce(db)
    ensures var d := AutoBlacklist(db, user);
            && AutomaticOnce(d) && db.blacklist <= d.blacklist && d == db.(blacklist := d.blacklist)
            && (|FakeReceipts(db, user)| >= AUTO_BLACKLIST_THRESHOLD ==> ListedGlobally(d, user))
  {
    if |FakeReceipts(db, user)| >= AUTO_BLACKLIST_THRESHOLD && !ListedGlobally(db, user) {
      AppendEntry(db, user);
    }
  }

  lemma AppendEntry(db: Db, user: int)
    requires AutomaticOnce(db) && !ListedGlobally(db, user)
    ensures var d := db.(blacklist := db.blacklist + [Entry(user, None, true, true)]);
            AutomaticOnce(d) && ListedGlobally(d, user)
  {
    var d := db.(blacklist := db.blacklist + [Entry(user, None, true, true)]);
    assert d.blacklist[|db.blacklist|] == Entry(user, None, true, true);
    assert forall i :: 0 <= i < |db.blacklist| && db.blacklist[i].automatic ==> db.blacklist[i].user != user;
  }

  /** An approval adds to one user's record only, and looks at exactly that user. */
  lemma ApproveKeeps(db: Db, id: int, row: int)
    requires Inv(db) && Approve(db, id, row).Some?
    ensures Inv(Approve(db, id, row).value) && db.blacklist <= Approve(db, id, row).value.blacklist
    ensures Grows(db, Approve(db, id, row).value)
  {
    var dispute := db.disputes[id];
    var order := db.orders[dispute.order];
    var paid := Refund(db, dispute.reseller, order.commission, dispute.order, row).value;
    var marked := paid.(disputes := Reviewed(db.disputes, id, Approved),
                        orders := SetStatus(db.orders, dispute.order, Refunded));
    assert Grows(db, marked) && Linked(marked);
    var user := db.customers[order.customer].user;
    AutoBlacklistLists(marked, user);
    var d := AutoBlacklist(marked, user);
    forall u | |FakeReceipts(d, u)| >= AUTO_BLACKLIST_THRESHOLD
      ensures ListedGlobally(d, u)
    {
      SameRecord(marked, d, u);
      if u != user {
        OtherRecord(db, marked, id, u);
        ListStays(db, d, u);
      }
    }
  }

  lemma OtherRecord(db: Db, marked: Db, id: int, user: int)
    requires Linked(db) && Grows(db, marked)
    requires id in db.disputes && marked.disputes == Reviewed(db.disputes, id, Approved)
    requires !Against(db, db.disputes[id], user)
    ensures |FakeReceipts(marked, user)| <= |FakeReceipts(db, user)|
  {
    forall i | i in FakeReceipts(marked, user)
      ensures i in FakeReceipts(db, user)
    {
      var o := db.disputes[i].order;
      assert o in db.orders && SameOrder(db.orders[o], marked.orders[o]);
    }
    Fewer(FakeReceipts(marked, user), FakeReceipts(db, user));
  }

  lemma SpecKeeps(db: Db, call: Call)
    requires Inv(db) && Spec(db, call).Some?
    ensures Inv(Spec(db, call).value)
  {
    SpecGrows(db, call);
    SpecLeavesDisputes(db, call);
    SpecKeepsLinks(db, call);
    PunishedStays(db, Spec(db, call).value);
  }

  lemma OpenKeeps(db: Db, id: int, order: string, reseller: int)
    requires Inv(db)
    ensures var d := Open(db, id, order, reseller); Inv(d) && d.blacklist == db.blacklist && Grows(db, d)
  {
    var marked := db.(orders := SetStatus(db.orders, order, RefundPending));
    MarkedKeeps(db, order);
    if id !in db.disputes && order in db.orders && reseller in db.resellers {
      PendingKeeps(marked, id, Dispute(order, reseller, ReviewPending));
      assert Open(db, id, order, reseller) == marked.(disputes := Opened(db, id, order, reseller));
    } else {
      assert Open(db, id, order, reseller) == marked;
    }
  }

  lemma MarkedKeeps(db: Db, order: string)
    requires Inv(db)
    ensures var marked := db.(orders := SetStatus(db.orders, order, RefundPending)); Inv(marked) && Grows(db, marked)
  {
    if order in db.orders {}
    PunishedStays(db, db.(orders := SetStatus(db.orders, order, RefundPending)));
  }

  lemma PendingKeeps(db: Db, id: int, dispute: Dispute)
    requires Inv(db) && id !in db.disputes && dispute.order in db.orders && dispute.review == ReviewPending
    ensures Inv(db.(disputes := db.disputes[id := dispute]))
  {
    PunishedStays(db, db.(disputes := db.disputes[id := dispute]));
  }

  lemma DenyKeeps(db: Db, id: int)
    requires Inv(db)
    ensures var d := db.(disputes := Reviewed(db.disputes, id, Denied)); Inv(d) && Grows(db, d)
  {
    PunishedStays(db, db.(disputes := Reviewed(db.disputes, id, Denied)));
  }

  lemma ReportKeeps(db: Db, entry: Entry)
    requires Inv(db) && !entry.automatic
    ensures var d := db.(blacklist := db.blacklist + [entry]); Inv(d) && db.blacklist <= d.blacklist && Grows(db, d)
  {
    PunishedStays(db, db.(blacklist := db.blacklist + [entry]));
  }

  lemma PerformKeeps(db: Db, op: Op)
    requires Inv(db) && op.Valid()
    ensures Inv(Perform(db, op)) && db.blacklist <= Perform(db, op).blacklist && Grows(db, Perform(db, op))
  {
    var d := Perform(db, op);
    match op
    case OpenDispute(id, order, reseller) => OpenKeeps(db, id, order, reseller);
    case ApproveDispute(id, row) => if Approve(db, id, row).Some? { ApproveKeeps(db, id, row); }
    case RejectDispute(id) => DenyKeeps(db, id);
    case Report(user, reporter, isGlobal) => ReportKeeps(db, Entry(user, reporter, isGlobal, false));
    case Ordering(call) => CallKeeps(db, call);
    case Other(call) => CallKeeps(db, call);
  }

  lemma CallKeeps(db: Db, call: Call)
    requires Inv(db)
    ensures var d := Or(Spec(db, call), db); Inv(d) && d.blacklist == db.blacklist && Grows(db, d)
  {
    if Spec(db, call).Some? {
      SpecKeeps(db, call);
      SpecGrows(db, call);
      SpecLeavesDisputes(db, call);
    }
  }

  // ---------------------------------------------------------------- over whole runs

  lemma {:induction false} RunKeeps(db: Db, ops: seq<Op>)
    requires Inv(db) && forall i :: 0 <= i < |ops| ==> ops[i].Valid()
    ensures var d := PerformAll(db, ops); Inv(d) && db.blacklist <= d.blacklist && Grows(db, d)
  {
    if ops != [] {
      var mid := PerformAll(db, ops[..|ops| - 1]);
      RunKeeps(db, ops[..|ops| - 1]);
      PerformKeeps(mid, ops[|ops| - 1]);
      GrowsTrans(db, mid, PerformAll(db, ops));
    }
  }

  /** After any sequence of calls, in particular after every approval, each user with three or more
      approved disputes is on the global list, and at most one entry of theirs is automatic. */
  lemma ThreeFakesAreListed(db: Db, ops: seq<Op>, user: int)
    requires Inv(db) && forall i :: 0 <= i < |ops| ==> ops[i].Valid()
    ensures var d := PerformAll(db, ops);
            && (|FakeReceipts(d, user)| >= AUTO_BLACKLIST_THRESHOLD ==> ListedGlobally(d, user))
            && forall i, j :: 0 <= i < j < |d.blacklist| && d.blacklist[i].automatic && d.blacklist[j].automatic ==>
                 !(d.blacklist[i].user == user == d.blacklist[j].user)
  {
    RunKeeps(db, ops);
  }

  /** The orders of a Telegram user at one reseller. */
  function OrdersAt(db: Db, user: int, reseller: int): (orders: set<string>) {
    set o | o in db.orders && db.orders[o].reseller == reseller
            && db.orders[o].customer in db.customers && db.customers[db.orders[o].customer].user == user
  }

  /** A settlement call adds orders for its buyer at its reseller only. */
  lemma SpecAddsForBuyer(db: Db, call: Call, user: int, reseller: int)
    requires Linked(db) && Spec(db, call).Some?
    requires call.CPurchase? || call.CCreateOrder? ==>
               Buyer(call) in db.customers ==> db.customers[Buyer(call)].user != user || Seller(call) != reseller
    ensures OrdersAt(Spec(db, call).value, user, reseller) == OrdersAt(db, user, reseller)
  {
    var d := Spec(db, call).value;
    SpecGrows(db, call);
    NewOrdersHaveBuyer(db, call);
    forall o
      ensures o in OrdersAt(d, user, reseller) <==> o in OrdersAt(db, user, reseller)
    {
      if o in db.orders {
        assert SameOrder(db.orders[o], d.orders[o]);
      }
    }
  }

  lemma NewOrdersHaveBuyer(db: Db, call: Call)
    requires Spec(db, call).Some?
    ensures var d := Spec(db, call).value;
            forall o :: o in d.orders && o !in db.orders ==>
              && (call.CPurchase? || call.CCreateOrder?) && Buyer(call) in db.customers
              && d.orders[o].customer == Buyer(call) && d.orders[o].reseller == Seller(call)
  {
    match call
    case CPurchase(cart) => NewOrdersAreTheBuyers(db, cart);
    case CReceipt(o, _, reseller, isTest, amount, row) => ReceiptTables(db, o, reseller, isTest, amount, row);
    case CCredit(topup, reseller, _, _, amount, row) =>
      if Deduct(db.resellers, db.ledger, reseller, amount, ForTopup(topup), row).Deducted? {}
    case CRefund(_, _, _, _) =>
    case CConfirm(_) =>
    case _ => NewOrderHasBuyer(db, call);
  }

  lemma NewOrderHasBuyer(db: Db, call: Call)
    requires call.Single() && Statement(db, call).Some?
    ensures var d := Statement(db, call).value;
            forall o :: o in d.orders && o !in db.orders ==>
              && call.CCreateOrder? && Buyer(call) in db.customers
              && d.orders[o].customer == Buyer(call) && d.orders[o].reseller == Seller(call)
  {
  }

  lemma BarredAddsNothing(db: Db, op: Op, user: int, reseller: int)
    requires Inv(db) && op.Valid() && IsBlacklisted(db, user, Some(reseller))
    ensures OrdersAt(Perform(db, op), user, reseller) == OrdersAt(db, user, reseller)
  {
    match op
    case Ordering(call) =>
      if Spec(db, call).Some? && !Refuses(db, Buyer(call), Seller(call)) {
        SpecAddsForBuyer(db, call, user, reseller);
      }
    case Other(call) =>
      if Spec(db, call).Some? {
        SpecAddsForBuyer(db, call, user, reseller);
      }
    case _ => PaperworkAddsNothing(db, op, user, reseller);
  }

  /** Disputes and reports create no orders. */
  lemma PaperworkAddsNothing(db: Db, op: Op, user: int, reseller: int)
    requires Inv(db) && op.Valid() && !op.Ordering? && !op.Other?
    ensures OrdersAt(Perform(db, op), user, reseller) == OrdersAt(db, user, reseller)
  {
    match op
    case OpenDispute(id, order, r) => OpenAddsNothing(db, id, order, r, user, reseller);
    case ApproveDispute(id, row) =>
      if Approve(db, id, row).Some? {
        ApproveAddsNothing(db, id, row, user, reseller);
      }
    case RejectDispute(_) =>
    case Report(_, _, _) =>
  }

  lemma OpenAddsNothing(db: Db, id: int, order: string, r: int, user: int, reseller: int)
    ensures OrdersAt(Open(db, id, order, r), user, reseller) == OrdersAt(db, user, reseller)
  {
    SameOrders(db, Open(db, id, order, r), order, RefundPending, user, reseller);
  }

  lemma ApproveAddsNothing(db: Db, id: int, row: int, user: int, reseller: int)
    requires Approve(db, id, row).Some?
    ensures OrdersAt(Approve(db, id, row).value, user, reseller) == OrdersAt(db, user, reseller)
  {
    ApproveTables(db, id, row);
    SameOrders(db, Approve(db, id, row).value, db.disputes[id].order, Refunded, user, reseller);
  }

  lemma ApproveTables(db: Db, id: int, row: int)
    requires Approve(db, id, row).Some?
    ensures Approve(db, id, row).value.orders == SetStatus(db.orders, db.disputes[id].order, Refunded)
    ensures Approve(db, id, row).value.customers == db.customers
  {
  }

  lemma SameOrders(db: Db, d: Db, order: string, status: Status, user: int, reseller: int)
    requires d.customers == db.customers && d.orders == SetStatus(db.orders, order, status)
    ensures OrdersAt(d, user, reseller) == OrdersAt(db, user, reseller)
  {
    if order in db.orders {}
  }

  lemma BarredStays(db: Db, d: Db, user: int, reseller: int)
    requires db.blacklist <= d.blacklist && IsBlacklisted(db, user, Some(reseller))
    ensures IsBlacklisted(d, user, Some(reseller))
  {
    if ListedGlobally(db, user) {
      ListStays(db, d, user);
    } else {
      var i :| 0 <= i < |db.blacklist| && db.blacklist[i].user == user && db.blacklist[i].reporter == Some(reseller);
      assert d.blacklist[i] == db.blacklist[i];
    }
  }

  /** While someone is blacklisted for a reseller, the orders there stay the same ones. */
  lemma {:induction false} BarredKeepsOrders(db: Db, ops: seq<Op>, user: int, reseller: int)
    requires Inv(db) && forall i :: 0 <= i < |ops| ==> ops[i].Valid()
    requires IsBlacklisted(db, user, Some(reseller))
    ensures OrdersAt(PerformAll(db, ops), user, reseller) == OrdersAt(db, user, reseller)
  {
    if ops != [] {
      var early := ops[..|ops| - 1];
      var mid := PerformAll(db, early);
      BarredKeepsOrders(db, early, user, reseller);
      RunKeeps(db, early);
      BarredStays(db, mid, user, reseller);
      BarredAddsNothing(mid, ops[|ops| - 1], user, reseller);
    }
  }

  /** Once an entry names a user, globally or by a reseller, always turned away there: whatever runs
      afterwards, every order of that user at that reseller was there before. */
  lemma BarredNeverOrdersAgain(db: Db, ops: seq<Op>, i: nat, reseller: int)
    requires Inv(db) && forall k :: 0 <= k < |ops| ==> ops[k].Valid()
    requires i < |db.blacklist| && (db.blacklist[i].isGlobal || db.blacklist[i].reporter == Some(reseller))
    ensures var d := PerformAll(db, ops);
            forall o | o in d.orders && d.orders[o].reseller == reseller && d.orders[o].customer in d.customers
                       && d.customers[d.orders[o].customer].user == db.blacklist[i].user ::
              o in db.orders && db.orders[o].reseller == reseller
  {
    var user := db.blacklist[i].user;
    assert IsBlacklisted(db, user, Some(reseller)) by {
      assert db.blacklist[i].isGlobal ==> ListedGlobally(db, user);
      assert !db.blacklist[i].isGlobal ==> ListedBy(db, user, reseller);
    }
    BarredKeepsOrders(db, ops, user, reseller);
    var d := PerformAll(db, ops);
    forall o | o in d.orders && d.orders[o].reseller == reseller && d.orders[o].customer in d.customers
               && d.customers[d.orders[o].customer].user == user
      ensures o in db.orders && db.orders[o].reseller == reseller
    {
      assert o in OrdersAt(d, user, reseller);
    }
  }

  /** A call that creates an order has its effect exactly when no entry names the buyer's user globally or
      by this reseller. */
  lemma OrdersExactlyUnlessListed(db: Db, call: Call)
    requires (call.CPurchase? || call.CCreateOrder?) && Buyer(call) in db.customers && Spec(db, call).Some?
    ensures var user := db.customers[Buyer(call)].user;
            Perform(db, Ordering(call)) ==
              if exists i :: 0 <= i < |db.blacklist| && db.blacklist[i].user == user
                   && (db.blacklist[i].isGlobal || db.blacklist[i].reporter == Some(Seller(call)))
              then db else Spec(db, call).value
  {
  }

  /** From a report on, the reported user orders nothing more where the report counts. */
  lemma ReportEndsOrders(db: Db, user: int, reporter: Option<int>, isGlobal: bool, ops: seq<Op>, reseller: int)
    requires Inv(db) && forall k :: 0 <= k < |ops| ==> ops[k].Valid()
    requires isGlobal || reporter == Some(reseller)
    ensures var d := PerformAll(Perform(db, Report(user, reporter, isGlobal)), ops);
            forall o | o in d.orders && d.orders[o].reseller == reseller && d.orders[o].customer in d.customers
                       && d.customers[d.orders[o].customer].user == user :: o in db.orders
  {
    PerformKeeps(db, Report(user, reporter, isGlobal));
    var reported := Perform(db, Report(user, reporter, isGlobal));
    assert reported.blacklist[|db.blacklist|] == Entry(user, reporter, isGlobal, false);
    BarredNeverOrdersAgain(reported, ops, |db.blacklist|, reseller);
  }

  /** Three different approved disputes over orders of one user: some entry names the user globally. */
  lemma ThreeAreListed(db: Db, user: int, a: int, b: int, c: int)
    requires Inv(db) && a != b && b != c && a != c
    requires forall id | id in {a, b, c} ::
               && id in db.disputes && db.disputes[id].review == Approved && db.disputes[id].order in db.orders
               && db.orders[db.disputes[id].order].customer in db.customers
               && db.customers[db.orders[db.disputes[id].order].customer].user == user
    ensures exists i :: 0 <= i < |db.blacklist| && db.blacklist[i].user == user && db.blacklist[i].isGlobal
  {
    assert {a, b, c} <= FakeReceipts(db, user);
    Fewer({a, b, c}, FakeReceipts(db, user));
    assert ListedGlobally(db, user);
  }

  /** The third approved dispute therefore ends a user's orders, at every reseller. */
  lemma ThreeFakesEndOrders(db: Db, early: seq<Op>, late: seq<Op>, user: int, a: int, b: int, c: int)
    requires Inv(db)
    requires forall i :: 0 <= i < |early| ==> early[i].Valid()
    requires forall i :: 0 <= i < |late| ==> late[i].Valid()
    requires a != b && b != c && a != c
    requires var mid := PerformAll(db, early);
             forall id | id in {a, b, c} ::
               && id in mid.disputes && mid.disputes[id].review == Approved && mid.disputes[id].order in mid.orders
               && mid.orders[mid.disputes[id].order].customer in mid.customers
               && mid.customers[mid.orders[mid.disputes[id].order].customer].user == user
    ensures var mid := PerformAll(db, early); var d := PerformAll(mid, late);
            && (exists i :: 0 <= i < |mid.blacklist| && mid.blacklist[i].user == user && mid.blacklist[i].isGlobal)
            && forall o | o in d.orders && d.orders[o].customer in d.customers
                          && d.customers[d.orders[o].customer].user == user :: o in mid.orders
  {
    var mid := PerformAll(db, early);
    RunKeeps(db, early);
    ThreeAreListed(mid, user, a, b, c);
    var i :| 0 <= i < |mid.blacklist| && mid.blacklist[i].user == user && mid.blacklist[i].isGlobal;
    var d := PerformAll(mid, late);
    forall o | o in d.orders && d.orders[o].customer in d.customers && d.customers[d.orders[o].customer].user == user
      ensures o in mid.orders
    {
      BarredNeverOrdersAgain(mid, late, i, d.orders[o].reseller);
    }
  }

  /** An approval that goes through. */
  lemma ApprovedOnce(db: Db, id: int, row: int)
    requires id in db.disputes && db.disputes[id].order in db.orders && db.disputes[id].reseller in db.resellers
    requires row !in db.ledger
    ensures var after := Approve(db, id, row); var dispute := db.disputes[id];
            && after.Some? && id in after.value.disputes && after.value.disputes[id] == dispute.(review := Approved)
            && dispute.order in after.value.orders
            && after.value.orders[dispute.order] == db.orders[dispute.order].(status := Refunded)
            && after.value.resellers == Pay(db.resellers, dispute.reseller, db.orders[dispute.order].commission)
            && after.value.ledger.Keys == db.ledger.Keys + {row}
  {
  }
}
