/** Charge codes over whole runs: a sold code stays sold to the same buyer, is never deleted, and per
    package the codes on charge orders are exactly the codes on sold rows. */
module CodeSales {
  import opened Schema
  import opened Stock
  import opened Settlement
  import opened Purchases
  import opened History
  import opened Totals
  import opened Machine
  import opened Serial

  ghost function SoldAs(package: int, code: string): ChargeCode -> int {
    (row: ChargeCode) => if row.sold && row.package == package && row.code == code then 1 else 0
  }

  ghost function OrderedAs(package: int, code: string): Order -> int {
    (row: Order) => if row.charge && row.package == package && row.delivered == Some(code) then 1 else 0
  }

  ghost function SoldCount(db: Db, package: int, code: string): int {
    Total(db.codes, SoldAs(package, code))
  }

  ghost function OrderCount(db: Db, package: int, code: string): int {
    Total(db.orders, OrderedAs(package, code))
  }

  /** Counted row by row, so that a string added twice is delivered once per row. */
  ghost predicate Accounted(db: Db) {
    forall package, code :: SoldCount(db, package, code) == OrderCount(db, package, code)
  }

  /** One unit delivered: one order and one sold row more, for the same package and string. */
  lemma PutOrderCounts(db: Db, cart: Cart, ids: seq<int>, i: nat, package: int, code: string)
    requires i < |cart.codes| && cart.codes[i] !in db.orders
    requires cart.kind.Instant? ==> i < |ids| && Open(db.codes, cart.package, ids[i])
    ensures var d := PutOrder(db, cart, ids, i);
            SoldCount(d, package, code) - SoldCount(db, package, code)
            == OrderCount(d, package, code) - OrderCount(db, package, code)
  {
    var d := PutOrder(db, cart, ids, i);
    TotalPut(db.orders, OrderedAs(package, code), cart.codes[i], d.orders[cart.codes[i]]);
    if cart.kind.Instant? {
      TotalPut(db.codes, SoldAs(package, code), ids[i], d.codes[ids[i]]);
    }
  }

  lemma {:induction false} DeliverCounts(db: Db, cart: Cart, ids: seq<int>, n: nat, package: int, code: string)
    requires n <= |cart.codes| && Admitted(db.orders, cart.codes, n)
    requires cart.kind.Instant? ==> n <= |ids|
    requires cart.kind.Instant? ==> forall i :: 0 <= i < |ids| ==> Open(db.codes, cart.package, ids[i])
    requires forall i, j :: 0 <= i < j < |ids| ==> ids[i] < ids[j]
    ensures var d := Deliver(db, cart, ids, n);
            SoldCount(d, package, code) - SoldCount(db, package, code)
            == OrderCount(d, package, code) - OrderCount(db, package, code)
  {
    if n > 0 {
      var before := Deliver(db, cart, ids, n - 1);
      DeliverCounts(db, cart, ids, n - 1, package, code);
      Delivered(db, cart, ids, n - 1);
      if cart.kind.Instant? {
        AmongIsPrefix(ids, n - 1);
        assert Open(db.codes, cart.package, ids[n - 1]);
      }
      PutOrderCounts(before, cart, ids, n - 1, package, code);
    }
  }

  lemma BuyCounts(db: Db, cart: Cart)
    requires Accounted(db) && Buy(db, cart).Some?
    ensures Accounted(Buy(db, cart).value)
  {
    var q := |cart.codes|;
    var ids := Picked(db, cart, q);
    var charged := Debit(db, cart.customer, cart.Cost(q));
    if cart.kind.Instant? {
      LowestIsLowest(db.codes, cart.package, q, 0, db.nextCode);
    }
    var d := Buy(db, cart).value;
    forall package, code
      ensures SoldCount(d, package, code) == OrderCount(d, package, code)
    {
      assert SoldCount(db, package, code) == OrderCount(db, package, code);
      DeliverCounts(charged, cart, ids, q, package, code);
    }
  }

  /** An order whose package, kind and delivered code stay counts as before. */
  lemma SameOrderCounts(orders: Orders, o: string, row: Order, package: int, code: string)
    requires o in orders && SameOrder(orders[o], row)
    ensures Total(orders[o := row], OrderedAs(package, code)) == Total(orders, OrderedAs(package, code))
  {
    TotalPut(orders, OrderedAs(package, code), o, row);
  }

  /** A package no order points at has no sold code. */
  lemma UnsoldWithoutOrder(db: Db, packages: set<int>, id: int)
    requires Accounted(db) && !HasOrder(db.orders, packages)
    requires id in db.codes && db.codes[id].package in packages
    ensures !db.codes[id].sold
  {
    var row := db.codes[id];
    TotalAtLeast(db.codes, SoldAs(row.package, row.code));
    if row.sold {
      assert SoldCount(db, row.package, row.code) == OrderCount(db, row.package, row.code);
      var o := TotalWitness(db.orders, OrderedAs(row.package, row.code));
    }
  }

  lemma DropUnsold(codes: Shelf, after: Shelf, package: int, code: string)
    requires forall id :: id in after ==> id in codes && after[id] == codes[id]
    requires forall id :: id in codes && codes[id].sold ==> id in after
    ensures Total(after, SoldAs(package, code)) == Total(codes, SoldAs(package, code))
  {
    var gone := codes.Keys - after.Keys;
    forall id | id in codes && id in gone
      ensures SoldAs(package, code)(codes[id]) == 0
    {
      assert id !in after;
    }
    TotalDrop(codes, SoldAs(package, code), gone);
    var left := codes - gone;
    forall id
      ensures id in left <==> id in after
      ensures id in left ==> left[id] == after[id]
    {
      if id in after {
        assert id in codes && id !in gone;
      }
    }
    assert left == after;
  }

  lemma ReceiptCounts(db: Db, order: string, reseller: int, isTest: bool, amount: int, row: int, package: int,
                      code: string)
    requires Receipt(db, order, reseller, isTest, amount, row).Some?
    ensures OrderCount(Receipt(db, order, reseller, isTest, amount, row).value, package, code)
            == OrderCount(db, package, code)
  {
    ReceiptTables(db, order, reseller, isTest, amount, row);
    var d := Receipt(db, order, reseller, isTest, amount, row).value;
    if order in db.orders {
      SameOrderCounts(db.orders, order, d.orders[order], package, code);
    }
  }

  lemma StatementCounts(db: Db, call: Call, package: int, code: string)
    requires call.Single() && Statement(db, call).Some? && Numbered(db) && Accounted(db)
    ensures SoldCount(Statement(db, call).value, package, code) == OrderCount(Statement(db, call).value, package, code)
  {
    var d := Statement(db, call).value;
    assert SoldCount(db, package, code) == OrderCount(db, package, code);
    match call
    case CCreateOrder(order, _, _, _, _) => TotalPut(db.orders, OrderedAs(package, code), order, d.orders[order]);
    case CSetStatus(order, _) =>
      if order in db.orders { SameOrderCounts(db.orders, order, d.orders[order], package, code); }
    case CSetPrice(order, _) =>
      if order in db.orders { SameOrderCounts(db.orders, order, d.orders[order], package, code); }
    case CActivate(order) => SameOrderCounts(db.orders, order, d.orders[order], package, code);
    case CAddCode(_, _) => TotalPut(db.codes, SoldAs(package, code), db.nextCode, d.codes[db.nextCode]);
    case CDeleteCode(_) => DropUnsold(db.codes, d.codes, package, code);
    case CClearCodes(_) => DropUnsold(db.codes, d.codes, package, code);
    case CDropPackages(packages) =>
      forall id | id in db.codes && db.codes[id].package in packages
        ensures !db.codes[id].sold
      {
        UnsoldWithoutOrder(db, packages, id);
      }
      DropUnsold(db.codes, d.codes, package, code);
    case CLinkOrder(id, _) =>
      if id in db.codes { TotalPut(db.codes, SoldAs(package, code), id, d.codes[id]); }
    case _ =>
  }

  lemma SpecAccounts(db: Db, call: Call)
    requires Accounted(db) && Numbered(db) && Spec(db, call).Some?
    ensures Accounted(Spec(db, call).value)
  {
    if call.CPurchase? {
      BuyCounts(db, call.cart);
    } else {
      forall package, code
        ensures SoldCount(Spec(db, call).value, package, code) == OrderCount(Spec(db, call).value, package, code)
      {
        assert SoldCount(db, package, code) == OrderCount(db, package, code);
        if call.Single() {
          StatementCounts(db, call, package, code);
        } else {
          TransactionCounts(db, call, package, code);
        }
      }
    }
  }

  lemma TransactionCounts(db: Db, call: Call, package: int, code: string)
    requires !call.Single() && !call.CPurchase? && Spec(db, call).Some?
    ensures SoldCount(Spec(db, call).value, package, code) == SoldCount(db, package, code)
    ensures OrderCount(Spec(db, call).value, package, code) == OrderCount(db, package, code)
  {
    LeavesShelf(db, call);
    if call.CReceipt? {
      ReceiptCounts(db, call.order, call.reseller, call.isTest, call.amount, call.row, package, code);
    } else {
      OrdersStay(db, call);
    }
  }

  lemma OrdersStay(db: Db, call: Call)
    requires (call.CCredit? || call.CRefund? || call.CConfirm?) && Spec(db, call).Some?
    ensures Spec(db, call).value.orders == db.orders
  {
    if call.CCredit? {
      if Deduct(db.resellers, db.ledger, call.reseller, call.amount, ForTopup(call.topup), call.row).Deducted? {}
    }
  }

  /** Sold rows stay, with the same package, code and buyer. */
  ghost predicate SoldStays(db: Db, d: Db) {
    forall id :: id in db.codes && db.codes[id].sold ==>
      && id in d.codes && d.codes[id].sold && d.codes[id].package == db.codes[id].package
      && d.codes[id].code == db.codes[id].code && d.codes[id].buyer == db.codes[id].buyer
  }

  lemma SpecKeepsSold(db: Db, call: Call)
    requires Accounted(db) && Numbered(db) && Spec(db, call).Some?
    ensures SoldStays(db, Spec(db, call).value)
  {
    if call.Single() {
      StatementKeepsSold(db, call);
    } else if call.CPurchase? {
      BuyShape(db, call.cart);
    } else {
      LeavesShelf(db, call);
    }
  }

  lemma StatementKeepsSold(db: Db, call: Call)
    requires Accounted(db) && Numbered(db) && call.Single() && Statement(db, call).Some?
    ensures SoldStays(db, Statement(db, call).value)
  {
    match call
    case CDropPackages(packages) =>
      forall id | id in db.codes && db.codes[id].package in packages
        ensures !db.codes[id].sold
      {
        UnsoldWithoutOrder(db, packages, id);
      }
    case CAddCode(_, _) =>
    case CDeleteCode(_) =>
    case CClearCodes(_) =>
    case CLinkOrder(_, _) =>
    case _ =>
  }

  lemma {:induction false} ReplayAccounts(start: Db, log: seq<Call>)
    requires Accounted(start) && Numbered(start) && Replay(start, log).Some?
    ensures Accounted(Replay(start, log).value) && Numbered(Replay(start, log).value)
    ensures SoldStays(start, Replay(start, log).value)
  {
    if log != [] {
      var last := |log| - 1;
      ReplayAccounts(start, log[..last]);
      var d := Replay(start, log[..last]).value;
      SpecAccounts(d, log[last]);
      NumberedStays(d, log[last]);
      SpecKeepsSold(d, log[last]);
    }
  }

  /** In every interleaving, the codes on a package's charge orders are, string by string and with
      multiplicity, the codes on its sold rows. */
  lemma DeliveredCodesAreSoldCodes(start: Db, events: seq<Event>, s: State, package: int, code: string)
    requires Accounted(start) && Numbered(start) && Run(Start(start), events, s)
    ensures SoldCount(s.db, package, code) == OrderCount(s.db, package, code)
  {
    EveryInterleavingIsSerial(start, events, s);
    ReplayAccounts(start, s.log);
  }

  /** No double sale: between any two points of any interleaving a sold row keeps its buyer, never
      becomes available again, and survives every stock and catalog delete. */
  lemma SoldForGood(start: Db, early: seq<Event>, s: State, late: seq<Event>, s': State)
    requires Accounted(start) && Numbered(start)
    requires Run(Start(start), early, s) && Run(s, late, s')
    ensures forall id :: id in s.db.codes && s.db.codes[id].sold ==>
              && id in s'.db.codes && s'.db.codes[id].sold && s'.db.codes[id].package == s.db.codes[id].package
              && s'.db.codes[id].code == s.db.codes[id].code && s'.db.codes[id].buyer == s.db.codes[id].buyer
  {
    EveryInterleavingIsSerial(start, early, s);
    ReplayAccounts(start, s.log);
    LaterIsReplay(start, early, s, late, s');
    ReplayAccounts(s.db, s'.log[|s.log|..]);
  }

  /** Where nothing is sold and no charge order exists, the accounts are in order. */
  lemma NothingSoldYet(db: Db)
    requires forall id :: id in db.codes ==> !db.codes[id].sold
    requires forall o :: o in db.orders ==> !db.orders[o].charge
    ensures Accounted(db)
  {
    forall package, code
      ensures SoldCount(db, package, code) == OrderCount(db, package, code)
    {
      assert forall id :: id in db.codes ==> SoldAs(package, code)(db.codes[id]) == 0;
      assert forall o :: o in db.orders ==> OrderedAs(package, code)(db.orders[o]) == 0;
      TotalDrop(db.codes, SoldAs(package, code), db.codes.Keys);
      TotalDrop(db.orders, OrderedAs(package, code), db.orders.Keys);
      assert db.codes - db.codes.Keys == map[] && db.orders - db.orders.Keys == map[];
    }
  }

  /** Whoever was handed a code in a charge order got one that is on a sold row of the package, and every sold
      row's code was handed out in a charge order of its package. */
  lemma CodesAndOrdersMatch(start: Db, events: seq<Event>, s: State)
    requires Accounted(start) && Numbered(start) && Run(Start(start), events, s)
    ensures forall o :: o in s.db.orders && s.db.orders[o].charge && s.db.orders[o].delivered.Some? ==>
              exists id :: id in s.db.codes && s.db.codes[id].sold && s.db.codes[id].package == s.db.orders[o].package
                             && s.db.orders[o].delivered == Some(s.db.codes[id].code)
    ensures forall id :: id in s.db.codes && s.db.codes[id].sold ==>
              exists o :: o in s.db.orders && s.db.orders[o].charge && s.db.orders[o].package == s.db.codes[id].package
                            && s.db.orders[o].delivered == Some(s.db.codes[id].code)
  {
    var db := s.db;
    forall o | o in db.orders && db.orders[o].charge && db.orders[o].delivered.Some?
      ensures exists id :: id in db.codes && db.codes[id].sold && db.codes[id].package == db.orders[o].package
                             && db.orders[o].delivered == Some(db.codes[id].code)
    {
      var package, code := db.orders[o].package, db.orders[o].delivered.value;
      DeliveredCodesAreSoldCodes(start, events, s, package, code);
      TotalAtLeast(db.orders, OrderedAs(package, code));
      var id := TotalWitness(db.codes, SoldAs(package, code));
    }
    forall id | id in db.codes && db.codes[id].sold
      ensures exists o :: o in db.orders && db.orders[o].charge && db.orders[o].package == db.codes[id].package
                            && db.orders[o].delivered == Some(db.codes[id].code)
    {
      var package, code := db.codes[id].package, db.codes[id].code;
      DeliveredCodesAreSoldCodes(start, events, s, package, code);
      TotalAtLeast(db.codes, SoldAs(package, code));
      var o := TotalWitness(db.orders, OrderedAs(package, code));
    }
  }

  /** No code is delivered twice.  If the shelf holds each string of a package once, then in every interleaving
      two charge orders of the package carry different codes. */
  lemma NoCodeTwice(start: Db, events: seq<Event>, s: State, o: string, p: string)
    requires Accounted(start) && Numbered(start) && Run(Start(start), events, s)
    requires forall a, b | a in s.db.codes && b in s.db.codes && s.db.codes[a].package == s.db.codes[b].package ::
               a != b ==> s.db.codes[a].code != s.db.codes[b].code
    requires o in s.db.orders && p in s.db.orders && o != p && s.db.orders[o].charge && s.db.orders[p].charge
    requires s.db.orders[o].package == s.db.orders[p].package && s.db.orders[o].delivered.Some?
    ensures s.db.orders[o].delivered != s.db.orders[p].delivered
  {
    if s.db.orders[o].delivered == s.db.orders[p].delivered {
      var package, code := s.db.orders[o].package, s.db.orders[o].delivered.value;
      DeliveredCodesAreSoldCodes(start, events, s, package, code);
      TwoAreTwo(s.db.orders, OrderedAs(package, code), o, p);
      OneIsOne(s.db.codes, package, code);
    }
  }

  lemma TwoAreTwo(orders: Orders, f: Order -> int, o: string, p: string)
    requires o in orders && p in orders && o != p && forall k :: k in orders ==> f(orders[k]) >= 0
    ensures Total(orders, f) >= f(orders[o]) + f(orders[p])
  {
    TotalWithout(orders, f, o);
    TotalAtLeast(orders - {o}, f);
    assert p in orders - {o} && (orders - {o})[p] == orders[p];
  }

  lemma OneIsOne(codes: Shelf, package: int, code: string)
    requires forall a, b | a in codes && b in codes && codes[a].package == codes[b].package ::
               a != b ==> codes[a].code != codes[b].code
    ensures Total(codes, SoldAs(package, code)) <= 1
  {
    var f := SoldAs(package, code);
    if Total(codes, f) > 0 {
      var id := TotalWitness(codes, f);
      TotalWithout(codes, f, id);
      if Total(codes - {id}, f) > 0 {
        var other := TotalWitness(codes - {id}, f);
        assert false;
      }
    }
  }
}
