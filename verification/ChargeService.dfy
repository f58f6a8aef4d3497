/** Buying charge codes from the wallet, and the reseller's stock of them. */
module ChargeService {
  import opened Schema
  import opened Stock
  import opened Settlement
  import opened Purchases
  import opened OrderCodes
  import opened Text
  import opened Sessions
  import opened Blacklist
  import History

  datatype Result<+T> = Success(value: T) | Failure(error: ChargeError)

  /** `Failed` is any other error: it reaches the caller after the rollback. */
  datatype ChargeError =
    | BadQuantity
    | CustomerBlacklisted
    | NoSuchPackage
    | InsufficientBalance
    | OutOfStock(available: nat)
    | Failed

  /** One delivered code. */
  datatype Delivery = Delivery(order: string, code: string)

  /** The cart the purchase functions build from what they read before the transaction. */
  function BulkCart(db: Db, reseller: int, package: int, customer: int, stamps: seq<Stamp>): (cart: Cart)
    requires reseller in db.resellers && package in db.packages
  {
    Cart(Instant(true), reseller, package, customer, db.packages[package].price,
         Batch(db.resellers[reseller].prefix, stamps))
  }

  /** What both purchases ask before anything else: is the customer blacklisted, is there such a package. */
  method CheckBuyer(s: Session, reseller: int, package: int, customer: int) returns (refused: Option<ChargeError>)
    ensures var db := s.committed;
            refused == Some(CustomerBlacklisted) <==>
              && customer in db.customers
              && exists i :: 0 <= i < |db.blacklist| && db.blacklist[i].user == db.customers[customer].user
                   && (db.blacklist[i].isGlobal || db.blacklist[i].reporter == Some(reseller))
    ensures refused == Some(NoSuchPackage) <==>
              refused != Some(CustomerBlacklisted) && package !in s.committed.packages
    ensures refused.Some? ==> refused.value.CustomerBlacklisted? || refused.value.NoSuchPackage?
  {
    if Refuses(s.committed, customer, reseller) {
      return Some(CustomerBlacklisted);
    }
    if package !in s.committed.packages {
      return Some(NoSuchPackage);
    }
    return None;
  }

  /** Buy `quantity` codes in one transaction.  `stamps` is what the clock and the random generator
      would give, unit by unit; `ids` are the rows handed out.  The first clauses relate the call to the
      specification of the interleaved runs, the others say row by row when it goes through and what it
      leaves. */
  method PurchaseChargeBulk(s: Session, reseller: int, package: int, customer: int, quantity: int, stamps: seq<Stamp>)
    returns (r: Result<seq<Delivery>>, ghost ids: seq<int>)
    requires !s.open && (quantity >= 0 ==> |stamps| == quantity)
    modifies s
    ensures !s.open
    ensures r.Failure? ==> s.committed == old(s.committed)
    ensures r.Success? ==>
              && quantity >= 1 && reseller in old(s.committed).resellers && package in old(s.committed).packages
              && var cart := BulkCart(old(s.committed), reseller, package, customer, stamps);
                 Buy(old(s.committed), cart) == Some(s.committed)
    ensures r == Failure(BadQuantity) <==> quantity < 1
    ensures var db := old(s.committed);
            r == Failure(CustomerBlacklisted) <==>
              && quantity >= 1 && customer in db.customers
              && exists i :: 0 <= i < |db.blacklist| && db.blacklist[i].user == db.customers[customer].user
                   && (db.blacklist[i].isGlobal || db.blacklist[i].reporter == Some(reseller))
    ensures r == Failure(NoSuchPackage) <==>
              && quantity >= 1 && r != Failure(CustomerBlacklisted) && package !in old(s.committed).packages
    ensures var db := old(s.committed);
            r == Failure(InsufficientBalance) <==>
              && quantity >= 1 && r != Failure(CustomerBlacklisted)
              && package in db.packages && customer in db.customers
              && db.customers[customer].balance < db.packages[package].price * quantity
    ensures var db := old(s.committed);
            r.Failure? && r.error.OutOfStock? ==>
              && r.error.available < quantity
              && r.error.available == |set id | id in db.codes && 0 <= id < db.nextCode
                                               && !db.codes[id].sold && db.codes[id].package == package|
    ensures var db := old(s.committed);
            r.Success? <==>
              && quantity >= 1 && r != Failure(CustomerBlacklisted)
              && reseller in db.resellers && package in db.packages && customer in db.customers
              && db.customers[customer].balance >= db.packages[package].price * quantity
              && |set id | id in db.codes && 0 <= id < db.nextCode
                           && !db.codes[id].sold && db.codes[id].package == package| >= quantity
              && var codes := Batch(db.resellers[reseller].prefix, stamps);
                 && (forall i :: 0 <= i < quantity ==> codes[i] !in db.orders)
                 && forall i, j :: 0 <= i < j < quantity ==> codes[i] != codes[j]
    ensures var db := old(s.committed);
            r.Success? ==>
              && |ids| == quantity
              && (forall i :: 0 <= i < quantity ==>
                    && 0 <= ids[i] < db.nextCode && ids[i] in db.codes
                    && !db.codes[ids[i]].sold && db.codes[ids[i]].package == package)
              && (forall i, j :: 0 <= i < j < quantity ==> ids[i] < ids[j])
              && (forall id | id in db.codes && 0 <= id < db.nextCode && id !in ids ::
                    !db.codes[id].sold && db.codes[id].package == package ==> ids[quantity - 1] < id)
    ensures var db := old(s.committed);
            r.Success? ==>
              var buyer := db.customers[customer]; var total := db.packages[package].price * quantity;
              && s.committed == db.(customers := s.committed.customers, orders := s.committed.orders,
                                    codes := s.committed.codes)
              && s.committed.customers.Keys == db.customers.Keys
              && s.committed.customers[customer] == buyer.(balance := buyer.balance - total)
              && (forall c :: c in db.customers && c != customer ==> s.committed.customers[c] == db.customers[c])
              && |r.value| == quantity
              && forall i :: 0 <= i < quantity ==>
                   r.value[i] == Delivery(Batch(db.resellers[reseller].prefix, stamps)[i], db.codes[ids[i]].code)
    ensures var db := old(s.committed);
            r.Success? ==>
              && (forall o :: o in s.committed.orders <==>
                    o in db.orders || exists i :: 0 <= i < quantity && o == r.value[i].order)
              && (forall o :: o in db.orders ==> s.committed.orders[o] == db.orders[o])
              && forall i :: 0 <= i < quantity ==>
                   s.committed.orders[r.value[i].order] == Order(
                     reseller, package, customer, Activated, true, db.packages[package].price, 0, false, true,
                     Some(r.value[i].code), true)
    ensures var db := old(s.committed);
            r.Success? ==>
              && s.committed.codes.Keys == db.codes.Keys
              && (forall i :: 0 <= i < quantity ==>
                    s.committed.codes[ids[i]] == ChargeCode(
                      package, r.value[i].code, true, Some(customer), Some(r.value[i].order)))
              && forall id :: id in db.codes && id !in ids ==> s.committed.codes[id] == db.codes[id]
  {
    ids := [];
    if quantity < 1 {
      return Failure(BadQuantity), ids;
    }
    var refused := CheckBuyer(s, reseller, package, customer);
    if refused.Some? {
      return Failure(refused.value), ids;
    }
    ghost var db := s.committed;
    LowestCount(db.codes, package, quantity, 0, db.nextCode);
    r, ids := PayForBatch(s, reseller, package, customer, quantity, stamps);
    if reseller in db.resellers {
      ghost var cart := BulkCart(db, reseller, package, customer, stamps);
      assert cart.price * |cart.codes| == db.packages[package].price * quantity;
      if r.Success? {
        PickedRows(db, cart, quantity);
        BulkRows(db, s.committed, cart, ids, r.value);
      }
      BoughtExactlyWhen(db, cart);
    }
  }

  /** The transaction of the bulk purchase. */
  method PayForBatch(s: Session, reseller: int, package: int, customer: int, quantity: nat, stamps: seq<Stamp>)
    returns (r: Result<seq<Delivery>>, ghost ids: seq<int>)
    requires !s.open && |stamps| == quantity && package in s.committed.packages
    modifies s
    ensures !s.open
    ensures r.Failure? ==> s.committed == old(s.committed)
    ensures r.Failure? ==> r.error.InsufficientBalance? || r.error.OutOfStock? || r.error.Failed?
    ensures r == Failure(InsufficientBalance) <==>
              && customer in old(s.committed).customers
              && old(s.committed).customers[customer].balance < old(s.committed).packages[package].price * quantity
    ensures r.Failure? && r.error.OutOfStock? ==>
              && r.error.available < quantity
              && r.error.available == |Lowest(old(s.committed).codes, package, quantity, 0, old(s.committed).nextCode)|
    ensures var db := old(s.committed);
            r.Success? <==>
              reseller in db.resellers && Buy(db, BulkCart(db, reseller, package, customer, stamps)).Some?
    ensures var db := old(s.committed);
            r.Success? ==>
              var cart := BulkCart(db, reseller, package, customer, stamps);
              && Buy(db, cart) == Some(s.committed) && ids == Picked(db, cart, quantity)
              && |r.value| == |ids| == quantity && Handed(db, cart, ids, r.value)
  {
    ids := [];
    var totalPrice := s.committed.packages[package].price * quantity;
    ghost var db := s.committed;
    s.Begin();
    if customer !in s.work.customers {
      s.Rollback();
      return Failure(Failed), ids;
    }
    if reseller in db.resellers {
      BatchBought(db, BulkCart(db, reseller, package, customer, stamps), totalPrice);
    }
    if s.work.customers[customer].balance < totalPrice {
      s.Rollback();
      return Failure(InsufficientBalance), ids;
    }
    var rows := Lowest(s.work.codes, package, quantity, 0, s.work.nextCode);
    if |rows| < quantity {
      s.Rollback();
      return Failure(OutOfStock(|rows|)), ids;
    }
    if reseller !in s.work.resellers {
      s.Rollback();
      return Failure(Failed), ids;
    }
    LowestIsLowest(db.codes, package, quantity, 0, db.nextCode);
    s.work := Debit(s.work, customer, totalPrice);
    var prefix := s.work.resellers[reseller].prefix;
    var bought := BulkCart(s.work, reseller, package, customer, stamps);
    var ok, delivered := DeliverAll(s, bought, rows, prefix, stamps, db, totalPrice);
    if !ok {
      s.Rollback();
      return Failure(Failed), ids;
    }
    assert s.work == Deliver(Debit(db, customer, totalPrice), bought, rows, quantity);
    s.Commit();
    return Success(delivered), rows;
  }

  /** The units handed out so far carry the batch's codes and the picked rows' strings. */
  ghost predicate Handed(db: Db, cart: Cart, ids: seq<int>, delivered: seq<Delivery>) {
    && |delivered| <= |ids| && |delivered| <= |cart.codes|
    && forall j :: 0 <= j < |delivered| ==>
         ids[j] in db.codes && delivered[j] == Delivery(cart.codes[j], db.codes[ids[j]].code)
  }

  lemma HandOneMore(db: Db, cart: Cart, ids: seq<int>, delivered: seq<Delivery>)
    requires Handed(db, cart, ids, delivered) && |delivered| < |ids| && |delivered| < |cart.codes|
    requires ids[|delivered|] in db.codes
    ensures Handed(db, cart, ids, delivered + [Delivery(cart.codes[|delivered|], db.codes[ids[|delivered|]].code)])
  {
  }

  /** The loop of the bulk purchase: one order and one sold code a turn; it stops at the first order
      code that is taken. */
  method DeliverAll(s: Session, cart: Cart, ids: seq<int>, prefix: string, stamps: seq<Stamp>, ghost db: Db,
                    ghost total: int)
    returns (ok: bool, delivered: seq<Delivery>)
    requires s.open && cart.kind == Instant(true) && cart.codes == Batch(prefix, stamps) && |ids| == |stamps|
    requires cart.customer in db.customers && IsLowest(db.codes, cart.package, |ids|, 0, db.nextCode, ids)
    requires s.work == Debit(db, cart.customer, total)
    modifies s`work
    ensures ok <==> Admitted(db.orders, cart.codes, |ids|)
    ensures ok ==> s.work == Deliver(old(s.work), cart, ids, |ids|)
    ensures ok ==> |delivered| == |ids| && Handed(db, cart, ids, delivered)
  {
    delivered := [];
    var i := 0;
    while i < |ids|
      invariant 0 <= i <= |ids| && Admitted(db.orders, cart.codes, i)
      invariant s.work == Deliver(Debit(db, cart.customer, total), cart, ids, i)
      invariant |delivered| == i && Handed(db, cart, ids, delivered)
    {
      var order := OrderCode(prefix, stamps[i], Some(i + 1));
      var sold, code := SellUnit(s, cart, ids, i, order, db, total);
      if !sold {
        StillRefused(db.orders, cart.codes, i + 1, |ids|);
        return false, [];
      }
      HandOneMore(db, cart, ids, delivered);
      delivered := delivered + [Delivery(order, code)];
      i := i + 1;
    }
    ok := true;
  }

  /** Insert one order and mark its code sold. */
  method SellUnit(s: Session, cart: Cart, ids: seq<int>, i: nat, order: string, ghost db: Db, ghost total: int)
    returns (ok: bool, code: string)
    requires s.open && cart.kind == Instant(true) && i < |ids| == |cart.codes| && order == cart.codes[i]
    requires cart.customer in db.customers && IsLowest(db.codes, cart.package, |ids|, 0, db.nextCode, ids)
    requires s.work == Deliver(Debit(db, cart.customer, total), cart, ids, i) && Admitted(db.orders, cart.codes, i)
    modifies s`work
    ensures ok <==> Admitted(db.orders, cart.codes, i + 1)
    ensures ok ==> s.work == Deliver(Debit(db, cart.customer, total), cart, ids, i + 1)
    ensures ok ==> ids[i] in db.codes && code == db.codes[ids[i]].code
    ensures !ok ==> s.work == old(s.work)
  {
    UnitIsOpen(db, total, cart, ids, i);
    if order in s.work.orders {
      return false, "";
    }
    var row := s.work.codes[ids[i]];
    s.work := s.work.(orders := s.work.orders[order := NewOrder(cart, Some(row.code))]);
    s.work := s.work.(codes := s.work.codes[ids[i] := SoldRow(row, cart.customer, Some(order))]);
    assert s.work == PutOrder(old(s.work), cart, ids, i);
    return true, row.code;
  }

  /** The orders of the first `n` units are there, and the ones from before as they were. */
  ghost predicate OrdersAdded(db: Db, cart: Cart, ids: seq<int>, n: nat, orders: Orders)
    requires n <= |cart.codes| && n <= |ids|
  {
    && (forall o :: o in orders <==> o in db.orders || o in cart.codes[..n])
    && (forall o :: o in db.orders ==> orders[o] == db.orders[o])
    && forall i :: 0 <= i < n && ids[i] in db.codes && cart.codes[i] in orders ==>
         orders[cart.codes[i]] == Order(cart.reseller, cart.package, cart.customer, Activated, true, cart.price,
                                        0, false, true, Some(db.codes[ids[i]].code), true)
  }

  lemma OneOrderMore(db: Db, cart: Cart, ids: seq<int>, n: nat, before: Orders)
    requires n < |cart.codes| && n < |ids| && ids[n] in db.codes
    requires OrdersAdded(db, cart, ids, n, before) && cart.codes[n] !in before
    ensures OrdersAdded(db, cart, ids, n + 1, before[cart.codes[n] := Order(
              cart.reseller, cart.package, cart.customer, Activated, true, cart.price, 0, false, true,
              Some(db.codes[ids[n]].code), true)])
  {
    assert cart.codes[..n + 1] == cart.codes[..n] + [cart.codes[n]];
    assert forall i :: 0 <= i < n ==> cart.codes[i] in cart.codes[..n];
  }

  /** The picked rows of the first `n` units are sold to the buyer and linked to their orders. */
  ghost predicate CodesSold(db: Db, cart: Cart, ids: seq<int>, n: nat, codes: Shelf)
    requires n <= |cart.codes| && n <= |ids|
  {
    && codes.Keys == db.codes.Keys
    && (forall i :: 0 <= i < n && ids[i] in db.codes ==>
          codes[ids[i]] == ChargeCode(db.codes[ids[i]].package, db.codes[ids[i]].code, true,
                                      Some(cart.customer), Some(cart.codes[i])))
    && forall id :: id in db.codes && id !in ids[..n] ==> codes[id] == db.codes[id]
  }

  lemma OneCodeMore(db: Db, cart: Cart, ids: seq<int>, n: nat, before: Shelf)
    requires n < |cart.codes| && n < |ids| && ids[n] in db.codes && ids[n] !in ids[..n]
    requires CodesSold(db, cart, ids, n, before)
    ensures before[ids[n]] == db.codes[ids[n]]
    ensures CodesSold(db, cart, ids, n + 1, before[ids[n] := ChargeCode(
              db.codes[ids[n]].package, db.codes[ids[n]].code, true, Some(cart.customer), Some(cart.codes[n]))])
  {
    var id := ids[n];
    assert id in db.codes && id !in ids[..n] && before[id] == db.codes[id];
    assert ids[..n + 1] == ids[..n] + [ids[n]];
    assert forall i :: 0 <= i < n ==> ids[i] in ids[..n];
  }

  /** One unit put: its order and its row. */
  lemma UnitPut(db: Db, cart: Cart, ids: seq<int>, i: nat)
    requires cart.kind == Instant(true) && i < |cart.codes| && i < |ids| && ids[i] in db.codes
    ensures var code := db.codes[ids[i]].code;
            PutOrder(db, cart, ids, i) == db.(
              orders := db.orders[cart.codes[i] := Order(
                cart.reseller, cart.package, cart.customer, Activated, true, cart.price, 0, false, true,
                Some(code), true)],
              codes := db.codes[ids[i] := ChargeCode(
                db.codes[ids[i]].package, code, true, Some(cart.customer), Some(cart.codes[i]))])
  {
  }

  /** What a bulk delivery leaves, row by row. */
  lemma {:induction false} DeliveredRows(db: Db, cart: Cart, ids: seq<int>, n: nat) returns (after: Db)
    requires cart.kind == Instant(true) && n <= |cart.codes| && n <= |ids|
    requires forall i :: 0 <= i < n ==> ids[i] in db.codes && cart.codes[i] !in db.orders
    requires forall i, j :: 0 <= i < j < n ==> ids[i] < ids[j]
    requires forall i, j :: 0 <= i < j < n ==> cart.codes[i] != cart.codes[j]
    ensures after == Deliver(db, cart, ids, n) == db.(orders := after.orders, codes := after.codes)
    ensures OrdersAdded(db, cart, ids, n, after.orders) && CodesSold(db, cart, ids, n, after.codes)
  {
    if n == 0 {
      after := db;
    } else {
      var before := DeliveredRows(db, cart, ids, n - 1);
      after := NextRow(db, cart, ids, n - 1, n, before);
    }
  }

  lemma NextRow(db: Db, cart: Cart, ids: seq<int>, n: nat, next: nat, before: Db) returns (after: Db)
    requires cart.kind == Instant(true) && n < |cart.codes| && n < |ids| && next == n + 1
    requires ids[n] in db.codes && cart.codes[n] !in db.orders
    requires forall i :: 0 <= i < n ==> ids[i] < ids[n] && cart.codes[i] != cart.codes[n]
    requires before == db.(orders := before.orders, codes := before.codes)
    requires OrdersAdded(db, cart, ids, n, before.orders) && CodesSold(db, cart, ids, n, before.codes)
    ensures after == PutOrder(before, cart, ids, n) == db.(orders := after.orders, codes := after.codes)
    ensures OrdersAdded(db, cart, ids, next, after.orders) && CodesSold(db, cart, ids, next, after.codes)
  {
    assert ids[n] !in ids[..n] && cart.codes[n] !in cart.codes[..n];
    OneOrderMore(db, cart, ids, n, before.orders);
    OneCodeMore(db, cart, ids, n, before.codes);
    UnitPut(before, cart, ids, n);
    after := PutOrder(before, cart, ids, n);
  }

  /** The customer's row after paying. */
  function Paid(customers: map<int, Customer>, customer: int, amount: int): (after: map<int, Customer>)
    requires customer in customers
  {
    customers[customer := customers[customer].(balance := customers[customer].balance - amount)]
  }

  /** What a bulk purchase that goes through leaves. */
  lemma BulkLeaves(db: Db, after: Db, cart: Cart)
    requires cart.kind == Instant(true) && Buy(db, cart) == Some(after)
    ensures var q := |cart.codes|; var ids := Picked(db, cart, q);
            && |ids| == q && cart.customer in db.customers
            && after == db.(customers := Paid(db.customers, cart.customer, cart.price * q),
                            orders := after.orders, codes := after.codes)
            && OrdersAdded(db, cart, ids, q, after.orders) && CodesSold(db, cart, ids, q, after.codes)
  {
    var q := |cart.codes|;
    var ids := Picked(db, cart, q);
    cart.CostIsProduct(q);
    LowestIsLowest(db.codes, cart.package, q, 0, db.nextCode);
    AdmittedExactlyWhen(db.orders, cart.codes, q);
    var charged := Debit(db, cart.customer, cart.Cost(q));
    assert charged == db.(customers := Paid(db.customers, cart.customer, cart.Cost(q)));
    assert after == Deliver(charged, cart, ids, q);
    var delivered := DeliveredRows(charged, cart, ids, q);
    AddedAnyway(db, charged, cart, ids, q, after);
  }

  /** The debit is on another table. */
  lemma AddedAnyway(db: Db, charged: Db, cart: Cart, ids: seq<int>, n: nat, after: Db)
    requires n <= |cart.codes| && n <= |ids| && charged == db.(customers := charged.customers)
    requires OrdersAdded(charged, cart, ids, n, after.orders) && CodesSold(charged, cart, ids, n, after.codes)
    ensures OrdersAdded(db, cart, ids, n, after.orders) && CodesSold(db, cart, ids, n, after.codes)
  {
  }

  /** The new orders are the ones handed out. */
  lemma OrdersHanded(db: Db, cart: Cart, ids: seq<int>, delivered: seq<Delivery>, orders: Orders)
    requires |delivered| == |ids| == |cart.codes| && Handed(db, cart, ids, delivered)
    requires OrdersAdded(db, cart, ids, |ids|, orders)
    ensures && (forall o :: o in orders <==>
                  o in db.orders || exists i :: 0 <= i < |delivered| && o == delivered[i].order)
            && forall i :: 0 <= i < |delivered| ==>
                 orders[delivered[i].order] == Order(
                   cart.reseller, cart.package, cart.customer, Activated, true, cart.price, 0, false, true,
                   Some(delivered[i].code), true)
  {
    assert cart.codes[..|ids|] == cart.codes;
    forall o
      ensures o in orders <==> o in db.orders || exists i :: 0 <= i < |delivered| && o == delivered[i].order
    {
      if o in cart.codes {
        var i :| 0 <= i < |cart.codes| && cart.codes[i] == o;
        assert delivered[i].order == o;
      }
    }
  }

  /** The sold rows are the ones handed out. */
  lemma CodesHanded(db: Db, cart: Cart, ids: seq<int>, delivered: seq<Delivery>, codes: Shelf)
    requires |delivered| == |ids| == |cart.codes| && Handed(db, cart, ids, delivered)
    requires CodesSold(db, cart, ids, |ids|, codes)
    requires forall i :: 0 <= i < |ids| ==> db.codes[ids[i]].package == cart.package
    ensures && (forall i :: 0 <= i < |ids| ==>
                  codes[ids[i]] == ChargeCode(
                    cart.package, delivered[i].code, true, Some(cart.customer), Some(delivered[i].order)))
            && forall id :: id in db.codes && id !in ids ==> codes[id] == db.codes[id]
  {
    assert ids[..|ids|] == ids;
  }

  /** The rows picked: available, ascending, and the lowest there are. */
  lemma PickedRows(db: Db, cart: Cart, n: nat)
    requires cart.kind.Instant? && n >= 1 && |Picked(db, cart, n)| == n
    ensures var ids := Picked(db, cart, n);
            && (forall i :: 0 <= i < n ==>
                  && 0 <= ids[i] < db.nextCode && ids[i] in db.codes
                  && !db.codes[ids[i]].sold && db.codes[ids[i]].package == cart.package)
            && (forall i, j :: 0 <= i < j < n ==> ids[i] < ids[j])
            && (forall id | id in db.codes && 0 <= id < db.nextCode && id !in ids ::
                  !db.codes[id].sold && db.codes[id].package == cart.package ==> ids[n - 1] < id)
  {
    LowestIsLowest(db.codes, cart.package, n, 0, db.nextCode);
  }

  /** A bulk purchase that goes through, row by row. */
  lemma BulkRows(db: Db, after: Db, cart: Cart, ids: seq<int>, delivered: seq<Delivery>)
    requires cart.kind == Instant(true) && |cart.codes| >= 1
    requires Buy(db, cart) == Some(after) && ids == Picked(db, cart, |cart.codes|)
    requires |delivered| == |ids| == |cart.codes| && Handed(db, cart, ids, delivered)
    requires forall i :: 0 <= i < |ids| ==> db.codes[ids[i]].package == cart.package
    ensures && cart.customer in db.customers
            && var buyer := db.customers[cart.customer]; var total := cart.price * |cart.codes|;
               && after == db.(customers := after.customers, orders := after.orders, codes := after.codes)
               && after.customers.Keys == db.customers.Keys
               && after.customers[cart.customer] == buyer.(balance := buyer.balance - total)
               && forall c :: c in db.customers && c != cart.customer ==> after.customers[c] == db.customers[c]
    ensures && (forall o :: o in after.orders <==>
                  o in db.orders || exists i :: 0 <= i < |delivered| && o == delivered[i].order)
            && (forall o :: o in db.orders ==> after.orders[o] == db.orders[o])
            && forall i :: 0 <= i < |delivered| ==>
                 after.orders[delivered[i].order] == Order(
                   cart.reseller, cart.package, cart.customer, Activated, true, cart.price, 0, false, true,
                   Some(delivered[i].code), true)
    ensures && after.codes.Keys == db.codes.Keys
            && (forall i :: 0 <= i < |ids| ==>
                  after.codes[ids[i]] == ChargeCode(
                    cart.package, delivered[i].code, true, Some(cart.customer), Some(delivered[i].order)))
            && forall id :: id in db.codes && id !in ids ==> after.codes[id] == db.codes[id]
  {
    BulkLeaves(db, after, cart);
    OrdersHanded(db, cart, ids, delivered, after.orders);
    CodesHanded(db, cart, ids, delivered, after.codes);
  }

  /** When a batch can be bought. */
  lemma BoughtExactlyWhen(db: Db, cart: Cart)
    requires cart.kind == Instant(true)
    ensures var q := |cart.codes|;
            Buy(db, cart).Some? <==>
              && cart.package in db.packages
              && cart.customer in db.customers && db.customers[cart.customer].balance >= cart.price * q
              && |set id | id in db.codes && 0 <= id < db.nextCode
                           && !db.codes[id].sold && db.codes[id].package == cart.package| >= q
              && (forall i :: 0 <= i < q ==> cart.codes[i] !in db.orders)
              && forall i, j :: 0 <= i < j < q ==> cart.codes[i] != cart.codes[j]
  {
    cart.CostIsProduct(|cart.codes|);
    LowestCount(db.codes, cart.package, |cart.codes|, 0, db.nextCode);
    AdmittedExactlyWhen(db.orders, cart.codes, |cart.codes|);
  }

  /** The unique key admits a batch of codes that are new and differ from each other. */
  lemma {:induction false} AdmittedExactlyWhen(orders: Orders, codes: seq<string>, n: nat)
    requires n <= |codes|
    ensures Admitted(orders, codes, n) <==>
              && (forall i :: 0 <= i < n ==> codes[i] !in orders)
              && forall i, j :: 0 <= i < j < n ==> codes[i] != codes[j]
  {
    if n > 0 {
      AdmittedExactlyWhen(orders, codes, n - 1);
      AmongIsPrefix(codes, n - 1);
    }
  }

  /** Buying a batch, with the total price multiplied out. */
  lemma BatchBought(db: Db, cart: Cart, total: int)
    requires cart.kind.Instant? && cart.package in db.packages && total == cart.price * |cart.codes|
    ensures var q := |cart.codes|; var ids := Picked(db, cart, q);
            Buy(db, cart) ==
              if cart.customer !in db.customers || db.customers[cart.customer].balance < total || |ids| < q
                 || !Admitted(db.orders, cart.codes, q) then None
              else Some(Deliver(Debit(db, cart.customer, total), cart, ids, q))
  {
    cart.CostIsProduct(|cart.codes|);
  }

  /** The next picked row is untouched so far, and the orders so far are the committed ones and the
      batch's own. */
  lemma UnitIsOpen(db: Db, total: int, cart: Cart, ids: seq<int>, i: nat)
    requires cart.kind.Instant? && i < |cart.codes| == |ids| && cart.customer in db.customers
    requires IsLowest(db.codes, cart.package, |ids|, 0, db.nextCode, ids)
    ensures var d := Deliver(Debit(db, cart.customer, total), cart, ids, i);
            && ids[i] in d.codes && d.codes[ids[i]] == db.codes[ids[i]]
            && d.orders.Keys == db.orders.Keys + Among(cart.codes, i)
  {
    var charged := Debit(db, cart.customer, total);
    assert forall j :: 0 <= j < |ids| ==> Open(db.codes, cart.package, ids[j]);
    Delivered(charged, cart, ids, i);
    History.OthersUntouched(charged, cart, ids, i);
    AmongIsPrefix(ids, i);
  }

  lemma {:induction false} StillRefused(orders: Orders, codes: seq<string>, n: nat, q: nat)
    requires n <= q <= |codes| && !Admitted(orders, codes, n)
    ensures !Admitted(orders, codes, q)
  {
    if n < q {
      StillRefused(orders, codes, n, q - 1);
    }
  }

  /** The unique key can only refuse a batch because of an order that was there before. */
  lemma {:induction false} BatchAdmitted(orders: Orders, prefix: string, stamps: seq<Stamp>, n: nat)
    requires n <= |stamps| && forall k :: 0 <= k < |stamps| ==> stamps[k].Valid()
    ensures Admitted(orders, Batch(prefix, stamps), n) <==>
              forall i :: 0 <= i < n ==> Batch(prefix, stamps)[i] !in orders
  {
    if n > 0 {
      var codes := Batch(prefix, stamps);
      BatchAdmitted(orders, prefix, stamps, n - 1);
      BatchIsDistinct(prefix, stamps);
      AmongIsPrefix(codes, n - 1);
      assert codes[n - 1] !in codes[..n - 1];
    }
  }

  /** The clock and the random suffix give strings of fixed width; then the codes of one batch always differ,
      and only an order from before can stand in the way. */
  lemma BulkSucceedsExactlyWhen(db: Db, reseller: int, package: int, customer: int, stamps: seq<Stamp>)
    requires reseller in db.resellers && package in db.packages
    requires forall k :: 0 <= k < |stamps| ==> stamps[k].Valid()
    ensures var cart := BulkCart(db, reseller, package, customer, stamps); var q := |stamps|;
            Buy(db, cart).Some? <==>
              && customer in db.customers && db.customers[customer].balance >= db.packages[package].price * q
              && |set id | id in db.codes && 0 <= id < db.nextCode
                           && !db.codes[id].sold && db.codes[id].package == package| >= q
              && forall i :: 0 <= i < q ==> cart.codes[i] !in db.orders
  {
    var cart := BulkCart(db, reseller, package, customer, stamps);
    BoughtExactlyWhen(db, cart);
    BatchIsDistinct(db.resellers[reseller].prefix, stamps);
  }

  // ---------------------------------------------------------------- a single code

  function SingleCart(db: Db, reseller: int, package: int, customer: int, stamp: Stamp): (cart: Cart)
    requires reseller in db.resellers && package in db.packages
  {
    Cart(Instant(false), reseller, package, customer, db.packages[package].price,
         [OrderCode(db.resellers[reseller].prefix, stamp, None)])
  }

  /** With a price that is not negative, what the purchases commit is what the theorems over runs are about. */
  lemma PurchasesAreValid(db: Db, reseller: int, package: int, customer: int, stamp: Stamp, stamps: seq<Stamp>)
    requires reseller in db.resellers && package in db.packages && db.packages[package].price >= 0
    ensures CPurchase(SingleCart(db, reseller, package, customer, stamp)).Valid()
    ensures Matches(db, CPurchase(SingleCart(db, reseller, package, customer, stamp)))
    ensures |stamps| >= 1 ==> CPurchase(BulkCart(db, reseller, package, customer, stamps)).Valid()
    ensures Matches(db, CPurchase(BulkCart(db, reseller, package, customer, stamps)))
  {
  }

  /** Buy one code.  `sold_order_id` is written by a statement of its own after the commit.  `id` is the row
      handed out. */
  method PurchaseCharge(s: Session, reseller: int, package: int, customer: int, stamp: Stamp)
    returns (r: Result<Delivery>, ghost id: int)
    requires !s.open
    modifies s
    ensures !s.open
    ensures r.Failure? ==> s.committed == old(s.committed)
    ensures r.Success? ==>
              && reseller in old(s.committed).resellers && package in old(s.committed).packages
              && var cart := SingleCart(old(s.committed), reseller, package, customer, stamp);
                 Some(s.committed) == BuyThenLink(old(s.committed), cart)
    ensures var db := old(s.committed);
            r == Failure(CustomerBlacklisted) <==>
              && customer in db.customers
              && exists i :: 0 <= i < |db.blacklist| && db.blacklist[i].user == db.customers[customer].user
                   && (db.blacklist[i].isGlobal || db.blacklist[i].reporter == Some(reseller))
    ensures r == Failure(NoSuchPackage) <==> r != Failure(CustomerBlacklisted) && package !in old(s.committed).packages
    ensures var db := old(s.committed);
            r == Failure(InsufficientBalance) <==>
              && r != Failure(CustomerBlacklisted)
              && reseller in db.resellers && package in db.packages && customer in db.customers
              && db.customers[customer].balance < db.packages[package].price
    ensures var db := old(s.committed);
            r == Failure(OutOfStock(0)) <==>
              && r != Failure(CustomerBlacklisted)
              && reseller in db.resellers && package in db.packages && customer in db.customers
              && db.customers[customer].balance >= db.packages[package].price
              && forall c :: c in db.codes && 0 <= c < db.nextCode ==>
                   db.codes[c].sold || db.codes[c].package != package
    ensures var db := old(s.committed);
            r.Success? <==>
              && r != Failure(CustomerBlacklisted)
              && reseller in db.resellers && package in db.packages && customer in db.customers
              && db.customers[customer].balance >= db.packages[package].price
              && (exists c :: c in db.codes && 0 <= c < db.nextCode
                              && !db.codes[c].sold && db.codes[c].package == package)
              && OrderCode(db.resellers[reseller].prefix, stamp, None) !in db.orders
    ensures var db := old(s.committed);
            r.Success? ==>
              && id in db.codes && 0 <= id < db.nextCode && !db.codes[id].sold && db.codes[id].package == package
              && forall c :: c in db.codes && 0 <= c < id ==> db.codes[c].sold || db.codes[c].package != package
    ensures var db := old(s.committed);
            r.Success? ==>
              var order := OrderCode(db.resellers[reseller].prefix, stamp, None);
              var price, code, buyer := db.packages[package].price, db.codes[id].code, db.customers[customer];
              && r.value == Delivery(order, code)
              && s.committed == db.(
                   customers := db.customers[customer := buyer.(balance := buyer.balance - price)],
                   orders := db.orders[order := Order(
                     reseller, package, customer, Activated, true, price, 0, false, true, Some(code), true)],
                   codes := db.codes[id := ChargeCode(package, code, true, Some(customer), Some(order))])
  {
    id := 0;
    var refused := CheckBuyer(s, reseller, package, customer);
    if refused.Some? {
      return Failure(refused.value), id;
    }
    if reseller !in s.committed.resellers {
      return Failure(Failed), id;
    }
    LowestOne(s.committed.codes, package, s.committed.nextCode);
    r, id := PayForOne(s, SingleCart(s.committed, reseller, package, customer, stamp));
  }

  /** The transaction of the single purchase, and the link after it. */
  method PayForOne(s: Session, cart: Cart) returns (r: Result<Delivery>, ghost id: int)
    requires !s.open && cart.kind == Instant(false) && |cart.codes| == 1 && cart.package in s.committed.packages
    modifies s
    ensures !s.open
    ensures r.Failure? ==> s.committed == old(s.committed)
    ensures r.Failure? ==> r.error.InsufficientBalance? || r.error == OutOfStock(0) || r.error.Failed?
    ensures r.Success? ==> Some(s.committed) == BuyThenLink(old(s.committed), cart)
    ensures var db := old(s.committed);
            r == Failure(InsufficientBalance) <==>
              cart.customer in db.customers && db.customers[cart.customer].balance < cart.price
    ensures var db := old(s.committed);
            r == Failure(OutOfStock(0)) <==>
              && cart.customer in db.customers && db.customers[cart.customer].balance >= cart.price
              && Lowest(db.codes, cart.package, 1, 0, db.nextCode) == []
    ensures var db := old(s.committed);
            r.Success? <==>
              && cart.customer in db.customers && db.customers[cart.customer].balance >= cart.price
              && Lowest(db.codes, cart.package, 1, 0, db.nextCode) != [] && cart.codes[0] !in db.orders
    ensures var db := old(s.committed);
            r.Success? ==>
              && Lowest(db.codes, cart.package, 1, 0, db.nextCode) == [id] && id in db.codes
              && var order, code, buyer := cart.codes[0], db.codes[id].code, db.customers[cart.customer];
                 && r.value == Delivery(order, code)
                 && s.committed == db.(
                      customers := db.customers[cart.customer := buyer.(balance := buyer.balance - cart.price)],
                      orders := db.orders[order := Order(
                        cart.reseller, cart.package, cart.customer, Activated, true, cart.price, 0, false, true,
                        Some(code), true)],
                      codes := db.codes[id := ChargeCode(cart.package, code, true, Some(cart.customer), Some(order))])
  {
    id := 0;
    var order := cart.codes[0];
    ghost var db := s.committed;
    s.Begin();
    if cart.customer !in s.work.customers {
      s.Rollback();
      return Failure(Failed), id;
    }
    if s.work.customers[cart.customer].balance < cart.price {
      s.Rollback();
      return Failure(InsufficientBalance), id;
    }
    var ids := Lowest(s.work.codes, cart.package, 1, 0, s.work.nextCode);
    if |ids| == 0 {
      s.Rollback();
      return Failure(OutOfStock(0)), id;
    }
    LowestOne(db.codes, cart.package, db.nextCode);
    id := ids[0];
    s.work := Debit(s.work, cart.customer, cart.price);
    if order in s.work.orders {
      s.Rollback();
      return Failure(Failed), id;
    }
    var row := s.work.codes[ids[0]];
    s.work := s.work.(orders := s.work.orders[order := Order(
      cart.reseller, cart.package, cart.customer, Activated, true, cart.price, 0, false, true, Some(row.code), true)]);
    s.work := s.work.(codes := s.work.codes[ids[0] := SoldRow(row, cart.customer, None)]);
    SingleBought(db, cart, ids, s.work);
    s.Commit();
    s.Execute(s.committed.(codes := LinkOrder(s.committed.codes, ids[0], order)));
    return Success(Delivery(order, row.code)), id;
  }

  /** The transaction of a single purchase is the cart's. */
  lemma SingleBought(db: Db, cart: Cart, ids: seq<int>, after: Db)
    requires cart.kind == Instant(false) && |cart.codes| == 1 && cart.codes[0] !in db.orders
    requires cart.package in db.packages && cart.customer in db.customers
    requires db.customers[cart.customer].balance >= cart.price
    requires ids == Lowest(db.codes, cart.package, 1, 0, db.nextCode) && |ids| == 1 && ids[0] in db.codes
    requires var code := db.codes[ids[0]].code; var buyer := db.customers[cart.customer];
             after == db.(
               customers := db.customers[cart.customer := buyer.(balance := buyer.balance - cart.price)],
               orders := db.orders[cart.codes[0] := Order(
                 cart.reseller, cart.package, cart.customer, Activated, true, cart.price, 0, false, true,
                 Some(code), true)],
               codes := db.codes[ids[0] := SoldRow(db.codes[ids[0]], cart.customer, None)])
    ensures Buy(db, cart) == Some(after)
  {
    assert cart.Cost(1) == cart.Cost(0) + cart.price == cart.price;
    assert Admitted(db.orders, cart.codes, 0) && Among(cart.codes, 0) == {};
    DeliverOne(Debit(db, cart.customer, cart.price), cart, ids);
  }

  /** One statement more, if the calls before it went through. */
  function StatementAfter(before: Option<Db>, next: Call): (after: Option<Db>)
    requires next.Single()
  {
    match before
    case None => None
    case Some(d) => Statement(d, next)
  }

  // ---------------------------------------------------------------- the reseller's stock

  /** The codes a pasted text holds: one a line, stripped, blanks and repetitions left out. */
  function Cleaned(lines: seq<string>): (codes: seq<string>) {
    if lines == [] then []
    else
      var before := Cleaned(lines[..|lines| - 1]);
      var line := Strip(lines[|lines| - 1]);
      if line == [] || line in before then before else before + [line]
  }

  /** Every non-blank line is there once, stripped, and nothing else. */
  lemma {:induction false} CleanedIsDistinct(lines: seq<string>)
    ensures var codes := Cleaned(lines);
            && (forall i, j :: 0 <= i < j < |codes| ==> codes[i] != codes[j])
            && (forall c :: c in codes <==> c != [] && exists i :: 0 <= i < |lines| && c == Strip(lines[i]))
  {
    if lines != [] {
      var most := lines[..|lines| - 1];
      CleanedIsDistinct(most);
      var line := Strip(lines[|lines| - 1]);
      forall c
        ensures c in Cleaned(lines) <==> c in Cleaned(most) || (c != [] && c == line)
      {
      }
      assert forall i :: 0 <= i < |most| ==> most[i] == lines[i];
    }
  }

  /** The codes keep the order in which they first occur: reading more lines only adds at the end. */
  lemma {:induction false} CleanedInOrder(lines: seq<string>, n: nat)
    requires n <= |lines|
    ensures Cleaned(lines[..n]) <= Cleaned(lines)
  {
    if n < |lines| {
      CleanedInOrder(lines[..|lines| - 1], n);
      assert lines[..|lines| - 1][..n] == lines[..n];
    } else {
      assert lines[..n] == lines;
    }
  }

  /** The rows a list of codes becomes, numbered from the counter on. */
  function Stocked(db: Db, package: int, codes: seq<string>): (after: Option<Db>) {
    if codes == [] then Some(db)
    else StatementAfter(Stocked(db, package, codes[..|codes| - 1]), CAddCode(package, codes[|codes| - 1]))
  }

  /** Without the package not a single row can be added. */
  lemma {:induction false} StockedNeedsPackage(db: Db, package: int, codes: seq<string>)
    ensures Stocked(db, package, codes).Some? <==> codes == [] || package in db.packages
    ensures Stocked(db, package, codes).Some? ==> Stocked(db, package, codes).value.packages == db.packages
  {
    if codes != [] {
      StockedNeedsPackage(db, package, codes[..|codes| - 1]);
    }
  }

  /** Each code is a new available row of the package, numbered from the counter on, and nothing else changes. */
  ghost predicate Shelved(db: Db, package: int, codes: seq<string>, after: Db) {
    && after == db.(codes := after.codes, nextCode := db.nextCode + |codes|)
    && (forall id :: id in after.codes <==> id in db.codes || db.nextCode <= id < db.nextCode + |codes|)
    && (forall i :: 0 <= i < |codes| && db.nextCode + i in after.codes ==>
          after.codes[db.nextCode + i] == ChargeCode(package, codes[i], false, None, None))
    && forall id :: id in db.codes && !(db.nextCode <= id < db.nextCode + |codes|) ==> after.codes[id] == db.codes[id]
  }

  lemma OneMoreShelved(db: Db, package: int, codes: seq<string>, before: Db, code: string)
    requires Shelved(db, package, codes, before)
    ensures Shelved(db, package, codes + [code], before.(
              codes := before.codes[before.nextCode := ChargeCode(package, code, false, None, None)],
              nextCode := before.nextCode + 1))
  {
  }

  lemma {:induction false} StockedRows(db: Db, package: int, codes: seq<string>) returns (after: Db)
    requires Stocked(db, package, codes).Some?
    ensures Stocked(db, package, codes) == Some(after) && Shelved(db, package, codes, after)
  {
    if codes == [] {
      after := db;
    } else {
      var most, code := codes[..|codes| - 1], codes[|codes| - 1];
      var before := StockedRows(db, package, most);
      assert codes == most + [code];
      NextShelved(db, package, most, code, codes, before);
      after := Statement(before, CAddCode(package, code)).value;
    }
  }

  lemma NextShelved(db: Db, package: int, most: seq<string>, code: string, codes: seq<string>, before: Db)
    requires Shelved(db, package, most, before) && codes == most + [code]
    requires Statement(before, CAddCode(package, code)).Some?
    ensures Shelved(db, package, codes, Statement(before, CAddCode(package, code)).value)
  {
    OneMoreShelved(db, package, most, before, code);
  }

  /** Add the codes of a pasted text to a package's stock, one statement each; an error when the package
      does not exist. */
  method AddChargeCodes(s: Session, package: int, rawText: string) returns (added: Option<nat>)
    requires !s.open
    modifies s
    ensures !s.open
    ensures added.Some? <==> Cleaned(SplitLines(rawText)) == [] || package in old(s.committed).packages
    ensures added.Some? ==>
              && added.value == |Cleaned(SplitLines(rawText))|
              && Stocked(old(s.committed), package, Cleaned(SplitLines(rawText))) == Some(s.committed)
    ensures added.None? ==> s.committed == old(s.committed)
    ensures var db := old(s.committed); var codes := Cleaned(SplitLines(rawText));
            added.Some? ==>
              && s.committed == db.(codes := s.committed.codes, nextCode := db.nextCode + |codes|)
              && (forall id :: id in s.committed.codes <==>
                    id in db.codes || db.nextCode <= id < db.nextCode + |codes|)
              && (forall i :: 0 <= i < |codes| ==>
                    s.committed.codes[db.nextCode + i] == ChargeCode(package, codes[i], false, None, None))
              && forall id :: id in db.codes && !(db.nextCode <= id < db.nextCode + |codes|) ==>
                   s.committed.codes[id] == db.codes[id]
  {
    var cleaned := CleanLines(SplitLines(rawText));
    var ok := AddRows(s, package, cleaned);
    if !ok {
      return None;
    }
    ghost var stocked := StockedRows(old(s.committed), package, cleaned);
    return Some(|cleaned|);
  }

  /** The loop that cleans the lines. */
  method CleanLines(lines: seq<string>) returns (cleaned: seq<string>)
    ensures cleaned == Cleaned(lines)
  {
    var seen: set<string> := {};
    cleaned := [];
    var i := 0;
    while i < |lines|
      invariant 0 <= i <= |lines| && cleaned == Cleaned(lines[..i])
      invariant forall c :: c in seen <==> c in cleaned
    {
      var line := Strip(lines[i]);
      assert lines[..i + 1][..i] == lines[..i];
      if line != [] && line !in seen {
        seen := seen + {line};
        cleaned := cleaned + [line];
      }
      i := i + 1;
    }
    assert lines[..i] == lines;
  }

  /** The loop that inserts them, one statement each. */
  method AddRows(s: Session, package: int, codes: seq<string>) returns (ok: bool)
    requires !s.open
    modifies s
    ensures !s.open && (ok <==> codes == [] || package in old(s.committed).packages)
    ensures if ok then Stocked(old(s.committed), package, codes) == Some(s.committed)
            else s.committed == old(s.committed)
  {
    var k := 0;
    while k < |codes|
      invariant 0 <= k <= |codes| && !s.open
      invariant k > 0 ==> package in old(s.committed).packages
      invariant Stocked(old(s.committed), package, codes[..k]) == Some(s.committed)
    {
      assert codes[..k + 1][..k] == codes[..k];
      StockedNeedsPackage(old(s.committed), package, codes[..k]);
      if package !in s.committed.packages {
        return false;
      }
      s.Execute(s.committed.(
        codes := s.committed.codes[s.committed.nextCode := ChargeCode(package, codes[k], false, None, None)],
        nextCode := s.committed.nextCode + 1));
      k := k + 1;
    }
    assert codes[..k] == codes;
    return true;
  }

  /** Only available codes can be deleted. */
  method DeleteAvailableCode(s: Session, id: int)
    requires !s.open
    modifies s
    ensures !s.open && Spec(old(s.committed), CDeleteCode(id)) == Some(s.committed)
    ensures var db := old(s.committed);
            && s.committed == db.(codes := s.committed.codes)
            && (forall c :: c in s.committed.codes <==> c in db.codes && (c == id ==> db.codes[c].sold))
            && forall c :: c in s.committed.codes ==> s.committed.codes[c] == db.codes[c]
  {
    if id in s.committed.codes && !s.committed.codes[id].sold {
      s.Execute(s.committed.(codes := s.committed.codes - {id}));
    }
  }

  /** Deletes what it counted: with nobody else at work the count is how many rows went. */
  method ClearAvailableCodes(s: Session, package: int) returns (count: nat)
    requires !s.open
    modifies s
    ensures !s.open && Spec(old(s.committed), CClearCodes(package)) == Some(s.committed)
    ensures count == |old(s.committed).codes.Keys - s.committed.codes.Keys|
    ensures var db := old(s.committed);
            && s.committed == db.(codes := s.committed.codes)
            && (forall c :: c in s.committed.codes <==>
                  c in db.codes && (db.codes[c].package == package ==> db.codes[c].sold))
            && forall c :: c in s.committed.codes ==> s.committed.codes[c] == db.codes[c]
  {
    count := |AvailableCodes(s.committed.codes, {package})|;
    s.Execute(s.committed.(codes := ClearCodes(s.committed.codes, package)));
    assert old(s.committed).codes.Keys - s.committed.codes.Keys == AvailableCodes(old(s.committed).codes, {package});
  }
}
