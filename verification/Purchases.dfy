/** A bulk purchase is q single purchases in a row, and the order codes of one batch never collide. */
module Purchases {
  import opened Schema
  import opened Stock
  import opened Settlement

  /** Unit `i` of a cart bought on its own. */
  function One(cart: Cart, i: nat): (single: Cart)
    requires i < |cart.codes|
  {
    cart.(codes := [cart.codes[i]])
  }

  /** The next purchase, if the ones before it went through. */
  function BuyAfter(before: Option<Db>, next: Cart): (after: Option<Db>) {
    match before
    case None => None
    case Some(d) => Buy(d, next)
  }

  /** What delivering leaves alone, and what it does to the orders and the shelf. */
  lemma {:induction false} Delivered(db: Db, cart: Cart, ids: seq<int>, n: nat)
    requires n <= |cart.codes|
    requires cart.kind.Instant? ==> n <= |ids| && forall i :: 0 <= i < n ==> ids[i] in db.codes
    ensures var d := Deliver(db, cart, ids, n);
            && d == db.(orders := d.orders, codes := d.codes)
            && d.codes.Keys == db.codes.Keys
            && d.orders.Keys == db.orders.Keys + Among(cart.codes, n)
            && (cart.kind.Instant? ==> forall id :: id in db.codes ==>
                  d.codes[id].sold == (db.codes[id].sold || id in Among(ids, n))
                  && d.codes[id].package == db.codes[id].package && d.codes[id].code == db.codes[id].code)
            && (cart.kind.ByHand? ==> d.codes == db.codes)
  {
    if n > 0 {
      Delivered(db, cart, ids, n - 1);
    }
  }

  lemma {:induction false} DeliverAfterDebit(db: Db, customers: map<int, Customer>, cart: Cart, ids: seq<int>, n: nat)
    requires n <= |cart.codes|
    ensures Deliver(db.(customers := customers), cart, ids, n) == Deliver(db, cart, ids, n).(customers := customers)
  {
    if n > 0 {
      DeliverAfterDebit(db, customers, cart, ids, n - 1);
    }
  }

  lemma {:induction false} DeliverPrefix(db: Db, cart: Cart, ids: seq<int>, more: seq<int>, n: nat)
    requires n <= |cart.codes| && n <= |ids|
    ensures Deliver(db, cart, ids + more, n) == Deliver(db, cart, ids, n)
  {
    if n > 0 {
      DeliverPrefix(db, cart, ids, more, n - 1);
    }
  }

  /** What the first n units of a successful instant purchase leave for the next one. */
  lemma BoughtFirst(db: Db, cart: Cart, n: nat)
    requires cart.Valid() && cart.kind.Instant? && n <= |cart.codes|
    requires BuyFirst(db, cart, n).Some?
    ensures var d := BuyFirst(db, cart, n).value;
            && d.nextCode == db.nextCode && d.packages == db.packages
            && cart.customer in db.customers
            && d.customers == Debit(db, cart.customer, cart.Cost(n)).customers
            && |Picked(db, cart, n)| == n
            && SoldFrom(db.codes, d.codes, cart.package, Picked(db, cart, n))
            && d.orders.Keys == db.orders.Keys + Among(cart.codes, n)
  {
    var ids, charged := Picked(db, cart, n), Debit(db, cart.customer, cart.Cost(n));
    assert BuyFirst(db, cart, n).value == Deliver(charged, cart, ids, n);
    PickedAreRows(db, cart, n);
    Delivered(charged, cart, ids, n);
    DeliveredAreGone(charged, cart, ids);
  }

  lemma PickedAreRows(db: Db, cart: Cart, n: nat)
    requires cart.kind.Instant?
    ensures forall i :: 0 <= i < |Picked(db, cart, n)| ==> Picked(db, cart, n)[i] in db.codes
  {
    LowestIsLowest(db.codes, cart.package, n, 0, db.nextCode);
  }

  lemma DeliveredAreGone(db: Db, cart: Cart, ids: seq<int>)
    requires cart.kind.Instant? && |ids| <= |cart.codes| && forall i :: 0 <= i < |ids| ==> ids[i] in db.codes
    ensures SoldFrom(db.codes, Deliver(db, cart, ids, |ids|).codes, cart.package, ids)
  {
    Delivered(db, cart, ids, |ids|);
    SoldAreGone(db.codes, Deliver(db, cart, ids, |ids|).codes, cart.package, ids);
  }

  /** Marking the picked rows sold takes exactly them off the shelf. */
  lemma SoldAreGone(codes: Shelf, after: Shelf, package: int, ids: seq<int>)
    requires after.Keys == codes.Keys
    requires forall id :: id in codes ==>
               after[id].sold == (codes[id].sold || id in Among(ids, |ids|)) && after[id].package == codes[id].package
    ensures SoldFrom(codes, after, package, ids)
  {
    AmongIsPrefix(ids, |ids|);
    assert ids[..|ids|] == ids;
  }

  /** One unit more is one single purchase more. */
  lemma BuyOneMore(db: Db, cart: Cart, n: nat)
    requires cart.Valid() && cart.kind.Instant? && n < |cart.codes|
    requires n == 0 ==> cart.customer in db.customers
    requires BuyFirst(db, cart, n).Some?
    ensures BuyFirst(db, cart, n + 1) == Buy(BuyFirst(db, cart, n).value, One(cart, n))
  {
    var d := BuyFirst(db, cart, n).value;
    var single := One(cart, n);
    BoughtFirst(db, cart, n);
    assert cart.Cost(n + 1) == cart.Cost(n) + cart.price;
    assert single.Cost(1) == cart.price;
    var ids := Picked(db, cart, n);
    var next := Picked(d, single, 1);
    if |Picked(db, cart, n + 1)| == n + 1 {
      ShelfNotBare(db.codes, d.codes, cart.package, n, db.nextCode);
    }
    if |next| == 1 {
      NextOnShelf(db.codes, d.codes, cart.package, n, db.nextCode);
    }
    AdmittedOneMore(db, d, cart, n);
    if BuyFirst(db, cart, n + 1).Some? {
      SameDelivery(db, d, cart, ids, next, n);
    }
  }

  lemma AdmittedOneMore(db: Db, d: Db, cart: Cart, n: nat)
    requires n < |cart.codes|
    requires Admitted(db.orders, cart.codes, n)
    requires d.orders.Keys == db.orders.Keys + Among(cart.codes, n)
    ensures Admitted(db.orders, cart.codes, n + 1) <==> Admitted(d.orders, One(cart, n).codes, 1)
  {
    assert One(cart, n).codes[0] == cart.codes[n];
    assert Admitted(d.orders, One(cart, n).codes, 0) && Among(One(cart, n).codes, 0) == {};
  }

  /** One unit delivered is one order put. */
  lemma DeliverOne(db: Db, cart: Cart, ids: seq<int>)
    requires |cart.codes| >= 1
    ensures Deliver(db, cart, ids, 1) == PutOrder(db, cart, ids, 0)
  {
    assert Deliver(db, cart, ids, 1) == PutOrder(Deliver(db, cart, ids, 0), cart, ids, 0);
  }

  /** The last unit of a longer pick is put like a unit on its own. */
  lemma PutAlone(db: Db, cart: Cart, ids: seq<int>, next: seq<int>, n: nat)
    requires n < |cart.codes| && cart.kind.Instant? && |ids| == n && |next| == 1
    ensures PutOrder(db, cart, ids + next, n) == PutOrder(db, One(cart, n), next, 0)
  {
    assert (ids + next)[n] == next[0] && One(cart, n).codes[0] == cart.codes[n];
    assert NewOrder(One(cart, n), None) == NewOrder(cart, None);
    if next[0] in db.codes {
      var code := db.codes[next[0]].code;
      assert NewOrder(One(cart, n), Some(code)) == NewOrder(cart, Some(code));
    }
  }

  lemma DebitAgain(db: Db, cart: Cart, ids: seq<int>, n: nat, first: int, more: int)
    requires n <= |cart.codes| && cart.customer in db.customers
    ensures var d := Deliver(Debit(db, cart.customer, first), cart, ids, n);
            && cart.customer in d.customers
            && Debit(d, cart.customer, more) == Deliver(Debit(db, cart.customer, first + more), cart, ids, n)
  {
    var charged := Debit(db, cart.customer, first + more);
    DeliverAfterDebit(db, Debit(db, cart.customer, first).customers, cart, ids, n);
    DeliverAfterDebit(db, charged.customers, cart, ids, n);
    var d := Deliver(Debit(db, cart.customer, first), cart, ids, n);
    assert Debit(d, cart.customer, more).customers == charged.customers;
  }

  lemma SameDelivery(db: Db, d: Db, cart: Cart, ids: seq<int>, next: seq<int>, n: nat)
    requires n < |cart.codes| && cart.kind.Instant?
    requires cart.customer in db.customers && |ids| == n && |next| == 1
    requires d == Deliver(Debit(db, cart.customer, cart.Cost(n)), cart, ids, n)
    requires cart.Cost(n + 1) == cart.Cost(n) + cart.price == cart.Cost(n) + One(cart, n).Cost(1)
    ensures cart.customer in d.customers
    ensures Deliver(Debit(db, cart.customer, cart.Cost(n + 1)), cart, ids + next, n + 1)
            == Deliver(Debit(d, cart.customer, One(cart, n).Cost(1)), One(cart, n), next, 1)
  {
    DebitAgain(db, cart, ids, n, cart.Cost(n), One(cart, n).Cost(1));
    var total := Debit(db, cart.customer, cart.Cost(n + 1));
    DeliverPrefix(total, cart, ids, next, n);
    PutAlone(Deliver(total, cart, ids, n), cart, ids, next, n);
    DeliverOne(Debit(d, cart.customer, One(cart, n).Cost(1)), One(cart, n), next);
  }

  /** A refused smaller purchase means a refused larger one. */
  lemma RefusedStaysRefused(db: Db, cart: Cart, n: nat)
    requires cart.Valid() && cart.kind.Instant? && n < |cart.codes|
    requires BuyFirst(db, cart, n).None?
    ensures BuyFirst(db, cart, n + 1).None?
  {
    assert cart.Cost(n + 1) == cart.Cost(n) + cart.price;
    LowestPrefix(db.codes, cart.package, n, n + 1, 0, db.nextCode);
  }

  lemma FirstUnit(db: Db, cart: Cart)
    requires |cart.codes| >= 1
    ensures BuyFirst(db, cart, 1) == Buy(db, One(cart, 0))
  {
    var single := One(cart, 0);
    assert single.Cost(1) == cart.Cost(1);
    assert Picked(db, single, 1) == Picked(db, cart, 1);
    assert Admitted(db.orders, cart.codes, 1) <==> Admitted(db.orders, single.codes, 1) by {
      assert single.codes[0] == cart.codes[0];
      assert Among(single.codes, 0) == Among(cart.codes, 0);
    }
    if cart.customer in db.customers {
      FirstDelivery(Debit(db, cart.customer, cart.Cost(1)), cart, Picked(db, cart, 1));
    }
  }

  lemma FirstDelivery(db: Db, cart: Cart, ids: seq<int>)
    requires |cart.codes| >= 1
    ensures Deliver(db, cart, ids, 1) == Deliver(db, One(cart, 0), ids, 1)
  {
    DeliverOne(db, cart, ids);
    DeliverOne(db, One(cart, 0), ids);
  }

  lemma OneMore(db: Db, cart: Cart, n: nat, before: Option<Db>)
    requires cart.Valid() && cart.kind.Instant? && 1 < n <= |cart.codes|
    requires before == BuyFirst(db, cart, n - 1)
    ensures BuyFirst(db, cart, n) == BuyAfter(before, One(cart, n - 1))
  {
    match before
    case None => RefusedStaysRefused(db, cart, n - 1);
    case Some(d) => BuyOneMore(db, cart, n - 1);
  }

  // ---------------------------------------------------------------- the single purchase of the service

  /** Unit `i` of a bulk cart as purchase_charge buys it: without the link to its order. */
  function Single(cart: Cart, i: nat): (single: Cart)
    requires i < |cart.codes|
  {
    cart.(kind := Instant(false), codes := [cart.codes[i]])
  }

  /** purchase_charge: the transaction, and the link to the order in a statement after its commit. */
  function BuyThenLink(db: Db, single: Cart): (after: Option<Db>)
    requires |single.codes| == 1
  {
    match Buy(db, single)
    case None => None
    case Some(d) =>
      if |Picked(db, single, 1)| == 0 then Some(d)
      else Statement(d, CLinkOrder(Picked(db, single, 1)[0], single.codes[0]))
  }

  function BuyThenLinkAfter(before: Option<Db>, single: Cart): (after: Option<Db>)
    requires |single.codes| == 1
  {
    match before
    case None => None
    case Some(d) => BuyThenLink(d, single)
  }

  /** The first `n` units bought with consecutive calls of purchase_charge. */
  function BuySingles(db: Db, cart: Cart, n: nat): (after: Option<Db>)
    requires n <= |cart.codes|
  {
    if n == 0 then Some(db) else BuyThenLinkAfter(BuySingles(db, cart, n - 1), Single(cart, n - 1))
  }

  /** Linking afterwards leaves what linking inside the transaction does. */
  lemma LinkedAfterwards(db: Db, cart: Cart, i: nat)
    requires cart.kind == Instant(true) && i < |cart.codes|
    ensures BuyThenLink(db, Single(cart, i)) == Buy(db, One(cart, i))
  {
    var single, one := Single(cart, i), One(cart, i);
    assert single.codes == one.codes && single.Cost(1) == one.Cost(1) by {
      assert single.Cost(1) == single.Cost(0) + single.price && one.Cost(1) == one.Cost(0) + one.price;
    }
    if Buy(db, one).Some? {
      var ids := Picked(db, one, 1);
      LowestIsLowest(db.codes, cart.package, 1, 0, db.nextCode);
      LinkUnit(Debit(db, cart.customer, one.Cost(1)), single, one, ids);
    }
  }

  lemma LinkUnit(db: Db, single: Cart, one: Cart, ids: seq<int>)
    requires single == one.(kind := Instant(false)) && one.kind == Instant(true) && |one.codes| == 1
    requires |ids| == 1 && ids[0] in db.codes
    ensures Statement(Deliver(db, single, ids, 1), CLinkOrder(ids[0], single.codes[0]))
            == Some(Deliver(db, one, ids, 1))
  {
    assert Deliver(db, single, ids, 1) == PutOrder(Deliver(db, single, ids, 0), single, ids, 0);
    assert Deliver(db, one, ids, 1) == PutOrder(Deliver(db, one, ids, 0), one, ids, 0);
    var d := PutOrder(db, single, ids, 0);
    assert LinkOrder(d.codes, ids[0], single.codes[0]) == PutOrder(db, one, ids, 0).codes;
  }

  lemma SingleIsUnit(before: Option<Db>, cart: Cart, i: nat)
    requires cart.kind == Instant(true) && i < |cart.codes|
    ensures BuyThenLinkAfter(before, Single(cart, i)) == BuyAfter(before, One(cart, i))
  {
    match before
    case None =>
    case Some(d) => LinkedAfterwards(d, cart, i);
  }

  lemma {:induction false} FirstIsSingles(db: Db, cart: Cart, n: nat)
    requires cart.Valid() && cart.kind == Instant(true) && 1 <= n <= |cart.codes|
    ensures BuyFirst(db, cart, n) == BuySingles(db, cart, n)
  {
    if n == 1 {
      FirstUnit(db, cart);
      LinkedAfterwards(db, cart, 0);
      assert BuySingles(db, cart, 1) == BuyThenLinkAfter(BuySingles(db, cart, 0), Single(cart, 0));
    } else {
      FirstIsSingles(db, cart, n - 1);
      OneSingleMore(db, cart, n, BuySingles(db, cart, n - 1));
    }
  }

  lemma OneSingleMore(db: Db, cart: Cart, n: nat, before: Option<Db>)
    requires cart.Valid() && cart.kind == Instant(true) && 1 < n <= |cart.codes|
    requires before == BuyFirst(db, cart, n - 1)
    ensures BuyFirst(db, cart, n) == BuyThenLinkAfter(before, Single(cart, n - 1))
  {
    OneMore(db, cart, n, before);
    SingleIsUnit(before, cart, n - 1);
  }

  /** A bulk purchase commits exactly when its units bought with consecutive single purchases all would,
      and leaves exactly the tables they would: same balance, same code rows in the same order, same
      orders, same links. */
  lemma BulkIsSingles(db: Db, cart: Cart)
    requires cart.Valid() && cart.kind == Instant(true)
    ensures Buy(db, cart) == BuySingles(db, cart, |cart.codes|)
  {
    FirstIsSingles(db, cart, |cart.codes|);
  }
}
