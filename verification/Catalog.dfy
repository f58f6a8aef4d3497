/** Deleting operators, subcategories and packages over the foreign keys: packages go with their
    category (CASCADE), charge codes with their package (CASCADE), a package with an order is kept
    (RESTRICT), and a category whose parent goes loses it (SET NULL). */
module Catalog {
  import opened Schema
  import opened Stock
  import opened Settlement
  import opened History
  import opened CodeSales
  import opened Sessions
  import opened Machine
  import opened Serial

  // ---------------------------------------------------------------- the two DELETE statements

  function PackagesIn(db: Db, categories: set<int>): (packages: set<int>) {
    set p | p in db.packages && db.packages[p].category in categories
  }

  function Children(db: Db, parents: set<int>): (children: set<int>) {
    set c | c in db.categories && db.categories[c].parent.Some? && db.categories[c].parent.value in parents
  }

  function DeletePackages(db: Db, packages: set<int>): (after: Option<Db>) {
    Statement(db, CDropPackages(packages))
  }

  /** The categories that stay; SET NULL on the ones whose parent does not. */
  function Orphaned(categories: map<int, Category>, gone: set<int>): (after: map<int, Category>) {
    map c | c in categories && c !in gone ::
      var row := categories[c];
      if row.parent.Some? && row.parent.value in gone then row.(parent := None) else row
  }

  function DeleteCategories(db: Db, gone: set<int>): (after: Option<Db>) {
    match DeletePackages(db, PackagesIn(db, gone))
    case None => None
    case Some(d) => Some(d.(categories := Orphaned(d.categories, gone)))
  }

  // ---------------------------------------------------------------- the three deletes

  /** Packages of the subcategories, then the subcategories, then the operator. */
  function DeleteOperator(db: Db, operator: int): (after: Option<Db>) {
    var subs := Children(db, {operator});
    if subs == {} then DeleteCategories(db, {operator})
    else
      match DeletePackages(db, PackagesIn(db, subs))
      case None => None
      case Some(first) =>
        match DeleteCategories(first, subs)
        case None => None
        case Some(second) => DeleteCategories(second, {operator})
  }

  function DeleteSubcategory(db: Db, sub: int): (after: Option<Db>) {
    match DeletePackages(db, PackagesIn(db, {sub}))
    case None => None
    case Some(first) => DeleteCategories(first, {sub})
  }

  // ---------------------------------------------------------------- what they should remove

  /** The tables without these categories, these packages and the packages' codes. */
  function Without(db: Db, categories: set<int>, packages: set<int>): (after: Db) {
    db.(categories := db.categories - categories, packages := db.packages - packages,
        codes := DropCodes(db.codes, packages))
  }

  function OperatorTree(db: Db, operator: int): (categories: set<int>) {
    {operator} + Children(db, {operator})
  }

  /** The catalog has two levels: operators have no parent, subcategories hang under an operator, and
      packages lie in subcategories. */
  ghost predicate TwoLevels(db: Db) {
    && (forall c :: c in db.categories && db.categories[c].parent.Some? ==>
          db.categories[c].parent.value in db.categories && db.categories[db.categories[c].parent.value].parent.None?)
    && (forall p :: p in db.packages ==>
          db.packages[p].category in db.categories && db.categories[db.packages[p].category].parent.Some?)
  }

  /** Subcategories that a delete turned into operators. */
  function Promoted(db: Db, d: Db): (orphans: set<int>) {
    set c | c in d.categories && c in db.categories && db.categories[c].parent.Some? && d.categories[c].parent.None?
  }

  // ---------------------------------------------------------------- deletes as one step

  lemma DropTwice(codes: Shelf, some: set<int>, more: set<int>)
    ensures DropCodes(DropCodes(codes, some), more) == DropCodes(codes, some + more)
  {
  }

  lemma OrderOnEither(orders: Orders, some: set<int>, more: set<int>)
    ensures HasOrder(orders, some + more) <==> HasOrder(orders, some) || HasOrder(orders, more)
  {
  }

  /** Packages dropped, categories rewritten; the other tables stay. */
  function Emptied(db: Db, packages: set<int>, categories: map<int, Category>): (after: Db) {
    db.(categories := categories, packages := db.packages - packages, codes := DropCodes(db.codes, packages))
  }

  /** A second delete after packages `some` went. */
  lemma DeleteMore(db: Db, some: set<int>, categories: map<int, Category>, gone: set<int>)
    requires !HasOrder(db.orders, some)
    ensures var all := some + PackagesIn(db, gone);
            DeleteCategories(Emptied(db, some, categories), gone)
            == if HasOrder(db.orders, all) then None else Some(Emptied(db, all, Orphaned(categories, gone)))
  {
    var d := Emptied(db, some, categories);
    var more := PackagesIn(d, gone);
    assert more == PackagesIn(db, gone) - some;
    assert some + PackagesIn(db, gone) == some + more;
    OrderOnEither(db.orders, some, more);
    DropTwice(db.codes, some, more);
    assert db.packages - some - more == db.packages - (some + more);
  }

  /** The operator's delete in one step, on any tables. */
  lemma OperatorAtOnce(db: Db, operator: int)
    ensures var packages := PackagesIn(db, OperatorTree(db, operator));
            DeleteOperator(db, operator)
            == if HasOrder(db.orders, packages) then None
               else Some(Emptied(db, packages, Orphaned(Orphaned(db.categories, Children(db, {operator})), {operator})))
  {
    var subs := Children(db, {operator});
    var inSubs := PackagesIn(db, subs);
    var packages := PackagesIn(db, OperatorTree(db, operator));
    assert packages == inSubs + PackagesIn(db, {operator});
    OrderOnEither(db.orders, inSubs, PackagesIn(db, {operator}));
    if subs == {} {
      assert Orphaned(db.categories, {}) == db.categories;
      assert packages == PackagesIn(db, {operator});
    } else if !HasOrder(db.orders, inSubs) {
      assert DeletePackages(db, inSubs) == Some(Emptied(db, inSubs, db.categories));
      DeleteMore(db, inSubs, db.categories, subs);
      assert inSubs + inSubs == inSubs;
      DeleteMore(db, inSubs, Orphaned(db.categories, subs), {operator});
    }
  }

  lemma SubcategoryAtOnce(db: Db, sub: int)
    ensures var packages := PackagesIn(db, {sub});
            DeleteSubcategory(db, sub)
            == if HasOrder(db.orders, packages) then None
               else Some(Emptied(db, packages, Orphaned(db.categories, {sub})))
  {
    var packages := PackagesIn(db, {sub});
    if !HasOrder(db.orders, packages) {
      assert DeletePackages(db, packages) == Some(Emptied(db, packages, db.categories));
      DeleteMore(db, packages, db.categories, {sub});
      assert packages + packages == packages;
    }
  }

  // ---------------------------------------------------------------- the deletes, row by row

  /** A delete of packages is refused if and only if one of them has an order, of whichever kind; otherwise
      exactly these packages and their codes go. */
  lemma PackagesDropExactly(db: Db, packages: set<int>)
    ensures DeletePackages(db, packages).None? <==> exists o :: o in db.orders && db.orders[o].package in packages
    ensures DeletePackages(db, packages).Some? ==>
              var d := DeletePackages(db, packages).value;
              && d == db.(packages := d.packages, codes := d.codes)
              && (forall p :: p in d.packages <==> p in db.packages && p !in packages)
              && (forall p :: p in d.packages ==> d.packages[p] == db.packages[p])
              && (forall c :: c in d.codes <==> c in db.codes && db.codes[c].package !in packages)
              && forall c :: c in d.codes ==> d.codes[c] == db.codes[c]
  {
  }

  /** The operator's delete on any tables: refused if and only if an order's package lies in the operator or
      in one of its subcategories.  Otherwise exactly these categories go, their packages and the packages'
      codes; a category that loses its parent keeps everything else. */
  lemma OperatorDropsExactly(db: Db, operator: int)
    ensures DeleteOperator(db, operator).None? <==>
              exists o :: o in db.orders && db.orders[o].package in db.packages
                && var c := db.packages[db.orders[o].package].category;
                   c == operator || (c in db.categories && db.categories[c].parent == Some(operator))
    ensures DeleteOperator(db, operator).Some? ==>
              var d := DeleteOperator(db, operator).value;
              && d == db.(categories := d.categories, packages := d.packages, codes := d.codes)
              && (forall p :: p in d.packages <==>
                    && p in db.packages && db.packages[p].category != operator
                    && (db.packages[p].category in db.categories ==>
                          db.categories[db.packages[p].category].parent != Some(operator)))
              && (forall p :: p in d.packages ==> d.packages[p] == db.packages[p])
              && (forall c :: c in d.codes <==>
                    c in db.codes && (db.codes[c].package in db.packages ==> db.codes[c].package in d.packages))
              && forall c :: c in d.codes ==> d.codes[c] == db.codes[c]
    ensures DeleteOperator(db, operator).Some? ==>
              var d := DeleteOperator(db, operator).value;
              && (forall c :: c in d.categories <==>
                    c in db.categories && c != operator && db.categories[c].parent != Some(operator))
              && forall c :: c in d.categories ==>
                   var row := db.categories[c];
                   d.categories[c] ==
                     if row.parent.Some? && row.parent.value in db.categories && row.parent.value !in d.categories
                     then Category(row.reseller, None) else row
  {
    OperatorAtOnce(db, operator);
    var tree := OperatorTree(db, operator);
    assert forall c :: c in tree <==>
      c == operator || (c in db.categories && db.categories[c].parent == Some(operator));
    var packages := PackagesIn(db, tree);
    assert HasOrder(db.orders, packages) <==>
           exists o :: o in db.orders && db.orders[o].package in db.packages
             && db.packages[db.orders[o].package].category in tree;
  }

  /** The subcategory's delete on any tables. */
  lemma SubcategoryDropsExactly(db: Db, sub: int)
    ensures DeleteSubcategory(db, sub).None? <==>
              exists o :: o in db.orders && db.orders[o].package in db.packages
                && db.packages[db.orders[o].package].category == sub
    ensures DeleteSubcategory(db, sub).Some? ==>
              var d := DeleteSubcategory(db, sub).value;
              && d == db.(categories := d.categories, packages := d.packages, codes := d.codes)
              && (forall p :: p in d.packages <==> p in db.packages && db.packages[p].category != sub)
              && (forall p :: p in d.packages ==> d.packages[p] == db.packages[p])
              && (forall c :: c in d.codes <==>
                    c in db.codes && (db.codes[c].package in db.packages ==> db.codes[c].package in d.packages))
              && (forall c :: c in d.codes ==> d.codes[c] == db.codes[c])
              && (forall c :: c in d.categories <==> c in db.categories && c != sub)
              && forall c :: c in d.categories ==>
                   d.categories[c] == if db.categories[c].parent == Some(sub)
                                      then Category(db.categories[c].reseller, None) else db.categories[c]
  {
    SubcategoryAtOnce(db, sub);
  }

  // ---------------------------------------------------------------- an ordered package stays

  /** No delete that goes through takes a package from under an order, of whichever kind. */
  lemma OrderedPackagesStay(db: Db, category: int, packages: set<int>, o: string)
    requires o in db.orders && db.orders[o].package in db.packages
    ensures DeleteOperator(db, category).Some? ==> db.orders[o].package in DeleteOperator(db, category).value.packages
    ensures DeleteSubcategory(db, category).Some? ==>
              db.orders[o].package in DeleteSubcategory(db, category).value.packages
    ensures DeletePackages(db, packages).Some? ==> db.orders[o].package in DeletePackages(db, packages).value.packages
  {
    OperatorAtOnce(db, category);
    SubcategoryAtOnce(db, category);
  }

  lemma {:induction false} DeliversThePackage(db: Db, cart: Cart, ids: seq<int>, n: nat)
    requires n <= |cart.codes|
    ensures var d := Deliver(db, cart, ids, n);
            forall o :: o in d.orders && o !in db.orders ==> d.orders[o].package == cart.package
  {
    if n > 0 {
      DeliversThePackage(db, cart, ids, n - 1);
      var before := Deliver(db, cart, ids, n - 1);
      if cart.kind.Instant? && n - 1 < |ids| && ids[n - 1] in before.codes {}
    }
  }

  /** A call keeps every ordered package, and orders only packages there are. */
  lemma SpecKeepsPackages(db: Db, call: Call)
    requires forall o :: o in db.orders ==> db.orders[o].package in db.packages
    requires Spec(db, call).Some?
    ensures var d := Spec(db, call).value; forall o :: o in d.orders ==> d.orders[o].package in d.packages
  {
    SpecGrows(db, call);
    if call.CPurchase? {
      PurchaseKeepsPackages(db, call.cart);
    } else if call.Single() {
      StatementKeepsPackages(db, call);
    } else if call.CReceipt? {
      ReceiptTables(db, call.order, call.reseller, call.isTest, call.amount, call.row);
    } else {
      OrdersStay(db, call);
      PackagesStay(db, call);
    }
  }

  lemma PurchaseKeepsPackages(db: Db, cart: Cart)
    requires forall o :: o in db.orders ==> db.orders[o].package in db.packages
    requires Buy(db, cart).Some?
    ensures var d := Buy(db, cart).value; forall o :: o in d.orders ==> d.orders[o].package in d.packages
  {
    BuyShape(db, cart);
    var q := |cart.codes|;
    DeliversThePackage(Debit(db, cart.customer, cart.Cost(q)), cart, Picked(db, cart, q), q);
  }

  lemma StatementKeepsPackages(db: Db, call: Call)
    requires forall o :: o in db.orders ==> db.orders[o].package in db.packages
    requires call.Single() && Statement(db, call).Some?
    ensures var d := Statement(db, call).value; forall o :: o in d.orders ==> d.orders[o].package in d.packages
  {
    if call.CDropPackages? {
      PackagesDropExactly(db, call.packages);
    }
  }

  lemma PackagesStay(db: Db, call: Call)
    requires (call.CCredit? || call.CRefund? || call.CConfirm?) && Spec(db, call).Some?
    ensures Spec(db, call).value.packages == db.packages
  {
    if call.CCredit? {
      if Deduct(db.resellers, db.ledger, call.reseller, call.amount, ForTopup(call.topup), call.row).Deducted? {}
    }
  }

  lemma {:induction false} ReplayKeepsPackages(start: Db, log: seq<Call>)
    requires forall o :: o in start.orders ==> start.orders[o].package in start.packages
    requires Replay(start, log).Some?
    ensures var d := Replay(start, log).value; forall o :: o in d.orders ==> d.orders[o].package in d.packages
  {
    if log != [] {
      var last := |log| - 1;
      ReplayKeepsPackages(start, log[..last]);
      SpecKeepsPackages(Replay(start, log[..last]).value, log[last]);
    }
  }

  /** However purchases, order creations and package deletes interleave, every order's package is there. */
  lemma EveryOrderHasItsPackage(start: Db, events: seq<Event>, s: State)
    requires forall o :: o in start.orders ==> start.orders[o].package in start.packages
    requires Numbered(start) && Run(Start(start), events, s)
    ensures forall o :: o in s.db.orders ==> s.db.orders[o].package in s.db.packages
  {
    EveryInterleavingIsSerial(start, events, s);
    ReplayKeepsPackages(start, s.log);
  }

  // ---------------------------------------------------------------- no orphan becomes an operator

  /** On any tables: the orphans an operator's delete promotes are exactly its grandchildren. */
  lemma OperatorPromotes(db: Db, operator: int)
    requires DeleteOperator(db, operator).Some?
    ensures Promoted(db, DeleteOperator(db, operator).value)
            == Children(db, Children(db, {operator})) - OperatorTree(db, operator)
  {
    OperatorAtOnce(db, operator);
  }

  /** In a two-level catalog an operator's delete is refused exactly when a package under it has an
      order, and otherwise removes exactly its tree: operator, subcategories, their packages, the
      packages' codes.  Nobody is promoted. */
  lemma OperatorDelete(db: Db, operator: int)
    requires TwoLevels(db) && (operator in db.categories ==> db.categories[operator].parent.None?)
    ensures var subs := Children(db, {operator});
            DeleteOperator(db, operator)
            == if HasOrder(db.orders, PackagesIn(db, subs)) then None
               else Some(Without(db, {operator} + subs, PackagesIn(db, subs)))
    ensures DeleteOperator(db, operator).Some? ==> Promoted(db, DeleteOperator(db, operator).value) == {}
  {
    var subs := Children(db, {operator});
    OperatorAtOnce(db, operator);
    forall p | p in db.packages
      ensures db.packages[p].category != operator
    {
    }
    assert PackagesIn(db, {operator} + subs) == PackagesIn(db, subs);
    forall c | c in db.categories && db.categories[c].parent.Some?
      ensures db.categories[c].parent.value !in subs
      ensures db.categories[c].parent.value == operator ==> c in subs
    {
    }
    NobodyOrphaned(db.categories, subs);
    NobodyOrphaned(db.categories - subs, {operator});
    assert db.categories - subs - {operator} == db.categories - ({operator} + subs);
  }

  lemma NobodyOrphaned(categories: map<int, Category>, gone: set<int>)
    requires forall c :: c in categories && c !in gone && categories[c].parent.Some? ==>
               categories[c].parent.value !in gone
    ensures Orphaned(categories, gone) == categories - gone
  {
    var after := Orphaned(categories, gone);
    assert after.Keys == (categories - gone).Keys;
    forall c | c in after
      ensures after[c] == (categories - gone)[c]
    {
    }
  }

  lemma SubcategoryDelete(db: Db, sub: int)
    requires TwoLevels(db) && sub in db.categories && db.categories[sub].parent.Some?
    ensures DeleteSubcategory(db, sub)
            == if HasOrder(db.orders, PackagesIn(db, {sub})) then None
               else Some(Without(db, {sub}, PackagesIn(db, {sub})))
    ensures DeleteSubcategory(db, sub).Some? ==> Promoted(db, DeleteSubcategory(db, sub).value) == {}
  {
    SubcategoryAtOnce(db, sub);
    NobodyOrphaned(db.categories, {sub});
  }

  /** The catalog keeps its two levels. */
  lemma DeletesKeepTwoLevels(db: Db, category: int)
    requires TwoLevels(db) && category in db.categories
    ensures db.categories[category].parent.None? && DeleteOperator(db, category).Some? ==>
              TwoLevels(DeleteOperator(db, category).value)
    ensures db.categories[category].parent.Some? && DeleteSubcategory(db, category).Some? ==>
              TwoLevels(DeleteSubcategory(db, category).value)
  {
    if db.categories[category].parent.None? {
      OperatorDelete(db, category);
      var subs := Children(db, {category});
      forall p | p in db.packages && p !in PackagesIn(db, subs)
        ensures db.packages[p].category !in subs && db.packages[p].category != category
      {
      }
      WithoutKeepsTwoLevels(db, {category} + subs, PackagesIn(db, subs));
    } else {
      SubcategoryDelete(db, category);
      WithoutKeepsTwoLevels(db, {category}, PackagesIn(db, {category}));
    }
  }

  lemma WithoutKeepsTwoLevels(db: Db, categories: set<int>, packages: set<int>)
    requires TwoLevels(db)
    requires forall c :: c in db.categories && c !in categories && db.categories[c].parent.Some? ==>
               db.categories[c].parent.value !in categories
    requires forall p :: p in db.packages && p !in packages ==> db.packages[p].category !in categories
    ensures TwoLevels(Without(db, categories, packages))
  {
  }

  // ---------------------------------------------------------------- the announced numbers

  /** Subcategories, packages and available codes, as counted for the confirmation message. */
  function OperatorImpact(db: Db, operator: int): (impact: (nat, nat, nat)) {
    var subs := Children(db, {operator});
    var products := PackagesIn(db, subs);
    (|subs|, |products|, |AvailableCodes(db.codes, products)|)
  }

  function SubcategoryImpact(db: Db, sub: int): (impact: (nat, nat)) {
    var products := PackagesIn(db, {sub});
    (|products|, |AvailableCodes(db.codes, products)|)
  }

  function PackageImpact(db: Db, package: int): (codes: nat) {
    |AvailableCodes(db.codes, {package})|
  }

  /** The rows a delete took away. */
  function Gone<V>(before: map<int, V>, after: map<int, V>): (ids: set<int>) {
    before.Keys - after.Keys
  }

  /** The codes of packages without an order are all available, so counting the available ones counts
      them all. */
  lemma DroppedAreAvailable(db: Db, packages: set<int>)
    requires Accounted(db) && !HasOrder(db.orders, packages)
    ensures Gone(db.codes, DropCodes(db.codes, packages)) == AvailableCodes(db.codes, packages)
  {
    forall id | id in db.codes && db.codes[id].package in packages
      ensures !db.codes[id].sold
    {
      UnsoldWithoutOrder(db, packages, id);
    }
  }

  /** A delete that goes through removes exactly the numbers the impact count announces: the operator
      with so many subcategories, so many packages, so many codes. */
  lemma OperatorImpactIsExact(db: Db, operator: int)
    requires TwoLevels(db) && Accounted(db)
    requires operator in db.categories && db.categories[operator].parent.None?
    requires DeleteOperator(db, operator).Some?
    ensures var d := DeleteOperator(db, operator).value;
            OperatorImpact(db, operator)
            == (|Gone(db.categories, d.categories)| - 1, |Gone(db.packages, d.packages)|, |Gone(db.codes, d.codes)|)
  {
    OperatorGone(db, operator);
    var subs := Children(db, {operator});
    Disjoint(subs, {operator});
  }

  /** The rows an operator's delete takes away, as sets. */
  lemma OperatorGone(db: Db, operator: int)
    requires TwoLevels(db) && Accounted(db)
    requires operator in db.categories && db.categories[operator].parent.None?
    requires DeleteOperator(db, operator).Some?
    ensures var d := DeleteOperator(db, operator).value; var subs := Children(db, {operator});
            && Gone(db.categories, d.categories) == subs + {operator} && operator !in subs
            && Gone(db.packages, d.packages) == PackagesIn(db, subs)
            && Gone(db.codes, d.codes) == AvailableCodes(db.codes, PackagesIn(db, subs))
  {
    OperatorDelete(db, operator);
    var subs := Children(db, {operator});
    GoneIs(db.categories, {operator} + subs);
    GoneIs(db.packages, PackagesIn(db, subs));
    DroppedAreAvailable(db, PackagesIn(db, subs));
  }

  lemma GoneIs<V>(before: map<int, V>, ids: set<int>)
    requires ids <= before.Keys
    ensures Gone(before, before - ids) == ids
  {
  }

  lemma Disjoint<T>(some: set<T>, more: set<T>)
    requires some !! more
    ensures |some + more| == |some| + |more|
  {
  }

  lemma SubcategoryImpactIsExact(db: Db, sub: int)
    requires TwoLevels(db) && Accounted(db)
    requires sub in db.categories && db.categories[sub].parent.Some?
    requires DeleteSubcategory(db, sub).Some?
    ensures var d := DeleteSubcategory(db, sub).value;
            && SubcategoryImpact(db, sub) == (|Gone(db.packages, d.packages)|, |Gone(db.codes, d.codes)|)
            && Gone(db.categories, d.categories) == {sub}
  {
    SubcategoryDelete(db, sub);
    assert Gone(db.packages, DeleteSubcategory(db, sub).value.packages) == PackagesIn(db, {sub});
    DroppedAreAvailable(db, PackagesIn(db, {sub}));
  }

  lemma PackageImpactIsExact(db: Db, package: int)
    requires Accounted(db) && package in db.packages && DeletePackages(db, {package}).Some?
    ensures var d := DeletePackages(db, {package}).value;
            && PackageImpact(db, package) == |Gone(db.codes, d.codes)|
            && Gone(db.packages, d.packages) == {package} && d.categories == db.categories
  {
    DroppedAreAvailable(db, {package});
  }

  /** Without the two levels the package count is exact if and only if no package lies directly in the
      operator: those are deleted with it, but not counted. */
  lemma DirectPackagesAreNotCounted(db: Db, operator: int)
    requires operator in db.categories && db.categories[operator].parent.None?
    requires DeleteOperator(db, operator).Some?
    ensures var gone := Gone(db.packages, DeleteOperator(db, operator).value.packages);
            |gone| == OperatorImpact(db, operator).1 <==> PackagesIn(db, {operator}) == {}
  {
    DirectPackagesGoToo(db, operator);
  }

  lemma DirectPackagesGoToo(db: Db, operator: int)
    requires operator in db.categories && db.categories[operator].parent.None?
    requires DeleteOperator(db, operator).Some?
    ensures |Gone(db.packages, DeleteOperator(db, operator).value.packages)|
            == OperatorImpact(db, operator).1 + |PackagesIn(db, {operator})|
  {
    PackagesGone(db, operator);
    Disjoint(PackagesIn(db, Children(db, {operator})), PackagesIn(db, {operator}));
  }

  lemma PackagesGone(db: Db, operator: int)
    requires operator in db.categories && db.categories[operator].parent.None?
    requires DeleteOperator(db, operator).Some?
    ensures var counted := PackagesIn(db, Children(db, {operator})); var direct := PackagesIn(db, {operator});
            Gone(db.packages, DeleteOperator(db, operator).value.packages) == counted + direct && counted !! direct
  {
    OperatorAtOnce(db, operator);
    var subs := Children(db, {operator});
    assert operator !in subs;
    GoneIs(db.packages, PackagesIn(db, OperatorTree(db, operator)));
    assert PackagesIn(db, OperatorTree(db, operator)) == PackagesIn(db, subs) + PackagesIn(db, {operator});
  }

  // ---------------------------------------------------------------- sold codes stay

  /** Every catalog delete is, on packages, codes and everything but the categories, one drop of
      packages: what is proved of CDropPackages over interleaved runs holds of it. */
  lemma DeletesAreDrops(db: Db, category: int)
    ensures DeleteOperator(db, category).Some? ==>
              var d := DeleteOperator(db, category).value;
              Statement(db, CDropPackages(PackagesIn(db, OperatorTree(db, category))))
                  == Some(d.(categories := db.categories))
    ensures DeleteSubcategory(db, category).Some? ==>
              var d := DeleteSubcategory(db, category).value;
              Statement(db, CDropPackages(PackagesIn(db, {category}))) == Some(d.(categories := db.categories))
  {
    OperatorAtOnce(db, category);
    SubcategoryAtOnce(db, category);
  }

  /** A sold code survives every catalog delete. */
  lemma SoldCodesSurvive(db: Db, category: int)
    requires Accounted(db) && Numbered(db)
    ensures forall id :: id in db.codes && db.codes[id].sold ==>
              && (DeleteOperator(db, category).Some? ==>
                    var d := DeleteOperator(db, category).value; id in d.codes && d.codes[id] == db.codes[id])
              && (DeleteSubcategory(db, category).Some? ==>
                    var d := DeleteSubcategory(db, category).value; id in d.codes && d.codes[id] == db.codes[id])
  {
    DeletesAreDrops(db, category);
    OperatorDropsExactly(db, category);
    SubcategoryDropsExactly(db, category);
    if DeleteOperator(db, category).Some? {
      SpecKeepsSold(db, CDropPackages(PackagesIn(db, OperatorTree(db, category))));
    }
    if DeleteSubcategory(db, category).Some? {
      SpecKeepsSold(db, CDropPackages(PackagesIn(db, {category})));
    }
  }

  // ---------------------------------------------------------------- statement by statement

  /** DELETE FROM packages, inside a transaction. */
  method RunDeletePackages(s: Session, packages: set<int>) returns (ok: bool)
    requires s.open
    modifies s`work
    ensures ok == DeletePackages(old(s.work), packages).Some?
    ensures Some(s.work) == if ok then DeletePackages(old(s.work), packages) else Some(old(s.work))
    ensures ok <==> forall o :: o in old(s.work).orders ==> old(s.work).orders[o].package !in packages
  {
    if HasOrder(s.work.orders, packages) {
      return false;
    }
    s.work := s.work.(packages := s.work.packages - packages, codes := DropCodes(s.work.codes, packages));
    return true;
  }

  /** DELETE FROM categories, inside a transaction: the cascade, then SET NULL. */
  method RunDeleteCategories(s: Session, gone: set<int>) returns (ok: bool)
    requires s.open
    modifies s`work
    ensures ok == DeleteCategories(old(s.work), gone).Some?
    ensures Some(s.work) == if ok then DeleteCategories(old(s.work), gone) else Some(old(s.work))
  {
    ok := RunDeletePackages(s, PackagesIn(s.work, gone));
    if ok {
      s.work := s.work.(categories := Orphaned(s.work.categories, gone));
    }
  }

  /** _delete_operator_tree. */
  method DeleteOperatorTree(s: Session, operator: int) returns (ok: bool)
    requires !s.open
    modifies s
    ensures !s.open && ok == DeleteOperator(old(s.committed), operator).Some?
    ensures Some(s.committed) == if ok then DeleteOperator(old(s.committed), operator) else Some(old(s.committed))
    ensures var db := old(s.committed);
            forall o :: o in db.orders && db.orders[o].package in db.packages ==>
              db.orders[o].package in s.committed.packages
  {
    s.Begin();
    var subs := Children(s.work, {operator});
    ok := true;
    if subs != {} {
      ok := RunDeletePackages(s, PackagesIn(s.work, subs));
      if ok {
        ok := RunDeleteCategories(s, subs);
      }
    }
    if ok {
      ok := RunDeleteCategories(s, {operator});
    }
    if ok {
      s.Commit();
    } else {
      s.Rollback();
    }
  }

  /** _delete_subcategory_tree. */
  method DeleteSubcategoryTree(s: Session, sub: int) returns (ok: bool)
    requires !s.open
    modifies s
    ensures !s.open && ok == DeleteSubcategory(old(s.committed), sub).Some?
    ensures Some(s.committed) == if ok then DeleteSubcategory(old(s.committed), sub) else Some(old(s.committed))
    ensures var db := old(s.committed);
            forall o :: o in db.orders && db.orders[o].package in db.packages ==>
              db.orders[o].package in s.committed.packages
  {
    s.Begin();
    ok := RunDeletePackages(s, PackagesIn(s.work, {sub}));
    if ok {
      ok := RunDeleteCategories(s, {sub});
    }
    if ok {
      s.Commit();
    } else {
      s.Rollback();
    }
  }

  /** _delete_package. */
  method DeletePackage(s: Session, package: int) returns (ok: bool)
    requires !s.open
    modifies s
    ensures !s.open && ok == DeletePackages(old(s.committed), {package}).Some?
    ensures Some(s.committed) == if ok then DeletePackages(old(s.committed), {package}) else Some(old(s.committed))
    ensures ok <==> forall o :: o in old(s.committed).orders ==> old(s.committed).orders[o].package != package
  {
    s.Begin();
    ok := RunDeletePackages(s, {package});
    if ok {
      s.Commit();
    } else {
      s.Rollback();
    }
  }

  /** _count_operator_deletion_impact. */
  method CountOperatorDeletionImpact(s: Session, operator: int) returns (subs: nat, products: nat, codes: nat)
    ensures (subs, products, codes) == OperatorImpact(s.committed, operator)
  {
    var subIds := Children(s.committed, {operator});
    products, codes := 0, 0;
    if subIds != {} {
      var productIds := PackagesIn(s.committed, subIds);
      products := |productIds|;
      if productIds != {} {
        codes := |AvailableCodes(s.committed.codes, productIds)|;
      } else {
        assert AvailableCodes(s.committed.codes, productIds) == {};
      }
    } else {
      assert PackagesIn(s.committed, subIds) == {} && AvailableCodes(s.committed.codes, {}) == {};
    }
    subs := |subIds|;
  }
}
