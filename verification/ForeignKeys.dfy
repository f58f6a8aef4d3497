/** The order of the backup's table list against the foreign keys among the listed tables.  The restore
    turns the checks off; the order alone already keeps these keys, but for the categories' reference to
    themselves.  Keys from unlisted tables into listed ones are not covered. */
module ForeignKeys {
  import opened Backup

  /** `column` of the child names a row of the parent by its id. */
  datatype ForeignKey = ForeignKey(child: Table, column: string, parent: Table)

  /** The foreign keys among the listed tables, without parent_category_id. */
  const FOREIGN_KEYS: seq<ForeignKey> := [
    ForeignKey(ResellerOperators, "reseller_id", Resellers),
    ForeignKey(WalletTransactions, "reseller_id", Resellers),
    ForeignKey(Categories, "reseller_id", Resellers),
    ForeignKey(Packages, "reseller_id", Resellers),
    ForeignKey(Packages, "category_id", Categories),
    ForeignKey(Orders, "reseller_id", Resellers),
    ForeignKey(Orders, "package_id", Packages),
    ForeignKey(Orders, "customer_id", Customers),
    ForeignKey(Disputes, "order_id", Orders),
    ForeignKey(Disputes, "reseller_id", Resellers),
    ForeignKey(DiscountCodes, "reseller_id", Resellers),
    ForeignKey(Referrals, "reseller_id", Resellers),
    ForeignKey(ReferralLinks, "reseller_id", Resellers),
    ForeignKey(ForcedJoinChannels, "reseller_id", Resellers),
    ForeignKey(ChargeCodes, "reseller_id", Resellers),
    ForeignKey(ChargeCodes, "package_id", Packages)]

  ghost predicate HasRow(rows: seq<Row>, id: Cell) {
    exists j :: 0 <= j < |rows| && "id" in rows[j] && rows[j]["id"] == id
  }

  /** Every child row names a parent row, or none. */
  ghost predicate Respects(children: seq<Row>, column: string, parents: seq<Row>) {
    forall i :: 0 <= i < |children| && column in children[i] && children[i][column] != Null ==>
      HasRow(parents, children[i][column])
  }

  ghost predicate Consistent(db: Tables)
    requires Complete(db)
  {
    forall k :: 0 <= k < |FOREIGN_KEYS| ==> RespectsKey(db, FOREIGN_KEYS[k])
  }

  ghost predicate RespectsKey(db: Tables, fk: ForeignKey) {
    fk.child in db && fk.parent in db && Respects(db[fk.child], fk.column, db[fk.parent])
  }

  /** The list puts every parent before its children. */
  lemma ParentsComeFirst(k: nat)
    requires k < |FOREIGN_KEYS|
    ensures Rank(FOREIGN_KEYS[k].parent) < Rank(FOREIGN_KEYS[k].child) < 20
  {
  }

  /** Emptying in reverse list order keeps the foreign keys after every single statement. */
  lemma DeletesKeepKeys(db: Tables, k: nat)
    requires Complete(db) && Consistent(db)
    ensures Consistent(Emptied(db, k))
  {
    forall i | 0 <= i < |FOREIGN_KEYS|
      ensures RespectsKey(Emptied(db, k), FOREIGN_KEYS[i])
    {
      ParentsComeFirst(i);
      assert RespectsKey(db, FOREIGN_KEYS[i]);
    }
  }

  /** Inserting a consistent backup in list order keeps them after every single row, into whatever
      tables it is restored. */
  lemma InsertsKeepKeys(db: Tables, later: Tables, n: nat, m: nat)
    requires Complete(db) && Consistent(db) && Complete(later)
    requires n < 20 && m <= |db[LISTED[n]]|
    ensures Consistent(Partly(db, later, n, m))
  {
    var d := Partly(db, later, n, m);
    forall i | 0 <= i < |FOREIGN_KEYS|
      ensures RespectsKey(d, FOREIGN_KEYS[i])
    {
      var fk := FOREIGN_KEYS[i];
      ParentsComeFirst(i);
      assert RespectsKey(db, fk);
      if d[fk.child] != [] {
        assert d[fk.parent] == db[fk.parent];
        assert d[fk.child] <= db[fk.child];
        PrefixRespects(db[fk.child], |d[fk.child]|, fk.column, db[fk.parent]);
      }
    }
  }

  lemma PrefixRespects(children: seq<Row>, n: nat, column: string, parents: seq<Row>)
    requires n <= |children| && Respects(children, column, parents)
    ensures Respects(children[..n], column, parents)
  {
  }
}
