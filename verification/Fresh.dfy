/** Where the runs can begin: an installation with its resellers, catalog, customers and unsold codes, before
    the first order. */
module Fresh {
  import opened Schema
  import opened Settlement
  import opened History
  import opened CodeSales
  import opened CommissionWallet
  import opened CustomerWallet
  import Disputes
  import Migrator

  /** Nothing has been bought, paid or reported yet, no code is sold, and nobody is in debt. */
  ghost predicate BeforeTheFirstOrder(db: Db) {
    && db.nextCode >= 0 && (forall id :: id in db.codes ==> 0 <= id < db.nextCode && !db.codes[id].sold)
    && (forall c :: c in db.customers ==> db.customers[c].balance == 0)
    && (forall r :: r in db.resellers ==> db.resellers[r].balance == 0 <= db.resellers[r].limit)
    && db.orders == map[] && db.ledger == map[] && db.topups == map[] && db.disputes == map[] && db.blacklist == []
  }

  /** Everything the theorems over runs ask of the tables they start from holds there. */
  lemma FreshIsFine(db: Db, customer: int)
    requires BeforeTheFirstOrder(db)
    ensures Numbered(db) && Accounted(db)
    ensures WithinCredit(db) && PendingIsPositive(db)
    ensures Solvent(db) && PendingIsUncredited(db) && Excess(db, customer) == 0
    ensures Disputes.Inv(db)
    ensures Migrator.Inv(Migrator.State({}, []))
  {
    NothingSoldYet(db);
    forall user
      ensures Disputes.FakeReceipts(db, user) == {}
    {
    }
  }
}
