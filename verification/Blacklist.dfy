/** The shared blacklist. */
module Blacklist {
  import opened Schema

  predicate ListedGlobally(db: Db, user: int) {
    exists i :: 0 <= i < |db.blacklist| && db.blacklist[i].user == user && db.blacklist[i].isGlobal
  }

  predicate ListedBy(db: Db, user: int, reseller: int) {
    exists i :: 0 <= i < |db.blacklist| && db.blacklist[i].user == user && db.blacklist[i].reporter == Some(reseller)
  }

  /** is_blacklisted: on the global list, or on the given reseller's own. */
  predicate IsBlacklisted(db: Db, user: int, reseller: Option<int>) {
    ListedGlobally(db, user) || (reseller.Some? && ListedBy(db, user, reseller.value))
  }

  /** What the order-creating functions ask first; an unknown customer is not refused here. */
  predicate Refuses(db: Db, customer: int, reseller: int) {
    customer in db.customers && IsBlacklisted(db, db.customers[customer].user, Some(reseller))
  }
}
