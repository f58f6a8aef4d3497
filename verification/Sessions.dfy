/** One database connection: `transaction()` opens on the committed tables, commits what was written or
    rolls all of it back. */
module Sessions {
  import opened Schema

  class Session {
    var committed: Db
    var work: Db
    var open: bool

    constructor (db: Db)
      ensures committed == db && !open
    {
      committed, work, open := db, db, false;
    }

    method Begin()
      requires !open
      modifies this
      ensures open && work == committed == old(committed)
    {
      work, open := committed, true;
    }

    method Commit()
      requires open
      modifies this
      ensures !open && committed == old(work)
    {
      committed, open := work, false;
    }

    method Rollback()
      requires open
      modifies this
      ensures !open && committed == old(committed)
    {
      open := false;
    }

    /** A single statement outside a transaction, committed at once. */
    method Execute(tables: Db)
      requires !open
      modifies this
      ensures !open && committed == tables
    {
      committed := tables;
    }
  }
}
