/** The database as the service sees it: a handle statements run on, and transactions. */
module Database {
  import opened Tables

  /** Something statements can run on: the database itself, or the inside of a transaction. */
  class Conn {
    var db: Db

    constructor (db: Db)
      ensures this.db == db
    {
      this.db := db;
    }
  }

  /** A transaction works on a copy; committing puts the copy in place of the original. One
      connection serves the database, so nothing else writes while it is open. */
  class Tx {
    const store: Conn
    const work: Conn
    var open: bool

    constructor Begin(store: Conn)
      ensures this.store == store && fresh(work) && work.db == store.db && open
    {
      this.store := store;
      this.work := new Conn(store.db);
      open := true;
    }

    /** A failing commit changes nothing; a second one finds the transaction done. */
    method Commit(fails: bool) returns (ok: bool)
      modifies store, this
      ensures ok <==> old(open) && !fails
      ensures store.db == if ok then old(work.db) else old(store.db)
      ensures ok ==> !open
    {
      ok := open && !fails;
      if ok {
        store.db := work.db;
        open := false;
      }
    }

    /** Drops the copy; after a commit it does nothing. */
    method Rollback()
      modifies this
      ensures !open
    {
      open := false;
    }
  }
}
