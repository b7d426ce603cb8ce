/** The symbol-id cache of the storage crate: a map from ticker to row id in
    front of the `symbols` table, filled on a miss by one transaction that
    selects the ticker's row or inserts it. */
module Symbols {
  import opened Results

  /** Which step of the miss transaction the database fails, if any: `begin`,
      the `SELECT`, the `INSERT … RETURNING id` or the `commit`. */
  datatype DbFault =
    | NoFault
    | BeginFails(msg: string)
    | SelectFails(msg: string)
    | InsertFails(msg: string)
    | CommitFails(msg: string)

  /** Whether a miss transaction for a ticker whose row exists (`existing`)
      ends in an error: the insert is only reached when there is no row. */
  predicate Aborts(fault: DbFault, existing: bool) {
    match fault
    case NoFault => false
    case InsertFails(_) => !existing
    case _ => true
  }

  /** The `symbols` table: a row id per ticker, the id the next insert is
      given, and the number of transactions begun on it. */
  class SymbolsTable {
    var rows: map<string, int>
    var nextId: int
    var transactions: nat

    /** Row ids are distinct and all below the next one. */
    ghost predicate Valid()
      reads this
    {
      (forall t :: t in rows ==> rows[t] < nextId) &&
      (forall t, u :: t in rows && u in rows && t != u ==> rows[t] != rows[u])
    }

    /** An empty table. */
    constructor ()
      ensures rows == map[] && nextId == 1 && transactions == 0
      ensures Valid()
    {
      rows := map[];
      nextId := 1;
      transactions := 0;
    }

    /** One transaction for `symbol`: select its row, or insert one, and
        commit. Any failing step drops the transaction, which rolls back. */
    method Resolve(symbol: string, fault: DbFault) returns (r: Result<int>)
      requires Valid()
      modifies this
      ensures Valid()
      ensures transactions == old(transactions) + 1
      ensures Aborts(fault, symbol in old(rows)) ==>
        r == Err(fault.msg) && rows == old(rows) && nextId == old(nextId)
      ensures !Aborts(fault, symbol in old(rows)) && symbol in old(rows) ==>
        r == Ok(old(rows)[symbol]) && rows == old(rows) && nextId == old(nextId)
      ensures !Aborts(fault, symbol in old(rows)) && symbol !in old(rows) ==>
        r == Ok(old(nextId)) && rows == old(rows)[symbol := old(nextId)] && nextId == old(nextId) + 1
    {
      transactions := transactions + 1;
      if fault.BeginFails? {
        return Err(fault.msg);
      }
      if fault.SelectFails? {
        return Err(fault.msg);
      }
      var id;
      if symbol in rows {
        id := rows[symbol];
      } else {
        if fault.InsertFails? {
          return Err(fault.msg);
        }
        id := nextId;
      }
      if fault.CommitFails? {
        return Err(fault.msg);
      }
      if symbol !in rows {
        rows := rows[symbol := id];
        nextId := nextId + 1;
      }
      r := Ok(id);
    }
  }

  /** `SymbolManager`: the ticker → id cache. */
  class SymbolManager {
    var cache: map<string, int>

    /** Every cached id is the id of the ticker's row. */
    ghost predicate Agrees(db: SymbolsTable)
      reads this, db
    {
      forall t :: t in cache ==> t in db.rows && db.rows[t] == cache[t]
    }

    /** `SymbolManager::new()`: an empty cache. */
    constructor ()
      ensures cache == map[]
    {
      cache := map[];
    }

    /** `get_or_create_id`: a hit answers from the cache without touching
        the table; a miss runs one transaction and caches its id on success. */
    method GetOrCreateId(db: SymbolsTable, symbol: string, fault: DbFault) returns (r: Result<int>)
      requires db.Valid()
      modifies this, db
      ensures db.Valid()
      ensures old(Agrees(db)) ==> Agrees(db)
      ensures symbol in old(cache) ==>
        r == Ok(old(cache)[symbol]) && cache == old(cache) && unchanged(db)
      ensures symbol !in old(cache) ==> db.transactions == old(db.transactions) + 1
      ensures symbol !in old(cache) && Aborts(fault, symbol in old(db.rows)) ==>
        r == Err(fault.msg) && cache == old(cache) && db.rows == old(db.rows)
      ensures symbol !in old(cache) && !Aborts(fault, symbol in old(db.rows)) ==>
        r.Ok? && cache == old(cache)[symbol := r.value] && symbol in db.rows && db.rows[symbol] == r.value &&
        (symbol in old(db.rows) ==> r.value == old(db.rows)[symbol] && db.rows == old(db.rows)) &&
        (symbol !in old(db.rows) ==> r.value !in old(db.rows).Values)
    {
      if symbol in cache {
        return Ok(cache[symbol]);
      }
      r := db.Resolve(symbol, fault);
      if r.Ok? {
        cache := cache[symbol := r.value];
      }
    }

    /** Two calls for one ticker: once the first has an id, the second is a
        hit and returns the same id without a transaction. */
    method GetOrCreateIdTwice(db: SymbolsTable, symbol: string, fault1: DbFault, fault2: DbFault)
      returns (r1: Result<int>, r2: Result<int>)
      requires db.Valid()
      modifies this, db
      ensures r1.Ok? ==> r2 == r1 && symbol in cache && cache[symbol] == r1.value
      ensures r1.Ok? ==> db.transactions == old(db.transactions) + (if symbol in old(cache) then 0 else 1)
    {
      r1 := GetOrCreateId(db, symbol, fault1);
      r2 := GetOrCreateId(db, symbol, fault2);
    }

    /** `clear_cache` */
    method ClearCache()
      modifies this
      ensures cache == map[]
    {
      cache := map[];
    }

    /** `get_cache`: a read-only lookup. */
    method GetCache(ticker: string) returns (r: Option<int>)
      ensures r.Some? <==> ticker in cache
      ensures r.Some? ==> r.value == cache[ticker]
    {
      if ticker in cache {
        r := Some(cache[ticker]);
      } else {
        r := None;
      }
    }
  }
}
