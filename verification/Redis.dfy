/** The Redis commands the sources use, each one atomic step on a key space with expiry. */
module Redis {
  import opened Options

  /** A stored value; `expiresAt` is the server time in milliseconds at which it stops existing. */
  datatype Cell<V> = Cell(value: V, expiresAt: Option<int>)

  datatype Db<!K, V> = Db(cells: map<K, Cell<V>>, now: int)

  predicate Live<K, V>(db: Db<K, V>, key: K) {
    key in db.cells && (db.cells[key].expiresAt == None || db.now < db.cells[key].expiresAt.value)
  }

  /** GET. */
  function Get<K, V>(db: Db<K, V>, key: K): (r: Option<V>) {
    if Live(db, key) then Some(db.cells[key].value) else None
  }

  /** SET key value NX PX ttl: the flag says whether the key was set. */
  function SetNx<K, V>(db: Db<K, V>, key: K, value: V, ttl: nat): (r: (bool, Db<K, V>)) {
    if Live(db, key) then (false, db)
    else (true, db.(cells := db.cells[key := Cell(value, Some(db.now + ttl))]))
  }

  /** The release script: delete the key only while it holds `value`. */
  function CompareAndDelete<K, V(==)>(db: Db<K, V>, key: K, value: V): (r: (nat, Db<K, V>)) {
    if Get(db, key) == Some(value) then (1, db.(cells := db.cells - {key})) else (0, db)
  }

  /** MULTI; INCRBY key amount; EXPIRE key ttl; EXEC: the number is the new count. */
  function IncrExpire<K>(db: Db<K, int>, key: K, amount: int, ttl: nat): (r: (int, Db<K, int>)) {
    var count := (if Live(db, key) then db.cells[key].value else 0) + amount;
    (count, db.(cells := db.cells[key := Cell(count, Some(db.now + ttl))]))
  }

  /** The server drops an expired key. */
  function Purge<K, V>(db: Db<K, V>, key: K): (r: Db<K, V>) {
    if Live(db, key) then db else db.(cells := db.cells - {key})
  }

  /** The server, as a client sees it: one atomic command per call. */
  class Server<K(==), V(==)> {
    var db: Db<K, V>

    constructor (db: Db<K, V>)
      ensures this.db == db
    {
      this.db := db;
    }

    method Set(key: K, value: V, ttl: nat) returns (ok: bool)
      modifies this
      ensures (ok, db) == SetNx(old(db), key, value, ttl)
    {
      ok := !Live(db, key);
      if ok { db := db.(cells := db.cells[key := Cell(value, Some(db.now + ttl))]); }
    }

    method Read(key: K) returns (v: Option<V>)
      ensures v == Get(db, key)
    {
      if Live(db, key) { v := Some(db.cells[key].value); } else { v := None; }
    }
  }

  /** The pipelined increment, on a server of counters. */
  method IncrExpirePipeline<K(==)>(server: Server<K, int>, key: K, amount: int, ttl: nat) returns (count: int)
    modifies server
    ensures (count, server.db) == IncrExpire(old(server.db), key, amount, ttl)
  {
    var held := server.Read(key);
    count := (if held.Some? then held.value else 0) + amount;
    server.db := server.db.(cells := server.db.cells[key := Cell(count, None)]);
    server.db := server.db.(cells := server.db.cells[key := Cell(count, Some(server.db.now + ttl))]);
    assert server.db == IncrExpire(old(server.db), key, amount, ttl).1;
  }
}
