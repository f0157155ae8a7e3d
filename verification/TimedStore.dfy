/** The timed key-value store that all guards share.

    Every command is one atomic step that runs at a reading `clock` of the store's own clock.
    A key is live through its expiry instant inclusive.  Dead entries stay in the map until a
    command overwrites them; every command treats them as absent. */
module TimedStore {
  import opened Options

  datatype BlacklistEntry = BlacklistEntry(
    ip: string, reason: string, bannedAt: real, expiresAt: real, violationCount: int)

  datatype Value =
    | Bucket(tokens: real, lastRefill: real)
    | Count(n: int)
    | Ban(entry: BlacklistEntry)
    | Mark

  datatype Entry = Entry(value: Value, expiry: Option<real>)

  type Keyspace = map<string, Entry>

  predicate LiveEntry(e: Entry, clock: real) {
    e.expiry.Some? ==> clock <= e.expiry.value
  }

  predicate Exists(db: Keyspace, key: string, clock: real) {
    key in db && LiveEntry(db[key], clock)
  }

  function Get(db: Keyspace, key: string, clock: real): Option<Value> {
    if Exists(db, key, clock) then Some(db[key].value) else None
  }

  /** The integer an INCR starts from.  (On a key of another type the store replies with an error;
      `SharedStore.RunsStayTyped` shows that the guards never reach that case.) */
  function CountAt(db: Keyspace, key: string, clock: real): int {
    if Exists(db, key, clock) && db[key].value.Count? then db[key].value.n else 0
  }

  function SetEx(db: Keyspace, key: string, value: Value, ttl: real, clock: real): Keyspace {
    db[key := Entry(value, Some(clock + ttl))]
  }

  /** INCR keeps the expiry of a live key; a fresh key has none. */
  function Incr(db: Keyspace, key: string, clock: real): Keyspace {
    db[key := Entry(Count(CountAt(db, key, clock) + 1), if Exists(db, key, clock) then db[key].expiry else None)]
  }

  /** EXPIRE does nothing on a missing key. */
  function Expire(db: Keyspace, key: string, ttl: real, clock: real): Keyspace {
    if Exists(db, key, clock) then db[key := db[key].(expiry := Some(clock + ttl))] else db
  }

  function Del(db: Keyspace, key: string): Keyspace {
    db - {key}
  }

  class Redis {
    var db: Keyspace

    constructor ()
      ensures db == map[]
    {
      db := map[];
    }

    method RunExists(key: string, clock: real) returns (found: bool)
      ensures found == Exists(db, key, clock)
    {
      found := key in db && LiveEntry(db[key], clock);
    }

    method RunGet(key: string, clock: real) returns (value: Option<Value>)
      ensures value == Get(db, key, clock)
    {
      var found := RunExists(key, clock);
      value := if found then Some(db[key].value) else None;
    }

    method RunSetEx(key: string, value: Value, ttl: real, clock: real)
      modifies this
      ensures db == SetEx(old(db), key, value, ttl, clock)
    {
      db := db[key := Entry(value, Some(clock + ttl))];
    }

    method RunSetNxEx(key: string, value: Value, ttl: real, clock: real) returns (wasSet: bool)
      modifies this
      ensures wasSet == !Exists(old(db), key, clock)
      ensures db == if wasSet then SetEx(old(db), key, value, ttl, clock) else old(db)
    {
      var found := RunExists(key, clock);
      wasSet := !found;
      if wasSet {
        RunSetEx(key, value, ttl, clock);
      }
    }

    method RunIncr(key: string, clock: real) returns (count: int)
      modifies this
      ensures db == Incr(old(db), key, clock)
      ensures count == CountAt(old(db), key, clock) + 1
    {
      var found := RunExists(key, clock);
      count := (if found && db[key].value.Count? then db[key].value.n else 0) + 1;
      db := db[key := Entry(Count(count), if found then db[key].expiry else None)];
    }

    method RunExpire(key: string, ttl: real, clock: real)
      modifies this
      ensures db == Expire(old(db), key, ttl, clock)
    {
      var found := RunExists(key, clock);
      if found {
        db := db[key := db[key].(expiry := Some(clock + ttl))];
      }
    }

    method RunDel(key: string)
      modifies this
      ensures db == Del(old(db), key)
    {
      db := db - {key};
    }

    /** KEYS prefix*: the live keys that start with `prefix`, in no particular order. */
    method RunKeys(prefix: string, clock: real) returns (keys: seq<string>)
      ensures forall k :: k in keys <==> prefix <= k && Exists(db, k, clock)
      ensures forall i, j :: 0 <= i < j < |keys| ==> keys[i] != keys[j]
    {
      var rest := db.Keys;
      keys := [];
      while rest != {}
        invariant rest <= db.Keys
        invariant forall k :: k in keys <==> k in db && k !in rest && prefix <= k && Exists(db, k, clock)
        invariant forall i, j :: 0 <= i < j < |keys| ==> keys[i] != keys[j]
        decreases |rest|
      {
        var k :| k in rest;
        rest := rest - {k};
        if prefix <= k && LiveEntry(db[k], clock) {
          keys := keys + [k];
        }
      }
    }
  }
}
