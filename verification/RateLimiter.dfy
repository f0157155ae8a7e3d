/** The rate limiter object: the script, its key, and the capacity it is called with. */
module RateLimiter {
  import opened Options
  import opened TimedStore
  import opened Keys
  import TB = TokenBucket

  const BUCKET_TTL := 3600.0

  /** `capacity_override or self.capacity`: an override of 0 means the default. */
  function EffectiveCapacity(capacity: int, capacityOverride: Option<int>): int {
    if capacityOverride.Some? && capacityOverride.value != 0 then capacityOverride.value else capacity
  }

  /** `int(x)` on a float truncates toward zero. */
  function Truncate(x: real): (n: int)
    ensures x >= 0.0 ==> n as real <= x < (n + 1) as real
    ensures x < 0.0 ==> (n - 1) as real < x <= n as real
  {
    if x >= 0.0 then x.Floor else -(-x).Floor
  }

  /** The token bucket stored under a key, as the run theory sees it. */
  function CellAt(db: Keyspace, key: string): TB.Cell {
    if key in db && db[key].value.Bucket?
    then TB.Full(db[key].value.tokens, db[key].value.lastRefill, db[key].expiry)
    else TB.Empty
  }

  function ScriptEntry(cell: TB.Cell, call: TB.Call, r: real): Entry {
    Entry(Bucket(TB.Take(TB.Refill(cell, call, r)), call.now), Some(call.at + BUCKET_TTL))
  }

  /** The whole store after one run of the script. */
  function RunScript(db: Keyspace, key: string, call: TB.Call, r: real): Keyspace {
    db[key := ScriptEntry(CellAt(db, key), call, r)]
  }

  /** The script is one step of the bucket theory, with EXPIRE 3600. */
  lemma {:induction false} ScriptIsBucketStep(db: Keyspace, key: string, call: TB.Call, r: real)
    ensures CellAt(RunScript(db, key, call, r), key) == TB.Store(CellAt(db, key), call, r, Some(BUCKET_TTL))
  {
  }

  /** The script written out: the bucket of a live key is refilled by the time since its last refill, up
      to the limit - the default if there is none, or 0 -, and pays one token if it has one. */
  lemma {:induction false} ScriptWrittenOut(db: Keyspace, ip: string, capacity: int, limit: Option<int>, r: real,
                                            now: real, clock: real)
    requires Get(db, RateKey(ip), clock).Some? ==> Get(db, RateKey(ip), clock).value.Bucket?
    ensures var call := TB.Call(EffectiveCapacity(capacity, limit) as real, now, clock);
      var key, bucket := "vanguard:ratelimit:" + ip, Get(db, RateKey(ip), clock);
      var cap := (match limit case None => capacity case Some(k) => if k == 0 then capacity else k) as real;
      var refilled := if bucket.None? then cap else bucket.value.tokens + (now - bucket.value.lastRefill) * r;
      var tokens := if refilled < cap then refilled else cap;
      && TB.Refill(CellAt(db, key), call, r) == tokens
      && RunScript(db, key, call, r)
         == db[key := Entry(Bucket(if tokens >= 1.0 then tokens - 1.0 else tokens, now), Some(clock + 3600.0))]
  {
    var key := RateKey(ip);
    assert key == "vanguard:ratelimit:" + ip;
    hide RateKey, ScriptEntry;
    var call := TB.Call(EffectiveCapacity(capacity, limit) as real, now, clock);
    EntryWrittenOut(CellAt(db, key), call, r);
    var cell, bucket := CellAt(db, key), Get(db, key, clock);
    assert TB.LiveCell(cell, clock) <==> bucket.Some?;
    if bucket.Some? {
      assert cell.tokens == bucket.value.tokens && cell.lastRefill == bucket.value.lastRefill;
      assert TB.Gain(cell.lastRefill, now, r) == (now - bucket.value.lastRefill) * r;
    }
    hide CellAt, Get, TB.LiveCell, TB.Gain;
  }

  lemma {:induction false} EntryWrittenOut(cell: TB.Cell, call: TB.Call, r: real)
    ensures var tokens := TB.Refill(cell, call, r);
      ScriptEntry(cell, call, r)
      == Entry(Bucket(if tokens >= 1.0 then tokens - 1.0 else tokens, call.now), Some(call.at + 3600.0))
  {
    hide TB.Refill;
  }

  class TokenBucketRateLimiter {
    const capacity: int
    const refillPerSec: real
    const redis: Redis

    constructor (capacity: int, refillPerSec: real, redis: Redis)
      ensures this.capacity == capacity && this.refillPerSec == refillPerSec && this.redis == redis
    {
      this.capacity, this.refillPerSec, this.redis := capacity, refillPerSec, redis;
    }

    /** `now` is read by the caller; the script runs later, at the store's `clock`. */
    method Allow(ip: string, capacityOverride: Option<int>, now: real, clock: real)
      returns (allowed: bool, remaining: int)
      requires Get(redis.db, RateKey(ip), clock).Some? ==> Get(redis.db, RateKey(ip), clock).value.Bucket?
      modifies redis
      ensures var call := TB.Call(EffectiveCapacity(capacity, capacityOverride) as real, now, clock);
        && redis.db == RunScript(old(redis.db), RateKey(ip), call, refillPerSec)
        && allowed == (TB.Refill(CellAt(old(redis.db), RateKey(ip)), call, refillPerSec) >= 1.0)
        && remaining == Truncate(TB.Take(TB.Refill(CellAt(old(redis.db), RateKey(ip)), call, refillPerSec)))
    {
      var key := RateKey(ip);
      var cap := EffectiveCapacity(capacity, capacityOverride) as real;
      var bucket := redis.RunGet(key, clock);
      var tokens, lastRefill := cap, now;
      if bucket.Some? {
        tokens, lastRefill := bucket.value.tokens, bucket.value.lastRefill;
      }
      var elapsed := now - lastRefill;
      assert bucket.None? ==> elapsed * refillPerSec == 0.0;
      assert bucket.Some? ==> elapsed * refillPerSec == TB.Gain(lastRefill, now, refillPerSec);
      tokens := TB.Min(cap, tokens + elapsed * refillPerSec);
      allowed := false;
      if tokens >= 1.0 {
        tokens := tokens - 1.0;
        allowed := true;
      }
      redis.RunSetEx(key, Bucket(tokens, now), BUCKET_TTL, clock);
      remaining := Truncate(tokens);
    }

    /** How many of the default capacity's tokens are in use: what the events report. */
    method CurrentRate(ip: string, clock: real) returns (rate: real)
      requires Get(redis.db, RateKey(ip), clock).Some? ==> Get(redis.db, RateKey(ip), clock).value.Bucket?
      ensures rate == match Get(redis.db, RateKey(ip), clock)
                      case None => 0.0
                      case Some(bucket) => capacity as real - bucket.tokens
    {
      var bucket := redis.RunGet(RateKey(ip), clock);
      rate := if bucket.None? then 0.0 else capacity as real - bucket.value.tokens;
    }
  }
}
