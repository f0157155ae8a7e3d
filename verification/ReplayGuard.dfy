/** The replay guard: a time window, and nonce keys that live for a TTL.

    One guard serves HTTP, WebSocket and UDP.  A validation reads the clock, and later runs its
    SET NX; the two moments of different validations interleave freely. */
module ReplayGuard {
  import opened TimedStore
  import opened Keys

  datatype Settings = Settings(window: real, nonceTtl: real)

  datatype Verdict = Accepted | OutOfWindow | NonceReused

  function Abs(x: real): real { if x < 0.0 then -x else x }

  predicate InWindow(settings: Settings, timestamp: real, now: real) {
    Abs(now - timestamp) <= settings.window
  }

  /** The verdict on a request whose clock reading was `now` and whose SET NX runs at `clock`. */
  function Judge(db: Keyspace, settings: Settings, client: string, nonce: string, timestamp: real, now: real,
                 clock: real): Verdict
  {
    if !InWindow(settings, timestamp, now) then OutOfWindow
    else if Exists(db, NonceKey(client, nonce), clock) then NonceReused
    else Accepted
  }

  /** Only an accepted request writes, and it writes only its nonce key. */
  function JudgeStore(db: Keyspace, settings: Settings, client: string, nonce: string, timestamp: real, now: real,
                      clock: real): Keyspace
  {
    if Judge(db, settings, client, nonce, timestamp, now, clock).Accepted?
    then SetEx(db, NonceKey(client, nonce), Mark, settings.nonceTtl, clock)
    else db
  }

  class ReplayAttackGuard {
    const settings: Settings
    const redis: Redis

    constructor (settings: Settings, redis: Redis)
      ensures this.settings == settings && this.redis == redis
    {
      this.settings, this.redis := settings, redis;
    }

    method Validate(client: string, nonce: string, timestamp: real, now: real, clock: real) returns (verdict: Verdict)
      modifies redis
      ensures verdict == Judge(old(redis.db), settings, client, nonce, timestamp, now, clock)
      ensures redis.db == JudgeStore(old(redis.db), settings, client, nonce, timestamp, now, clock)
    {
      var drift := Abs(now - timestamp);
      if drift > settings.window {
        return OutOfWindow;
      }
      var wasSet := redis.RunSetNxEx(NonceKey(client, nonce), Mark, settings.nonceTtl, clock);
      if !wasSet {
        return NonceReused;
      }
      return Accepted;
    }
  }
}
