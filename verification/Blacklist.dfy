/** The violation counter and the ban of an ip, both kept in the shared store with one TTL. */
module Blacklist {
  import opened Options
  import opened TimedStore
  import opened Keys

  datatype Policy = Policy(ttl: real, threshold: int)

  function NewEntry(policy: Policy, ip: string, reason: string, count: int, now: real): BlacklistEntry {
    BlacklistEntry(ip, reason, now, now + policy.ttl, count)
  }

  function BanStore(db: Keyspace, policy: Policy, ip: string, reason: string, count: int, now: real,
                    clock: real): Keyspace
  {
    SetEx(db, BanKey(ip), Ban(NewEntry(policy, ip, reason, count, now)), policy.ttl, clock)
  }

  predicate Reaches(db: Keyspace, policy: Policy, ip: string, clock: real) {
    CountAt(db, ViolationKey(ip), clock) + 1 >= policy.threshold
  }

  function CountedStore(db: Keyspace, policy: Policy, ip: string, clock: real): Keyspace {
    Expire(Incr(db, ViolationKey(ip), clock), ViolationKey(ip), policy.ttl, clock)
  }

  /** The store after one whole `record_violation`. */
  function ViolationStore(db: Keyspace, policy: Policy, ip: string, reason: string, now: real, clock: real): Keyspace {
    var counted := CountedStore(db, policy, ip, clock);
    if Reaches(db, policy, ip, clock)
    then BanStore(counted, policy, ip, reason, CountAt(db, ViolationKey(ip), clock) + 1, now, clock)
    else counted
  }

  function UnbanStore(db: Keyspace, ip: string): Keyspace {
    Del(Del(db, BanKey(ip)), ViolationKey(ip))
  }

  /** A violation written out: the counter goes on from a live count and gets a fresh TTL; the count that
      reaches the threshold is banned with it, for one TTL, with the reason and the time of the violation. */
  lemma {:induction false} ViolationWrittenOut(db: Keyspace, policy: Policy, ip: string, reason: string, now: real,
                                               clock: real)
    ensures var counter, ban := "vanguard:violations:" + ip, "vanguard:blacklist:" + ip;
      var n := CountAt(db, counter, clock) + 1;
      var counted := db[counter := Entry(Count(n), Some(clock + policy.ttl))];
      ViolationStore(db, policy, ip, reason, now, clock)
      == if n >= policy.threshold
         then counted[ban := Entry(Ban(BlacklistEntry(ip, reason, now, now + policy.ttl, n)),
                                   Some(clock + policy.ttl))]
         else counted
  {
    assert ViolationKey(ip) == "vanguard:violations:" + ip && BanKey(ip) == "vanguard:blacklist:" + ip;
    hide ViolationKey, BanKey, CountAt;
  }

  /** The admin's ban counts as one violation, and the admin's unban forgets both. */
  lemma {:induction false} AdminWrittenOut(db: Keyspace, policy: Policy, ip: string, reason: string, now: real,
                                           clock: real)
    ensures BanStore(db, policy, ip, reason, 1, now, clock)
         == db["vanguard:blacklist:" + ip :=
                 Entry(Ban(BlacklistEntry(ip, reason, now, now + policy.ttl, 1)), Some(clock + policy.ttl))]
    ensures UnbanStore(db, ip) == db - {"vanguard:blacklist:" + ip, "vanguard:violations:" + ip}
  {
    assert ViolationKey(ip) == "vanguard:violations:" + ip && BanKey(ip) == "vanguard:blacklist:" + ip;
    hide ViolationKey, BanKey;
  }

  /** A ban key always holds the entry of its own ip. */
  ghost predicate BansNamed(db: Keyspace) {
    forall ip :: BanKey(ip) in db ==> db[BanKey(ip)].value.Ban? && db[BanKey(ip)].value.entry.ip == ip
  }

  lemma {:induction false} BanKeyOfPrefixed(key: string)
    requires BAN_PREFIX <= key
    ensures key == BanKey(key[|BAN_PREFIX|..])
  {
  }

  class IPBlacklistManager {
    const policy: Policy
    const redis: Redis

    constructor (policy: Policy, redis: Redis)
      ensures this.policy == policy && this.redis == redis
    {
      this.policy, this.redis := policy, redis;
    }

    method RecordViolation(ip: string, reason: string, now: real, clock: real) returns (banned: bool)
      modifies redis
      ensures redis.db == ViolationStore(old(redis.db), policy, ip, reason, now, clock)
      ensures banned == Reaches(old(redis.db), policy, ip, clock)
    {
      var key := ViolationKey(ip);
      var count := redis.RunIncr(key, clock);
      redis.RunExpire(key, policy.ttl, clock);
      if count >= policy.threshold {
        BanIp(ip, reason, count, now, clock);
        return true;
      }
      return false;
    }

    method BanIp(ip: string, reason: string, violationCount: int, now: real, clock: real)
      modifies redis
      ensures redis.db == BanStore(old(redis.db), policy, ip, reason, violationCount, now, clock)
    {
      var entry := BlacklistEntry(ip, reason, now, now + policy.ttl, violationCount);
      redis.RunSetEx(BanKey(ip), Ban(entry), policy.ttl, clock);
    }

    method IsBanned(ip: string, clock: real) returns (banned: bool)
      ensures banned == Exists(redis.db, BanKey(ip), clock)
    {
      banned := redis.RunExists(BanKey(ip), clock);
    }

    method Unban(ip: string)
      modifies redis
      ensures redis.db == UnbanStore(old(redis.db), ip)
    {
      redis.RunDel(BanKey(ip));
      redis.RunDel(ViolationKey(ip));
    }

    /** KEYS runs at `keysAt` and every GET at `getAt`; an ip is listed iff it is banned at both, so at
        one instant the list and `IsBanned` agree. */
    method ListActive(keysAt: real, getAt: real) returns (entries: seq<BlacklistEntry>)
      requires BansNamed(redis.db)
      ensures forall ip :: (exists i :: 0 <= i < |entries| && entries[i].ip == ip)
                      <==> Exists(redis.db, BanKey(ip), keysAt) && Exists(redis.db, BanKey(ip), getAt)
      ensures forall i, j :: 0 <= i < j < |entries| ==> entries[i].ip != entries[j].ip
    {
      hide Listed, Exists, BansNamed;
      var keys := redis.RunKeys(BAN_PREFIX, keysAt);
      entries := [];
      NothingListed(redis.db, keys, getAt);
      for n := 0 to |keys|
        invariant Listed(redis.db, keys[..n], getAt, entries)
      {
        assert keys[n] in keys && keys[..n + 1] == keys[..n] + [keys[n]];
        BanKeyOfPrefixed(keys[n]);
        BanAt(redis.db, keys[n][|BAN_PREFIX|..], getAt);
        ListOneMore(redis.db, keys[..n], keys[n], getAt, entries);
        var raw := redis.RunGet(keys[n], getAt);
        if raw.Some? {
          entries := entries + [raw.value.entry];
        }
      }
      assert keys[..|keys|] == keys;
      ListedAll(redis.db, keys, keysAt, getAt, entries);
    }
  }

  /** The entries of those of the keys that hold a live ban, each once. */
  ghost predicate Listed(db: Keyspace, keys: seq<string>, getAt: real, entries: seq<BlacklistEntry>) {
    && (forall e :: e in entries ==> BanKey(e.ip) in keys && Exists(db, BanKey(e.ip), getAt))
    && (forall k :: k in keys && Exists(db, k, getAt) ==> exists e :: e in entries && BanKey(e.ip) == k)
    && (forall i, j :: 0 <= i < j < |entries| ==> entries[i].ip != entries[j].ip)
  }

  lemma {:induction false} NothingListed(db: Keyspace, keys: seq<string>, getAt: real)
    ensures Listed(db, keys[..0], getAt, [])
  {
  }

  lemma {:induction false} BanAt(db: Keyspace, ip: string, getAt: real)
    requires BansNamed(db)
    ensures var raw := Get(db, BanKey(ip), getAt);
      raw.Some? <==> Exists(db, BanKey(ip), getAt)
    ensures var raw := Get(db, BanKey(ip), getAt);
      raw.Some? ==> raw.value.Ban? && raw.value.entry.ip == ip
  {
  }

  lemma {:induction false} ListOneMore(db: Keyspace, keys: seq<string>, key: string, getAt: real,
                                       entries: seq<BlacklistEntry>)
    requires Listed(db, keys, getAt, entries) && key !in keys
    ensures !Exists(db, key, getAt) ==> Listed(db, keys + [key], getAt, entries)
    ensures forall e: BlacklistEntry :: Exists(db, key, getAt) && BanKey(e.ip) == key ==>
      Listed(db, keys + [key], getAt, entries + [e])
  {
    forall e: BlacklistEntry | Exists(db, key, getAt) && BanKey(e.ip) == key
      ensures Listed(db, keys + [key], getAt, entries + [e])
    {
      assert e in entries + [e];
      forall x | x in entries ensures x.ip != e.ip && x in entries + [e] {
        assert BanKey(x.ip) in keys;
      }
    }
  }

  lemma {:induction false} ListedAll(db: Keyspace, keys: seq<string>, keysAt: real, getAt: real,
                                     entries: seq<BlacklistEntry>)
    requires Listed(db, keys, getAt, entries)
    requires forall k :: k in keys <==> BAN_PREFIX <= k && Exists(db, k, keysAt)
    ensures forall ip :: (exists i :: 0 <= i < |entries| && entries[i].ip == ip)
                    <==> Exists(db, BanKey(ip), keysAt) && Exists(db, BanKey(ip), getAt)
    ensures forall i, j :: 0 <= i < j < |entries| ==> entries[i].ip != entries[j].ip
  {
    hide Exists;
    forall ip
      ensures (exists i :: 0 <= i < |entries| && entries[i].ip == ip)
         <==> Exists(db, BanKey(ip), keysAt) && Exists(db, BanKey(ip), getAt)
    {
      BanKeyInjective(entries, ip);
      if exists i :: 0 <= i < |entries| && entries[i].ip == ip {
        var i :| 0 <= i < |entries| && entries[i].ip == ip;
        assert entries[i] in entries;
      }
      if Exists(db, BanKey(ip), keysAt) && Exists(db, BanKey(ip), getAt) {
        assert BanKey(ip) in keys;
        var e :| e in entries && BanKey(e.ip) == BanKey(ip);
        var i :| 0 <= i < |entries| && entries[i] == e;
      }
    }
  }

  lemma {:induction false} BanKeyInjective(entries: seq<BlacklistEntry>, ip: string)
    ensures forall i :: 0 <= i < |entries| && BanKey(entries[i].ip) == BanKey(ip) ==> entries[i].ip == ip
  {
    forall i | 0 <= i < |entries| && BanKey(entries[i].ip) == BanKey(ip)
      ensures entries[i].ip == ip
    {
      if entries[i].ip != ip {
        SubjectsDistinct(entries[i].ip, ip);
      }
    }
  }
}
