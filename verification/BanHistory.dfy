/** What the stored counter means: a property of the whole history of one ip. */
module BanHistory {
  import opened Options
  import opened TimedStore
  import opened Keys
  import opened Blacklist

  /** What happens to one ip, each whole operation at one instant. */
  datatype Event =
    | Violation(at: real, reason: string)
    | ManualBan(at: real, reason: string)
    | Unbanned(at: real)

  function Apply(db: Keyspace, policy: Policy, ip: string, e: Event): Keyspace {
    match e
    case Violation(at, reason) => ViolationStore(db, policy, ip, reason, at, at)
    case ManualBan(at, reason) => BanStore(db, policy, ip, reason, 1, at, at)
    case Unbanned(at) => UnbanStore(db, ip)
  }

  /** The store after the first `n` events. */
  function StoreAfter(events: seq<Event>, policy: Policy, ip: string, n: nat): Keyspace
    requires n <= |events|
  {
    if n == 0 then map[] else Apply(StoreAfter(events, policy, ip, n - 1), policy, ip, events[n - 1])
  }

  predicate Ordered(events: seq<Event>) {
    forall i, j :: 0 <= i < j < |events| ==> events[i].at <= events[j].at
  }

  /** The times of the violations since the last unban among the first `n` events. */
  function SinceUnban(events: seq<Event>, n: nat): seq<real>
    requires n <= |events|
  {
    if n == 0 then [] else
      match events[n - 1]
      case Violation(at, _) => SinceUnban(events, n - 1) + [at]
      case ManualBan(_, _) => SinceUnban(events, n - 1)
      case Unbanned(_) => []
  }

  /** From time i to the next one, or from the last one to `now`. */
  function Gap(times: seq<real>, i: nat, now: real): real
    requires i < |times|
  {
    (if i + 1 < |times| then times[i + 1] else now) - times[i]
  }

  /** The last `k` of the times follow each other, and reach `now`, in gaps of at most `ttl`. */
  predicate Chained(times: seq<real>, k: nat, now: real, ttl: real) {
    k <= |times| && forall i :: |times| - k <= i < |times| ==> Gap(times, i, now) <= ttl
  }

  /** `k` is the length of the longest such suffix. */
  predicate Longest(times: seq<real>, k: nat, now: real, ttl: real) {
    Chained(times, k, now, ttl) && !Chained(times, k + 1, now, ttl)
  }

  lemma {:induction false} ChainedSnoc(times: seq<real>, at: real, k: nat, now: real, ttl: real)
    ensures Chained(times + [at], k + 1, now, ttl) <==> Chained(times, k, at, ttl) && now - at <= ttl
  {
    var all := times + [at];
    assert Gap(all, |times|, now) == now - at;
    assert forall i :: 0 <= i < |times| ==> Gap(all, i, now) == Gap(times, i, at);
  }

  /** The counter key after `n` events: absent before the first violation since an unban, and
      otherwise set to the streak that ended at that last violation, for one more `ttl`. */
  ghost predicate CounterIs(events: seq<Event>, policy: Policy, ip: string, n: nat)
    requires n <= |events|
  {
    var db, times := StoreAfter(events, policy, ip, n), SinceUnban(events, n);
    if times == [] then ViolationKey(ip) !in db
    else
      var last := times[|times| - 1];
      && ViolationKey(ip) in db
      && db[ViolationKey(ip)].value.Count?
      && db[ViolationKey(ip)].expiry == Some(last + policy.ttl)
      && db[ViolationKey(ip)].value.n >= 0
      && Longest(times, db[ViolationKey(ip)].value.n, last, policy.ttl)
  }

  /** What each operation does to the counter key. */
  lemma {:induction false} CounterEffects(db: Keyspace, policy: Policy, ip: string, e: Event)
    requires policy.ttl >= 0.0
    ensures var key, db' := ViolationKey(ip), Apply(db, policy, ip, e);
      match e
      case Violation(at, _) => key in db' && db'[key] == Entry(Count(CountAt(db, key, at) + 1), Some(at + policy.ttl))
      case ManualBan(_, _) => (key in db' <==> key in db) && (key in db ==> db'[key] == db[key])
      case Unbanned(_) => key !in db'
  {
    FamiliesDisjoint(ip, ip, ip, "", "");
  }

  lemma {:induction false} CounterAlways(events: seq<Event>, policy: Policy, ip: string, n: nat)
    requires n <= |events| && policy.ttl >= 0.0
    ensures CounterIs(events, policy, ip, n)
  {
    if n > 0 {
      CounterAlways(events, policy, ip, n - 1);
      CounterEffects(StoreAfter(events, policy, ip, n - 1), policy, ip, events[n - 1]);
      var at := events[n - 1].at;
      if events[n - 1].Violation? {
        var k := StreakAt(events, policy, ip, n - 1, at);
        ChainedSnoc(SinceUnban(events, n - 1), at, k, at, policy.ttl);
        ChainedSnoc(SinceUnban(events, n - 1), at, k + 1, at, policy.ttl);
      }
    }
  }

  /** The live count equals the longest streak, at any instant. */
  lemma {:induction false} StreakAt(events: seq<Event>, policy: Policy, ip: string, n: nat, now: real) returns (k: nat)
    requires n <= |events| && policy.ttl >= 0.0
    requires CounterIs(events, policy, ip, n)
    ensures k == CountAt(StoreAfter(events, policy, ip, n), ViolationKey(ip), now)
    ensures Longest(SinceUnban(events, n), k, now, policy.ttl)
  {
    k := CountAt(StoreAfter(events, policy, ip, n), ViolationKey(ip), now);
    var times := SinceUnban(events, n);
    if times != [] {
      var early, last := times[..|times| - 1], times[|times| - 1];
      assert times == early + [last];
      var m := StoreAfter(events, policy, ip, n)[ViolationKey(ip)].value.n;
      if m > 0 {
        ChainedSnoc(early, last, m - 1, last, policy.ttl);
        ChainedSnoc(early, last, m - 1, now, policy.ttl);
      }
      ChainedSnoc(early, last, m, last, policy.ttl);
      ChainedSnoc(early, last, m, now, policy.ttl);
      ChainedSnoc(early, last, 0, last, policy.ttl);
      ChainedSnoc(early, last, 0, now, policy.ttl);
    }
  }

  /** At any instant after any history, the live count is the length of the longest suffix of the
      violations since the last unban whose gaps, up to now, are all within the TTL. */
  lemma {:induction false} CountIsHistory(events: seq<Event>, policy: Policy, ip: string, now: real)
    requires policy.ttl >= 0.0
    ensures var k := CountAt(StoreAfter(events, policy, ip, |events|), ViolationKey(ip), now);
      && 0 <= k
      && Chained(SinceUnban(events, |events|), k, now, policy.ttl)
      && forall m: nat :: Chained(SinceUnban(events, |events|), m, now, policy.ttl) ==> m <= k
  {
    CounterAlways(events, policy, ip, |events|);
    var k := StreakAt(events, policy, ip, |events|, now);
  }

  /** `record_violation` answers "banned" exactly when the streak that it completes is long enough. */
  lemma {:induction false} BansExactlyAtThreshold(events: seq<Event>, policy: Policy, ip: string, at: real, streak: nat)
    requires policy.ttl >= 0.0
    requires Longest(SinceUnban(events, |events|) + [at], streak, at, policy.ttl)
    ensures Reaches(StoreAfter(events, policy, ip, |events|), policy, ip, at) <==> streak >= policy.threshold
  {
    CounterAlways(events, policy, ip, |events|);
    var times := SinceUnban(events, |events|);
    var k := StreakAt(events, policy, ip, |events|, at);
    ChainedSnoc(times, at, k, at, policy.ttl);
    ChainedSnoc(times, at, k + 1, at, policy.ttl);
  }
}
