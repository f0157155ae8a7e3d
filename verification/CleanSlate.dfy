/** The ban state machine when whole requests are atomic: a request is checked for a ban before it
    can violate anything, so violations are only ever recorded while no ban is live. */
module CleanSlate {
  import opened TimedStore
  import opened Keys
  import opened Blacklist
  import opened BanHistory

  /** Every violation found no live ban, as the request pipeline guarantees. */
  predicate Gated(events: seq<Event>, policy: Policy, ip: string) {
    forall n :: 0 <= n < |events| && events[n].Violation? ==>
      !Exists(StoreAfter(events, policy, ip, n), BanKey(ip), events[n].at)
  }

  /** How the two keys stand after the events up to time `upTo`. */
  ghost predicate Balanced(db: Keyspace, policy: Policy, ip: string, upTo: real) {
    var counter, ban := ViolationKey(ip), BanKey(ip);
    && (counter in db ==>
         && db[counter].value.Count? && 1 <= db[counter].value.n
         && db[counter].expiry.Some? && db[counter].expiry.value <= upTo + policy.ttl)
    && (ban in db ==> db[ban].expiry.Some?)
    // The count never passes the threshold, and at the threshold there is a ban that lasts as long.
    && (counter in db ==> db[counter].value.n <= policy.threshold)
    && (counter in db && db[counter].value.n == policy.threshold ==>
         ban in db && db[counter].expiry.value <= db[ban].expiry.value)
    // The ban outlasts the counter, or was over when the last violation came.
    && (counter in db && ban in db ==>
         || db[counter].expiry.value <= db[ban].expiry.value
         || db[ban].expiry.value < db[counter].expiry.value - policy.ttl)
  }

  lemma {:induction false} BalancedAlways(events: seq<Event>, policy: Policy, ip: string, n: nat, upTo: real)
    requires n <= |events| && policy.ttl >= 0.0 && policy.threshold >= 1
    requires Ordered(events) && Gated(events, policy, ip)
    requires forall k :: 0 <= k < n ==> events[k].at <= upTo
    ensures Balanced(StoreAfter(events, policy, ip, n), policy, ip, upTo)
  {
    hide Apply, Balanced, Exists;
    if n == 0 {
      EmptyIsBalanced(policy, ip, upTo);
    } else {
      BalancedAlways(events, policy, ip, n - 1, events[n - 1].at);
      BalancedStep(StoreAfter(events, policy, ip, n - 1), policy, ip, events[n - 1]);
      BalancedLater(StoreAfter(events, policy, ip, n), policy, ip, events[n - 1].at, upTo);
    }
  }

  lemma {:induction false} EmptyIsBalanced(policy: Policy, ip: string, upTo: real)
    ensures Balanced(map[], policy, ip, upTo)
  {
  }

  lemma {:induction false} BalancedLater(db: Keyspace, policy: Policy, ip: string, at: real, upTo: real)
    requires Balanced(db, policy, ip, at) && at <= upTo
    ensures Balanced(db, policy, ip, upTo)
  {
  }

  /** A balanced ban that is over takes the counter with it. */
  lemma {:induction false} LapseTakesCounter(db: Keyspace, policy: Policy, ip: string, at: real, now: real)
    requires Balanced(db, policy, ip, at) && Exists(db, BanKey(ip), at) && !Exists(db, BanKey(ip), now)
    ensures !Exists(db, ViolationKey(ip), now)
  {
  }

  lemma {:induction false} BalancedStep(db: Keyspace, policy: Policy, ip: string, e: Event)
    requires policy.ttl >= 0.0 && policy.threshold >= 1
    requires Balanced(db, policy, ip, e.at)
    requires e.Violation? ==> !Exists(db, BanKey(ip), e.at)
    ensures Balanced(Apply(db, policy, ip, e), policy, ip, e.at)
  {
    FamiliesDisjoint(ip, ip, ip, "", "");
    CounterEffects(db, policy, ip, e);
  }

  /** At every instant: the count is at most the threshold; a count at the threshold has a ban that
      is live and lasts at least as long; and a live ban never expires before the counter. */
  lemma {:induction false} BanCoversCounter(events: seq<Event>, policy: Policy, ip: string, now: real)
    requires policy.ttl >= 0.0 && policy.threshold >= 1
    requires Ordered(events) && Gated(events, policy, ip)
    requires |events| > 0 ==> events[|events| - 1].at <= now
    ensures var db := StoreAfter(events, policy, ip, |events|);
      var counter, ban := ViolationKey(ip), BanKey(ip);
      && CountAt(db, counter, now) <= policy.threshold
      && (CountAt(db, counter, now) == policy.threshold ==> Exists(db, ban, now))
      && (Exists(db, ban, now) && Exists(db, counter, now) ==>
            db[counter].expiry.Some? && db[ban].expiry.Some? && db[counter].expiry.value <= db[ban].expiry.value)
  {
    BalancedAlways(events, policy, ip, |events|, now);
  }

  function Violations(events: seq<Event>, i: nat, j: nat): nat
    requires i <= j <= |events|
    decreases j - i
  {
    if i == j then 0 else Violations(events, i, j - 1) + if events[j - 1].Violation? then 1 else 0
  }

  /** With a dead counter at event i, the count at event j comes from the violations in between. */
  lemma {:induction false} CountFromHere(events: seq<Event>, policy: Policy, ip: string, i: nat, j: nat)
    requires i <= j < |events| && policy.ttl >= 0.0 && Ordered(events)
    requires !Exists(StoreAfter(events, policy, ip, i), ViolationKey(ip), events[i].at)
    ensures CountAt(StoreAfter(events, policy, ip, j), ViolationKey(ip), events[j].at) <= Violations(events, i, j)
    decreases j - i
  {
    hide Apply;
    if i < j {
      CountFromHere(events, policy, ip, i, j - 1);
      CounterEffects(StoreAfter(events, policy, ip, j - 1), policy, ip, events[j - 1]);
      Fades(events, policy, ip, j - 1, events[j - 1].at, events[j].at);
    }
  }

  lemma {:induction false} Fades(events: seq<Event>, policy: Policy, ip: string, n: nat, earlier: real, later: real)
    requires n <= |events| && policy.ttl >= 0.0 && earlier <= later
    ensures var db, key := StoreAfter(events, policy, ip, n), ViolationKey(ip);
            CountAt(db, key, later) <= CountAt(db, key, earlier)
  {
    CounterAlways(events, policy, ip, n);
  }

  /** A ban that was live when event i - 1 had happened and is over when event i comes. */
  predicate LapsesBefore(events: seq<Event>, policy: Policy, ip: string, i: nat)
    requires 0 < i < |events|
  {
    var db := StoreAfter(events, policy, ip, i);
    Exists(db, BanKey(ip), events[i - 1].at) && !Exists(db, BanKey(ip), events[i].at)
  }

  lemma {:induction false} CounterGone(events: seq<Event>, policy: Policy, ip: string, i: nat)
    requires policy.ttl >= 0.0 && policy.threshold >= 1
    requires Ordered(events) && Gated(events, policy, ip)
    requires 0 < i < |events|
    requires LapsesBefore(events, policy, ip, i) || events[i - 1].Unbanned?
    ensures !Exists(StoreAfter(events, policy, ip, i), ViolationKey(ip), events[i].at)
  {
    hide Apply, Balanced, Gated;
    if events[i - 1].Unbanned? {
      CounterEffects(StoreAfter(events, policy, ip, i - 1), policy, ip, events[i - 1]);
    } else {
      BalancedAlways(events, policy, ip, i, events[i - 1].at);
      LapseTakesCounter(StoreAfter(events, policy, ip, i), policy, ip, events[i - 1].at, events[i].at);
    }
  }

  /** Clean slate: after a ban lapses, or after an unban, an automatic ban at event j takes a full
      threshold of new violations (event j itself included). */
  lemma {:induction false} FullThresholdAgain(events: seq<Event>, policy: Policy, ip: string, i: nat, j: nat)
    requires policy.ttl >= 0.0 && policy.threshold >= 1
    requires Ordered(events) && Gated(events, policy, ip)
    requires 0 < i <= j < |events|
    ensures (LapsesBefore(events, policy, ip, i) || events[i - 1].Unbanned?)
         && events[j].Violation? && Reaches(StoreAfter(events, policy, ip, j), policy, ip, events[j].at)
         ==> Violations(events, i, j + 1) >= policy.threshold
  {
    if LapsesBefore(events, policy, ip, i) || events[i - 1].Unbanned? {
      CounterGone(events, policy, ip, i);
      CountFromHere(events, policy, ip, i, j);
    }
  }
}
