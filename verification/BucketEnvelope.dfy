/** The interval envelope of the bucket that does expire: when it holds through every expiry. */
module BucketEnvelope {
  import opened Options
  import opened TokenBucket
  import opened BucketExpiry

  /** The store's own clock, these capacities, and an idle `ttl` that refills them. */
  predicate Steady(calls: seq<Call>, capacities: set<int>, r: real, ttl: real) {
    Agreeing(calls) && CapacitiesIn(calls, capacities) && Refills(capacities, r, ttl)
  }

  /** Either the key does not expire from call i to call j, or its expiry cannot be seen. */
  ghost predicate Enveloped(calls: seq<Call>, r: real, ttl: real, i: nat, j: nat)
    requires j < |calls|
  {
    Unexpired(calls, Some(ttl), i, j) || exists capacities :: Steady(calls, capacities, r, ttl)
  }

  lemma {:induction false} SteadyDecisions(calls: seq<Call>, capacities: set<int>, r: real, ttl: real)
    requires ttl > 0.0 && Steady(calls, capacities, r, ttl)
    ensures Decisions(calls, r, Some(ttl)) == Decisions(calls, r, None)
  {
    forall n | 0 <= n < |calls| ensures Decisions(calls, r, Some(ttl))[n] == Decisions(calls, r, None)[n] {
      SameTokens(calls, capacities, r, ttl, n);
    }
  }

  /** An interval that ends in an admitted call keeps its bound. */
  lemma {:induction false} EnvelopeHolds(calls: seq<Call>, r: real, ttl: real, i: nat, j: nat)
    requires ttl > 0.0 && i <= j < |calls| && Enveloped(calls, r, ttl, i, j)
    requires Decisions(calls, r, Some(ttl))[j]
    ensures Accepted(Decisions(calls, r, Some(ttl)), i, j + 1) as real <= Bound(calls, r, i, j)
  {
    if Unexpired(calls, Some(ttl), i, j) {
      Envelope(calls, r, Some(ttl), i, j);
    } else {
      var capacities :| Steady(calls, capacities, r, ttl);
      SteadyDecisions(calls, capacities, r, ttl);
      Envelope(calls, r, None, i, j);
    }
  }

  // ----- exactly when -----

  /** On every run with these capacities, the expiring bucket keeps every interval within its bound. */
  ghost predicate AlwaysRespects(capacities: set<int>, r: real, ttl: real) {
    forall calls :: Agreeing(calls) && CapacitiesIn(calls, capacities) ==>
        Respects(calls, r, Decisions(calls, r, Some(ttl)))
  }

  /** Through any number of expiries, the bounds hold exactly when an idle `ttl` refills the bucket - or
      when no capacity is worth one token, so that nothing is ever admitted. */
  lemma {:induction false} RespectsIff(capacities: set<int>, r: real, ttl: real)
    requires ttl > 0.0
    ensures AlwaysRespects(capacities, r, ttl) <==>
      Refills(capacities, r, ttl) || forall c :: c in capacities ==> c <= 0
  {
    if Refills(capacities, r, ttl) || forall c :: c in capacities ==> c <= 0 {
      forall calls | Agreeing(calls) && CapacitiesIn(calls, capacities)
        ensures Respects(calls, r, Decisions(calls, r, Some(ttl)))
      {
        forall i, j | 0 <= i <= j < |calls| && Decisions(calls, r, Some(ttl))[j]
          ensures Accepted(Decisions(calls, r, Some(ttl)), i, j + 1) as real <= Bound(calls, r, i, j)
        {
          assert Steady(calls, capacities, r, ttl);
          EnvelopeHolds(calls, r, ttl, i, j);
        }
      }
    } else {
      var c, d := Culprits(capacities, r, ttl);
      var calls := Overrun(c, d, r, ttl);
      assert CapacitiesIn(calls, capacities);
    }
  }

  predicate Overruns(c: int, d: int, r: real, ttl: real) {
    c >= 1 && ((d <= 0 && (c - d) as real > ttl * r) || (d == c && c as real > ttl * r))
  }

  lemma {:induction false} Culprits(capacities: set<int>, r: real, ttl: real) returns (c: int, d: int)
    requires !Refills(capacities, r, ttl) && !(forall c :: c in capacities ==> c <= 0)
    ensures c in capacities && d in capacities && Overruns(c, d, r, ttl)
  {
    c, d :| c in capacities && d in capacities && !((c - d) as real <= ttl * r && (c >= 1 ==> c as real <= ttl * r));
    if c <= 0 {
      c :| c in capacities && c >= 1;
    }
    if d >= 1 || (c - d) as real <= ttl * r {
      d := c;
    }
  }

  /** Calls at one instant, from one that finds no live bucket, find one token less each time. */
  lemma {:induction false} Burst(calls: seq<Call>, c: int, t: real, r: real, ttl: real, s: nat, q: nat)
    requires s + q < |calls| && q < c && ttl > 0.0
    requires !LiveCell(After(calls, r, Some(ttl), s), calls[s].at)
    requires forall k :: s <= k <= s + q ==> calls[k] == Call(c as real, t, t)
    ensures Tokens(calls, r, Some(ttl), s + q) == (c - q) as real
    decreases q
  {
    if q > 0 {
      Burst(calls, c, t, r, ttl, s, q - 1);
      StillLive(calls, r, Some(ttl), s + q);
      assert Gain(t, t, r) == 0.0;
    }
  }

  lemma {:induction false} AcceptedAll(choice: seq<bool>, i: nat, j: nat)
    requires i <= j <= |choice| && forall k :: i <= k < j ==> choice[k]
    ensures Accepted(choice, i, j) == j - i
    decreases j - i
  {
    if i < j {
      AcceptedAll(choice, i, j - 1);
    }
  }

  /** A burst that c tokens allow, of `n` calls from call s on, is accepted as a whole. */
  lemma {:induction false} BurstAccepted(calls: seq<Call>, c: int, t: real, r: real, ttl: real, s: nat, n: nat)
    requires s + n <= |calls| && 1 <= n <= c && ttl > 0.0
    requires !LiveCell(After(calls, r, Some(ttl), s), calls[s].at)
    requires forall k :: s <= k < s + n ==> calls[k] == Call(c as real, t, t)
    ensures Accepted(Decisions(calls, r, Some(ttl)), s, s + n) == n
    ensures Decisions(calls, r, Some(ttl))[s + n - 1]
  {
    var d := Decisions(calls, r, Some(ttl));
    forall k | s <= k < s + n ensures d[k] {
      Burst(calls, c, t, r, ttl, s, k - s);
    }
    AcceptedAll(d, s, s + n);
  }

  /** p calls with capacity d, and at time `idle` c calls with capacity c. */
  function TwoBursts(d: int, p: nat, c: nat, idle: real): (calls: seq<Call>)
    ensures |calls| == p + c
    ensures forall k :: 0 <= k < p ==> calls[k] == Call(d as real, 0.0, 0.0)
    ensures forall k :: p <= k < p + c ==> calls[k] == Call(c as real, idle, idle)
  {
    seq(p + c, k => if k < p then Call(d as real, 0.0, 0.0) else Call(c as real, idle, idle))
  }

  lemma {:induction false} SecondBurst(d: int, p: nat, c: nat, idle: real, r: real, ttl: real)
    requires p >= 1 && c >= 1 && 0.0 < ttl < idle
    ensures var choice := Decisions(TwoBursts(d, p, c, idle), r, Some(ttl));
      choice[p + c - 1] && Accepted(choice, p, p + c) == c
  {
    hide TwoBursts;
    var calls := TwoBursts(d, p, c, idle);
    assert After(calls, r, Some(ttl), p) == Store(After(calls, r, Some(ttl), p - 1), calls[p - 1], r, Some(ttl));
    BurstAccepted(calls, c, idle, r, ttl, p, c);
  }

  lemma {:induction false} FirstBurst(d: int, p: nat, c: nat, idle: real, r: real, ttl: real)
    requires p >= 1 && c >= 1 && ttl > 0.0 && (d <= 0 || p == d)
    ensures Accepted(Decisions(TwoBursts(d, p, c, idle), r, Some(ttl)), 0, p) >= if d <= 0 then 0 else d
  {
    hide TwoBursts;
    if d > 0 {
      BurstAccepted(TwoBursts(d, p, c, idle), d, 0.0, r, ttl, 0, p);
    }
  }

  /** Empty the bucket (or just set it back to d), let its key expire, and empty it again. */
  lemma {:induction false} Overrun(c: int, d: int, r: real, ttl: real) returns (calls: seq<Call>)
    requires ttl > 0.0 && Overruns(c, d, r, ttl)
    ensures Agreeing(calls) && !Respects(calls, r, Decisions(calls, r, Some(ttl)))
    ensures forall k :: 0 <= k < |calls| ==> calls[k].capacity == c as real || calls[k].capacity == d as real
  {
    hide TwoBursts, Decisions, Accepted;
    var p := if d <= 0 then 1 else c;
    var idle := IdleTime((if d <= 0 then c - d else c) as real, r, ttl);
    calls := TwoBursts(d, p, c, idle);
    FirstBurst(d, p, c, idle, r, ttl);
    SecondBurst(d, p, c, idle, r, ttl);
    AcceptedSplit(Decisions(calls, r, Some(ttl)), 0, p, p + c);
    assert Bound(calls, r, 0, p + c - 1) == d as real + idle * r;
  }
}
