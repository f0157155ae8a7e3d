/** When the EXPIRE of the script can be seen from outside, and when it cannot. */
module BucketExpiry {
  import opened Options
  import opened TokenBucket

  /** Callers read the store's own clock, and it never goes backwards. */
  predicate Agreeing(calls: seq<Call>) {
    && (forall k :: 0 <= k < |calls| ==> calls[k].now == calls[k].at)
    && (forall k :: 0 < k < |calls| ==> calls[k - 1].at <= calls[k].at)
  }

  predicate CapacitiesIn(calls: seq<Call>, capacities: set<int>) {
    forall k :: 0 <= k < |calls| ==> exists c :: c in capacities && calls[k].capacity == c as real
  }

  /** On every run with these capacities, the expiring bucket holds the same token counts (and so
      gives the same answers) as one that never expires. */
  ghost predicate ExpiryInvisible(capacities: set<int>, r: real, ttl: real) {
    forall calls, n: nat :: Agreeing(calls) && CapacitiesIn(calls, capacities) && n < |calls| ==>
      Tokens(calls, r, Some(ttl), n) == Tokens(calls, r, None, n)
  }

  /** An idle `ttl` refills every capacity from empty, and from every other capacity. */
  predicate Refills(capacities: set<int>, r: real, ttl: real) {
    forall c, d :: c in capacities && d in capacities ==>
        (c - d) as real <= ttl * r && (c >= 1 ==> c as real <= ttl * r)
  }

  /** Expiry cannot be seen exactly when an idle `ttl` refills the bucket, whatever capacities - zero and
      negative ones included - are in use. */
  lemma {:induction false} ExpiryInvisibleIff(capacities: set<int>, r: real, ttl: real)
    requires ttl > 0.0
    ensures ExpiryInvisible(capacities, r, ttl) <==> Refills(capacities, r, ttl)
  {
    if Refills(capacities, r, ttl) {
      forall calls, n: nat | Agreeing(calls) && CapacitiesIn(calls, capacities) && n < |calls|
        ensures Tokens(calls, r, Some(ttl), n) == Tokens(calls, r, None, n)
      {
        SameTokens(calls, capacities, r, ttl, n);
      }
    } else {
      var c, d :| c in capacities && d in capacities
          && !((c - d) as real <= ttl * r && (c >= 1 ==> c as real <= ttl * r));
      var calls, n := SeenExpiry(c, d, r, ttl);
      assert CapacitiesIn(calls, capacities);
    }
  }

  lemma {:induction false} SeenExpiry(c: int, d: int, r: real, ttl: real) returns (calls: seq<Call>, n: nat)
    requires ttl > 0.0 && !((c - d) as real <= ttl * r && (c >= 1 ==> c as real <= ttl * r))
    ensures Agreeing(calls) && n < |calls|
    ensures forall k :: 0 <= k < |calls| ==> calls[k].capacity == c as real || calls[k].capacity == d as real
    ensures Tokens(calls, r, Some(ttl), n) != Tokens(calls, r, None, n)
  {
    if (c - d) as real > ttl * r {
      calls := OtherThenIdle(c, d, r, ttl);
      n := 1;
    } else {
      calls := DrainedThenIdle(c, r, ttl);
      n := c;
    }
  }

  lemma {:induction false} GainCovers(from: real, to: real, r: real, ttl: real)
    requires ttl > 0.0 && 0.0 <= ttl * r && from <= to
    ensures 0.0 <= Gain(from, to, r)
    ensures from + ttl <= to ==> ttl * r <= Gain(from, to, r)
  {
    assert r < 0.0 ==> ttl * r < 0.0;
    assert 0.0 <= (to - from) * r;
    if from + ttl <= to {
      assert 0.0 <= (to - from - ttl) * r;
      assert (to - from - ttl) * r == (to - from) * r - ttl * r;
    }
  }

  /** No bucket is ever emptier than empty, or than the lowest capacity in use. */
  predicate AboveFloor(tokens: real, capacities: set<int>) {
    tokens >= 0.0 || exists d :: d in capacities && tokens >= d as real
  }

  /** The bucket that never expires is refilled; the other one too, or it is full again. */
  lemma {:induction false} BothSteps(calls: seq<Call>, r: real, ttl: real, n: nat)
    requires 0 < n < |calls|
    ensures var gain := Gain(calls[n - 1].now, calls[n].now, r);
      && Tokens(calls, r, None, n) == Min(calls[n].capacity, Take(Tokens(calls, r, None, n - 1)) + gain)
      && Tokens(calls, r, Some(ttl), n)
         == if Unexpired(calls, Some(ttl), n - 1, n)
            then Min(calls[n].capacity, Take(Tokens(calls, r, Some(ttl), n - 1)) + gain)
            else calls[n].capacity
  {
    hide Gain, Take, Min;
    StillLive(calls, r, None, n);
    if Unexpired(calls, Some(ttl), n - 1, n) {
      StillLive(calls, r, Some(ttl), n);
    }
  }

  lemma {:induction false} FullAgain(c: int, tokens: real, gain: real, capacities: set<int>, r: real, ttl: real)
    requires c in capacities && Refills(capacities, r, ttl) && AboveFloor(tokens, capacities)
    requires 0.0 <= ttl * r <= gain
    ensures Min(c as real, tokens + gain) == c as real
  {
    if tokens < 0.0 {
      var d :| d in capacities && tokens >= d as real;
      assert (c - d) as real <= ttl * r;
    }
  }

  lemma {:induction false} FloorStays(c: int, tokens: real, gain: real, capacities: set<int>)
    requires c in capacities && AboveFloor(tokens, capacities) && gain >= 0.0
    ensures AboveFloor(Take(Min(c as real, tokens + gain)), capacities)
  {
  }

  lemma {:induction false} SameTokens(calls: seq<Call>, capacities: set<int>, r: real, ttl: real, n: nat)
    requires ttl > 0.0 && n < |calls| && Refills(capacities, r, ttl)
    requires Agreeing(calls) && CapacitiesIn(calls, capacities)
    ensures Tokens(calls, r, Some(ttl), n) == Tokens(calls, r, None, n)
    ensures AboveFloor(Take(Tokens(calls, r, None, n)), capacities)
  {
    var c :| c in capacities && calls[n].capacity == c as real;
    assert 0.0 <= ttl * r by {
      assert (c - c) as real <= ttl * r;
    }
    if n > 0 {
      SameTokens(calls, capacities, r, ttl, n - 1);
      hide Refills, CapacitiesIn, AboveFloor, Tokens, Gain, Take, Min;
      var t, gain := Take(Tokens(calls, r, None, n - 1)), Gain(calls[n - 1].now, calls[n].now, r);
      GainCovers(calls[n - 1].now, calls[n].now, r, ttl);
      BothSteps(calls, r, ttl, n);
      FloorStays(c, t, gain, capacities);
      if !Unexpired(calls, Some(ttl), n - 1, n) {
        FullAgain(c, t, gain, capacities, r, ttl);
      }
    } else {
      hide Refills, CapacitiesIn;
    }
  }

  /** A call with capacity d, and after an idle time longer than `ttl` one with capacity c. */
  lemma {:induction false} OtherThenIdle(c: int, d: int, r: real, ttl: real) returns (calls: seq<Call>)
    requires ttl > 0.0 && (c - d) as real > ttl * r
    ensures Agreeing(calls) && |calls| == 2 && calls[0].capacity == d as real && calls[1].capacity == c as real
    ensures Tokens(calls, r, Some(ttl), 1) != Tokens(calls, r, None, 1)
  {
    var idle := IdleTime((c - d) as real, r, ttl);
    calls := [Call(d as real, 0.0, 0.0), Call(c as real, idle, idle)];
    assert After(calls, r, None, 0) == Empty && After(calls, r, Some(ttl), 0) == Empty;
    assert After(calls, r, None, 1) == Full(Take(d as real), 0.0, None);
    assert After(calls, r, Some(ttl), 1) == Full(Take(d as real), 0.0, Some(ttl));
    assert Gain(0.0, idle, r) == idle * r;
  }

  /** A run whose last call sees the expiry: c calls empty the bucket, then one comes after an idle
      time longer than `ttl` but too short to refill c tokens. */
  lemma {:induction false} DrainedThenIdle(c: int, r: real, ttl: real) returns (calls: seq<Call>)
    requires ttl > 0.0 && 1 <= c && c as real > ttl * r
    ensures Agreeing(calls) && |calls| == c + 1
    ensures forall k :: 0 <= k < |calls| ==> calls[k].capacity == c as real
    ensures Tokens(calls, r, Some(ttl), c) != Tokens(calls, r, None, c)
  {
    var idle := IdleTime(c as real, r, ttl);
    calls := seq(c + 1, k => Call(c as real, if k < c then 0.0 else idle, if k < c then 0.0 else idle));
    Drain(calls, c, r, None, c);
    Drain(calls, c, r, Some(ttl), c);
    assert Gain(0.0, idle, r) == idle * r;
  }

  /** Longer than `ttl`, and too short to refill x. */
  lemma {:induction false} IdleTime(x: real, r: real, ttl: real) returns (idle: real)
    requires ttl > 0.0 && x > ttl * r
    ensures idle > ttl && idle * r < x
  {
    if r <= 0.0 {
      idle := ttl + 1.0;
      assert idle * r == ttl * r + r;
    } else {
      var refillTime := x / r;
      assert refillTime * r == x;
      assert refillTime <= ttl ==> refillTime * r <= ttl * r;
      idle := (ttl + refillTime) / 2.0;
      assert idle * r == (ttl * r + refillTime * r) / 2.0;
    }
  }

  lemma {:induction false} Drain(calls: seq<Call>, c: int, r: real, ttl: Option<real>, n: nat)
    requires 1 <= c && |calls| == c + 1 && n <= c
    requires ttl.Some? ==> ttl.value >= 0.0
    requires forall k :: 0 <= k < c ==> calls[k] == Call(c as real, 0.0, 0.0)
    ensures n > 0 ==> After(calls, r, ttl, n)
                      == Full((c - n) as real, 0.0, if ttl.Some? then Some(ttl.value) else None)
  {
    if n > 1 {
      Drain(calls, c, r, ttl, n - 1);
      assert Gain(0.0, 0.0, r) == 0.0;
    }
  }
}
