/** One token bucket over a whole run of script calls.

    Each call brings its own capacity and its own clock reading `now`; the script runs at the
    store's clock `at`.  Nothing orders the readings of different callers unless a lemma says so.
    `ttl` is the EXPIRE of the script; `None` is the bucket that never expires. */
module TokenBucket {
  import opened Options

  datatype Cell = Empty | Full(tokens: real, lastRefill: real, expiry: Option<real>)

  datatype Call = Call(capacity: real, now: real, at: real)

  function Min(a: real, b: real): real { if a < b then a else b }

  predicate LiveCell(cell: Cell, at: real) {
    cell.Full? && (cell.expiry.Some? ==> at <= cell.expiry.value)
  }

  /** The refill between two clock readings, which is negative when they go backwards. */
  function Gain(from: real, to: real, r: real): real { (to - from) * r }

  /** The tokens on hand once the script has refilled the bucket. */
  function Refill(cell: Cell, call: Call, r: real): real {
    if LiveCell(cell, call.at)
    then Min(call.capacity, cell.tokens + Gain(cell.lastRefill, call.now, r))
    else call.capacity
  }

  function Take(tokens: real): real { if tokens >= 1.0 then tokens - 1.0 else tokens }

  function Store(cell: Cell, call: Call, r: real, ttl: Option<real>): Cell {
    Full(Take(Refill(cell, call, r)), call.now, if ttl.Some? then Some(call.at + ttl.value) else None)
  }

  /** The stored bucket after the first `n` calls. */
  function After(calls: seq<Call>, r: real, ttl: Option<real>, n: nat): Cell
    requires n <= |calls|
  {
    if n == 0 then Empty else Store(After(calls, r, ttl, n - 1), calls[n - 1], r, ttl)
  }

  function Tokens(calls: seq<Call>, r: real, ttl: Option<real>, n: nat): real
    requires n < |calls|
  {
    Refill(After(calls, r, ttl, n), calls[n], r)
  }

  /** What the script answers to each call. */
  function Decisions(calls: seq<Call>, r: real, ttl: Option<real>): (d: seq<bool>)
    ensures |d| == |calls|
    ensures forall n :: 0 <= n < |d| ==> d[n] == (Tokens(calls, r, ttl, n) >= 1.0)
  {
    seq(|calls|, n requires 0 <= n < |calls| => Tokens(calls, r, ttl, n) >= 1.0)
  }

  /** Later calls do not change earlier decisions. */
  lemma {:induction false} AfterPrefix(short: seq<Call>, long: seq<Call>, r: real, ttl: Option<real>, n: nat)
    requires n <= |short| <= |long| && forall k :: 0 <= k < |short| ==> short[k] == long[k]
    ensures After(short, r, ttl, n) == After(long, r, ttl, n)
    ensures n < |short| ==> Decisions(short, r, ttl)[n] == Decisions(long, r, ttl)[n]
  {
    if n > 0 {
      AfterPrefix(short, long, r, ttl, n - 1);
    }
  }

  /** How many of the calls i .. j - 1 are accepted. */
  function Accepted(choice: seq<bool>, i: nat, j: nat): nat
    requires i <= j <= |choice|
    decreases j - i
  {
    if i == j then 0 else Accepted(choice, i, j - 1) + if choice[j - 1] then 1 else 0
  }

  /** What the interval from call k to call n may consume: a full bucket and the refill since. */
  function Bound(calls: seq<Call>, r: real, k: nat, n: nat): real
    requires k < |calls| && n < |calls|
  {
    calls[k].capacity + Gain(calls[k].now, calls[n].now, r)
  }

  predicate Unexpired(calls: seq<Call>, ttl: Option<real>, i: nat, n: nat)
    requires n < |calls|
  {
    ttl.Some? ==> forall k :: i < k <= n ==> calls[k].at <= calls[k - 1].at + ttl.value
  }

  lemma {:induction false} BoundStep(calls: seq<Call>, r: real, k: nat, n: nat)
    requires k < |calls| && 0 < n < |calls|
    ensures Bound(calls, r, k, n) == Bound(calls, r, k, n - 1) + Gain(calls[n - 1].now, calls[n].now, r)
  {
    var a, b := calls[n - 1].now - calls[k].now, calls[n].now - calls[n - 1].now;
    assert calls[n].now - calls[k].now == a + b;
    assert (a + b) * r == a * r + b * r;
  }

  lemma {:induction false} BoundSelf(calls: seq<Call>, r: real, n: nat)
    requires n < |calls|
    ensures Bound(calls, r, n, n) == calls[n].capacity
  {
    assert calls[n].now - calls[n].now == 0.0;
  }

  /** After call n - 1 the bucket is live for call n, and holds what that call left. */
  lemma {:induction false} StillLive(calls: seq<Call>, r: real, ttl: Option<real>, n: nat)
    requires 0 < n < |calls| && Unexpired(calls, ttl, n - 1, n)
    ensures var cell := After(calls, r, ttl, n);
      && LiveCell(cell, calls[n].at)
      && cell.lastRefill == calls[n - 1].now
      && cell.tokens == Take(Tokens(calls, r, ttl, n - 1))
  {
    var cell := After(calls, r, ttl, n);
    assert cell == Store(After(calls, r, ttl, n - 1), calls[n - 1], r, ttl);
    assert cell.expiry.Some? ==> cell.expiry.value == calls[n - 1].at + ttl.value;
  }

  /** One step of the run, with the refill of the gap as a plain number. */
  lemma {:induction false} TokensStep(calls: seq<Call>, r: real, ttl: Option<real>, n: nat) returns (gain: real)
    requires 0 < n < |calls| && Unexpired(calls, ttl, n - 1, n)
    ensures Tokens(calls, r, ttl, n) == Min(calls[n].capacity, Take(Tokens(calls, r, ttl, n - 1)) + gain)
    ensures forall k :: 0 <= k < n ==> Bound(calls, r, k, n) == Bound(calls, r, k, n - 1) + gain
  {
    gain := Gain(calls[n - 1].now, calls[n].now, r);
    StillLive(calls, r, ttl, n);
    forall k | 0 <= k < n
      ensures Bound(calls, r, k, n) == Bound(calls, r, k, n - 1) + gain
    {
      BoundStep(calls, r, k, n);
    }
  }

  lemma {:induction false} RefillUpper(calls: seq<Call>, r: real, ttl: Option<real>, i: nat, n: nat)
    requires i <= n < |calls| && Unexpired(calls, ttl, i, n)
    ensures Tokens(calls, r, ttl, n) <= Bound(calls, r, i, n) - Accepted(Decisions(calls, r, ttl), i, n) as real
    decreases n - i
  {
    if i == n {
      BoundSelf(calls, r, n);
    } else {
      RefillUpper(calls, r, ttl, i, n - 1);
      var gain := TokensStep(calls, r, ttl, n);
    }
  }

  /** From a call that finds no live bucket, some earlier call k pins the refilled count exactly. */
  lemma {:induction false} RefillAttained(calls: seq<Call>, r: real, ttl: Option<real>, s: nat, n: nat) returns (k: nat)
    requires s <= n < |calls| && Unexpired(calls, ttl, s, n)
    requires !LiveCell(After(calls, r, ttl, s), calls[s].at)
    ensures s <= k <= n
    ensures Tokens(calls, r, ttl, n) == Bound(calls, r, k, n) - Accepted(Decisions(calls, r, ttl), k, n) as real
    decreases n - s
  {
    k := n;
    BoundSelf(calls, r, n);
    if s < n && Tokens(calls, r, ttl, n) != calls[n].capacity {
      var gain := TokensStep(calls, r, ttl, n);
      k := RefillAttained(calls, r, ttl, s, n - 1);
    }
  }

  /** The latest call up to n that found no live bucket; the key did not expire since. */
  lemma {:induction false} LastFresh(calls: seq<Call>, r: real, ttl: Option<real>, n: nat) returns (s: nat)
    requires n < |calls|
    ensures s <= n && Unexpired(calls, ttl, s, n) && !LiveCell(After(calls, r, ttl, s), calls[s].at)
  {
    s := n;
    if LiveCell(After(calls, r, ttl, n), calls[n].at) {
      assert After(calls, r, ttl, n) == Store(After(calls, r, ttl, n - 1), calls[n - 1], r, ttl);
      s := LastFresh(calls, r, ttl, n - 1);
    }
  }

  /** The bucket's closed form, on every run: there is a call `s`, the last one that found no live
      bucket, such that the refilled count is the least slack of the intervals from s on that end
      here; so a call is admitted iff admitting it keeps every such interval within its bound. */
  lemma {:induction false} ClosedForm(calls: seq<Call>, r: real, ttl: Option<real>, n: nat) returns (s: nat)
    requires n < |calls|
    ensures s <= n && Unexpired(calls, ttl, s, n) && !LiveCell(After(calls, r, ttl, s), calls[s].at)
    ensures var d := Decisions(calls, r, ttl);
      && (forall k :: s <= k <= n ==>
            Tokens(calls, r, ttl, n) <= Bound(calls, r, k, n) - Accepted(d, k, n) as real)
      && (exists k :: s <= k <= n &&
            Tokens(calls, r, ttl, n) == Bound(calls, r, k, n) - Accepted(d, k, n) as real)
      && (d[n] <==> forall k :: s <= k <= n ==> (Accepted(d, k, n) + 1) as real <= Bound(calls, r, k, n))
  {
    s := LastFresh(calls, r, ttl, n);
    forall k | s <= k <= n
      ensures Tokens(calls, r, ttl, n) <= Bound(calls, r, k, n) - Accepted(Decisions(calls, r, ttl), k, n) as real
    {
      RefillUpper(calls, r, ttl, k, n);
    }
    var k := RefillAttained(calls, r, ttl, s, n);
  }

  /** No interval without an expiry inside admits more than its bound, whatever the clocks do. */
  lemma {:induction false} Envelope(calls: seq<Call>, r: real, ttl: Option<real>, i: nat, j: nat)
    requires i <= j < |calls| && Unexpired(calls, ttl, i, j)
    requires Decisions(calls, r, ttl)[j]
    ensures Accepted(Decisions(calls, r, ttl), i, j + 1) as real <= Bound(calls, r, i, j)
  {
    RefillUpper(calls, r, ttl, i, j);
  }

  /** A choice of accepted calls that keeps every interval within its bound. */
  ghost predicate Respects(calls: seq<Call>, r: real, choice: seq<bool>)
    requires |choice| == |calls|
  {
    forall i, j :: 0 <= i <= j < |calls| && choice[j] ==>
      Accepted(choice, i, j + 1) as real <= Bound(calls, r, i, j)
  }

  /** While the key does not expire, the script's own answers are such a choice.  (`BucketEnvelope`
      says when they are one through any number of expiries.) */
  lemma {:induction false} ScriptRespects(calls: seq<Call>, r: real, ttl: Option<real>)
    requires |calls| > 0 ==> Unexpired(calls, ttl, 0, |calls| - 1)
    ensures Respects(calls, r, Decisions(calls, r, ttl))
  {
    forall i, j | 0 <= i <= j < |calls| && Decisions(calls, r, ttl)[j]
      ensures Accepted(Decisions(calls, r, ttl), i, j + 1) as real <= Bound(calls, r, i, j)
    {
      Envelope(calls, r, ttl, i, j);
    }
  }

  lemma {:induction false} AcceptedSplit(choice: seq<bool>, i: nat, k: nat, j: nat)
    requires i <= k <= j <= |choice|
    ensures Accepted(choice, i, j) == Accepted(choice, i, k) + Accepted(choice, k, j)
    decreases j - k
  {
    if k < j {
      AcceptedSplit(choice, i, k, j - 1);
    }
  }

  /** Greedy is best, on every run and through any number of expiries: no choice that respects the
      bounds accepts more calls in any prefix. */
  lemma {:induction false} GreedyMaximal(calls: seq<Call>, r: real, ttl: Option<real>, choice: seq<bool>, m: nat)
    requires |choice| == |calls| && m <= |calls|
    requires Respects(calls, r, choice)
    ensures Accepted(choice, 0, m) <= Accepted(Decisions(calls, r, ttl), 0, m)
  {
    if m > 0 {
      var n, d := m - 1, Decisions(calls, r, ttl);
      GreedyMaximal(calls, r, ttl, choice, n);
      if choice[n] && !d[n] {
        var s := LastFresh(calls, r, ttl, n);
        var k := RefillAttained(calls, r, ttl, s, n);
        assert Accepted(choice, k, n + 1) as real <= Bound(calls, r, k, n);
        GreedyMaximal(calls, r, ttl, choice, k);
        AcceptedSplit(choice, 0, k, n);
        AcceptedSplit(d, 0, k, n);
      }
    }
  }
}
