/** A deque of timed items that is evicted from the front, against the full history. */
module SlidingWindow {
  datatype Stamped<T> = Stamped(at: real, item: T)

  /** What remains once every too old item at the front has been popped. */
  function Evict<T>(q: seq<Stamped<T>>, now: real, window: real): seq<Stamped<T>> {
    if q == [] || now - q[0].at <= window then q else Evict(q[1..], now, window)
  }

  /** The items of the window, wherever they stand. */
  function Recent<T>(q: seq<Stamped<T>>, now: real, window: real): seq<Stamped<T>> {
    if q == [] then []
    else if now - q[0].at <= window then [q[0]] + Recent(q[1..], now, window)
    else Recent(q[1..], now, window)
  }

  predicate Ordered<T>(q: seq<Stamped<T>>) {
    forall i, j :: 0 <= i < j < |q| ==> q[i].at <= q[j].at
  }

  /** The deque after the first `n` arrivals, each at its own clock reading. */
  function DequeAfter<T>(arrivals: seq<Stamped<T>>, window: real, n: nat): seq<Stamped<T>>
    requires n <= |arrivals|
  {
    if n == 0 then []
    else Evict(DequeAfter(arrivals, window, n - 1) + [arrivals[n - 1]], arrivals[n - 1].at, window)
  }

  lemma {:induction false} RecentSnoc<T>(q: seq<Stamped<T>>, x: Stamped<T>, now: real, window: real)
    ensures Recent(q + [x], now, window) == Recent(q, now, window) + if now - x.at <= window then [x] else []
  {
    if q == [] {
      assert q + [x] == [x];
    } else {
      assert (q + [x])[1..] == q[1..] + [x];
      RecentSnoc(q[1..], x, now, window);
    }
  }

  /** Looking again later through what was recent loses nothing that is still recent. */
  lemma {:induction false} RecentTwice<T>(q: seq<Stamped<T>>, earlier: real, now: real, window: real)
    requires earlier <= now
    ensures Recent(Recent(q, earlier, window), now, window) == Recent(q, now, window)
  {
    if q != [] {
      RecentTwice(q[1..], earlier, now, window);
      if earlier - q[0].at <= window {
        assert ([q[0]] + Recent(q[1..], earlier, window))[1..] == Recent(q[1..], earlier, window);
      }
    }
  }

  lemma {:induction false} RecentAll<T>(q: seq<Stamped<T>>, now: real, window: real)
    requires forall i :: 0 <= i < |q| ==> now - q[i].at <= window
    ensures Recent(q, now, window) == q
  {
    if q != [] {
      RecentAll(q[1..], now, window);
    }
  }

  lemma {:induction false} EvictIsRecent<T>(q: seq<Stamped<T>>, now: real, window: real)
    requires Ordered(q)
    ensures Evict(q, now, window) == Recent(q, now, window)
  {
    if q != [] {
      if now - q[0].at <= window {
        RecentAll(q, now, window);
      } else {
        EvictIsRecent(q[1..], now, window);
      }
    }
  }

  lemma {:induction false} RecentIsOrdered<T>(q: seq<Stamped<T>>, now: real, window: real)
    requires Ordered(q)
    ensures Ordered(Recent(q, now, window))
    ensures forall i :: 0 <= i < |Recent(q, now, window)| ==> Recent(q, now, window)[i] in q
  {
    if q != [] {
      RecentIsOrdered(q[1..], now, window);
    }
  }

  /** With time going forward the deque is the full history filtered to the window. */
  lemma {:induction false} DequeIsRecent<T>(arrivals: seq<Stamped<T>>, window: real, n: nat)
    requires 0 < n <= |arrivals| && Ordered(arrivals)
    ensures DequeAfter(arrivals, window, n) == Recent(arrivals[..n], arrivals[n - 1].at, window)
  {
    var past, x, now := arrivals[..n - 1], arrivals[n - 1], arrivals[n - 1].at;
    assert arrivals[..n] == past + [x];
    if n == 1 {
      EvictIsRecent([x], now, window);
      assert past + [x] == [x];
      assert DequeAfter(arrivals, window, 0) + [x] == [x];
    } else {
      var earlier := arrivals[n - 2].at;
      DequeIsRecent(arrivals, window, n - 1);
      var deque := DequeAfter(arrivals, window, n - 1);
      RecentIsOrdered(past, earlier, window);
      EvictIsRecent(deque + [x], now, window);
      RecentSnoc(deque, x, now, window);
      RecentTwice(past, earlier, now, window);
      RecentSnoc(past, x, now, window);
    }
  }

  /** All items popped during the first `n` arrivals. */
  function Pops<T>(arrivals: seq<Stamped<T>>, window: real, n: nat): int
    requires n <= |arrivals|
  {
    if n == 0 then 0
    else Pops(arrivals, window, n - 1) + |DequeAfter(arrivals, window, n - 1)| + 1 - |DequeAfter(arrivals, window, n)|
  }

  lemma {:induction false} EvictShortens<T>(q: seq<Stamped<T>>, now: real, window: real)
    ensures |Evict(q, now, window)| <= |q|
  {
    if q != [] {
      EvictShortens(q[1..], now, window);
    }
  }

  /** Every arrival is popped at most once, whatever the clock does. */
  lemma {:induction false} PopsBounded<T>(arrivals: seq<Stamped<T>>, window: real, n: nat)
    requires n <= |arrivals|
    ensures 0 <= Pops(arrivals, window, n) == n - |DequeAfter(arrivals, window, n)|
  {
    if n > 0 {
      PopsBounded(arrivals, window, n - 1);
      EvictShortens(DequeAfter(arrivals, window, n - 1) + [arrivals[n - 1]], arrivals[n - 1].at, window);
    }
  }

  lemma {:induction false} RecentItems<T>(q: seq<Stamped<T>>, now: real, window: real, x: Stamped<T>)
    ensures x in Recent(q, now, window) <==> x in q && now - x.at <= window
  {
    if q != [] {
      RecentItems(q[1..], now, window, x);
      assert q == [q[0]] + q[1..];
    }
  }
}
