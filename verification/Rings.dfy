/** A `deque(maxlen=size)`: appending to a full one drops its oldest entry. */
module Rings {
  import opened SlidingWindow
  import opened PerClient

  function RingPush<T>(q: seq<Stamped<T>>, x: Stamped<T>, size: nat): seq<Stamped<T>> {
    if |q| < size then q + [x] else (q + [x])[|q| + 1 - size..]
  }

  function Last<T>(q: seq<T>, k: nat): seq<T> {
    if |q| <= k then q else q[|q| - k..]
  }

  /** A ring always holds the last `size` of everything that was ever appended. */
  lemma {:induction false} FoldIsLast<T>(own: seq<Stamped<T>>, push: Push<T>, size: nat, n: nat)
    requires n <= |own| && size > 0
    requires forall q, x :: push(q, x) == RingPush(q, x, size)
    ensures Fold(own, push, n) == Last(own[..n], size)
  {
    if n > 0 {
      FoldIsLast(own, push, size, n - 1);
      assert own[..n] == own[..n - 1] + [own[n - 1]];
    }
  }
}
