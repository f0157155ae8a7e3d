/** One queue per client in a dictionary, each arrival pushed onto the queue of its own client. */
module PerClient {
  import opened SlidingWindow

  datatype Arrival<T> = Arrival(client: string, x: Stamped<T>)

  type Push<!T> = (seq<Stamped<T>>, Stamped<T>) -> seq<Stamped<T>>

  /** The `defaultdict` lookup: an unknown client has an empty queue. */
  function QueueOf<T>(queues: map<string, seq<Stamped<T>>>, client: string): seq<Stamped<T>> {
    if client in queues then queues[client] else []
  }

  function After<T>(queues: map<string, seq<Stamped<T>>>, push: Push<T>, a: Arrival<T>): map<string, seq<Stamped<T>>> {
    queues[a.client := push(QueueOf(queues, a.client), a.x)]
  }

  /** All queues after the first `n` arrivals of all clients. */
  function StateAfter<T>(arrivals: seq<Arrival<T>>, push: Push<T>, n: nat): map<string, seq<Stamped<T>>>
    requires n <= |arrivals|
  {
    if n == 0 then map[] else After(StateAfter(arrivals, push, n - 1), push, arrivals[n - 1])
  }

  /** What one client sent among the first `n` arrivals. */
  function Own<T>(arrivals: seq<Arrival<T>>, client: string, n: nat): seq<Stamped<T>>
    requires n <= |arrivals|
  {
    if n == 0 then []
    else Own(arrivals, client, n - 1) + if arrivals[n - 1].client == client then [arrivals[n - 1].x] else []
  }

  /** One queue alone. */
  function Fold<T>(own: seq<Stamped<T>>, push: Push<T>, n: nat): seq<Stamped<T>>
    requires n <= |own|
  {
    if n == 0 then [] else push(Fold(own, push, n - 1), own[n - 1])
  }

  lemma {:induction false} StatePrefix<T>(short: seq<Arrival<T>>, long: seq<Arrival<T>>, push: Push<T>, n: nat)
    requires short <= long && n <= |short|
    ensures StateAfter(short, push, n) == StateAfter(long, push, n)
  {
    if n > 0 {
      StatePrefix(short, long, push, n - 1);
    }
  }

  /** At most one more arrival. */
  lemma {:induction false} StateOneMore<T>(all: seq<Arrival<T>>, x: seq<Arrival<T>>, push: Push<T>)
    requires |x| <= 1
    ensures StateAfter(all + x, push, |all + x|)
         == if x == [] then StateAfter(all, push, |all|) else After(StateAfter(all, push, |all|), push, x[0])
  {
    hide After;
    StatePrefix(all, all + x, push, |all|);
  }

  lemma {:induction false} FoldPrefix<T>(short: seq<Stamped<T>>, long: seq<Stamped<T>>, push: Push<T>, n: nat)
    requires short <= long && n <= |short|
    ensures Fold(short, push, n) == Fold(long, push, n)
  {
    if n > 0 {
      FoldPrefix(short, long, push, n - 1);
    }
  }

  /** No client's queue depends on what the others send. */
  lemma {:induction false} QueuesAreSeparate<T>(arrivals: seq<Arrival<T>>, push: Push<T>, client: string, n: nat)
    requires n <= |arrivals|
    ensures var own := Own(arrivals, client, n);
      QueueOf(StateAfter(arrivals, push, n), client) == Fold(own, push, |own|)
  {
    if n > 0 {
      QueuesAreSeparate(arrivals, push, client, n - 1);
      var before, own := Own(arrivals, client, n - 1), Own(arrivals, client, n);
      if arrivals[n - 1].client == client {
        FoldPrefix(before, own, push, |before|);
      } else {
        assert own == before;
      }
    }
  }

  predicate InOrder<T>(arrivals: seq<Arrival<T>>) {
    forall i, j :: 0 <= i < j < |arrivals| ==> arrivals[i].x.at <= arrivals[j].x.at
  }

  /** Where an entry of a client's own sequence came from. */
  lemma {:induction false} OwnOrigin<T>(arrivals: seq<Arrival<T>>, client: string, n: nat, i: nat) returns (k: nat)
    requires n <= |arrivals| && i < |Own(arrivals, client, n)|
    ensures k < n && arrivals[k].client == client && arrivals[k].x == Own(arrivals, client, n)[i]
  {
    if i < |Own(arrivals, client, n - 1)| {
      k := OwnOrigin(arrivals, client, n - 1, i);
    } else {
      k := n - 1;
    }
  }

  /** Where an arrival ended up in its client's own sequence. */
  lemma {:induction false} OwnContains<T>(arrivals: seq<Arrival<T>>, n: nat, k: nat) returns (i: nat)
    requires k < n <= |arrivals|
    ensures i < |Own(arrivals, arrivals[k].client, n)| && Own(arrivals, arrivals[k].client, n)[i] == arrivals[k].x
    ensures k == n - 1 ==> i == |Own(arrivals, arrivals[k].client, n)| - 1
  {
    if k == n - 1 {
      i := |Own(arrivals, arrivals[k].client, n)| - 1;
    } else {
      i := OwnContains(arrivals, n - 1, k);
    }
  }

  lemma {:induction false} OwnOrdered<T>(arrivals: seq<Arrival<T>>, client: string, n: nat)
    requires n <= |arrivals| && InOrder(arrivals)
    ensures Ordered(Own(arrivals, client, n))
  {
    if n > 0 {
      OwnOrdered(arrivals, client, n - 1);
      var before := Own(arrivals, client, n - 1);
      forall i | 0 <= i < |before| ensures before[i].at <= arrivals[n - 1].x.at {
        var k := OwnOrigin(arrivals, client, n - 1, i);
      }
    }
  }
}
