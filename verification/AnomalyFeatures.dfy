/** The features of one client's traffic, from a ring of its last 50 events. */
module AnomalyFeatures {
  import opened SlidingWindow
  import opened PerClient
  import opened Rings
  import opened Variance

  const RING := 50
  const WINDOW := 1.0

  datatype Hit = Hit(endpoint: string, size: int)

  datatype Features = Features(requestsPerSec: int, avgPacketSize: real, uniqueEndpoints: int, intervalVariance: real)

  function Ring50(): Push<Hit> { (q, x) => RingPush(q, x, RING) }

  function Sizes(q: seq<Stamped<Hit>>): (s: seq<real>)
    ensures |s| == |q| && forall i :: 0 <= i < |s| ==> s[i] == q[i].item.size as real
  {
    seq(|q|, i requires 0 <= i < |q| => q[i].item.size as real)
  }

  function Endpoints(q: seq<Stamped<Hit>>): set<string> {
    set e | e in q :: e.item.endpoint
  }

  function Stamps(q: seq<Stamped<Hit>>): (t: seq<real>)
    ensures |t| == |q| && forall i :: 0 <= i < |t| ==> t[i] == q[i].at
  {
    seq(|q|, i requires 0 <= i < |q| => q[i].at)
  }

  /** The feature vector of a ring whose newest event came at `now` with `size` bytes. */
  function FeaturesOf(ring: seq<Stamped<Hit>>, now: real, size: int): Features {
    var window := Recent(ring, now, WINDOW);
    var newest := Last(ring, 10);
    Features(|window|,
             if window != [] then Mean(Sizes(window)) else size as real,
             if window != [] then |Endpoints(window)| else 1,
             IntervalVariance(newest))
  }

  function IntervalVariance(newest: seq<Stamped<Hit>>): real {
    if |newest| > 2 then Var(Diff(Stamps(newest))) else 0.2
  }

  class AnomalyDetector {
    var history: map<string, seq<Stamped<Hit>>>

    constructor ()
      ensures history == map[]
    {
      history := map[];
    }

    method ExtractFeatures(ip: string, endpoint: string, packetSize: int, now: real) returns (f: Features)
      modifies this
      ensures history == After(old(history), Ring50(), Arrival(ip, Stamped(now, Hit(endpoint, packetSize))))
      ensures f == FeaturesOf(QueueOf(history, ip), now, packetSize)
    {
      hide Mean, Var;
      var ring := QueueOf(history, ip);
      ring := if |ring| < RING then ring + [Stamped(now, Hit(endpoint, packetSize))]
              else (ring + [Stamped(now, Hit(endpoint, packetSize))])[|ring| + 1 - RING..];
      history := history[ip := ring];
      var window := Recent(ring, now, WINDOW);
      var requestsPerSec := |window|;
      var avgPacketSize := if window != [] then Mean(Sizes(window)) else packetSize as real;
      var uniqueEndpoints := if window != [] then |Endpoints(window)| else 1;
      var newest := Last(ring, 10);
      var intervalVariance := if |newest| > 2 then Var(Diff(Stamps(newest))) else 0.2;
      f := Features(requestsPerSec, avgPacketSize, uniqueEndpoints, intervalVariance);
    }
  }

  // ----- the ring against the full history -----

  lemma {:induction false} RecentConcat<T>(a: seq<Stamped<T>>, b: seq<Stamped<T>>, now: real, window: real)
    ensures Recent(a + b, now, window) == Recent(a, now, window) + Recent(b, now, window)
  {
    if a == [] {
      assert a + b == b;
    } else {
      assert (a + b)[1..] == a[1..] + b;
      RecentConcat(a[1..], b, now, window);
    }
  }

  lemma {:induction false} RecentNone<T>(q: seq<Stamped<T>>, now: real, window: real)
    requires forall i :: 0 <= i < |q| ==> now - q[i].at > window
    ensures Recent(q, now, window) == []
  {
    if q != [] {
      RecentNone(q[1..], now, window);
    }
  }

  lemma {:induction false} RecentLength<T>(q: seq<Stamped<T>>, now: real, window: real)
    ensures |Recent(q, now, window)| <= |q|
  {
    if q != [] {
      RecentLength(q[1..], now, window);
    }
  }

  /** Cutting an ordered history to its last k entries caps the number of recent ones at k. */
  lemma {:induction false} RecentOfLast<T>(q: seq<Stamped<T>>, k: nat, now: real, window: real)
    requires Ordered(q)
    ensures |Recent(Last(q, k), now, window)|
         == if |Recent(q, now, window)| <= k then |Recent(q, now, window)| else k
  {
    RecentLength(q, now, window);
    if |q| > k {
      var a, b := q[..|q| - k], q[|q| - k..];
      assert q == a + b;
      RecentConcat(a, b, now, window);
      RecentLength(b, now, window);
      if forall i :: 0 <= i < |b| ==> now - b[i].at <= window {
        RecentAll(b, now, window);
      } else {
        var i :| 0 <= i < |b| && now - b[i].at > window;
        RecentNone(a, now, window);
      }
    }
  }

  /** What one client's events look like after arrival n: its ring is the last 50 of its own history,
      which ends with that arrival. */
  lemma {:induction false} RingIsLast(arrivals: seq<Arrival<Hit>>, n: nat)
    requires n < |arrivals| && InOrder(arrivals)
    ensures var own := Own(arrivals, arrivals[n].client, n + 1);
      && QueueOf(StateAfter(arrivals, Ring50(), n + 1), arrivals[n].client) == Last(own, RING)
      && Ordered(own) && own != [] && own[|own| - 1] == arrivals[n].x
  {
    var own := Own(arrivals, arrivals[n].client, n + 1);
    QueuesAreSeparate(arrivals, Ring50(), arrivals[n].client, n + 1);
    FoldIsLast(own, Ring50(), RING, |own|);
    assert own[..|own|] == own;
    OwnOrdered(arrivals, arrivals[n].client, n + 1);
    var last := OwnContains(arrivals, n + 1, n);
  }

  /** requests_per_sec is the true number of this client's requests in the last second, capped at 50. */
  lemma {:induction false} RequestsPerSecIsCapped(arrivals: seq<Arrival<Hit>>, n: nat)
    requires n < |arrivals| && InOrder(arrivals)
    ensures var x, client := arrivals[n].x, arrivals[n].client;
      var f := FeaturesOf(QueueOf(StateAfter(arrivals, Ring50(), n + 1), client), x.at, x.item.size);
      var recent := |Recent(Own(arrivals, client, n + 1), x.at, WINDOW)|;
      f.requestsPerSec == if recent <= RING then recent else RING
  {
    RingIsLast(arrivals, n);
    RecentOfLast(Own(arrivals, arrivals[n].client, n + 1), RING, arrivals[n].x.at, WINDOW);
  }

  lemma {:induction false} EndpointsBounded(q: seq<Stamped<Hit>>)
    ensures |Endpoints(q)| <= |q| && (q != [] ==> 1 <= |Endpoints(q)|)
  {
    if q != [] {
      var rest := q[..|q| - 1];
      EndpointsBounded(rest);
      assert q == rest + [q[|q| - 1]];
      assert Endpoints(q) == Endpoints(rest) + {q[|q| - 1].item.endpoint};
    }
  }

  lemma {:induction false} NewestIsRecent(ring: seq<Stamped<Hit>>, now: real)
    requires ring != [] && ring[|ring| - 1].at == now
    ensures ring[|ring| - 1] in Recent(ring, now, WINDOW)
  {
    RecentItems(ring, now, WINDOW, ring[|ring| - 1]);
  }

  /** The average of a window lies between its smallest and its largest size. */
  lemma {:induction false} AverageBetween(window: seq<Stamped<Hit>>) returns (lo: Stamped<Hit>, hi: Stamped<Hit>)
    requires window != []
    ensures lo in window && hi in window
    ensures forall e :: e in window ==> lo.item.size <= e.item.size <= hi.item.size
    ensures lo.item.size as real <= Mean(Sizes(window)) <= hi.item.size as real
  {
    hide Mean;
    var i, k := MeanBetween(Sizes(window));
    lo, hi := window[i], window[k];
    forall e | e in window ensures lo.item.size <= e.item.size <= hi.item.size {
      var j :| 0 <= j < |window| && window[j] == e;
      assert Sizes(window)[i] <= Sizes(window)[j] <= Sizes(window)[k];
    }
  }

  /** Every ring that ends with the current event has it in the window: the empty-window fallbacks
      cannot happen, and the counts and the average stay within their natural bounds. */
  lemma {:induction false} WindowFeaturesBounded(ring: seq<Stamped<Hit>>, now: real, size: int)
    returns (lo: Stamped<Hit>, hi: Stamped<Hit>)
    requires ring != [] && ring[|ring| - 1].at == now
    ensures var f, window := FeaturesOf(ring, now, size), Recent(ring, now, WINDOW);
      && window != []
      && 1 <= f.uniqueEndpoints <= f.requestsPerSec
      && lo in window && hi in window
      && (forall e :: e in window ==> lo.item.size <= e.item.size <= hi.item.size)
      && lo.item.size as real <= f.avgPacketSize <= hi.item.size as real
  {
    hide Mean, Var;
    NewestIsRecent(ring, now);
    EndpointsBounded(Recent(ring, now, WINDOW));
    lo, hi := AverageBetween(Recent(ring, now, WINDOW));
  }

  lemma {:induction false} DiffOfOrdered(q: seq<Stamped<Hit>>)
    requires Ordered(q) && |q| > 1
    ensures var gaps := Diff(Stamps(q));
      && (forall i :: 0 <= i < |gaps| ==> gaps[i] >= 0.0)
      && Sum(gaps) == q[|q| - 1].at - q[0].at
  {
    DiffTelescopes(Stamps(q));
  }

  predicate AllEqual(gaps: seq<real>) {
    forall i, j :: 0 <= i < |gaps| && 0 <= j < |gaps| ==> gaps[i] == gaps[j]
  }

  lemma {:induction false} VarianceOfGaps(gaps: seq<real>)
    requires gaps != [] && forall i :: 0 <= i < |gaps| ==> gaps[i] >= 0.0
    ensures 0.0 <= Var(gaps) <= Square(Sum(gaps)) / 4.0
    ensures Var(gaps) == 0.0 <==> AllEqual(gaps)
  {
    VarNonNegative(gaps);
    VarZeroIff(gaps);
    VarAtMostQuarter(gaps);
    hide Var, Mean, Square, Sum;
  }

  /** Zero exactly when the events are evenly spaced, and at most a quarter of the squared time they
      span; 0.2 for at most two events. */
  predicate Spread(v: real, q: seq<Stamped<Hit>>) {
    if |q| <= 2 then v == 0.2
    else 0.0 <= v <= Square(q[|q| - 1].at - q[0].at) / 4.0 && (v == 0.0 <==> AllEqual(Diff(Stamps(q))))
  }

  lemma {:induction false} GapVariance(q: seq<Stamped<Hit>>)
    requires Ordered(q)
    ensures Spread(IntervalVariance(q), q)
  {
    hide Var, Mean, Square, Sum, AllEqual;
    if |q| > 2 {
      DiffOfOrdered(q);
      VarianceOfGaps(Diff(Stamps(q)));
    }
  }

  // ----- the features written out -----

  /** The sizes of the events of the last second, added up. */
  function BytesWithin(q: seq<Stamped<Hit>>, now: real): real {
    if q == [] then 0.0
    else
      var e := q[|q| - 1];
      BytesWithin(q[..|q| - 1], now) + if now - e.at <= 1.0 then e.item.size as real else 0.0
  }

  /** The positions of the events of the last second. */
  function RecentAt(q: seq<Stamped<Hit>>, now: real): set<int> {
    set i | 0 <= i < |q| && now - q[i].at <= 1.0
  }

  lemma {:induction false} RecentAtSnoc(front: seq<Stamped<Hit>>, x: Stamped<Hit>, now: real)
    ensures RecentAt(front + [x], now) == RecentAt(front, now) + if now - x.at <= 1.0 then {|front|} else {}
    ensures |RecentAt(front + [x], now)| == |RecentAt(front, now)| + if now - x.at <= 1.0 then 1 else 0
  {
    assert RecentAt(front + [x], now) == RecentAt(front, now) + if now - x.at <= 1.0 then {|front|} else {};
    assert |front| !in RecentAt(front, now);
  }

  lemma {:induction false} RecentCount(q: seq<Stamped<Hit>>, now: real)
    ensures |Recent(q, now, 1.0)| == |RecentAt(q, now)|
  {
    if q != [] {
      var front, x := q[..|q| - 1], q[|q| - 1];
      RecentCount(front, now);
      assert q == front + [x];
      RecentSnoc(front, x, now, 1.0);
      hide Recent, RecentAt;
      RecentAtSnoc(front, x, now);
    }
  }

  lemma {:induction false} RecentBytes(q: seq<Stamped<Hit>>, now: real)
    ensures Sum(Sizes(Recent(q, now, 1.0))) == BytesWithin(q, now)
  {
    if q != [] {
      var front, x := q[..|q| - 1], q[|q| - 1];
      RecentBytes(front, now);
      assert q == front + [x];
      RecentSnoc(front, x, now, 1.0);
      hide Recent;
      var before, after := Recent(front, now, 1.0), Recent(q, now, 1.0);
      if now - x.at <= 1.0 {
        assert Sizes(after)[..|after| - 1] == Sizes(before);
      } else {
        assert after == before;
      }
    }
  }

  lemma {:induction false} RecentEndpoints(q: seq<Stamped<Hit>>, now: real)
    ensures Endpoints(Recent(q, now, 1.0)) == set i | 0 <= i < |q| && now - q[i].at <= 1.0 :: q[i].item.endpoint
  {
    var recent := Recent(q, now, 1.0);
    var written := set i | 0 <= i < |q| && now - q[i].at <= 1.0 :: q[i].item.endpoint;
    forall e | e in recent ensures e.item.endpoint in written {
      RecentItems(q, now, 1.0, e);
      var i :| 0 <= i < |q| && q[i] == e;
    }
    forall i | 0 <= i < |q| && now - q[i].at <= 1.0 ensures q[i] in recent {
      RecentItems(q, now, 1.0, q[i]);
    }
  }

  /** The squared differences between the gaps of successive events and `m`, added up. */
  function GapDeviations(q: seq<Stamped<Hit>>, m: real): real {
    if |q| < 2 then 0.0
    else
      var gap := q[|q| - 1].at - q[|q| - 2].at;
      GapDeviations(q[..|q| - 1], m) + (gap - m) * (gap - m)
  }

  lemma {:induction false} LastGap(q: seq<Stamped<Hit>>)
    requires |q| > 1
    ensures var gaps := Diff(Stamps(q));
      && gaps != [] && gaps[..|gaps| - 1] == Diff(Stamps(q[..|q| - 1]))
      && gaps[|gaps| - 1] == q[|q| - 1].at - q[|q| - 2].at
  {
  }

  lemma {:induction false} SquareIsProduct(x: real)
    ensures Square(x) == x * x
  {
  }

  lemma {:induction false} GapsDeviate(q: seq<Stamped<Hit>>, m: real)
    requires q != []
    ensures Deviation(Diff(Stamps(q)), m) == GapDeviations(q, m)
  {
    hide Square, Diff, Stamps;
    if |q| > 1 {
      GapsDeviate(q[..|q| - 1], m);
      LastGap(q);
      SquareIsProduct(q[|q| - 1].at - q[|q| - 2].at - m);
    } else {
      NoGap(q, m);
    }
  }

  lemma {:induction false} NoGap(q: seq<Stamped<Hit>>, m: real)
    requires |q| == 1
    ensures Diff(Stamps(q)) == []
  {
  }

  lemma {:induction false} VarianceWrittenOut(q: seq<Stamped<Hit>>)
    requires |q| > 2
    ensures var n := (|q| - 1) as real;
      IntervalVariance(q) * n == GapDeviations(q, (q[|q| - 1].at - q[0].at) / n)
  {
    var gaps := Diff(Stamps(q));
    assert IntervalVariance(q) == Var(gaps);
    assert Mean(gaps) == Sum(gaps) / (|q| - 1) as real;
    hide Var, Mean, Deviation, Sum, IntervalVariance, GapDeviations;
    DiffTelescopes(Stamps(q));
    VarNonNegative(gaps);
    GapsDeviate(q, Mean(gaps));
  }

  /** The ring alone needs no order of the clocks. */
  lemma {:induction false} RingIsOwn(arrivals: seq<Arrival<Hit>>, n: nat)
    requires n < |arrivals|
    ensures var own := Own(arrivals, arrivals[n].client, n + 1);
      && QueueOf(StateAfter(arrivals, Ring50(), n + 1), arrivals[n].client) == Last(own, 50)
      && own != [] && own[|own| - 1] == arrivals[n].x
  {
    var own := Own(arrivals, arrivals[n].client, n + 1);
    QueuesAreSeparate(arrivals, Ring50(), arrivals[n].client, n + 1);
    FoldIsLast(own, Ring50(), RING, |own|);
    assert own[..|own|] == own;
    var last := OwnContains(arrivals, n + 1, n);
  }

  lemma {:induction false} RingFields(ring: seq<Stamped<Hit>>, now: real, size: int)
    requires ring != [] && ring[|ring| - 1].at == now
    ensures var f, window := FeaturesOf(ring, now, size), Recent(ring, now, 1.0);
      && window != [] && f.requestsPerSec == |window| && f.uniqueEndpoints == |Endpoints(window)|
      && f.avgPacketSize == Mean(Sizes(window)) && f.intervalVariance == IntervalVariance(Last(ring, 10))
  {
    hide Recent, Mean, IntervalVariance, Endpoints;
    NewestIsRecent(ring, now);
  }

  lemma {:induction false} RingAverage(ring: seq<Stamped<Hit>>, now: real)
    requires Recent(ring, now, 1.0) != []
    ensures var window := Recent(ring, now, 1.0);
      Mean(Sizes(window)) * |window| as real == BytesWithin(ring, now)
  {
    hide Recent, Mean, Sum, BytesWithin;
    RecentBytes(ring, now);
    MeanTimes(Sizes(Recent(ring, now, 1.0)));
  }

  /** The interval variance belongs to the (at most ten) newest events of the client's whole history. */
  lemma {:induction false} VarianceBounded(arrivals: seq<Arrival<Hit>>, n: nat)
    requires n < |arrivals| && InOrder(arrivals)
    ensures var x, client := arrivals[n].x, arrivals[n].client;
      var f := FeaturesOf(QueueOf(StateAfter(arrivals, Ring50(), n + 1), client), x.at, x.item.size);
      Spread(f.intervalVariance, Last(Own(arrivals, client, n + 1), 10))
  {
    hide IntervalVariance, Spread, StateAfter, Own, FeaturesOf, Recent, Mean, Endpoints, Sizes, Ordered, InOrder;
    var own, x := Own(arrivals, arrivals[n].client, n + 1), arrivals[n].x;
    RingIsLast(arrivals, n);
    RingFields(Last(own, 50), x.at, x.item.size);
    assert Last(Last(own, 50), 10) == Last(own, 10);
    LastIsOrdered(own, 10);
    GapVariance(Last(own, 10));
  }

  lemma {:induction false} LastIsOrdered(q: seq<Stamped<Hit>>, k: nat)
    requires Ordered(q)
    ensures Ordered(Last(q, k))
  {
  }

  /** Written out over the client's own events: the last 50 of them, cut to the last second, give the
      count, the average and the number of endpoints. */
  lemma {:induction false} WindowWrittenOut(arrivals: seq<Arrival<Hit>>, n: nat)
    requires n < |arrivals|
    ensures var x, client := arrivals[n].x, arrivals[n].client;
      var f := FeaturesOf(QueueOf(StateAfter(arrivals, Ring50(), n + 1), client), x.at, x.item.size);
      var own := Own(arrivals, client, n + 1);
      var q := if |own| > 50 then own[|own| - 50..] else own;
      && f.requestsPerSec == |set i | 0 <= i < |q| && x.at - q[i].at <= 1.0|
      && f.uniqueEndpoints == |set i | 0 <= i < |q| && x.at - q[i].at <= 1.0 :: q[i].item.endpoint|
      && f.avgPacketSize * f.requestsPerSec as real == BytesWithin(q, x.at)
  {
    hide StateAfter, Own, FeaturesOf, BytesWithin, Recent, Mean, Endpoints, Sizes, Sum;
    var own, x := Own(arrivals, arrivals[n].client, n + 1), arrivals[n].x;
    RingIsOwn(arrivals, n);
    var q := Last(own, 50);
    RingFields(q, x.at, x.item.size);
    RecentCount(q, x.at);
    RecentEndpoints(q, x.at);
    RingAverage(q, x.at);
  }

  /** The variance is that of the gaps between the client's last ten events: their squared differences
      from the average gap, divided by their number; 0.2 for at most two events. */
  lemma {:induction false} GapsWrittenOut(arrivals: seq<Arrival<Hit>>, n: nat)
    requires n < |arrivals|
    ensures var x, client := arrivals[n].x, arrivals[n].client;
      var f := FeaturesOf(QueueOf(StateAfter(arrivals, Ring50(), n + 1), client), x.at, x.item.size);
      var own := Own(arrivals, client, n + 1);
      var ten := if |own| > 10 then own[|own| - 10..] else own;
      if |ten| <= 2 then f.intervalVariance == 0.2
      else
        var gaps := (|ten| - 1) as real;
        f.intervalVariance * gaps == GapDeviations(ten, (x.at - ten[0].at) / gaps)
  {
    hide StateAfter, Own, FeaturesOf, GapDeviations, IntervalVariance, Recent, Mean, Endpoints, Sizes;
    var own, x := Own(arrivals, arrivals[n].client, n + 1), arrivals[n].x;
    RingIsOwn(arrivals, n);
    RingFields(Last(own, 50), x.at, x.item.size);
    var ten := Last(own, 10);
    assert Last(Last(own, 50), 10) == ten;
    if |ten| > 2 {
      VarianceWrittenOut(ten);
    } else {
      FewEvents(ten);
    }
  }

  lemma {:induction false} FewEvents(q: seq<Stamped<Hit>>)
    requires |q| <= 2
    ensures IntervalVariance(q) == 0.2
  {
  }
}
