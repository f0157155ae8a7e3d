/** The UDP flood heuristic: too many distinct sessions of one ip in a short window. */
module SynFlood {
  import opened SlidingWindow
  import opened PerClient

  type Attempt = Arrival<string>

  function Sessions(q: seq<Stamped<string>>): set<string> {
    set e | e in q :: e.item
  }

  function EvictingPush(window: real): Push<string> {
    (q, x: Stamped<string>) => Evict(q + [x], x.at, window)
  }

  class SynFloodHeuristic {
    const windowSeconds: real
    const maxNewSessions: int
    var sessionEvents: map<string, seq<Stamped<string>>>

    constructor (windowSeconds: real, maxNewSessions: int)
      ensures this.windowSeconds == windowSeconds && this.maxNewSessions == maxNewSessions && sessionEvents == map[]
    {
      this.windowSeconds, this.maxNewSessions, sessionEvents := windowSeconds, maxNewSessions, map[];
    }

    method RegisterAndCheck(ip: string, session: string, now: real) returns (flood: bool)
      modifies this
      ensures sessionEvents == After(old(sessionEvents), EvictingPush(windowSeconds),
        Arrival(ip, Stamped(now, session)))
      ensures flood == (|Sessions(QueueOf(sessionEvents, ip))| > maxNewSessions)
    {
      var events := QueueOf(sessionEvents, ip) + [Stamped(now, session)];
      ghost var all := events;
      while events != [] && now - events[0].at > windowSeconds
        invariant Evict(all, now, windowSeconds) == Evict(events, now, windowSeconds)
        decreases |events|
      {
        events := events[1..];
      }
      sessionEvents := sessionEvents[ip := events];
      flood := |Sessions(events)| > maxNewSessions;
    }
  }

  lemma {:induction false} FoldIsDeque(own: seq<Stamped<string>>, window: real, n: nat)
    requires n <= |own|
    ensures Fold(own, EvictingPush(window), n) == DequeAfter(own, window, n)
  {
    if n > 0 {
      FoldIsDeque(own, window, n - 1);
    }
  }

  lemma {:induction false} DequeMembers(attempts: seq<Attempt>, window: real, n: nat, e: Stamped<string>)
    requires n < |attempts| && InOrder(attempts)
    ensures e in QueueOf(StateAfter(attempts, EvictingPush(window), n + 1), attempts[n].client)
       <==> e in Own(attempts, attempts[n].client, n + 1) && attempts[n].x.at - e.at <= window
  {
    var own := Own(attempts, attempts[n].client, n + 1);
    QueuesAreSeparate(attempts, EvictingPush(window), attempts[n].client, n + 1);
    FoldIsDeque(own, window, |own|);
    OwnOrdered(attempts, attempts[n].client, n + 1);
    var last := OwnContains(attempts, n + 1, n);
    DequeIsRecent(own, window, |own|);
    assert own[..|own|] == own;
    RecentItems(own, attempts[n].x.at, window, e);
  }

  /** The distinct sessions of one ip in the window that ends at `now`, over the whole history. */
  ghost function NaiveSessions(attempts: seq<Attempt>, ip: string, window: real, n: nat, now: real): set<string>
    requires n <= |attempts|
  {
    set k | 0 <= k < n && attempts[k].client == ip && now - attempts[k].x.at <= window :: attempts[k].x.item
  }

  lemma {:induction false} SeenIsCounted(attempts: seq<Attempt>, window: real, n: nat, e: Stamped<string>)
    requires n < |attempts| && InOrder(attempts)
    requires e in QueueOf(StateAfter(attempts, EvictingPush(window), n + 1), attempts[n].client)
    ensures e.item in NaiveSessions(attempts, attempts[n].client, window, n + 1, attempts[n].x.at)
  {
    DequeMembers(attempts, window, n, e);
    var own := Own(attempts, attempts[n].client, n + 1);
    var i :| 0 <= i < |own| && own[i] == e;
    var k := OwnOrigin(attempts, attempts[n].client, n + 1, i);
    assert attempts[k].x.item == e.item;
  }

  lemma {:induction false} CountedIsSeen(attempts: seq<Attempt>, window: real, n: nat, k: nat)
    requires k <= n < |attempts| && InOrder(attempts)
    requires attempts[k].client == attempts[n].client && attempts[n].x.at - attempts[k].x.at <= window
    ensures attempts[k].x in QueueOf(StateAfter(attempts, EvictingPush(window), n + 1), attempts[n].client)
  {
    DequeMembers(attempts, window, n, attempts[k].x);
    var i := OwnContains(attempts, n + 1, k);
  }

  /** With time going forward, evicting never changes the verdict: attempt n is flagged iff its ip has
      too many distinct sessions in the window, counted over everything that ever arrived. */
  lemma {:induction false} FloodIsNaive(attempts: seq<Attempt>, window: real, n: nat)
    requires n < |attempts| && InOrder(attempts)
    ensures Sessions(QueueOf(StateAfter(attempts, EvictingPush(window), n + 1), attempts[n].client))
         == NaiveSessions(attempts, attempts[n].client, window, n + 1, attempts[n].x.at)
  {
    var ip, now := attempts[n].client, attempts[n].x.at;
    var deque := QueueOf(StateAfter(attempts, EvictingPush(window), n + 1), ip);
    var naive := NaiveSessions(attempts, ip, window, n + 1, now);
    forall s | s in Sessions(deque) ensures s in naive {
      var e :| e in deque && e.item == s;
      SeenIsCounted(attempts, window, n, e);
    }
    forall s | s in naive ensures s in Sessions(deque) {
      var k :| 0 <= k < n + 1 && attempts[k].client == ip && now - attempts[k].x.at <= window
          && attempts[k].x.item == s;
      CountedIsSeen(attempts, window, n, k);
    }
  }
}
