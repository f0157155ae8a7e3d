/** At-most-once acceptance over every interleaved run of all transports. */
module ReplayProtocol {
  import opened Options
  import opened TimedStore
  import opened Keys
  import opened ReplayGuard

  datatype Transport = Http | WebSocket | Udp

  /** What a client sent; a replay is a second packet with the same three fields. */
  datatype Stamp = Stamp(client: string, nonce: string, timestamp: real)

  datatype Pending = Pending(transport: Transport, stamp: Stamp, now: real)

  datatype Acceptance = Acceptance(transport: Transport, stamp: Stamp, now: real, at: real)

  datatype System = System(db: Keyspace, clock: real, pending: map<nat, Pending>, accepted: seq<Acceptance>)

  datatype Step =
    | ReadClock(at: real, id: nat, transport: Transport, stamp: Stamp)
    | RunSetNx(at: real, id: nat)

  const START := System(map[], 0.0, map[], [])

  /** The SET NX runs at most `delay` after the clock was read. */
  predicate Enabled(s: System, step: Step, delay: real) {
    s.clock <= step.at &&
    match step
    case ReadClock(_, id, _, _) => id !in s.pending
    case RunSetNx(at, id) => id in s.pending && at <= s.pending[id].now + delay
  }

  function Next(s: System, settings: Settings, step: Step): System {
    match step
    case ReadClock(at, id, transport, stamp) =>
      s.(clock := at, pending := s.pending[id := Pending(transport, stamp, at)])
    case RunSetNx(at, id) =>
      if id !in s.pending then s else
        var p := s.pending[id];
        var verdict := Judge(s.db, settings, p.stamp.client, p.stamp.nonce, p.stamp.timestamp, p.now, at);
        System(JudgeStore(s.db, settings, p.stamp.client, p.stamp.nonce, p.stamp.timestamp, p.now, at),
               at, s.pending - {id},
               if verdict.Accepted? then s.accepted + [Acceptance(p.transport, p.stamp, p.now, at)] else s.accepted)
  }

  function StateAfter(steps: seq<Step>, settings: Settings, n: nat): System
    requires n <= |steps|
  {
    if n == 0 then START else Next(StateAfter(steps, settings, n - 1), settings, steps[n - 1])
  }

  predicate Legal(steps: seq<Step>, settings: Settings, delay: real, n: nat)
    requires n <= |steps|
  {
    n == 0 || (Legal(steps, settings, delay, n - 1) && Enabled(StateAfter(steps, settings, n - 1), steps[n - 1], delay))
  }

  ghost predicate NoReplay(accepted: seq<Acceptance>) {
    forall i, j :: 0 <= i < j < |accepted| ==> accepted[i].stamp != accepted[j].stamp
  }

  /** No run, over any mix of transports, accepts the same stamp twice. */
  ghost predicate AtMostOnce(settings: Settings, delay: real) {
    forall steps :: Legal(steps, settings, delay, |steps|) ==>
      NoReplay(StateAfter(steps, settings, |steps|).accepted)
  }

  /** Every acceptance was in its window, and its key is kept for the whole TTL. */
  ghost predicate Inv(s: System, settings: Settings, delay: real) {
    && (forall id :: id in s.pending ==> s.pending[id].now <= s.clock)
    && (forall i :: 0 <= i < |s.accepted| ==> Remembered(s, settings, s.accepted[i]))
    && NoReplay(s.accepted)
  }

  ghost predicate Remembered(s: System, settings: Settings, a: Acceptance) {
    var key := NonceKey(a.stamp.client, a.stamp.nonce);
    && InWindow(settings, a.stamp.timestamp, a.now)
    && a.now <= a.at <= s.clock
    && key in s.db && s.db[key].expiry.Some? && a.at + settings.nonceTtl <= s.db[key].expiry.value
  }

  lemma {:induction false} InvRunSetNx(s: System, settings: Settings, delay: real, at: real, id: nat, s': System)
    requires Enabled(s, RunSetNx(at, id), delay) && s' == Next(s, settings, RunSetNx(at, id))
    requires settings.nonceTtl >= 2.0 * settings.window + delay
    requires Inv(s, settings, delay)
    ensures Inv(s', settings, delay)
  {
    var p := s.pending[id];
    var key := NonceKey(p.stamp.client, p.stamp.nonce);
    var verdict := Judge(s.db, settings, p.stamp.client, p.stamp.nonce, p.stamp.timestamp, p.now, at);
    forall i | 0 <= i < |s.accepted|
      ensures Remembered(s', settings, s.accepted[i])
      ensures verdict.Accepted? ==> s.accepted[i].stamp != p.stamp
    {
      assert Remembered(s, settings, s.accepted[i]);
    }
  }

  lemma {:induction false} InvAlways(steps: seq<Step>, settings: Settings, delay: real, n: nat)
    requires n <= |steps| && Legal(steps, settings, delay, n)
    requires settings.nonceTtl >= 2.0 * settings.window + delay
    ensures Inv(StateAfter(steps, settings, n), settings, delay)
  {
    if n > 0 {
      InvAlways(steps, settings, delay, n - 1);
      var s := StateAfter(steps, settings, n - 1);
      match steps[n - 1]
      case RunSetNx(at, id) => InvRunSetNx(s, settings, delay, at, id, StateAfter(steps, settings, n));
      case ReadClock(_, _, _, _) =>
        forall i | 0 <= i < |s.accepted| ensures Remembered(StateAfter(steps, settings, n), settings, s.accepted[i]) {
          assert Remembered(s, settings, s.accepted[i]);
        }
    }
  }

  /** A run below the bound: the stamp is accepted as early as the window allows, and again as late
      as the window and the delay allow, when its key is gone. */
  function TwiceAccepted(settings: Settings, delay: real): seq<Step> {
    var stamp := Stamp("", "", settings.window);
    [ReadClock(0.0, 0, Http, stamp), RunSetNx(0.0, 0),
     ReadClock(2.0 * settings.window, 1, Udp, stamp), RunSetNx(2.0 * settings.window + delay, 1)]
  }

  lemma {:induction false} BelowTheBound(settings: Settings, delay: real)
    requires settings.window >= 0.0 && delay >= 0.0
    requires settings.nonceTtl < 2.0 * settings.window + delay
    ensures !AtMostOnce(settings, delay)
  {
    var steps := TwiceAccepted(settings, delay);
    var stamp := Stamp("", "", settings.window);
    var s1 := Next(START, settings, steps[0]);
    var s2 := Next(s1, settings, steps[1]);
    assert s2.accepted == [Acceptance(Http, stamp, 0.0, 0.0)];
    assert s2.db == map[NonceKey("", "") := Entry(Mark, Some(0.0 + settings.nonceTtl))];
    var s3 := Next(s2, settings, steps[2]);
    var s4 := Next(s3, settings, steps[3]);
    assert s4.accepted[0].stamp == s4.accepted[1].stamp;
    assert StateAfter(steps, settings, 1) == s1;
    assert StateAfter(steps, settings, 2) == s2;
    assert StateAfter(steps, settings, 3) == s3;
    assert StateAfter(steps, settings, 4) == s4;
    assert Legal(steps, settings, delay, 1);
    assert Legal(steps, settings, delay, 2);
    assert Legal(steps, settings, delay, 3);
    assert Legal(steps, settings, delay, 4);
  }

  /** The bounded memory acts like an unbounded one exactly when a nonce outlives two windows and the
      longest delay between a clock read and its SET NX. */
  lemma {:induction false} AtMostOnceIff(settings: Settings, delay: real)
    requires settings.window >= 0.0 && delay >= 0.0
    ensures AtMostOnce(settings, delay) <==> settings.nonceTtl >= 2.0 * settings.window + delay
  {
    if settings.nonceTtl >= 2.0 * settings.window + delay {
      forall steps | Legal(steps, settings, delay, |steps|)
        ensures NoReplay(StateAfter(steps, settings, |steps|).accepted)
      {
        InvAlways(steps, settings, delay, |steps|);
      }
    } else {
      BelowTheBound(settings, delay);
    }
  }

  // ----- what the memory remembers, whatever the TTL -----

  /** Every nonce key was written by an acceptance, and still carries that acceptance's TTL. */
  ghost predicate Explained(s: System, settings: Settings) {
    && (forall key :: key in s.db ==> exists i :: 0 <= i < |s.accepted| && Wrote(s, settings, i, key))
    && (forall i :: 0 <= i < |s.accepted| ==> Kept(s, settings, s.accepted[i]))
  }

  ghost predicate Wrote(s: System, settings: Settings, i: nat, key: string)
    requires i < |s.accepted| && key in s.db
  {
    && key == NonceKey(s.accepted[i].stamp.client, s.accepted[i].stamp.nonce)
    && s.db[key].expiry == Some(s.accepted[i].at + settings.nonceTtl)
  }

  ghost predicate Kept(s: System, settings: Settings, a: Acceptance) {
    var key := NonceKey(a.stamp.client, a.stamp.nonce);
    && a.at <= s.clock
    && key in s.db && s.db[key].expiry.Some? && a.at + settings.nonceTtl <= s.db[key].expiry.value
  }

  lemma {:induction false} ExplainedKept(s: System, settings: Settings, s': System)
    requires Explained(s, settings)
    requires s'.db == s.db && s'.accepted == s.accepted && s.clock <= s'.clock
    ensures Explained(s', settings)
  {
    forall i | 0 <= i < |s.accepted| ensures Kept(s', settings, s'.accepted[i]) {
      assert Kept(s, settings, s.accepted[i]);
    }
    forall key | key in s'.db ensures exists i :: 0 <= i < |s'.accepted| && Wrote(s', settings, i, key) {
      var i :| 0 <= i < |s.accepted| && Wrote(s, settings, i, key);
      assert Wrote(s', settings, i, key);
    }
  }

  lemma {:induction false} ExplainedAccept(s: System, settings: Settings, a: Acceptance, s': System)
    requires Explained(s, settings)
    requires !Exists(s.db, NonceKey(a.stamp.client, a.stamp.nonce), a.at)
    requires s'.db == SetEx(s.db, NonceKey(a.stamp.client, a.stamp.nonce), Mark, settings.nonceTtl, a.at)
    requires s'.accepted == s.accepted + [a] && s.clock <= a.at == s'.clock
    ensures Explained(s', settings)
  {
    var own := NonceKey(a.stamp.client, a.stamp.nonce);
    forall i | 0 <= i < |s'.accepted| ensures Kept(s', settings, s'.accepted[i]) {
      if i < |s.accepted| {
        assert Kept(s, settings, s.accepted[i]);
      }
    }
    forall key | key in s'.db ensures exists i :: 0 <= i < |s'.accepted| && Wrote(s', settings, i, key) {
      if key == own {
        assert Wrote(s', settings, |s.accepted|, key);
      } else {
        var i :| 0 <= i < |s.accepted| && Wrote(s, settings, i, key);
        assert Wrote(s', settings, i, key);
      }
    }
  }

  lemma {:induction false} ExplainedStep(s: System, settings: Settings, delay: real, step: Step, s': System)
    requires Enabled(s, step, delay) && s' == Next(s, settings, step)
    requires Explained(s, settings)
    ensures Explained(s', settings)
  {
    if |s'.accepted| == |s.accepted| {
      ExplainedKept(s, settings, s');
    } else {
      ExplainedAccept(s, settings, s'.accepted[|s.accepted|], s');
    }
  }

  lemma {:induction false} ExplainedAlways(steps: seq<Step>, settings: Settings, delay: real, n: nat)
    requires n <= |steps| && Legal(steps, settings, delay, n)
    ensures Explained(StateAfter(steps, settings, n), settings)
  {
    if n > 0 {
      ExplainedAlways(steps, settings, delay, n - 1);
      ExplainedStep(StateAfter(steps, settings, n - 1), settings, delay, steps[n - 1], StateAfter(steps, settings, n));
    }
  }

  /** An earlier acceptance under the same nonce key that is at most the TTL old. */
  ghost predicate RecentlyUsed(s: System, settings: Settings, key: string, at: real) {
    exists i :: 0 <= i < |s.accepted|
      && NonceKey(s.accepted[i].stamp.client, s.accepted[i].stamp.nonce) == key
      && at <= s.accepted[i].at + settings.nonceTtl
  }

  /** The verdict is a property of the history, for all ids: a request in its window is accepted iff its
      nonce key was not accepted within the last TTL. */
  lemma {:induction false} VerdictIsHistory(steps: seq<Step>, settings: Settings, delay: real, stamp: Stamp, now: real,
                                            at: real)
    requires Legal(steps, settings, delay, |steps|)
    ensures var s := StateAfter(steps, settings, |steps|);
      Judge(s.db, settings, stamp.client, stamp.nonce, stamp.timestamp, now, at).Accepted?
      <==> InWindow(settings, stamp.timestamp, now)
           && !RecentlyUsed(s, settings, NonceKey(stamp.client, stamp.nonce), at)
  {
    var s, key := StateAfter(steps, settings, |steps|), NonceKey(stamp.client, stamp.nonce);
    ExplainedAlways(steps, settings, delay, |steps|);
    if Exists(s.db, key, at) {
      var i :| 0 <= i < |s.accepted| && Wrote(s, settings, i, key);
    }
    if RecentlyUsed(s, settings, key, at) {
      var i :| 0 <= i < |s.accepted| && NonceKey(s.accepted[i].stamp.client, s.accepted[i].stamp.nonce) == key
        && at <= s.accepted[i].at + settings.nonceTtl;
      assert Kept(s, settings, s.accepted[i]);
    }
  }

  /** Two different pairs that share a nonce key: one colon was moved between the parts. */
  ghost predicate Collide(a: Stamp, b: Stamp) {
    (a.client, a.nonce) != (b.client, b.nonce)
    && exists middle :: Shifted((a.client, a.nonce), (b.client, b.nonce), middle)
                     || Shifted((b.client, b.nonce), (a.client, a.nonce), middle)
  }

  /** So a request whose own pair was never accepted is refused, in its window, exactly when a colliding
      pair was accepted within the last TTL: sharing a key only ever refuses. */
  lemma {:induction false} FreshIsRefusedIff(steps: seq<Step>, settings: Settings, delay: real, stamp: Stamp, now: real,
                                             at: real)
    requires Legal(steps, settings, delay, |steps|) && InWindow(settings, stamp.timestamp, now)
    requires forall a :: a in StateAfter(steps, settings, |steps|).accepted ==>
      (a.stamp.client, a.stamp.nonce) != (stamp.client, stamp.nonce)
    ensures var s := StateAfter(steps, settings, |steps|);
      Judge(s.db, settings, stamp.client, stamp.nonce, stamp.timestamp, now, at).NonceReused?
      <==> exists i :: 0 <= i < |s.accepted|
                && Collide(s.accepted[i].stamp, stamp) && at <= s.accepted[i].at + settings.nonceTtl
  {
    var s := StateAfter(steps, settings, |steps|);
    VerdictIsHistory(steps, settings, delay, stamp, now, at);
    forall i | 0 <= i < |s.accepted|
      ensures NonceKey(s.accepted[i].stamp.client, s.accepted[i].stamp.nonce) == NonceKey(stamp.client, stamp.nonce)
         <==> Collide(s.accepted[i].stamp, stamp)
    {
      assert s.accepted[i] in s.accepted;
      NonceKeyCollisions((s.accepted[i].stamp.client, s.accepted[i].stamp.nonce), (stamp.client, stamp.nonce));
    }
  }

  /** One acceptance, over HTTP, of client "a:b" with nonce "c". */
  function OneAccepted(): seq<Step> {
    [ReadClock(0.0, 0, Http, Stamp("a:b", "c", 0.0)), RunSetNx(0.0, 0)]
  }

  /** It happens: after that one acceptance, client "a" with nonce "b:c" is refused as a replay, although
      that pair was never accepted. */
  lemma {:induction false} CollisionRefuses(settings: Settings, delay: real)
    requires settings.window >= 0.0 && settings.nonceTtl >= 0.0 && delay >= 0.0
    ensures var steps, stamp := OneAccepted(), Stamp("a", "b:c", 0.0);
      var s := StateAfter(steps, settings, |steps|);
      && Legal(steps, settings, delay, |steps|)
      && (forall a :: a in s.accepted ==> (a.stamp.client, a.stamp.nonce) != (stamp.client, stamp.nonce))
      && InWindow(settings, stamp.timestamp, 0.0)
      && Judge(s.db, settings, stamp.client, stamp.nonce, stamp.timestamp, 0.0, 0.0).NonceReused?
  {
    var steps, first := OneAccepted(), Stamp("a:b", "c", 0.0);
    var s1 := Next(START, settings, steps[0]);
    var s2 := Next(s1, settings, steps[1]);
    assert StateAfter(steps, settings, 0) == START;
    assert StateAfter(steps, settings, 1) == s1;
    assert StateAfter(steps, settings, 2) == s2;
    assert Enabled(START, steps[0], delay) && Enabled(s1, steps[1], delay);
    assert Legal(steps, settings, delay, 0);
    assert Legal(steps, settings, delay, 1);
    assert s2.accepted == [Acceptance(Http, first, 0.0, 0.0)];
    NonceKeyCollisions(("a:b", "c"), ("a", "b:c"));
    assert Shifted(("a:b", "c"), ("a", "b:c"), "b");
  }

  /** No client id has a colon, or no nonce has one. */
  predicate ColonFree(accepted: seq<Acceptance>, stamp: Stamp) {
    || (':' !in stamp.client && forall a :: a in accepted ==> ':' !in a.stamp.client)
    || (':' !in stamp.nonce && forall a :: a in accepted ==> ':' !in a.stamp.nonce)
  }

  /** Without colons a pair can only be refused for its own sake: in particular a fresh one is accepted. */
  lemma {:induction false} ColonFreeVerdict(steps: seq<Step>, settings: Settings, delay: real, stamp: Stamp, now: real,
                                            at: real)
    requires Legal(steps, settings, delay, |steps|)
    requires ColonFree(StateAfter(steps, settings, |steps|).accepted, stamp)
    ensures var s := StateAfter(steps, settings, |steps|);
      Judge(s.db, settings, stamp.client, stamp.nonce, stamp.timestamp, now, at).Accepted?
      <==> InWindow(settings, stamp.timestamp, now)
           && forall i :: 0 <= i < |s.accepted|
                  && (s.accepted[i].stamp.client, s.accepted[i].stamp.nonce) == (stamp.client, stamp.nonce)
                ==> s.accepted[i].at + settings.nonceTtl < at
  {
    var s, key := StateAfter(steps, settings, |steps|), NonceKey(stamp.client, stamp.nonce);
    VerdictIsHistory(steps, settings, delay, stamp, now, at);
    if RecentlyUsed(s, settings, key, at) {
      var i :| 0 <= i < |s.accepted| && NonceKey(s.accepted[i].stamp.client, s.accepted[i].stamp.nonce) == key
        && at <= s.accepted[i].at + settings.nonceTtl;
      assert s.accepted[i] in s.accepted;
      NonceKeyInjective((s.accepted[i].stamp.client, s.accepted[i].stamp.nonce), (stamp.client, stamp.nonce));
    }
  }
}
