/** The speed limit in the gateway's own time: the cheat detector runs on the timestamps that clients
    send, and the replay guard keeps these within a window of the gateway's clock. */
module SpeedInRuns {
  import opened Options
  import opened TimedStore
  import opened Keys
  import opened Variance
  import opened Distance
  import opened PacketGateways
  import opened PacketRuns
  import RG = ReplayGuard
  import CD = CheatDetector

  /** Step n is a move of `client` that reached the cheat detector. */
  predicate MovesAt(run: seq<Step>, setup: Setup, client: string, n: nat)
    requires n < |run|
  {
    var e := EvaluationOf(run, setup, n);
    e != [] && e[0].client == client && e[0].payload.position.Some?
  }

  function SpotOf(run: seq<Step>, setup: Setup, client: string, n: nat): Spot
    requires n < |run| && MovesAt(run, setup, client, n)
  {
    EvaluationOf(run, setup, n)[0].payload.position.value
  }

  /** Its place among the evaluations. */
  function Place(run: seq<Step>, setup: Setup, n: nat): nat
    requires n <= |run|
  {
    |Evaluated(run, setup, n)|
  }

  lemma {:induction false} EvaluatedGrows(run: seq<Step>, setup: Setup, a: nat, b: nat)
    requires a <= b <= |run|
    ensures Evaluated(run, setup, a) <= Evaluated(run, setup, b)
    decreases b - a
  {
    hide EvaluationOf;
    if a < b {
      EvaluatedGrows(run, setup, a, b - 1);
    }
  }

  lemma {:induction false} EvaluatedAt(run: seq<Step>, setup: Setup, client: string, n: nat)
    requires n < |run| && MovesAt(run, setup, client, n)
    ensures var all := Evaluated(run, setup, |run|);
      && Place(run, setup, n) < Place(run, setup, n + 1) <= |all|
      && all[Place(run, setup, n)] == EvaluationOf(run, setup, n)[0]
  {
    hide EvaluationOf;
    EvaluatedGrows(run, setup, n, |run|);
    EvaluatedGrows(run, setup, n + 1, |run|);
  }

  /** What was accepted carries a timestamp within the window of the gateway's clock. */
  lemma {:induction false} StampedInWindow(run: seq<Step>, setup: Setup, n: nat)
    requires n < |run| && EvaluationOf(run, setup, n) != []
    ensures RG.Abs(TimeOf(run[n]) - EvaluationOf(run, setup, n)[0].at) <= setup.cfg.replay.window
  {
    hide StateAfter;
  }

  lemma {:induction false} SquareMonotone(l: real, m: real)
    requires 0.0 <= l <= m
    ensures Square(l) <= Square(m) && (l < m ==> Square(l) < Square(m))
  {
    if l < m {
      TimesPositive(m - l, m + l);
      assert (m - l) * (m + l) == m * m - l * l;
    }
  }

  lemma {:induction false} WithinMore(a: Spot, b: Spot, l: real, m: real)
    requires Within(a, b, l) && l <= m
    ensures Within(a, b, m)
  {
    SquareMonotone(l, m);
  }

  /** Every move of `client` that reached the detector after step a, up to step b, was checked and not flagged. */
  predicate PassedBetween(run: seq<Step>, setup: Setup, client: string, a: nat, b: nat)
    requires a <= b < |run|
  {
    var all := Evaluated(run, setup, |run|);
    forall p :: Place(run, setup, a) < p <= Place(run, setup, b) && p < |all| && CD.IsMove(all, client, p) ==>
        CD.Passed(all, p)
  }

  /** Between two such moves a client got no further than 15 units per second of the gateway's time, plus
      what it may gain by stamping one move early and the other late. */
  lemma {:induction false} GatewaySpeedLimit(run: seq<Step>, setup: Setup, client: string, a: nat, b: nat)
    requires a <= b < |run| && MovesAt(run, setup, client, a) && MovesAt(run, setup, client, b)
    requires PassedBetween(run, setup, client, a, b)
    ensures Within(SpotOf(run, setup, client, a), SpotOf(run, setup, client, b),
                   CD.MAX_SPEED * (TimeOf(run[b]) - TimeOf(run[a]) + 2.0 * setup.cfg.replay.window))
  {
    hide EvaluationOf, Evaluated, CD.Passed, Within, InOrder;
    var all := Evaluated(run, setup, |run|);
    EvaluatedAt(run, setup, client, a);
    EvaluatedAt(run, setup, client, b);
    EvaluatedGrows(run, setup, a, b);
    StampedInWindow(run, setup, a);
    StampedInWindow(run, setup, b);
    var i, j := Place(run, setup, a), Place(run, setup, b);
    CD.SpeedLimit(all, client, i, j);
    WithinMore(CD.SpotAt(all, i), CD.SpotAt(all, j), CD.MAX_SPEED * (all[j].at - all[i].at),
               CD.MAX_SPEED * (TimeOf(run[b]) - TimeOf(run[a]) + 2.0 * setup.cfg.replay.window));
  }

  // ----- exactly two windows -----

  /** In every ordered run, such moves are within 15 units per second of the gateway's time and `slack`
      more seconds. */
  ghost predicate SpeedHolds(setup: Setup, slack: real) {
    forall run, client, a: nat, b: nat ::
      InOrder(run) && a <= b < |run| && MovesAt(run, setup, client, a) && MovesAt(run, setup, client, b)
      && PassedBetween(run, setup, client, a, b) ==>
        Within(SpotOf(run, setup, client, a), SpotOf(run, setup, client, b),
               CD.MAX_SPEED * (TimeOf(run[b]) - TimeOf(run[a]) + slack))
  }

  function Move(nonce: string, x: real, stamp: real, at: real): Step {
    WsMessage(Message("", Some(Packet("", "", "move", CD.Payload("", Some(Spot(x, 0.0))), nonce, stamp)), 0, at))
  }

  /** The two moves that are furthest apart: the first stamped as early as its window allows, the second
      as late, and 15 units per second apart by these stamps. */
  function EarlyAndLate(window: real): seq<Step> {
    [Move("a", 0.0, -window, 0.0), Move("b", CD.MAX_SPEED * Stretch(window), CD.MIN_ELAPSED + window, CD.MIN_ELAPSED)]
  }

  function Stretch(window: real): real { CD.MIN_ELAPSED + 2.0 * window }

  /** One accepted move: what the store and the detector's positions are after it. */
  lemma {:induction false} MoveAccepted(w: World, setup: Setup, nonce: string, x: real, stamp: real, at: real)
    requires RG.Abs(at - stamp) <= setup.cfg.replay.window && !Exists(w.db, NonceKey("", nonce), at)
    ensures var step := Move(nonce, x, stamp, at);
      && AcceptsIn(w, setup, step)
      && Next(w, setup, step).db == SetEx(w.db, NonceKey("", nonce), Mark, setup.cfg.replay.nonceTtl, at)
  {
    StepStore(w, setup, Move(nonce, x, stamp, at));
    hide Next;
  }

  lemma {:induction false} NoncesDiffer()
    ensures NonceKey("", "a") != NonceKey("", "b")
  {
    if NonceKey("", "a") == NonceKey("", "b") {
      NonceKeyInjective(("", "a"), ("", "b"));
    }
  }

  lemma {:induction false} MoveEvaluated(run: seq<Step>, setup: Setup, n: nat, nonce: string, x: real, stamp: real,
                                         at: real)
    requires n < |run| && run[n] == Move(nonce, x, stamp, at) && AcceptsIn(StateAfter(run, setup, n), setup, run[n])
    ensures EvaluationOf(run, setup, n) == [EvaluationAt(x, stamp)]
  {
    hide AcceptsIn, StateAfter;
  }

  lemma {:induction false} FirstStates(run: seq<Step>, setup: Setup)
    requires |run| >= 1
    ensures StateAfter(run, setup, 0) == START && StateAfter(run, setup, 1) == Next(START, setup, run[0])
  {
    hide Next;
  }

  lemma {:induction false} BothEvaluated(setup: Setup, run: seq<Step>)
    requires setup.cfg.replay.window >= 0.0 && run == EarlyAndLate(setup.cfg.replay.window)
    ensures var w := setup.cfg.replay.window;
      && EvaluationOf(run, setup, 0) == [EvaluationAt(0.0, -w)]
      && EvaluationOf(run, setup, 1) == [EvaluationAt(CD.MAX_SPEED * Stretch(w), CD.MIN_ELAPSED + w)]
  {
    hide Next, AcceptsIn, StateAfter, EvaluationOf, NonceKey, Stretch;
    var w := setup.cfg.replay.window;
    var far := CD.MAX_SPEED * Stretch(w);
    FirstStates(run, setup);
    NoncesDiffer();
    MoveAccepted(START, setup, "a", 0.0, -w, 0.0);
    MoveEvaluated(run, setup, 0, "a", 0.0, -w, 0.0);
    MoveAccepted(Next(START, setup, run[0]), setup, "b", far, CD.MIN_ELAPSED + w, CD.MIN_ELAPSED);
    MoveEvaluated(run, setup, 1, "b", far, CD.MIN_ELAPSED + w, CD.MIN_ELAPSED);
  }

  function EvaluationAt(x: real, stamp: real): CD.Evaluation {
    CD.Evaluation("", CD.Payload("", Some(Spot(x, 0.0))), stamp)
  }

  /** On a line, distance is difference. */
  lemma {:induction false} WithinLine(x: real, length: real)
    requires x >= 0.0
    ensures Within(Spot(0.0, 0.0), Spot(x, 0.0), length) <==> x <= length
  {
    SquareSign(0.0);
    hide Times;
    if x <= length {
      SquareMonotone(x, length);
    } else if length >= 0.0 {
      SquareMonotone(length, x);
    }
  }

  /** The limit holds in the gateway's time with a slack iff the slack covers two windows. */
  lemma {:induction false} SpeedHoldsIff(setup: Setup, slack: real)
    requires setup.cfg.replay.window >= 0.0 && slack >= 0.0
    ensures SpeedHolds(setup, slack) <==> slack >= 2.0 * setup.cfg.replay.window
  {
    if slack >= 2.0 * setup.cfg.replay.window {
      EnoughSlack(setup, slack);
    } else {
      TooLittleSlack(setup, slack);
    }
  }

  lemma {:induction false} EnoughSlack(setup: Setup, slack: real)
    requires slack >= 2.0 * setup.cfg.replay.window
    ensures SpeedHolds(setup, slack)
  {
    hide MovesAt, PassedBetween, SpotOf, InOrder, Within;
    forall run, client, a: nat, b: nat |
      InOrder(run) && a <= b < |run| && MovesAt(run, setup, client, a) && MovesAt(run, setup, client, b)
      && PassedBetween(run, setup, client, a, b)
      ensures Within(SpotOf(run, setup, client, a), SpotOf(run, setup, client, b),
                     CD.MAX_SPEED * (TimeOf(run[b]) - TimeOf(run[a]) + slack))
    {
      GatewaySpeedLimit(run, setup, client, a, b);
      WithinMore(SpotOf(run, setup, client, a), SpotOf(run, setup, client, b),
                 CD.MAX_SPEED * (TimeOf(run[b]) - TimeOf(run[a]) + 2.0 * setup.cfg.replay.window),
                 CD.MAX_SPEED * (TimeOf(run[b]) - TimeOf(run[a]) + slack));
    }
  }

  lemma {:induction false} TooLittleSlack(setup: Setup, slack: real)
    requires setup.cfg.replay.window >= 0.0 && 0.0 <= slack < 2.0 * setup.cfg.replay.window
    ensures !SpeedHolds(setup, slack)
  {
    var w := setup.cfg.replay.window;
    var run := EarlyAndLate(w);
    BothEvaluated(setup, run);
    TwoPassed(setup, run);
    WithinLine(CD.MAX_SPEED * Stretch(w), CD.MAX_SPEED * (CD.MIN_ELAPSED + slack));
    hide EvaluationOf, PassedBetween, Within;
    assert MovesAt(run, setup, "", 0) && MovesAt(run, setup, "", 1);
  }

  lemma {:induction false} TwoPassed(setup: Setup, run: seq<Step>)
    requires setup.cfg.replay.window >= 0.0 && run == EarlyAndLate(setup.cfg.replay.window)
    ensures PassedBetween(run, setup, "", 0, 1)
  {
    BothEvaluated(setup, run);
    hide EvaluationOf, CD.Passed;
    var all := Evaluated(run, setup, 2);
    assert Evaluated(run, setup, 0) == [];
    assert Evaluated(run, setup, 1) == Evaluated(run, setup, 0) + EvaluationOf(run, setup, 0);
    assert all == Evaluated(run, setup, 1) + EvaluationOf(run, setup, 1);
  }
}
