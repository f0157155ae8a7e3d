/** Speed hacks and repeated payloads, per client. */
module CheatDetector {
  import opened Options
  import opened Variance
  import opened Distance
  import opened SlidingWindow
  import opened PerClient
  import opened Rings

  const MAX_SPEED := 15.0
  const MIN_REPEAT_INTERVAL := 0.05
  const MIN_ELAPSED := 0.02
  const PAYLOAD_RING := 5

  datatype Signal = SpeedHack | MacroBotPattern

  /** A payload: its signature, and its coordinates if it is a move that has both. */
  datatype Payload = Payload(signature: string, position: Option<Spot>)

  datatype State = State(positions: map<string, Stamped<Spot>>, payloads: map<string, seq<Stamped<string>>>)

  /** The step takes long enough to be judged. */
  predicate Checked(last: Stamped<Spot>, now: real) { now - last.at >= MIN_ELAPSED }

  /** `hypot(dx, dy) / elapsed > 15`, compared through squares: `elapsed` is positive when checked. */
  predicate TooFast(last: Stamped<Spot>, to: Spot, now: real) {
    Checked(last, now) && !Within(last.item, to, MAX_SPEED * (now - last.at))
  }

  predicate SpeedFlag(s: State, client: string, payload: Payload, now: real) {
    payload.position.Some? && client in s.positions && TooFast(s.positions[client], payload.position.value, now)
  }

  predicate Repeats(ring: seq<Stamped<string>>, signature: string, now: real) {
    exists i :: 0 <= i < |ring| && ring[i].item == signature && now - ring[i].at < MIN_REPEAT_INTERVAL
  }

  function Ring5(): Push<string> { (q, x) => RingPush(q, x, PAYLOAD_RING) }

  function Verdict(s: State, client: string, payload: Payload, now: real): Option<Signal> {
    if SpeedFlag(s, client, payload, now) then Some(SpeedHack)
    else if Repeats(QueueOf(s.payloads, client), payload.signature, now) then Some(MacroBotPattern)
    else None
  }

  /** A move always becomes the last position; a payload is remembered unless the speed check flagged it. */
  function Next(s: State, client: string, payload: Payload, now: real): State {
    State(if payload.position.Some? then s.positions[client := Stamped(now, payload.position.value)] else s.positions,
          if SpeedFlag(s, client, payload, now) then s.payloads
          else After(s.payloads, Ring5(), Arrival(client, Stamped(now, payload.signature))))
  }

  class CheatDetector {
    var lastPosition: map<string, Stamped<Spot>>
    var lastPayloads: map<string, seq<Stamped<string>>>

    function Snapshot(): State
      reads this
    {
      State(lastPosition, lastPayloads)
    }

    constructor ()
      ensures Snapshot() == State(map[], map[])
    {
      lastPosition, lastPayloads := map[], map[];
    }

    method Evaluate(client: string, payload: Payload, now: real) returns (signal: Option<Signal>)
      modifies this
      ensures signal == Verdict(old(Snapshot()), client, payload, now)
      ensures Snapshot() == Next(old(Snapshot()), client, payload, now)
    {
      if payload.position.Some? {
        var fast := CheckSpeed(client, payload.position.value, now);
        if fast {
          return Some(SpeedHack);
        }
      }
      var repeated := CheckRepeatPayload(client, payload.signature, now);
      return if repeated then Some(MacroBotPattern) else None;
    }

    method CheckSpeed(client: string, spot: Spot, now: real) returns (fast: bool)
      modifies `lastPosition
      ensures fast == (client in old(lastPosition) && TooFast(old(lastPosition)[client], spot, now))
      ensures lastPosition == old(lastPosition)[client := Stamped(now, spot)]
    {
      if client in lastPosition {
        var last := lastPosition[client];
        var elapsed := now - last.at;
        if elapsed < MIN_ELAPSED {
          lastPosition := lastPosition[client := Stamped(now, spot)];
          return false;
        }
        if !Within(last.item, spot, MAX_SPEED * elapsed) {
          lastPosition := lastPosition[client := Stamped(now, spot)];
          return true;
        }
      }
      lastPosition := lastPosition[client := Stamped(now, spot)];
      return false;
    }

    method CheckRepeatPayload(client: string, signature: string, now: real) returns (repeated: bool)
      modifies `lastPayloads
      ensures repeated == Repeats(QueueOf(old(lastPayloads), client), signature, now)
      ensures lastPayloads == After(old(lastPayloads), Ring5(), Arrival(client, Stamped(now, signature)))
    {
      var history := QueueOf(lastPayloads, client);
      var pushed := RingPush(history, Stamped(now, signature), PAYLOAD_RING);
      for i := 0 to |history|
        invariant lastPayloads == old(lastPayloads)
        invariant forall k :: 0 <= k < i ==>
                    !(history[k].item == signature && now - history[k].at < MIN_REPEAT_INTERVAL)
      {
        if history[i].item == signature && now - history[i].at < MIN_REPEAT_INTERVAL {
          lastPayloads := lastPayloads[client := pushed];
          return true;
        }
      }
      lastPayloads := lastPayloads[client := pushed];
      return false;
    }
  }

  // ----- runs of evaluations of all clients -----

  datatype Evaluation = Evaluation(client: string, payload: Payload, at: real)

  function StateAfter(run: seq<Evaluation>, n: nat): State
    requires n <= |run|
  {
    if n == 0 then State(map[], map[])
    else Next(StateAfter(run, n - 1), run[n - 1].client, run[n - 1].payload, run[n - 1].at)
  }

  /** The moves of one client among the first `n` evaluations. */
  function Moves(run: seq<Evaluation>, client: string, n: nat): seq<Stamped<Spot>>
    requires n <= |run|
  {
    if n == 0 then []
    else Moves(run, client, n - 1)
         + if run[n - 1].client == client && run[n - 1].payload.position.Some?
           then [Stamped(run[n - 1].at, run[n - 1].payload.position.value)] else []
  }

  /** The stored position is always the client's latest move, however that move was judged. */
  lemma {:induction false} PositionIsLatest(run: seq<Evaluation>, client: string, n: nat)
    requires n <= |run|
    ensures var positions, moves := StateAfter(run, n).positions, Moves(run, client, n);
      && (client in positions <==> moves != [])
      && (moves != [] ==> positions[client] == moves[|moves| - 1])
  {
    if n > 0 {
      PositionIsLatest(run, client, n - 1);
    }
  }

  /** The payloads that reached the repeat check, of all clients, in order. */
  function Remembered(run: seq<Evaluation>, n: nat): seq<Arrival<string>>
    requires n <= |run|
  {
    if n == 0 then []
    else Remembered(run, n - 1)
         + if SpeedFlag(StateAfter(run, n - 1), run[n - 1].client, run[n - 1].payload, run[n - 1].at) then []
           else [Arrival(run[n - 1].client, Stamped(run[n - 1].at, run[n - 1].payload.signature))]
  }

  lemma {:induction false} RememberStep(s: State, e: Evaluation, all: seq<Arrival<string>>)
    requires s.payloads == PerClient.StateAfter(all, Ring5(), |all|)
    ensures var all' := all + if SpeedFlag(s, e.client, e.payload, e.at) then []
                              else [Arrival(e.client, Stamped(e.at, e.payload.signature))];
      Next(s, e.client, e.payload, e.at).payloads == PerClient.StateAfter(all', Ring5(), |all'|)
  {
    hide SpeedFlag, PerClient.StateAfter, After, Ring5;
    StateOneMore(all, if SpeedFlag(s, e.client, e.payload, e.at) then []
                      else [Arrival(e.client, Stamped(e.at, e.payload.signature))], Ring5());
  }

  lemma {:induction false} PayloadsAreRemembered(run: seq<Evaluation>, n: nat)
    requires n <= |run|
    ensures StateAfter(run, n).payloads == PerClient.StateAfter(Remembered(run, n), Ring5(), |Remembered(run, n)|)
  {
    if n > 0 {
      hide SpeedFlag, PerClient.StateAfter, Next;
      PayloadsAreRemembered(run, n - 1);
      RememberStep(StateAfter(run, n - 1), run[n - 1], Remembered(run, n - 1));
    } else {
      assert Remembered(run, 0) == [];
    }
  }

  /** The verdict on evaluation n is a property of the client's own history: a speed hack is judged
      against its previous move, a repeat against its last five remembered payloads. */
  lemma {:induction false} VerdictIsHistory(run: seq<Evaluation>, n: nat)
    requires n < |run|
    ensures var e, moves := run[n], Moves(run, run[n].client, n);
      var own := Own(Remembered(run, n), e.client, |Remembered(run, n)|);
      Verdict(StateAfter(run, n), e.client, e.payload, e.at)
      == if e.payload.position.Some? && moves != [] && TooFast(moves[|moves| - 1], e.payload.position.value, e.at)
         then Some(SpeedHack)
         else if Repeats(Last(own, PAYLOAD_RING), e.payload.signature, e.at) then Some(MacroBotPattern)
         else None
  {
    var all := Remembered(run, n);
    var own := Own(all, run[n].client, |all|);
    PositionIsLatest(run, run[n].client, n);
    PayloadsAreRemembered(run, n);
    QueuesAreSeparate(all, Ring5(), run[n].client, |all|);
    FoldIsLast(own, Ring5(), PAYLOAD_RING, |own|);
    assert own[..|own|] == own;
  }

  // ----- the verdict written out -----

  /** What the detector says about evaluation n. */
  function Said(run: seq<Evaluation>, n: nat): Option<Signal>
    requires n < |run|
  {
    Verdict(StateAfter(run, n), run[n].client, run[n].payload, run[n].at)
  }

  /** The signatures of one client among the first `n` evaluations, without those of its speed hacks. */
  function Kept(run: seq<Evaluation>, client: string, n: nat): seq<Stamped<string>>
    requires n <= |run|
  {
    if n == 0 then []
    else Kept(run, client, n - 1)
         + if run[n - 1].client == client && Said(run, n - 1) != Some(SpeedHack)
           then [Stamped(run[n - 1].at, run[n - 1].payload.signature)] else []
  }

  lemma {:induction false} OwnSnoc(all: seq<Arrival<string>>, x: Arrival<string>, client: string)
    ensures Own(all + [x], client, |all| + 1)
         == Own(all, client, |all|) + if x.client == client then [x.x] else []
  {
    OwnPrefix(all, all + [x], client, |all|);
  }

  lemma {:induction false} OwnPrefix(short: seq<Arrival<string>>, long: seq<Arrival<string>>, client: string, n: nat)
    requires short <= long && n <= |short|
    ensures Own(short, client, n) == Own(long, client, n)
  {
    if n > 0 {
      OwnPrefix(short, long, client, n - 1);
    }
  }

  lemma {:induction false} KeptIsOwn(run: seq<Evaluation>, client: string, n: nat)
    requires n <= |run|
    ensures Kept(run, client, n) == Own(Remembered(run, n), client, |Remembered(run, n)|)
  {
    if n > 0 {
      hide SpeedFlag, StateAfter;
      KeptIsOwn(run, client, n - 1);
      var before, e := Remembered(run, n - 1), run[n - 1];
      OwnSnoc(before, Arrival(e.client, Stamped(e.at, e.payload.signature)), client);
      assert before + [] == before;
    }
  }

  lemma {:induction false} SaidByHistory(run: seq<Evaluation>, n: nat)
    requires n < |run|
    ensures var e, moves := run[n], Moves(run, run[n].client, n);
      Said(run, n) == Some(SpeedHack)
      <==> e.payload.position.Some? && moves != []
           && TooFast(moves[|moves| - 1], e.payload.position.value, e.at)
    ensures var e, kept := run[n], Kept(run, run[n].client, n);
      Said(run, n) == Some(MacroBotPattern)
      <==> Said(run, n) != Some(SpeedHack) && Repeats(Last(kept, 5), e.payload.signature, e.at)
  {
    hide StateAfter, Moves, Remembered, Own, TooFast, Repeats, Verdict, Kept;
    VerdictIsHistory(run, n);
    KeptIsOwn(run, run[n].client, n);
  }

  lemma {:induction false} TooFastWrittenOut(last: Stamped<Spot>, to: Spot, now: real)
    ensures var elapsed, dx, dy := now - last.at, to.x - last.item.x, to.y - last.item.y;
      TooFast(last, to, now)
      <==> elapsed >= 0.02 && dx * dx + dy * dy > (15.0 * elapsed) * (15.0 * elapsed)
  {
  }

  lemma {:induction false} RepeatsOfLast(kept: seq<Stamped<string>>, signature: string, now: real)
    ensures Repeats(Last(kept, 5), signature, now)
       <==> exists i :: 0 <= i < |kept| && i >= |kept| - 5
              && kept[i].item == signature && now - kept[i].at < 0.05
  {
    var last := Last(kept, 5);
    var d := |kept| - |last|;
    forall i | 0 <= i < |last| ensures last[i] == kept[d + i] {
    }
    forall i | 0 <= i < |kept| && i >= |kept| - 5 ensures kept[i] == last[i - d] {
    }
  }

  /** Written out: a speed hack is a move at least 0.02 seconds after the client's previous one, further
      away than 15 units per second; a macro is any other evaluation that repeats the signature of one of
      the client's last five kept ones less than 0.05 seconds later.  Nothing else is flagged. */
  lemma {:induction false} SaidWrittenOut(run: seq<Evaluation>, n: nat)
    requires n < |run|
    ensures var e, moves := run[n], Moves(run, run[n].client, n);
      Said(run, n) == Some(SpeedHack)
      <==> e.payload.position.Some? && moves != []
           && var last, to := moves[|moves| - 1], e.payload.position.value;
              var elapsed, dx, dy := e.at - last.at, to.x - last.item.x, to.y - last.item.y;
              elapsed >= 0.02 && dx * dx + dy * dy > (15.0 * elapsed) * (15.0 * elapsed)
    ensures var e, kept := run[n], Kept(run, run[n].client, n);
      Said(run, n) == Some(MacroBotPattern)
      <==> Said(run, n) != Some(SpeedHack)
           && exists i :: 0 <= i < |kept| && i >= |kept| - 5
                && kept[i].item == e.payload.signature && e.at - kept[i].at < 0.05
  {
    hide StateAfter, Moves, Kept, TooFast, Said;
    var e, moves, kept := run[n], Moves(run, run[n].client, n), Kept(run, run[n].client, n);
    SaidByHistory(run, n);
    if e.payload.position.Some? && moves != [] {
      TooFastWrittenOut(moves[|moves| - 1], e.payload.position.value, e.at);
    }
    RepeatsOfLast(kept, e.payload.signature, e.at);
    hide Repeats;
  }

  // ----- how far a client can get -----

  predicate IsMove(run: seq<Evaluation>, client: string, p: nat)
    requires p < |run|
  {
    run[p].client == client && run[p].payload.position.Some?
  }

  function SpotAt(run: seq<Evaluation>, p: nat): Spot
    requires p < |run| && run[p].payload.position.Some?
  {
    run[p].payload.position.value
  }

  predicate Flagged(run: seq<Evaluation>, p: nat)
    requires p < |run|
  {
    Verdict(StateAfter(run, p), run[p].client, run[p].payload, run[p].at) == Some(SpeedHack)
  }

  /** The move p was far enough in time from its client's previous one to be judged, and was not flagged. */
  predicate Passed(run: seq<Evaluation>, p: nat)
    requires p < |run|
  {
    var positions := StateAfter(run, p).positions;
    run[p].client in positions && Checked(positions[run[p].client], run[p].at) && !Flagged(run, p)
  }

  /** After evaluation a, the detector knows a position of its client that is a move's. */
  lemma {:induction false} StaysKnown(run: seq<Evaluation>, client: string, a: nat, n: nat)
    requires a < n <= |run| && IsMove(run, client, a)
    ensures client in StateAfter(run, n).positions
    decreases n - a
  {
    hide SpeedFlag;
    if a + 1 < n {
      StaysKnown(run, client, a, n - 1);
    }
  }

  /** The length that one move is charged with. */
  function Charge(run: seq<Evaluation>, client: string, length: real, p: nat): real
    requires p < |run| && client in StateAfter(run, p).positions
  {
    if !IsMove(run, client, p) then 0.0
    else if Passed(run, p) then MAX_SPEED * (run[p].at - StateAfter(run, p).positions[client].at)
    else length
  }

  /** What the moves of `client` among the evaluations a + 1 .. n - 1 may cover: 15 units per second of the
      steps that passed, and a given length for each of the others. */
  function Budget(run: seq<Evaluation>, client: string, lengths: seq<real>, a: nat, n: nat): real
    requires a < n <= |run| == |lengths| && IsMove(run, client, a)
    decreases n - a
  {
    if a + 1 == n then 0.0
    else
      StaysKnown(run, client, a, n - 1);
      Budget(run, client, lengths, a, n - 1) + Charge(run, client, lengths[n - 1], n - 1)
  }

  lemma {:induction false} PositionStep(run: seq<Evaluation>, client: string, p: nat)
    requires p < |run|
    ensures var positions, positions' := StateAfter(run, p).positions, StateAfter(run, p + 1).positions;
      if IsMove(run, client, p) then client in positions' && positions'[client] == Stamped(run[p].at, SpotAt(run, p))
      else
        && (client in positions' <==> client in positions)
        && (client in positions ==> positions'[client] == positions[client])
  {
    hide SpeedFlag;
  }

  predicate Charged(run: seq<Evaluation>, client: string, length: real, p: nat)
    requires p < |run|
  {
    IsMove(run, client, p) && !Passed(run, p) ==>
      client in StateAfter(run, p).positions && Within(StateAfter(run, p).positions[client].item, SpotAt(run, p),
                                                       length)
  }

  lemma {:induction false} OneMoreMove(run: seq<Evaluation>, client: string, p: nat, from: Spot, budget: real,
                                       length: real)
    requires p < |run| && client in StateAfter(run, p).positions && Charged(run, client, length, p)
    requires Within(from, StateAfter(run, p).positions[client].item, budget)
    ensures client in StateAfter(run, p + 1).positions
    ensures Within(from, StateAfter(run, p + 1).positions[client].item, budget + Charge(run, client, length, p))
  {
    PositionStep(run, client, p);
    hide StateAfter, Passed, Within, Checked;
    if IsMove(run, client, p) {
      Triangle(from, StateAfter(run, p).positions[client].item, SpotAt(run, p), budget, Charge(run, client, length, p));
    }
  }

  /** What the detector knows of a client is at most its budget away from any earlier move, when each
      flagged or unchecked step is charged (at least) its own length. */
  lemma {:induction false} StoredWithinBudget(run: seq<Evaluation>, client: string, lengths: seq<real>, a: nat, n: nat)
    requires a < n <= |run| == |lengths| && IsMove(run, client, a)
    requires forall p :: a < p < n ==> Charged(run, client, lengths[p], p)
    ensures client in StateAfter(run, n).positions
    ensures Within(SpotAt(run, a), StateAfter(run, n).positions[client].item, Budget(run, client, lengths, a, n))
    decreases n - a
  {
    if a + 1 == n {
      PositionStep(run, client, a);
      SquareSign(0.0);
    } else {
      hide StateAfter, Within, Charge, Charged;
      StoredWithinBudget(run, client, lengths, a, n - 1);
      OneMoreMove(run, client, n - 1, SpotAt(run, a), Budget(run, client, lengths, a, n - 1), lengths[n - 1]);
    }
  }

  /** Telescoping, in every run of all clients: from its move a to its move b a client is at most its
      budget away. */
  lemma {:induction false} DisplacementWithinBudget(run: seq<Evaluation>, client: string, lengths: seq<real>, a: nat,
                                                    b: nat)
    requires a < b < |run| == |lengths| && IsMove(run, client, a) && IsMove(run, client, b)
    requires forall p :: a < p <= b ==> Charged(run, client, lengths[p], p)
    ensures Within(SpotAt(run, a), SpotAt(run, b), Budget(run, client, lengths, a, b + 1))
  {
    StoredWithinBudget(run, client, lengths, a, b + 1);
    PositionStep(run, client, b);
  }

  lemma {:induction false} BudgetTelescopes(run: seq<Evaluation>, client: string, lengths: seq<real>, a: nat, n: nat)
    requires a < n <= |run| == |lengths| && IsMove(run, client, a)
    requires forall p :: a < p < n && IsMove(run, client, p) ==> Passed(run, p)
    ensures client in StateAfter(run, n).positions
    ensures Budget(run, client, lengths, a, n) == MAX_SPEED * (StateAfter(run, n).positions[client].at - run[a].at)
    decreases n - a
  {
    PositionStep(run, client, n - 1);
    if a + 1 < n {
      BudgetTelescopes(run, client, lengths, a, n - 1);
      hide StateAfter, Passed;
    }
  }

  /** The speed limit, in every run of all clients: between two moves of a client with every step in
      between checked and none flagged, it was never faster than 15 units per second of its own clock. */
  lemma {:induction false} SpeedLimit(run: seq<Evaluation>, client: string, a: nat, b: nat)
    requires a <= b < |run| && IsMove(run, client, a) && IsMove(run, client, b)
    requires forall p :: a < p <= b && IsMove(run, client, p) ==> Passed(run, p)
    ensures Within(SpotAt(run, a), SpotAt(run, b), MAX_SPEED * (run[b].at - run[a].at))
  {
    if a < b {
      var none := seq(|run|, _ => 0.0);
      hide Passed;
      DisplacementWithinBudget(run, client, none, a, b);
      BudgetTelescopes(run, client, none, a, b + 1);
      PositionStep(run, client, b);
    } else {
      SquareSign(0.0);
    }
  }
}
