/** What gets past the replay guard, over HTTP, WebSocket and UDP together: each stamp once, and only
    that reaches the cheat detector. */
module PacketRuns {
  import opened TimedStore
  import opened Keys
  import opened Events
  import opened SharedStore
  import opened PacketGateways
  import RG = ReplayGuard
  import RP = ReplayProtocol
  import CD = CheatDetector
  import PerClient
  import SynFlood
  import AF = AnomalyFeatures

  // ----- at most once, for any sequence of guard calls -----

  predicate Timed(ops: seq<Op>) {
    forall i, j :: 0 <= i < j < |ops| ==> ops[i].at <= ops[j].at
  }

  /** A validation runs its SET NX at most `delay` after it read the clock. */
  predicate Prompt(op: Op, delay: real) {
    op.ValidateOp? ==> op.now <= op.at <= op.now + delay
  }

  function StampOf(op: Op): RP.Stamp
    requires op.ValidateOp?
  {
    RP.Stamp(op.client, op.nonce, op.timestamp)
  }

  predicate AcceptsAt(ops: seq<Op>, cfg: Config, n: nat)
    requires n < |ops|
  {
    ops[n].ValidateOp? && Reply(Run(ops, cfg, n), cfg, ops[n]) == Validated(RG.Accepted)
  }

  predicate Kept(db: Keyspace, key: string, until: real) {
    key in db && db[key].expiry.Some? && until <= db[key].expiry.value
  }

  lemma {:induction false} KeptStep(db: Keyspace, cfg: Config, op: Op, client: string, nonce: string, until: real)
    requires Kept(db, NonceKey(client, nonce), until) && until <= op.at + cfg.replay.nonceTtl
    ensures Kept(Apply(db, cfg, op), NonceKey(client, nonce), until)
  {
    if !op.ValidateOp? {
      FamiliesDisjoint(op.ip, op.ip, op.ip, client, nonce);
    }
  }

  /** A nonce key stays for its whole TTL, whatever else the guards do. */
  lemma {:induction false} KeptUntil(ops: seq<Op>, cfg: Config, i: nat, n: nat)
    requires i < n <= |ops| && Timed(ops) && AcceptsAt(ops, cfg, i)
    ensures Kept(Run(ops, cfg, n), NonceKey(ops[i].client, ops[i].nonce), ops[i].at + cfg.replay.nonceTtl)
    decreases n - i
  {
    RunNext(ops, cfg, n - 1);
    if i + 1 < n {
      KeptUntil(ops, cfg, i, n - 1);
      KeptStep(Run(ops, cfg, n - 1), cfg, ops[n - 1], ops[i].client, ops[i].nonce, ops[i].at + cfg.replay.nonceTtl);
    }
  }

  /** No two calls accept the same stamp, with any limiter and blacklist calls in between. */
  lemma {:induction false} AcceptedOnce(ops: seq<Op>, cfg: Config, delay: real, i: nat, j: nat)
    requires i < j < |ops| && Timed(ops) && Prompt(ops[i], delay) && Prompt(ops[j], delay)
    requires cfg.replay.nonceTtl >= 2.0 * cfg.replay.window + delay
    requires AcceptsAt(ops, cfg, i) && AcceptsAt(ops, cfg, j)
    ensures StampOf(ops[i]) != StampOf(ops[j])
  {
    KeptUntil(ops, cfg, i, j);
  }

  // ----- packets as guard calls -----

  /** The operation that a step runs on the store, if it gets that far. */
  function OpOf(w: World, setup: Setup, step: Step): seq<Op> {
    match step
    case Elsewhere(op, _) => [op]
    case UdpPacket(m) =>
      if m.packet.None? || Floods(Register(w, setup, m, m.packet.value), setup, m.ip) then [] else [CheckOf(m)]
    case WsMessage(m) =>
      if m.packet.None? then [] else [CheckOf(m)]
  }

  function CheckOf(m: Message): Op
    requires m.packet.Some?
  {
    ValidateOp(m.packet.value.client, m.packet.value.nonce, m.packet.value.timestamp, m.at, m.at)
  }

  lemma {:induction false} StepStore(w: World, setup: Setup, step: Step)
    ensures var ops := OpOf(w, setup, step);
      Next(w, setup, step).db == if ops == [] then w.db else Apply(w.db, setup.cfg, ops[0])
  {
    hide Floods, Outlier, CD.Verdict, CD.Next, RG.JudgeStore, RG.Judge;
  }

  /** The guard calls of the first `n` steps. */
  function OpsOf(run: seq<Step>, setup: Setup, n: nat): seq<Op>
    requires n <= |run|
  {
    if n == 0 then [] else OpsOf(run, setup, n - 1) + OpOf(StateAfter(run, setup, n - 1), setup, run[n - 1])
  }

  lemma {:induction false} AtMostOneOp(w: World, setup: Setup, step: Step)
    ensures var ops := OpOf(w, setup, step);
      |ops| <= 1 && forall k :: 0 <= k < |ops| ==> ops[k].at == TimeOf(step)
  {
  }

  /** Both gateways and everything else together are one run of the shared store. */
  lemma {:induction false} StoreIsRun(run: seq<Step>, setup: Setup, n: nat)
    requires n <= |run|
    ensures StateAfter(run, setup, n).db == RunFrom(map[], setup.cfg, OpsOf(run, setup, n))
  {
    hide Next, OpOf, Apply;
    if n > 0 {
      StoreIsRun(run, setup, n - 1);
      var w := StateAfter(run, setup, n - 1);
      StepStore(w, setup, run[n - 1]);
      AtMostOneOp(w, setup, run[n - 1]);
      RunFromConcat(map[], setup.cfg, OpsOf(run, setup, n - 1), OpOf(w, setup, run[n - 1]));
    }
  }

  lemma {:induction false} OpsGrow(run: seq<Step>, setup: Setup, a: nat, b: nat)
    requires a <= b <= |run|
    ensures OpsOf(run, setup, a) <= OpsOf(run, setup, b)
    decreases b - a
  {
    hide OpOf, StateAfter;
    if a < b {
      OpsGrow(run, setup, a, b - 1);
    }
  }

  lemma {:induction false} OpsAreTimed(run: seq<Step>, setup: Setup, n: nat, upTo: real)
    requires n <= |run| && InOrder(run)
    requires n > 0 ==> TimeOf(run[n - 1]) <= upTo
    ensures Timed(OpsOf(run, setup, n))
    ensures forall k :: 0 <= k < |OpsOf(run, setup, n)| ==> OpsOf(run, setup, n)[k].at <= upTo
  {
    hide OpOf, StateAfter;
    if n > 0 {
      OpsAreTimed(run, setup, n - 1, TimeOf(run[n - 1]));
      AtMostOneOp(StateAfter(run, setup, n - 1), setup, run[n - 1]);
    }
  }

  /** The step asks the replay guard, and is accepted. */
  predicate AcceptsIn(w: World, setup: Setup, step: Step) {
    var ops := OpOf(w, setup, step);
    ops != [] && ops[0].ValidateOp? && Reply(w.db, setup.cfg, ops[0]) == Validated(RG.Accepted)
  }

  predicate Accepts(run: seq<Step>, setup: Setup, n: nat)
    requires n < |run|
  {
    AcceptsIn(StateAfter(run, setup, n), setup, run[n])
  }

  function StampAt(run: seq<Step>, setup: Setup, n: nat): RP.Stamp
    requires n < |run| && Accepts(run, setup, n)
  {
    StampOf(OpOf(StateAfter(run, setup, n), setup, run[n])[0])
  }

  lemma {:induction false} AcceptsInOps(run: seq<Step>, setup: Setup, n: nat, end: nat)
    requires n < end <= |run| && Accepts(run, setup, n)
    ensures var k, ops := |OpsOf(run, setup, n)|, OpsOf(run, setup, end);
      && k < |OpsOf(run, setup, n + 1)| <= |ops| && [ops[k]] == OpOf(StateAfter(run, setup, n), setup, run[n])
      && AcceptsAt(ops, setup.cfg, k)
  {
    hide OpOf, StateAfter, RunFrom, Reply;
    var before, ops := OpsOf(run, setup, n), OpsOf(run, setup, end);
    OpsGrow(run, setup, n, end);
    OpsGrow(run, setup, n + 1, end);
    AtMostOneOp(StateAfter(run, setup, n), setup, run[n]);
    StoreIsRun(run, setup, n);
    assert ops[..|before|] == before;
  }

  lemma {:induction false} OpIsPrompt(w: World, setup: Setup, step: Step, delay: real)
    requires delay >= 0.0 && (step.Elsewhere? ==> Prompt(step.op, delay))
    ensures OpOf(w, setup, step) != [] ==> Prompt(OpOf(w, setup, step)[0], delay)
  {
  }

  lemma {:induction false} AcceptedOp(run: seq<Step>, setup: Setup, delay: real, n: nat)
    requires n < |run| && delay >= 0.0 && (run[n].Elsewhere? ==> Prompt(run[n].op, delay))
    requires Accepts(run, setup, n)
    ensures var k, ops := |OpsOf(run, setup, n)|, OpsOf(run, setup, |run|);
      && k < |OpsOf(run, setup, n + 1)| <= |ops| && AcceptsAt(ops, setup.cfg, k)
      && Prompt(ops[k], delay) && StampOf(ops[k]) == StampAt(run, setup, n)
  {
    hide StateAfter, OpsOf, OpOf, Prompt, Reply, Run;
    AcceptsInOps(run, setup, n, |run|);
    OpIsPrompt(StateAfter(run, setup, n), setup, run[n], delay);
  }

  /** Across all transports: no two steps of a run get the same stamp past the replay guard. */
  lemma {:induction false} OnceAcrossTransports(run: seq<Step>, setup: Setup, delay: real, i: nat, j: nat)
    requires i < j < |run| && InOrder(run) && delay >= 0.0
    requires forall n :: 0 <= n < |run| && run[n].Elsewhere? ==> Prompt(run[n].op, delay)
    requires setup.cfg.replay.nonceTtl >= 2.0 * setup.cfg.replay.window + delay
    requires Accepts(run, setup, i) && Accepts(run, setup, j)
    ensures StampAt(run, setup, i) != StampAt(run, setup, j)
  {
    hide OpsOf, AcceptsAt, InOrder, Timed, Prompt, Accepts, StampAt;
    AcceptedOp(run, setup, delay, i);
    AcceptedOp(run, setup, delay, j);
    OpsGrow(run, setup, i + 1, j);
    OpsAreTimed(run, setup, |run|, TimeOf(run[|run| - 1]));
    AcceptedOnce(OpsOf(run, setup, |run|), setup.cfg, delay, |OpsOf(run, setup, i)|, |OpsOf(run, setup, j)|);
  }

  // ----- what reaches the later guards -----

  /** The event of a packet says whether it got past the replay guard. */
  lemma {:induction false} EventTellsAccepted(run: seq<Step>, setup: Setup, n: nat)
    requires n < |run| && !run[n].Elsewhere?
    ensures var events := StateAfter(run, setup, n + 1).events;
      events != [] && (Accepts(run, setup, n) <==>
          events[|events| - 1].action in {Allowed, AnomalyBlocked, CheatDetected})
  {
    hide Floods, Outlier, CD.Verdict, CD.Next, RG.JudgeStore, RG.Judge, PerClient.After, SynFlood.EvictingPush,
        AF.Ring50;
  }

  /** The evaluations of the first `n` steps: the WebSocket messages that the replay guard accepted. */
  function Evaluated(run: seq<Step>, setup: Setup, n: nat): seq<CD.Evaluation>
    requires n <= |run|
  {
    if n == 0 then [] else Evaluated(run, setup, n - 1) + EvaluationOf(run, setup, n - 1)
  }

  function EvaluationOf(run: seq<Step>, setup: Setup, n: nat): seq<CD.Evaluation>
    requires n < |run|
  {
    if run[n].WsMessage? && run[n].m.packet.Some? && Accepts(run, setup, n)
    then [CD.Evaluation(run[n].m.packet.value.client, run[n].m.packet.value.payload, run[n].m.packet.value.timestamp)]
        else []
  }

  lemma {:induction false} StepCheats(run: seq<Step>, setup: Setup, n: nat)
    requires n < |run|
    ensures var cheats, e := StateAfter(run, setup, n).cheats, EvaluationOf(run, setup, n);
      && |e| <= 1
      && StateAfter(run, setup, n + 1).cheats
         == if e == [] then cheats else CD.Next(cheats, e[0].client, e[0].payload, e[0].at)
  {
    hide Floods, Outlier, CD.Verdict, CD.Next, RG.JudgeStore, RG.Judge, PerClient.After, SynFlood.EvictingPush,
        AF.Ring50;
  }

  lemma {:induction false} CheatsPrefix(short: seq<CD.Evaluation>, long: seq<CD.Evaluation>, n: nat)
    requires short <= long && n <= |short|
    ensures CD.StateAfter(short, n) == CD.StateAfter(long, n)
  {
    if n > 0 {
      CheatsPrefix(short, long, n - 1);
    }
  }

  lemma {:induction false} MoreEvaluated(before: seq<CD.Evaluation>, e: seq<CD.Evaluation>)
    requires |e| <= 1
    ensures var cheats := CD.StateAfter(before, |before|);
      CD.StateAfter(before + e, |before + e|)
      == if e == [] then cheats else CD.Next(cheats, e[0].client, e[0].payload, e[0].at)
  {
    hide CD.Next;
    CheatsPrefix(before, before + e, |before|);
  }

  /** The cheat detector's memory is made of accepted WebSocket messages only: replayed, stale and
      unreadable ones, and all other traffic, leave no trace in it. */
  lemma {:induction false} CheatsSeeAcceptedOnly(run: seq<Step>, setup: Setup, n: nat)
    requires n <= |run|
    ensures StateAfter(run, setup, n).cheats == CD.StateAfter(Evaluated(run, setup, n), |Evaluated(run, setup, n)|)
  {
    hide Next, CD.Next, EvaluationOf;
    if n > 0 {
      CheatsSeeAcceptedOnly(run, setup, n - 1);
      StepCheats(run, setup, n - 1);
      hide StateAfter;
      MoreEvaluated(Evaluated(run, setup, n - 1), EvaluationOf(run, setup, n - 1));
    }
  }

  /** A packet that replays another one's stamp is rate limited or blocked as a replay, whichever of the
      two transports either of them used. */
  lemma {:induction false} ReplayIsRefused(run: seq<Step>, setup: Setup, delay: real, i: nat, j: nat)
    requires i < j < |run| && InOrder(run) && delay >= 0.0
    requires forall n :: 0 <= n < |run| && run[n].Elsewhere? ==> Prompt(run[n].op, delay)
    requires setup.cfg.replay.nonceTtl >= 2.0 * setup.cfg.replay.window + delay
    requires !run[i].Elsewhere? && !run[j].Elsewhere? && run[i].m.packet.Some? && run[j].m.packet.Some?
    requires StampOf(CheckOf(run[i].m)) == StampOf(CheckOf(run[j].m))
    requires StateAfter(run, setup, i + 1).events != []
    requires var before := StateAfter(run, setup, i + 1).events;
      before[|before| - 1].action in {Allowed, AnomalyBlocked, CheatDetected}
    ensures var events := StateAfter(run, setup, j + 1).events;
      events != [] && events[|events| - 1].action in {RateLimited, ReplayBlocked}
  {
    EventTellsAccepted(run, setup, i);
    EventTellsAccepted(run, setup, j);
    hide Next, InOrder, Prompt, Reply, Floods;
    if Accepts(run, setup, j) {
      hide StateAfter;
      OnceAcrossTransports(run, setup, delay, i, j);
    }
  }

}
