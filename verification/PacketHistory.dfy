/** What becomes of each packet, as a property of everything that came before it. */
module PacketHistory {
  import opened TimedStore
  import opened Keys
  import opened Events
  import opened SlidingWindow
  import opened Rings
  import opened SharedStore
  import opened PacketGateways
  import opened PacketRuns
  import PerClient
  import SynFlood
  import RG = ReplayGuard
  import CD = CheatDetector
  import AF = AnomalyFeatures

  // ----- the replay guard's memory -----

  /** An earlier step was accepted under this nonce key, at most one TTL before `at`. */
  predicate UsedBefore(run: seq<Step>, setup: Setup, n: nat, key: string, at: real)
    requires n <= |run|
  {
    exists i :: 0 <= i < n && Accepts(run, setup, i)
        && NonceKey(StampAt(run, setup, i).client, StampAt(run, setup, i).nonce) == key
             && at <= TimeOf(run[i]) + setup.cfg.replay.nonceTtl
  }

  predicate AcceptsKey(w: World, setup: Setup, step: Step, key: string) {
    AcceptsIn(w, setup, step)
    && var op := OpOf(w, setup, step)[0];
       NonceKey(op.client, op.nonce) == key
  }

  /** A step changes a nonce key only by an acceptance under it, which keeps it for one TTL. */
  lemma {:induction false} KeyStep(w: World, setup: Setup, step: Step, client: string, nonce: string, at: real)
    ensures var key := NonceKey(client, nonce);
      Exists(Next(w, setup, step).db, key, at)
      <==> if AcceptsKey(w, setup, step, key) then at <= TimeOf(step) + setup.cfg.replay.nonceTtl
          else Exists(w.db, key, at)
  {
    StepStore(w, setup, step);
    AtMostOneOp(w, setup, step);
    var ops := OpOf(w, setup, step);
    hide Next, OpOf;
    if ops != [] && !ops[0].ValidateOp? {
      FamiliesDisjoint(ops[0].ip, ops[0].ip, ops[0].ip, client, nonce);
    }
  }

  lemma {:induction false} UsedOneMore(run: seq<Step>, setup: Setup, n: nat, key: string, at: real)
    requires n < |run|
    ensures UsedBefore(run, setup, n + 1, key, at)
       <==> UsedBefore(run, setup, n, key, at)
            || (AcceptsKey(StateAfter(run, setup, n), setup, run[n], key)
                && at <= TimeOf(run[n]) + setup.cfg.replay.nonceTtl)
  {
    hide StateAfter, OpOf, Reply, NonceKey;
    if AcceptsKey(StateAfter(run, setup, n), setup, run[n], key) && at <= TimeOf(run[n]) + setup.cfg.replay.nonceTtl {
      assert Accepts(run, setup, n);
    }
  }

  lemma {:induction false} UsedIsRecent(run: seq<Step>, setup: Setup, n: nat, key: string, at: real)
    requires n < |run| && InOrder(run) && UsedBefore(run, setup, n, key, at)
    ensures at <= TimeOf(run[n]) + setup.cfg.replay.nonceTtl
  {
  }

  /** A nonce key is live exactly when an acceptance under it is at most one TTL old. */
  lemma {:induction false} MemoryIsHistory(run: seq<Step>, setup: Setup, n: nat, client: string, nonce: string,
                                           at: real)
    requires n <= |run| && InOrder(run)
    ensures Exists(StateAfter(run, setup, n).db, NonceKey(client, nonce), at) <==>
      UsedBefore(run, setup, n, NonceKey(client, nonce), at)
  {
    hide Next, AcceptsKey, UsedBefore, NonceKey;
    if n == 0 {
      NeverUsed(run, setup, NonceKey(client, nonce), at);
    } else {
      MemoryIsHistory(run, setup, n - 1, client, nonce, at);
      KeyStep(StateAfter(run, setup, n - 1), setup, run[n - 1], client, nonce, at);
      UsedOneMore(run, setup, n - 1, NonceKey(client, nonce), at);
      if UsedBefore(run, setup, n - 1, NonceKey(client, nonce), at) {
        UsedIsRecent(run, setup, n - 1, NonceKey(client, nonce), at);
      }
    }
  }

  lemma {:induction false} NeverUsed(run: seq<Step>, setup: Setup, key: string, at: real)
    ensures !UsedBefore(run, setup, 0, key, at)
  {
  }

  /** In its window, and its nonce key was not accepted within the last TTL. */
  predicate Fresh(run: seq<Step>, setup: Setup, n: nat)
    requires n < |run| && !run[n].Elsewhere? && run[n].m.packet.Some?
  {
    var m, p := run[n].m, run[n].m.packet.value;
    RG.InWindow(setup.cfg.replay, p.timestamp, m.at) && !UsedBefore(run, setup, n, NonceKey(p.client, p.nonce), m.at)
  }

  lemma {:induction false} AcceptsIsFresh(run: seq<Step>, setup: Setup, n: nat)
    requires n < |run| && InOrder(run) && !run[n].Elsewhere? && run[n].m.packet.Some?
    ensures Accepts(run, setup, n) <==> !FloodsIn(StateAfter(run, setup, n), setup, run[n]) && Fresh(run, setup, n)
  {
    var m, p := run[n].m, run[n].m.packet.value;
    MemoryIsHistory(run, setup, n, p.client, p.nonce, m.at);
    hide StateAfter, UsedBefore, InOrder, Floods, Register, NonceKey, Exists;
  }

  // ----- the detectors -----

  /** The cheat detector's verdict on step n, from what it saw before. */
  predicate Cheats(run: seq<Step>, setup: Setup, n: nat)
    requires n < |run|
  {
    var e := EvaluationOf(run, setup, n);
    e != [] && CD.Verdict(CD.StateAfter(Evaluated(run, setup, n), |Evaluated(run, setup, n)|), e[0].client,
                          e[0].payload, e[0].at).Some?
  }

  /** What the anomaly detector saw in the first `n` steps: the packets that were accepted and did not
      cheat, and the HTTP requests that came to it. */
  function Scored(run: seq<Step>, setup: Setup, n: nat): seq<PerClient.Arrival<AF.Hit>>
    requires n <= |run|
  {
    if n == 0 then [] else Scored(run, setup, n - 1) + ScoreOf(run, setup, n - 1)
  }

  function ScoreOf(run: seq<Step>, setup: Setup, n: nat): seq<PerClient.Arrival<AF.Hit>>
    requires n < |run|
  {
    if run[n].Elsewhere? then (if run[n].hit.Some? then [run[n].hit.value] else [])
    else if run[n].m.packet.Some? && Accepts(run, setup, n) && !Cheats(run, setup, n) then
      [PerClient.Arrival(run[n].m.ip, Stamped(run[n].m.at, AF.Hit(run[n].m.packet.value.action, run[n].m.size)))]
    else []
  }

  predicate CheatsIn(w: World, setup: Setup, step: Step) {
    step.WsMessage? && step.m.packet.Some? && AcceptsIn(w, setup, step)
    && CD.Verdict(w.cheats, step.m.packet.value.client, step.m.packet.value.payload,
                  step.m.packet.value.timestamp).Some?
  }

  lemma {:induction false} CheatsIsCheatsIn(run: seq<Step>, setup: Setup, n: nat)
    requires n < |run|
    ensures Cheats(run, setup, n) <==> CheatsIn(StateAfter(run, setup, n), setup, run[n])
  {
    CheatsSeeAcceptedOnly(run, setup, n);
    hide AcceptsIn, CD.Verdict, CD.StateAfter, StateAfter, Evaluated;
  }

  /** How a readable packet is judged: the first of these that holds decides. */
  function Judgement(floods: bool, accepted: bool, cheats: bool, anomalous: bool): ActionType {
    if floods then RateLimited
    else if !accepted then ReplayBlocked
    else if cheats then CheatDetected
    else if anomalous then AnomalyBlocked
    else Allowed
  }

  predicate FloodsIn(w: World, setup: Setup, step: Step) {
    step.UdpPacket? && step.m.packet.Some? && Floods(Register(w, setup, step.m, step.m.packet.value), setup, step.m.ip)
  }

  /** One readable packet: what it leaves in the history, and its event. */
  lemma {:induction false} PacketOutcome(w: World, setup: Setup, step: Step)
    requires !step.Elsewhere? && step.m.packet.Some?
    ensures var w', m := Next(w, setup, step), step.m;
      && w'.history == (if AcceptsIn(w, setup, step) && !CheatsIn(w, setup, step)
          then Score(w, m, m.packet.value).history else w.history)
      && w'.events != []
      && w'.events[|w'.events| - 1].action
         == Judgement(FloodsIn(w, setup, step), AcceptsIn(w, setup, step), CheatsIn(w, setup, step),
                      Outlier(w', setup, m))
  {
    hide Floods, CD.Verdict, CD.Next, RG.JudgeStore, RG.Judge, PerClient.After, SynFlood.EvictingPush;
    hide AF.Ring50, AF.FeaturesOf, PerClient.QueueOf;
  }

  lemma {:induction false} StepHistory(run: seq<Step>, setup: Setup, n: nat)
    requires n < |run|
    ensures var history, x := StateAfter(run, setup, n).history, ScoreOf(run, setup, n);
      && |x| <= 1
      && StateAfter(run, setup, n + 1).history
         == if x == [] then history else PerClient.After(history, AF.Ring50(), x[0])
  {
    CheatsIsCheatsIn(run, setup, n);
    if !run[n].Elsewhere? && run[n].m.packet.Some? {
      PacketOutcome(StateAfter(run, setup, n), setup, run[n]);
      hide Next, AcceptsIn, Cheats, CheatsIn, PerClient.After, AF.Ring50;
    } else {
      hide AcceptsIn, Cheats, CheatsIn, PerClient.After, AF.Ring50, Apply;
    }
  }

  lemma {:induction false} HistoryIsScored(run: seq<Step>, setup: Setup, n: nat)
    requires n <= |run|
    ensures StateAfter(run, setup, n).history
         == PerClient.StateAfter(Scored(run, setup, n), AF.Ring50(), |Scored(run, setup, n)|)
  {
    hide Next, PerClient.After, AF.Ring50, ScoreOf;
    if n > 0 {
      HistoryIsScored(run, setup, n - 1);
      StepHistory(run, setup, n - 1);
      hide StateAfter;
      PerClient.StateOneMore(Scored(run, setup, n - 1), ScoreOf(run, setup, n - 1), AF.Ring50());
    }
  }

  /** The model's verdict on step n, on the features of the last 50 events of its ip that got scored. */
  predicate LooksAnomalous(run: seq<Step>, setup: Setup, n: nat)
    requires n < |run| && !run[n].Elsewhere?
  {
    var all := Scored(run, setup, n + 1);
    setup.outlier(AF.FeaturesOf(Last(PerClient.Own(all, run[n].m.ip, |all|), AF.RING), run[n].m.at, run[n].m.size))
  }

  lemma {:induction false} OutlierIsHistory(run: seq<Step>, setup: Setup, n: nat)
    requires n < |run| && !run[n].Elsewhere?
    ensures Outlier(StateAfter(run, setup, n + 1), setup, run[n].m) <==> LooksAnomalous(run, setup, n)
  {
    var all := Scored(run, setup, n + 1);
    var own := PerClient.Own(all, run[n].m.ip, |all|);
    HistoryIsScored(run, setup, n + 1);
    PerClient.QueuesAreSeparate(all, AF.Ring50(), run[n].m.ip, |all|);
    FoldIsLast(own, AF.Ring50(), AF.RING, |own|);
    assert own[..|own|] == own;
    hide StateAfter, Scored, PerClient.StateAfter, PerClient.Own, AF.FeaturesOf;
  }

  // ----- all together -----

  ghost predicate ManySessions(run: seq<Step>, setup: Setup, n: nat)
    requires n < |run| && !run[n].Elsewhere?
  {
    var m, attempts := run[n].m, Attempts(run, n + 1);
    run[n].UdpPacket?
    && |SynFlood.NaiveSessions(attempts, m.ip, setup.floodWindow, |attempts|, m.at)| > setup.maxSessions
  }

  lemma {:induction false} FloodsIsManySessions(run: seq<Step>, setup: Setup, n: nat)
    requires n < |run| && InOrder(run) && !run[n].Elsewhere? && run[n].m.packet.Some?
    ensures FloodsIn(StateAfter(run, setup, n), setup, run[n]) <==> ManySessions(run, setup, n)
  {
    if run[n].UdpPacket? {
      FloodIsHistory(run, setup, n);
    }
    hide StateAfter, InOrder, Attempts, SynFlood.NaiveSessions, Floods, Register;
  }

  lemma {:induction false} UdpFields(w: World, setup: Setup, m: Message) returns (action: ActionType)
    ensures HandleUdp(w, setup, m).events
         == w.events + [Report(Udp, m.ip, if m.packet.Some? then m.packet.value.action else "malformed",
                               if m.packet.Some? then m.size else 0, action)]
    ensures m.packet.None? ==> action == AuthFailed
  {
    hide Register, Floods, Validate, Verdict, Score, Outlier;
    RegisterKeepsEvents(w, setup, m);
    var events := HandleUdp(w, setup, m).events;
    action := events[|events| - 1].action;
  }

  lemma {:induction false} RegisterKeepsEvents(w: World, setup: Setup, m: Message)
    ensures forall p :: Register(w, setup, m, p).events == w.events
    ensures forall v, p :: Validate(v, setup, m, p).events == v.events && Score(v, m, p).events == v.events
  {
    hide PerClient.After, SynFlood.EvictingPush, RG.JudgeStore, AF.Ring50;
  }

  lemma {:induction false} WsFields(w: World, setup: Setup, m: Message) returns (action: ActionType)
    ensures HandleWs(w, setup, m).events
         == w.events + [Report(WebSocket, m.ip, if m.packet.Some? then m.packet.value.action else "malformed",
                               m.size, action)]
    ensures m.packet.None? ==> action == AuthFailed
  {
    hide Register, Validate, Verdict, Score, Outlier, CD.Verdict, CD.Next;
    RegisterKeepsEvents(w, setup, m);
    var events := HandleWs(w, setup, m).events;
    action := events[|events| - 1].action;
  }

  /** Whatever the action is, the event carries the sender, and names the packet's own action and size -
      "malformed" for a packet that could not be read, with size 0 on UDP. */
  lemma {:induction false} EventFields(w: World, setup: Setup, step: Step) returns (action: ActionType)
    requires !step.Elsewhere?
    ensures var m := step.m;
      Next(w, setup, step).events
      == w.events + [Report(if step.UdpPacket? then Udp else WebSocket, m.ip,
                            if m.packet.Some? then m.packet.value.action else "malformed",
                            if step.UdpPacket? && m.packet.None? then 0 else m.size, action)]
    ensures step.m.packet.None? ==> action == AuthFailed
  {
    hide HandleUdp, HandleWs;
    if step.UdpPacket? {
      action := UdpFields(w, setup, step.m);
    } else {
      action := WsFields(w, setup, step.m);
    }
  }

  /** In every run each packet adds one event, which says exactly what its history makes of it: the flood
      count over every UDP packet, the acceptances of its nonce key within the last TTL, the cheat detector
      on the accepted WebSocket messages, and the model on the last 50 events of its ip that got that far. */
  lemma {:induction false} EventIsHistory(run: seq<Step>, setup: Setup, n: nat)
    requires n < |run| && InOrder(run) && !run[n].Elsewhere?
    ensures var m := run[n].m;
      StateAfter(run, setup, n + 1).events
      == StateAfter(run, setup, n).events + [
           Report(if run[n].UdpPacket? then Udp else WebSocket, m.ip,
                  if m.packet.Some? then m.packet.value.action else "malformed",
                  if run[n].UdpPacket? && m.packet.None? then 0 else m.size,
                  if m.packet.None? then AuthFailed
                  else if ManySessions(run, setup, n) then RateLimited
                  else if !Fresh(run, setup, n) then ReplayBlocked
                  else if Cheats(run, setup, n) then CheatDetected
                  else if LooksAnomalous(run, setup, n) then AnomalyBlocked
                  else Allowed)]
  {
    hide Cheats, CheatsIn, AcceptsIn, FloodsIn, ManySessions, Fresh, LooksAnomalous, Outlier, InOrder, Next, Score;
    var action := EventFields(StateAfter(run, setup, n), setup, run[n]);
    if run[n].m.packet.Some? {
      PacketOutcome(StateAfter(run, setup, n), setup, run[n]);
      FloodsIsManySessions(run, setup, n);
      AcceptsIsFresh(run, setup, n);
      CheatsIsCheatsIn(run, setup, n);
      OutlierIsHistory(run, setup, n);
    }
  }
}
