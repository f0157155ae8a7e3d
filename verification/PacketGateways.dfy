/** The UDP and the WebSocket gateway of one process, on the guards that they share with HTTP.

    A packet arrives decoded, or as `None` if the codec could not read it; each packet is handled at one
    instant `at`. */
module PacketGateways {
  import opened Options
  import opened TimedStore
  import opened Events
  import opened SlidingWindow
  import opened PerClient
  import SF = SynFlood
  import RG = ReplayGuard
  import CD = CheatDetector
  import AF = AnomalyFeatures
  import SS = SharedStore

  datatype Packet = Packet(client: string, session: string, action: string, payload: CD.Payload, nonce: string,
                           timestamp: real)

  datatype Message = Message(ip: string, packet: Option<Packet>, size: int, at: real)

  datatype Transport = Udp | WebSocket

  datatype Report = Report(transport: Transport, ip: string, endpoint: string, size: int, action: ActionType)

  /** The fixed parameters; `outlier` is the verdict of the trained model on a feature vector. */
  datatype Setup = Setup(floodWindow: real, maxSessions: int, cfg: SS.Config, outlier: AF.Features -> bool)

  datatype World = World(
    db: Keyspace, sessions: map<string, seq<Stamped<string>>>, cheats: CD.State,
    history: map<string, seq<Stamped<AF.Hit>>>, events: seq<Report>, acks: seq<string>)

  const START := World(map[], map[], CD.State(map[], map[]), map[], [], [])

  function Emit(w: World, transport: Transport, m: Message, endpoint: string, size: int, action: ActionType): World {
    w.(events := w.events + [Report(transport, m.ip, endpoint, size, action)])
  }

  function Register(w: World, setup: Setup, m: Message, p: Packet): World {
    w.(sessions := After(w.sessions, SF.EvictingPush(setup.floodWindow), Arrival(m.ip, Stamped(m.at, p.session))))
  }

  predicate Floods(w: World, setup: Setup, ip: string) {
    |SF.Sessions(QueueOf(w.sessions, ip))| > setup.maxSessions
  }

  function Verdict(w: World, setup: Setup, m: Message, p: Packet): RG.Verdict {
    RG.Judge(w.db, setup.cfg.replay, p.client, p.nonce, p.timestamp, m.at, m.at)
  }

  function Validate(w: World, setup: Setup, m: Message, p: Packet): World {
    w.(db := RG.JudgeStore(w.db, setup.cfg.replay, p.client, p.nonce, p.timestamp, m.at, m.at))
  }

  function Score(w: World, m: Message, p: Packet): World {
    w.(history := After(w.history, AF.Ring50(), Arrival(m.ip, Stamped(m.at, AF.Hit(p.action, m.size)))))
  }

  predicate Outlier(w: World, setup: Setup, m: Message) {
    setup.outlier(AF.FeaturesOf(QueueOf(w.history, m.ip), m.at, m.size))
  }

  /** One UDP packet: flood check, replay check, anomaly check, acknowledgement. */
  function HandleUdp(w: World, setup: Setup, m: Message): World {
    if m.packet.None? then Emit(w, Udp, m, "malformed", 0, AuthFailed)
    else
      var p := m.packet.value;
      var registered := Register(w, setup, m, p);
      if Floods(registered, setup, m.ip) then Emit(registered, Udp, m, p.action, m.size, RateLimited)
      else
        var validated := Validate(registered, setup, m, p);
        if !Verdict(registered, setup, m, p).Accepted? then Emit(validated, Udp, m, p.action, m.size, ReplayBlocked)
        else
          var scored := Score(validated, m, p);
          if Outlier(scored, setup, m) then Emit(scored, Udp, m, p.action, m.size, AnomalyBlocked)
          else Emit(scored, Udp, m, p.action, m.size, Allowed).(acks := w.acks + [m.ip])
  }

  /** One WebSocket message: replay check, cheat check, anomaly check. */
  function HandleWs(w: World, setup: Setup, m: Message): World {
    if m.packet.None? then Emit(w, WebSocket, m, "malformed", m.size, AuthFailed)
    else
      var p := m.packet.value;
      var validated := Validate(w, setup, m, p);
      if !Verdict(w, setup, m, p).Accepted? then Emit(validated, WebSocket, m, p.action, m.size, ReplayBlocked)
      else
        var judged := validated.(cheats := CD.Next(w.cheats, p.client, p.payload, p.timestamp));
        if CD.Verdict(w.cheats, p.client, p.payload, p.timestamp).Some? then
          Emit(judged, WebSocket, m, p.action, m.size, CheatDetected)
        else
          var scored := Score(judged, m, p);
          Emit(scored, WebSocket, m, p.action, m.size, if Outlier(scored, setup, m) then AnomalyBlocked else Allowed)
  }

  class Gateways {
    const setup: Setup
    const redis: Redis
    const flood: SF.SynFloodHeuristic
    const replay: RG.ReplayAttackGuard
    const cheat: CD.CheatDetector
    const anomaly: AF.AnomalyDetector
    var broadcast: seq<Report>
    var sent: seq<string>

    predicate Wired() {
      && replay.redis == redis && replay.settings == setup.cfg.replay
      && flood.windowSeconds == setup.floodWindow && flood.maxNewSessions == setup.maxSessions
    }

    function Snapshot(): World
      reads this, redis, flood, cheat, anomaly
    {
      World(redis.db, flood.sessionEvents, cheat.Snapshot(), anomaly.history, broadcast, sent)
    }

    constructor (setup: Setup, redis: Redis)
      requires redis.db == map[]
      ensures Wired() && this.setup == setup && this.redis == redis && Snapshot() == START
    {
      this.setup, this.redis := setup, redis;
      flood := new SF.SynFloodHeuristic(setup.floodWindow, setup.maxSessions);
      replay := new RG.ReplayAttackGuard(setup.cfg.replay, redis);
      cheat := new CD.CheatDetector();
      anomaly := new AF.AnomalyDetector();
      broadcast, sent := [], [];
    }

    method EmitReport(transport: Transport, m: Message, endpoint: string, size: int, action: ActionType)
      modifies this`broadcast
      ensures Snapshot() == Emit(old(Snapshot()), transport, m, endpoint, size, action)
    {
      broadcast := broadcast + [Report(transport, m.ip, endpoint, size, action)];
    }

    /** Extends the sender's history and asks the model. */
    method ScorePacket(m: Message, p: Packet) returns (isAnomaly: bool)
      modifies anomaly
      ensures Snapshot() == Score(old(Snapshot()), m, p) && isAnomaly == Outlier(Snapshot(), setup, m)
    {
      var features := anomaly.ExtractFeatures(m.ip, p.action, m.size, m.at);
      isAnomaly := setup.outlier(features);
    }

    method HandlePacket(m: Message)
      requires Wired()
      modifies this`broadcast, this`sent, redis, flood, anomaly
      ensures Snapshot() == HandleUdp(old(Snapshot()), setup, m)
    {
      if m.packet.None? {
        EmitReport(Udp, m, "malformed", 0, AuthFailed);
        return;
      }
      var p := m.packet.value;
      var flooding := flood.RegisterAndCheck(m.ip, p.session, m.at);
      if flooding {
        EmitReport(Udp, m, p.action, m.size, RateLimited);
        return;
      }
      var verdict := replay.Validate(p.client, p.nonce, p.timestamp, m.at, m.at);
      if !verdict.Accepted? {
        EmitReport(Udp, m, p.action, m.size, ReplayBlocked);
        return;
      }
      var isAnomaly := ScorePacket(m, p);
      if isAnomaly {
        EmitReport(Udp, m, p.action, m.size, AnomalyBlocked);
        return;
      }
      EmitReport(Udp, m, p.action, m.size, Allowed);
      sent := sent + [m.ip];
    }

    method ProcessMessage(m: Message)
      requires Wired()
      modifies this`broadcast, redis, cheat, anomaly
      ensures Snapshot() == HandleWs(old(Snapshot()), setup, m)
    {
      if m.packet.None? {
        EmitReport(WebSocket, m, "malformed", m.size, AuthFailed);
        return;
      }
      var p := m.packet.value;
      var verdict := replay.Validate(p.client, p.nonce, p.timestamp, m.at, m.at);
      if !verdict.Accepted? {
        EmitReport(WebSocket, m, p.action, m.size, ReplayBlocked);
        return;
      }
      var signal := cheat.Evaluate(p.client, p.payload, p.timestamp);
      if signal.Some? {
        EmitReport(WebSocket, m, p.action, m.size, CheatDetected);
        return;
      }
      var isAnomaly := ScorePacket(m, p);
      EmitReport(WebSocket, m, p.action, m.size, if isAnomaly then AnomalyBlocked else Allowed);
    }
  }

  // ----- runs of both gateways, with everything else that uses the store -----

  /** `Elsewhere` is an operation that an HTTP request or an admin runs on the store, and perhaps the
      request's entry in the feature history. */
  datatype Step =
    | UdpPacket(m: Message)
    | WsMessage(m: Message)
    | Elsewhere(op: SS.Op, hit: Option<Arrival<AF.Hit>>)

  function Next(w: World, setup: Setup, step: Step): World {
    match step
    case UdpPacket(m) => HandleUdp(w, setup, m)
    case WsMessage(m) => HandleWs(w, setup, m)
    case Elsewhere(op, hit) =>
      w.(db := SS.Apply(w.db, setup.cfg, op),
         history := if hit.Some? then After(w.history, AF.Ring50(), hit.value) else w.history)
  }

  function StateAfter(run: seq<Step>, setup: Setup, n: nat): World
    requires n <= |run|
  {
    if n == 0 then START else Next(StateAfter(run, setup, n - 1), setup, run[n - 1])
  }

  // ----- events and acknowledgements -----

  function Packets(run: seq<Step>, n: nat): nat
    requires n <= |run|
  {
    if n == 0 then 0 else Packets(run, n - 1) + if run[n - 1].Elsewhere? then 0 else 1
  }

  function Acked(events: seq<Report>): seq<string> {
    if events == [] then []
    else
      var last := events[|events| - 1];
      Acked(events[..|events| - 1]) + if last.transport == Udp && last.action == Allowed then [last.ip] else []
  }

  function AckOf(e: Report): seq<string> {
    if e.transport == Udp && e.action == Allowed then [e.ip] else []
  }

  lemma {:induction false} UdpEmits(w: World, setup: Setup, m: Message) returns (e: Report)
    ensures HandleUdp(w, setup, m).events == w.events + [e]
    ensures HandleUdp(w, setup, m).acks == w.acks + AckOf(e)
  {
    hide Verdict, Floods, Outlier, After, RG.JudgeStore, SF.EvictingPush, AF.Ring50;
    var w' := HandleUdp(w, setup, m);
    e := w'.events[|w'.events| - 1];
    assert w.acks + [] == w.acks;
    assert w'.events == w.events + [e];
  }

  lemma {:induction false} WsEmits(w: World, setup: Setup, m: Message) returns (e: Report)
    ensures HandleWs(w, setup, m).events == w.events + [e]
    ensures HandleWs(w, setup, m).acks == w.acks + AckOf(e)
  {
    hide Verdict, Outlier, CD.Verdict, CD.Next, After, RG.JudgeStore, AF.Ring50;
    var w' := HandleWs(w, setup, m);
    e := w'.events[|w'.events| - 1];
    assert w.acks + [] == w.acks;
    assert w'.events == w.events + [e];
  }

  lemma {:induction false} StepEmits(w: World, setup: Setup, step: Step) returns (e: seq<Report>)
    ensures |e| == if step.Elsewhere? then 0 else 1
    ensures Next(w, setup, step).events == w.events + e
    ensures Next(w, setup, step).acks == w.acks + if e == [] then [] else AckOf(e[0])
  {
    hide HandleUdp, HandleWs, AckOf, SS.Apply;
    match step
    case UdpPacket(m) =>
      var report := UdpEmits(w, setup, m);
      e := [report];
    case WsMessage(m) =>
      var report := WsEmits(w, setup, m);
      e := [report];
    case Elsewhere(_, _) =>
      e := [];
      assert w.events + [] == w.events && w.acks + [] == w.acks;
  }

  lemma {:induction false} AckedSnoc(events: seq<Report>, e: Report)
    ensures Acked(events + [e]) == Acked(events) + AckOf(e)
  {
    assert (events + [e])[..|events|] == events;
  }

  /** Every packet, however it is judged, has exactly one event; and the acknowledgements that were sent
      are those of the allowed UDP packets, in order. */
  lemma {:induction false} OneEventEach(run: seq<Step>, setup: Setup, n: nat)
    requires n <= |run|
    ensures |StateAfter(run, setup, n).events| == Packets(run, n)
    ensures StateAfter(run, setup, n).acks == Acked(StateAfter(run, setup, n).events)
  {
    hide Next, Acked;
    if n > 0 {
      OneEventEach(run, setup, n - 1);
      var w := StateAfter(run, setup, n - 1);
      var e := StepEmits(w, setup, run[n - 1]);
      if e != [] {
        assert e == [e[0]];
        AckedSnoc(w.events, e[0]);
      } else {
        assert w.events + e == w.events && w.acks + [] == w.acks;
      }
    } else {
      NothingAcked();
    }
  }

  lemma {:induction false} NothingAcked()
    ensures Acked([]) == []
  {
  }

  // ----- the flood verdict -----

  /** The readable UDP packets, as session attempts. */
  function Attempts(run: seq<Step>, n: nat): seq<SF.Attempt>
    requires n <= |run|
  {
    if n == 0 then [] else Attempts(run, n - 1) + AttemptOf(run[n - 1])
  }

  function AttemptOf(step: Step): seq<SF.Attempt> {
    if step.UdpPacket? && step.m.packet.Some?
    then [Arrival(step.m.ip, Stamped(step.m.at, step.m.packet.value.session))] else []
  }

  lemma {:induction false} StepSessions(w: World, setup: Setup, step: Step)
    ensures var a := AttemptOf(step);
      Next(w, setup, step).sessions == if a == [] then w.sessions
          else After(w.sessions, SF.EvictingPush(setup.floodWindow), a[0])
  {
    hide Verdict, Floods, Outlier, CD.Verdict, CD.Next, SS.Apply, After, RG.JudgeStore, SF.EvictingPush;
  }

  lemma {:induction false} SessionsAreAttempts(run: seq<Step>, setup: Setup, n: nat)
    requires n <= |run|
    ensures StateAfter(run, setup, n).sessions
         == PerClient.StateAfter(Attempts(run, n), SF.EvictingPush(setup.floodWindow), |Attempts(run, n)|)
  {
    hide Next, After, SF.EvictingPush, AttemptOf;
    if n > 0 {
      SessionsAreAttempts(run, setup, n - 1);
      StepSessions(StateAfter(run, setup, n - 1), setup, run[n - 1]);
      AtMostOneAttempt(run[n - 1]);
      StateOneMore(Attempts(run, n - 1), AttemptOf(run[n - 1]), SF.EvictingPush(setup.floodWindow));
    }
  }

  lemma {:induction false} AtMostOneAttempt(step: Step)
    ensures |AttemptOf(step)| <= 1
  {
  }

  function TimeOf(step: Step): real { if step.Elsewhere? then step.op.at else step.m.at }

  predicate InOrder(run: seq<Step>) {
    forall i, j :: 0 <= i < j < |run| ==> TimeOf(run[i]) <= TimeOf(run[j])
  }

  lemma {:induction false} AttemptsInOrder(run: seq<Step>, n: nat, upTo: real)
    requires n <= |run| && InOrder(run)
    requires n > 0 ==> TimeOf(run[n - 1]) <= upTo
    ensures PerClient.InOrder(Attempts(run, n))
    ensures forall i :: 0 <= i < |Attempts(run, n)| ==> Attempts(run, n)[i].x.at <= upTo
  {
    if n > 0 {
      AttemptsInOrder(run, n - 1, TimeOf(run[n - 1]));
    }
  }

  lemma {:induction false} FloodCount(run: seq<Step>, setup: Setup, n: nat)
    requires n < |run| && InOrder(run) && run[n].UdpPacket? && run[n].m.packet.Some?
    ensures var m, all := run[n].m, Attempts(run, n + 1);
      SF.Sessions(QueueOf(StateAfter(run, setup, n + 1).sessions, m.ip))
      == SF.NaiveSessions(all, m.ip, setup.floodWindow, |all|, m.at)
  {
    hide Next, SF.Sessions, SF.NaiveSessions, SF.EvictingPush, PerClient.InOrder;
    var all := Attempts(run, n + 1);
    assert all == Attempts(run, n) + AttemptOf(run[n]);
    SessionsAreAttempts(run, setup, n + 1);
    AttemptsInOrder(run, n + 1, run[n].m.at);
    SF.FloodIsNaive(all, setup.floodWindow, |all| - 1);
  }

  /** The flood check on step n counts over every UDP packet that ever came. */
  lemma {:induction false} FloodIsHistory(run: seq<Step>, setup: Setup, n: nat)
    requires n < |run| && InOrder(run) && run[n].UdpPacket? && run[n].m.packet.Some?
    ensures var m, all := run[n].m, Attempts(run, n + 1);
      Floods(Register(StateAfter(run, setup, n), setup, m, m.packet.value), setup, m.ip)
      <==> |SF.NaiveSessions(all, m.ip, setup.floodWindow, |all|, m.at)| > setup.maxSessions
  {
    FloodCount(run, setup, n);
    StepSessions(StateAfter(run, setup, n), setup, run[n]);
    hide SF.Sessions, SF.NaiveSessions, InOrder, Attempts, Next, After, SF.EvictingPush;
  }

  /** In a run of everything: a readable UDP packet is rate limited iff its ip opened too many distinct
      sessions in the window, counted over every UDP packet that ever came. */
  lemma {:induction false} FloodVerdict(run: seq<Step>, setup: Setup, n: nat)
    requires n < |run| && InOrder(run) && run[n].UdpPacket? && run[n].m.packet.Some?
    ensures var m, all := run[n].m, Attempts(run, n + 1);
      var events := StateAfter(run, setup, n + 1).events;
      && events != []
      && (events[|events| - 1].action == RateLimited
          <==> |SF.NaiveSessions(all, m.ip, setup.floodWindow, |all|, m.at)| > setup.maxSessions)
  {
    FloodIsHistory(run, setup, n);
    hide SF.NaiveSessions, InOrder, Attempts, HandleUdp, HandleWs, Floods, Register;
  }

}
