/** One HTTP request through the gateway: the guards in order, with early returns.

    Each request is atomic: all its store commands run at one instant `at`.  Only the clock that a
    limiter call passes to its script is read separately, by `reading(k)` for the request's k-th call. */
module Pipeline {
  import opened Options
  import opened TimedStore
  import opened Keys
  import opened Events
  import opened SharedStore
  import opened RateLimiter
  import RG = ReplayGuard
  import RE = RuleEngine
  import Alerting
  import Reports

  /** The request, and what the parts outside this model said about it. */
  datatype Request = Request(
    ip: string, endpoint: string, packetSize: int,
    clientId: Option<string>, nonce: Option<string>, timestamp: Option<real>,
    geoAllowed: bool, country: Option<string>, isAnomaly: bool, upstreamStatus: Option<int>,
    at: real, reading: nat -> real, checkedAt: real)

  datatype Outcome =
    | Rejected(action: ActionType, status: int, country: Option<string>)
    | UpstreamFailed
    | Forwarded(status: int)

  /** The operations that a part of the pipeline ran on the store, and how it ended (`None`: go on). */
  datatype Trail = Trail(ops: seq<Op>, outcome: Option<Outcome>)

  /** `country_code in rule.blocked_countries`: unlike in the rule engine, "" is a code like any other. */
  predicate InBlocked(rule: RE.FilterRule, country: Option<string>) {
    country.Some? && country.value in rule.blockedCountries
  }

  function LimitOp(req: Request, limit: Option<int>, k: nat): Op {
    AllowOp(req.ip, limit, req.reading(k), req.at)
  }

  /** One matched rule: its limit first, then its blocked countries. */
  function RuleStep(db: Keyspace, cfg: Config, req: Request, rule: RE.FilterRule, k: nat): (t: Trail)
    ensures t.outcome.Some? ==> t.outcome.value.Rejected?
  {
    var ops := if rule.maxRequestsPerSec.Some? then [LimitOp(req, rule.maxRequestsPerSec, k)] else [];
    Trail(ops,
          if ops != [] && Reply(db, cfg, ops[0]) != Granted(true) then Some(Rejected(RateLimited, 429, req.country))
          else if InBlocked(rule, req.country) then Some(Rejected(GeoBlocked, 403, req.country))
          else None)
  }

  /** The rule loop, from its k-th limiter call on. */
  function RuleTrail(db: Keyspace, cfg: Config, req: Request, rules: seq<RE.FilterRule>, k: nat): (t: Trail)
    ensures t.outcome.Some? ==> t.outcome.value.Rejected?
    decreases |rules|
  {
    if rules == [] then Trail([], None)
    else
      var step := RuleStep(db, cfg, req, rules[0], k);
      if step.outcome.Some? then step
      else
        var rest := RuleTrail(RunFrom(db, cfg, step.ops), cfg, req, rules[1..], k + |step.ops|);
        Trail(step.ops + rest.ops, rest.outcome)
  }

  predicate ChecksReplay(req: Request) {
    req.nonce.Some? && req.nonce.value != "" && req.timestamp.Some?
  }

  function ReplayOp(req: Request): Op
    requires ChecksReplay(req)
  {
    ValidateOp(if req.clientId.Some? then req.clientId.value else req.ip,
               req.nonce.value, req.timestamp.value, req.at, req.at)
  }

  function ReplayTrail(db: Keyspace, cfg: Config, req: Request): Trail {
    if !ChecksReplay(req) then Trail([], None)
    else if Reply(db, cfg, ReplayOp(req)) == Validated(RG.Accepted) then Trail([ReplayOp(req)], None)
    else Trail([ReplayOp(req)], Some(Rejected(ReplayBlocked, 403, req.country)))
  }

  /** A recorded violation ends the request: 403 if it banned the ip, 429 otherwise. */
  function Violate(db: Keyspace, cfg: Config, req: Request, reason: string, action: ActionType): (t: Trail)
    ensures t.outcome.Some?
  {
    var op := ViolationOp(req.ip, reason, req.at);
    Trail([op], Some(Rejected(action, if Reply(db, cfg, op) == Banned(true) then 403 else 429, req.country)))
  }

  function Then(op: Op, t: Trail): Trail { Trail([op] + t.ops, t.outcome) }

  function FinalOutcome(req: Request): Outcome {
    if req.upstreamStatus.None? then UpstreamFailed else Forwarded(req.upstreamStatus.value)
  }

  /** The default limit, the anomaly verdict and the upstream call; `k` limiter calls came before. */
  function LimitTrail(db: Keyspace, cfg: Config, req: Request, k: nat): (t: Trail)
    ensures t.outcome.Some?
  {
    var op := LimitOp(req, None, k);
    var db' := Apply(db, cfg, op);
    if Reply(db, cfg, op) != Granted(true) then
      Then(op, Violate(db', cfg, req, "rate_limit_exceeded", RateLimited))
    else if req.isAnomaly then Then(op, Violate(db', cfg, req, "anomaly_detected", AnomalyBlocked))
    else Trail([op], Some(FinalOutcome(req)))
  }

  /** What follows the rule loop, which made `k` limiter calls. */
  function Rest(db: Keyspace, cfg: Config, req: Request, k: nat): (t: Trail)
    ensures t.outcome.Some?
  {
    var replay := ReplayTrail(db, cfg, req);
    if replay.outcome.Some? then replay
    else
      var limit := LimitTrail(RunFrom(db, cfg, replay.ops), cfg, req, k);
      Trail(replay.ops + limit.ops, limit.outcome)
  }

  /** The whole request, which always ends. */
  function Decide(db: Keyspace, cfg: Config, req: Request, matched: seq<RE.FilterRule>): (t: Trail)
    ensures t.outcome.Some?
  {
    if Exists(db, BanKey(req.ip), req.at) then Trail([], Some(Rejected(Blacklisted, 403, None)))
    else if !req.geoAllowed then Trail([], Some(Rejected(GeoBlocked, 403, req.country)))
    else
      var rules := RuleTrail(db, cfg, req, matched, 0);
      if rules.outcome.Some? then rules
      else
        var rest := Rest(RunFrom(db, cfg, rules.ops), cfg, req, |rules.ops|);
        Trail(rules.ops + rest.ops, rest.outcome)
  }

  // ----- events, counters and alerts -----

  datatype GatewayState = GatewayState(
    db: Keyspace, alerts: Alerting.State, requests: map<ActionType, nat>, blocked: map<ActionType, nat>,
    log: seq<TrafficEvent>)

  function Bump(counter: map<ActionType, nat>, action: ActionType): map<ActionType, nat> {
    counter[action := (if action in counter then counter[action] else 0) + 1]
  }

  function RateNow(db: Keyspace, cfg: Config, ip: string, clock: real): real {
    if Exists(db, RateKey(ip), clock) && db[RateKey(ip)].value.Bucket?
        then cfg.capacity as real - db[RateKey(ip)].value.tokens
    else 0.0
  }

  function EventFor(db: Keyspace, cfg: Config, req: Request, action: ActionType,
                    country: Option<string>): TrafficEvent
  {
    TrafficEvent(req.at, req.ip, req.endpoint, req.packetSize, action, Truncate(RateNow(db, cfg, req.ip, req.at)),
                 country)
  }

  function Emit(s: GatewayState, cfg: Config, req: Request, action: ActionType, country: Option<string>): GatewayState {
    s.(requests := Bump(s.requests, action), log := Reports.Record(s.log, EventFor(s.db, cfg, req, action, country)))
  }

  /** What a request leaves behind: a failed upstream call leaves no event at all. */
  function Account(s: GatewayState, cfg: Config, threshold: int, req: Request, outcome: Outcome): GatewayState {
    match outcome
    case UpstreamFailed => s
    case Forwarded(_) => Emit(s, cfg, req, Allowed, req.country)
    case Rejected(action, _, country) =>
      var emitted := Emit(s, cfg, req, action, country);
      emitted.(blocked := Bump(s.blocked, action),
               alerts := Alerting.Next(s.alerts, threshold, Alerting.Block(req.at, req.checkedAt)))
  }

  function Status(outcome: Outcome): int {
    match outcome
    case Rejected(_, status, _) => status
    case UpstreamFailed => 502
    case Forwarded(status) => status
  }

  function Handle(s: GatewayState, cfg: Config, threshold: int, req: Request,
                  matched: seq<RE.FilterRule>): GatewayState
  {
    var t := Decide(s.db, cfg, req, matched);
    Account(s.(db := RunFrom(s.db, cfg, t.ops)), cfg, threshold, req, t.outcome.value)
  }

  lemma {:induction false} TypedFrom(db: Keyspace, cfg: Config, ops: seq<Op>)
    requires Typed(db)
    ensures Typed(RunFrom(db, cfg, ops))
  {
    if ops != [] {
      TypedFrom(db, cfg, ops[..|ops| - 1]);
      TypedStep(RunFrom(db, cfg, ops[..|ops| - 1]), cfg, ops[|ops| - 1]);
    }
  }

  /** One turn of the rule loop: `ops` are done, and rule i comes next. */
  lemma {:induction false} RuleTurn(all: Trail, ops: seq<Op>, db: Keyspace, cfg: Config, req: Request,
                                    rules: seq<RE.FilterRule>, i: nat, k: nat)
    requires i < |rules|
    requires var rest := RuleTrail(db, cfg, req, rules[i..], k);
      all == Trail(ops + rest.ops, rest.outcome)
    ensures var step := RuleStep(db, cfg, req, rules[i], k);
      if step.outcome.Some? then all == Trail(ops + step.ops, step.outcome)
      else
        var rest := RuleTrail(RunFrom(db, cfg, step.ops), cfg, req, rules[i + 1..], k + |step.ops|);
        all == Trail(ops + step.ops + rest.ops, rest.outcome)
  {
    hide RuleStep, RunFrom;
    assert rules[i..][0] == rules[i] && rules[i..][1..] == rules[i + 1..];
    var step := RuleStep(db, cfg, req, rules[i], k);
    if step.outcome.None? {
      var rest := RuleTrail(RunFrom(db, cfg, step.ops), cfg, req, rules[i + 1..], k + |step.ops|);
      assert ops + (step.ops + rest.ops) == ops + step.ops + rest.ops;
    }
  }
}
