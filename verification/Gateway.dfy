/** The gateway object: the guards it calls, and the counters, log and alerts it keeps. */
module Gateway {
  import opened Options
  import opened TimedStore
  import opened Events
  import opened SharedStore
  import opened Pipeline
  import RL = RateLimiter
  import BL = Blacklist
  import RG = ReplayGuard
  import RE = RuleEngine
  import AL = Alerting
  import RP = Reports

  class GatewayProxy {
    const cfg: Config
    const redis: Redis
    const limiter: RL.TokenBucketRateLimiter
    const blacklist: BL.IPBlacklistManager
    const replayGuard: RG.ReplayAttackGuard
    const alertManager: AL.AlertManager
    const reports: RP.ReportGenerator
    var requestCounter: map<ActionType, nat>
    var blockedCounter: map<ActionType, nat>

    /** All guards use this store and this configuration, and its keys are well typed. */
    ghost predicate Valid()
      reads this, redis
    {
      && limiter.redis == redis && blacklist.redis == redis && replayGuard.redis == redis
      && limiter.capacity == cfg.capacity && limiter.refillPerSec == cfg.refillPerSec
      && blacklist.policy == cfg.policy && replayGuard.settings == cfg.replay
      && Typed(redis.db)
    }

    function Snapshot(): GatewayState
      reads this, redis, alertManager, reports
    {
      GatewayState(redis.db, alertManager.Snapshot(), requestCounter, blockedCounter, reports.log)
    }

    constructor (cfg: Config, redis: Redis, alertThreshold: int)
      requires redis.db == map[]
      ensures Valid() && this.cfg == cfg && this.redis == redis && alertManager.threshold == alertThreshold
      ensures Snapshot() == GatewayState(map[], AL.State([], 0.0), map[], map[], [])
      ensures fresh(alertManager) && fresh(reports)
    {
      this.cfg, this.redis := cfg, redis;
      limiter := new RL.TokenBucketRateLimiter(cfg.capacity, cfg.refillPerSec, redis);
      blacklist := new BL.IPBlacklistManager(cfg.policy, redis);
      replayGuard := new RG.ReplayAttackGuard(cfg.replay, redis);
      alertManager := new AL.AlertManager(alertThreshold);
      reports := new RP.ReportGenerator();
      requestCounter, blockedCounter := map[], map[];
    }

    /** One limiter call, as an operation on the shared store. */
    method CallLimiter(req: Request, limit: Option<int>, k: nat) returns (allowed: bool)
      requires Valid()
      modifies redis
      ensures Valid()
      ensures redis.db == Apply(old(redis.db), cfg, LimitOp(req, limit, k))
      ensures allowed == (Reply(old(redis.db), cfg, LimitOp(req, limit, k)) == Granted(true))
    {
      TypedStep(redis.db, cfg, LimitOp(req, limit, k));
      var remaining;
      allowed, remaining := limiter.Allow(req.ip, limit, req.reading(k), req.at);
    }

    method CallViolation(req: Request, reason: string) returns (banned: bool)
      requires Valid()
      modifies redis
      ensures Valid()
      ensures redis.db == Apply(old(redis.db), cfg, ViolationOp(req.ip, reason, req.at))
      ensures banned == (Reply(old(redis.db), cfg, ViolationOp(req.ip, reason, req.at)) == Banned(true))
    {
      TypedStep(redis.db, cfg, ViolationOp(req.ip, reason, req.at));
      banned := blacklist.RecordViolation(req.ip, reason, req.at, req.at);
    }

    /** One matched rule, after `k` limiter calls. */
    method RunRule(req: Request, rule: RE.FilterRule, k: nat) returns (rejection: Option<Outcome>, called: bool)
      requires Valid()
      modifies redis
      ensures Valid()
      ensures var t := RuleStep(old(redis.db), cfg, req, rule, k);
        && rejection == t.outcome && redis.db == RunFrom(old(redis.db), cfg, t.ops)
        && |t.ops| == if called then 1 else 0
    {
      called := rule.maxRequestsPerSec.Some?;
      if called {
        RunFromOne(redis.db, cfg, LimitOp(req, rule.maxRequestsPerSec, k));
        var allowed := CallLimiter(req, rule.maxRequestsPerSec, k);
        if !allowed {
          return Some(Rejected(RateLimited, 429, req.country)), called;
        }
      }
      if req.country.Some? && req.country.value in rule.blockedCountries {
        return Some(Rejected(GeoBlocked, 403, req.country)), called;
      }
      rejection := None;
    }

    /** The rule loop; `calls` counts its limiter calls. */
    method RunRules(req: Request, matched: seq<RE.FilterRule>) returns (rejection: Option<Outcome>, calls: nat)
      requires Valid()
      modifies redis
      ensures Valid()
      ensures var t := RuleTrail(old(redis.db), cfg, req, matched, 0);
        rejection == t.outcome && redis.db == RunFrom(old(redis.db), cfg, t.ops) && calls == |t.ops|
    {
      assert RunFrom(redis.db, cfg, []) == redis.db;
      hide RuleStep, RunFrom, Typed;
      ghost var all := RuleTrail(redis.db, cfg, req, matched, 0);
      ghost var ops: seq<Op> := [];
      assert matched[0..] == matched && [] + all.ops == all.ops;
      calls := 0;
      for i := 0 to |matched|
        invariant Valid() && calls == |ops|
        invariant redis.db == RunFrom(old(redis.db), cfg, ops)
        invariant var rest := RuleTrail(redis.db, cfg, req, matched[i..], calls);
          all == Trail(ops + rest.ops, rest.outcome)
      {
        hide RuleTrail;
        ghost var step := RuleStep(redis.db, cfg, req, matched[i], calls);
        RuleTurn(all, ops, redis.db, cfg, req, matched, i, calls);
        RunFromConcat(old(redis.db), cfg, ops, step.ops);
        var called;
        rejection, called := RunRule(req, matched[i], calls);
        calls := calls + if called then 1 else 0;
        ops := ops + step.ops;
        if rejection.Some? {
          return;
        }
      }
      rejection := None;
      assert ops + [] == ops;
    }

    method EmitEvent(req: Request, action: ActionType, country: Option<string>)
      requires Valid()
      modifies this`requestCounter, reports
      ensures Valid() && Snapshot() == Emit(old(Snapshot()), cfg, req, action, country)
    {
      var rate := limiter.CurrentRate(req.ip, req.at);
      var e := TrafficEvent(req.at, req.ip, req.endpoint, req.packetSize, action, RL.Truncate(rate), country);
      requestCounter := Bump(requestCounter, action);
      reports.RecordEvent(e);
    }

    method Reject(req: Request, action: ActionType, status: int, country: Option<string>) returns (reply: int)
      requires Valid()
      modifies this`requestCounter, this`blockedCounter, reports, alertManager
      ensures Valid() && reply == status
      ensures Snapshot() == Account(old(Snapshot()), cfg, alertManager.threshold, req,
        Rejected(action, status, country))
    {
      EmitEvent(req, action, country);
      blockedCounter := Bump(blockedCounter, action);
      var sent := alertManager.RecordBlock(req.at, req.checkedAt);
      reply := status;
    }

    /** The replay check, the default limit, the anomaly verdict and the upstream call. */
    method CheckAndForward(req: Request, calls: nat) returns (status: int)
      requires Valid()
      modifies this`requestCounter, this`blockedCounter, redis, reports, alertManager
      ensures Valid()
      ensures var t := Rest(old(redis.db), cfg, req, calls);
        && Snapshot() == Account(old(Snapshot()).(db := RunFrom(old(redis.db), cfg, t.ops)), cfg,
                                 alertManager.threshold, req, t.outcome.value)
        && status == Status(t.outcome.value)
    {
      ghost var db0 := redis.db;
      if req.nonce.Some? && req.nonce.value != "" && req.timestamp.Some? {
        var clientId := if req.clientId.Some? then req.clientId.value else req.ip;
        TypedStep(redis.db, cfg, ReplayOp(req));
        var verdict := replayGuard.Validate(clientId, req.nonce.value, req.timestamp.value, req.at, req.at);
        RunFromOne(db0, cfg, ReplayOp(req));
        if verdict != RG.Accepted {
          status := Reject(req, ReplayBlocked, 403, req.country);
          return;
        }
      }
      ghost var replay := ReplayTrail(db0, cfg, req);
      assert redis.db == RunFrom(db0, cfg, replay.ops);
      status := LimitAndForward(req, calls);
      RunFromConcat(db0, cfg, replay.ops, LimitTrail(RunFrom(db0, cfg, replay.ops), cfg, req, calls).ops);
    }

    method LimitAndForward(req: Request, calls: nat) returns (status: int)
      requires Valid()
      modifies this`requestCounter, this`blockedCounter, redis, reports, alertManager
      ensures Valid()
      ensures var t := LimitTrail(old(redis.db), cfg, req, calls);
        && Snapshot() == Account(old(Snapshot()).(db := RunFrom(old(redis.db), cfg, t.ops)), cfg,
                                 alertManager.threshold, req, t.outcome.value)
        && status == Status(t.outcome.value)
    {
      ghost var op := LimitOp(req, None, calls);
      ghost var db0 := redis.db;
      var allowed := CallLimiter(req, None, calls);
      RunFromOne(db0, cfg, op);
      if !allowed {
        RunFromTwo(db0, cfg, op, ViolationOp(req.ip, "rate_limit_exceeded", req.at));
        var banned := CallViolation(req, "rate_limit_exceeded");
        status := Reject(req, RateLimited, if banned then 403 else 429, req.country);
        return;
      }
      if req.isAnomaly {
        RunFromTwo(db0, cfg, op, ViolationOp(req.ip, "anomaly_detected", req.at));
        var banned := CallViolation(req, "anomaly_detected");
        status := Reject(req, AnomalyBlocked, if banned then 403 else 429, req.country);
        return;
      }
      if req.upstreamStatus.None? {
        return 502;
      }
      EmitEvent(req, ActionType.Allowed, req.country);
      return req.upstreamStatus.value;
    }

    /** The status of the reply; `matched` is the answer of the rule engine. */
    method HandleRequest(req: Request, matched: seq<RE.FilterRule>) returns (status: int)
      requires Valid()
      modifies this`requestCounter, this`blockedCounter, redis, reports, alertManager
      ensures Valid()
      ensures Snapshot() == Handle(old(Snapshot()), cfg, alertManager.threshold, req, matched)
      ensures status == match Decide(old(redis.db), cfg, req, matched).outcome.value
                        case Rejected(_, refusal, _) => refusal
                        case UpstreamFailed => 502
                        case Forwarded(answer) => answer
    {
      ghost var db0 := redis.db;
      var banned := blacklist.IsBanned(req.ip, req.at);
      if banned {
        status := Reject(req, Blacklisted, 403, None);
        return;
      }
      if !req.geoAllowed {
        status := Reject(req, GeoBlocked, 403, req.country);
        return;
      }
      var rejection, calls := RunRules(req, matched);
      ghost var rules := RuleTrail(db0, cfg, req, matched, 0);
      if rejection.Some? {
        status := Reject(req, rejection.value.action, rejection.value.status, rejection.value.country);
        return;
      }
      status := CheckAndForward(req, calls);
      RunFromConcat(db0, cfg, rules.ops, Rest(RunFrom(db0, cfg, rules.ops), cfg, req, |rules.ops|).ops);
    }
  }
}
