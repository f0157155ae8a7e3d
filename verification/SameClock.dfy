/** A request whose limiter calls all read the same clock: which limits can let it through at all. */
module SameClock {
  import opened Options
  import opened TimedStore
  import opened Keys
  import opened SharedStore
  import opened RateLimiter
  import opened Pipeline
  import opened PipelineRun
  import RE = RuleEngine
  import TB = TokenBucket

  function CapacityOf(cfg: Config, op: Op): int
    requires op.AllowOp?
  {
    EffectiveCapacity(cfg.capacity, op.capacityOverride)
  }

  function TokensAt(db: Keyspace, cfg: Config, ops: seq<Op>, p: nat): real
    requires p < |ops| && ops[p].AllowOp?
  {
    TB.Refill(CellAt(RunFrom(db, cfg, ops[..p]), RateKey(ops[p].ip)), CallOf(cfg, ops[p]), cfg.refillPerSec)
  }

  /** Limiter calls of one ip at one instant, with one clock reading. */
  predicate Together(ops: seq<Op>, ip: string, t: real, at: real) {
    forall k :: 0 <= k < |ops| ==> ops[k].AllowOp? && ops[k].ip == ip && ops[k].now == t && ops[k].at == at
  }

  predicate AllGranted(db: Keyspace, cfg: Config, ops: seq<Op>) {
    forall p :: 0 <= p < |ops| ==> GrantedFrom(db, cfg, ops, p)
  }

  /** At the same instant, a call finds what the one before it left, or its capacity. */
  lemma {:induction false} NextTokens(db: Keyspace, cfg: Config, ops: seq<Op>, ip: string, t: real, at: real, p: nat)
    requires 0 < p < |ops| && Together(ops, ip, t, at)
    ensures TokensAt(db, cfg, ops, p)
         == TB.Min(CapacityOf(cfg, ops[p]) as real, TB.Take(TokensAt(db, cfg, ops, p - 1)))
  {
    assert ops[..p] == ops[..p - 1] + [ops[p - 1]];
    RunFromSnoc(db, cfg, ops[..p - 1], ops[p - 1]);
    ScriptIsBucketStep(RunFrom(db, cfg, ops[..p - 1]), RateKey(ip), CallOf(cfg, ops[p - 1]), cfg.refillPerSec);
    assert TB.Gain(t, t, cfg.refillPerSec) == 0.0;
  }

  lemma {:induction false} GrantedHasTokens(db: Keyspace, cfg: Config, ops: seq<Op>, p: nat)
    requires p < |ops| && ops[p].AllowOp?
    ensures GrantedFrom(db, cfg, ops, p) <==> TokensAt(db, cfg, ops, p) >= 1.0
  {
  }

  /** The same call over and over at one instant: a capacity above zero is counted down to zero. */
  lemma {:induction false} CountsDown(db: Keyspace, cfg: Config, ops: seq<Op>, ip: string, t: real, at: real, c: int,
                                      q: nat)
    requires q < |ops| && Together(ops, ip, t, at) && !TB.LiveCell(CellAt(db, RateKey(ip)), at)
    requires forall p :: 0 <= p < |ops| ==> CapacityOf(cfg, ops[p]) == c
    ensures TokensAt(db, cfg, ops, q) == (if c <= 0 then c else if q < c then c - q else 0) as real
    decreases q
  {
    if q == 0 {
      assert ops[..0] == [];
    } else {
      CountsDown(db, cfg, ops, ip, t, at, c, q - 1);
      NextTokens(db, cfg, ops, ip, t, at, q);
      hide TokensAt;
    }
  }

  /** What a limit means: of calls at one clock reading, on a bucket nobody has touched, the first k are
      granted under a limit k, and none under a negative one; without a limit, or with the limit 0, the
      first `cfg.capacity` are. */
  lemma {:induction false} LimitGrants(db: Keyspace, cfg: Config, ip: string, limit: Option<int>, t: real, at: real,
                                       ops: seq<Op>, q: nat)
    requires q < |ops| && !TB.LiveCell(CellAt(db, RateKey(ip)), at)
    requires forall p :: 0 <= p < |ops| ==> ops[p] == AllowOp(ip, limit, t, at)
    ensures limit == None || limit == Some(0) ==> (GrantedFrom(db, cfg, ops, q) <==> q < cfg.capacity)
    ensures limit.Some? && limit.value > 0 ==> (GrantedFrom(db, cfg, ops, q) <==> q < limit.value)
    ensures limit.Some? && limit.value < 0 ==> !GrantedFrom(db, cfg, ops, q)
  {
    CountsDown(db, cfg, ops, ip, t, at, CapacityOf(cfg, ops[q]), q);
    GrantedHasTokens(db, cfg, ops, q);
    hide TokensAt, GrantedFrom;
  }

  /** Calls at one instant only drain the bucket: the p-th finds at most the capacity of the q-th,
      less one token for each call since. */
  lemma {:induction false} OnlyDrains(db: Keyspace, cfg: Config, ops: seq<Op>, ip: string, t: real, at: real, q: nat,
                                      p: nat)
    requires q <= p < |ops| && Together(ops, ip, t, at)
    requires AllGranted(db, cfg, ops)
    ensures TokensAt(db, cfg, ops, p) <= (CapacityOf(cfg, ops[q]) - (p - q)) as real
    decreases p - q
  {
    if q < p {
      hide TokensAt, GrantedFrom;
      OnlyDrains(db, cfg, ops, ip, t, at, q, p - 1);
      GrantedHasTokens(db, cfg, ops, p - 1);
      NextTokens(db, cfg, ops, ip, t, at, p);
    }
  }

  /** From a bucket that nobody has touched yet, large enough capacities are all that it takes. */
  lemma {:induction false} FreshGrants(db: Keyspace, cfg: Config, ops: seq<Op>, ip: string, t: real, at: real, p: nat)
    requires p < |ops| && Together(ops, ip, t, at) && !TB.LiveCell(CellAt(db, RateKey(ip)), at)
    requires forall q :: 0 <= q < |ops| ==> CapacityOf(cfg, ops[q]) >= |ops| - q
    ensures TokensAt(db, cfg, ops, p) >= (|ops| - p) as real
    ensures GrantedFrom(db, cfg, ops, p)
    decreases p
  {
    if p == 0 {
      assert ops[..0] == [];
    } else {
      FreshGrants(db, cfg, ops, ip, t, at, p - 1);
      NextTokens(db, cfg, ops, ip, t, at, p);
    }
    GrantedHasTokens(db, cfg, ops, p);
  }

  lemma {:induction false} GrantedNeedsRoom(db: Keyspace, cfg: Config, ops: seq<Op>, ip: string, t: real, at: real)
    requires Together(ops, ip, t, at) && AllGranted(db, cfg, ops)
    ensures forall q :: 0 <= q < |ops| ==> CapacityOf(cfg, ops[q]) >= |ops| - q
  {
    forall q | 0 <= q < |ops| ensures CapacityOf(cfg, ops[q]) >= |ops| - q {
      OnlyDrains(db, cfg, ops, ip, t, at, q, |ops| - 1);
      GrantedHasTokens(db, cfg, ops, |ops| - 1);
    }
  }

  /** At one clock reading, a fresh bucket grants a whole list of calls iff the q-th capacity leaves
      room for every call from the q-th on. */
  lemma {:induction false} FreshGrantsIff(db: Keyspace, cfg: Config, ops: seq<Op>, ip: string, t: real, at: real)
    requires Together(ops, ip, t, at) && !TB.LiveCell(CellAt(db, RateKey(ip)), at)
    ensures AllGranted(db, cfg, ops)
       <==> (forall q :: 0 <= q < |ops| ==> CapacityOf(cfg, ops[q]) >= |ops| - q)
  {
    if AllGranted(db, cfg, ops) {
      GrantedNeedsRoom(db, cfg, ops, ip, t, at);
    } else if forall q :: 0 <= q < |ops| ==> CapacityOf(cfg, ops[q]) >= |ops| - q {
      forall p | 0 <= p < |ops| ensures GrantedFrom(db, cfg, ops, p) {
        FreshGrants(db, cfg, ops, ip, t, at, p);
      }
    }
  }

  lemma {:induction false} AllGrantedSplit(db: Keyspace, cfg: Config, a: seq<Op>, b: seq<Op>)
    ensures AllGranted(db, cfg, a + b) <==> AllGranted(db, cfg, a) && AllGranted(RunFrom(db, cfg, a), cfg, b)
  {
    hide GrantedFrom, RunFrom;
    forall q | 0 <= q < |a| + |b|
      ensures q < |a| ==> (GrantedFrom(db, cfg, a + b, q) <==> GrantedFrom(db, cfg, a, q))
      ensures q >= |a| ==> (GrantedFrom(db, cfg, a + b, q) <==> GrantedFrom(RunFrom(db, cfg, a), cfg, b, q - |a|))
    {
      GrantedConcat(db, cfg, a, b, q);
    }
    forall k | 0 <= k < |b| && AllGranted(db, cfg, a + b) ensures GrantedFrom(RunFrom(db, cfg, a), cfg, b, k) {
      assert GrantedFrom(db, cfg, a + b, |a| + k);
    }
  }

  lemma {:induction false} OneGranted(db: Keyspace, cfg: Config, op: Op)
    ensures AllGranted(db, cfg, [op]) <==> op.AllowOp? && Reply(db, cfg, op) == Granted(true)
  {
    assert [op][..0] == [];
    assert GrantedFrom(db, cfg, [op], 0) <==> op.AllowOp? && Reply(db, cfg, op) == Granted(true);
  }

  // ----- the calls of one request -----

  /** One limiter call per limit, from the request's k-th call on. */
  function RuleCalls(req: Request, limits: seq<int>, k: nat): (ops: seq<Op>)
    ensures |ops| == |limits|
    ensures forall q :: 0 <= q < |limits| ==> ops[q] == LimitOp(req, Some(limits[q]), k + q)
  {
    seq(|limits|, q requires 0 <= q < |limits| => LimitOp(req, Some(limits[q]), k + q))
  }

  /** The limiter calls of a request that gets through the rule loop: one per limit, then the default. */
  function LimitCalls(req: Request, limits: seq<int>): (ops: seq<Op>)
    ensures |ops| == |limits| + 1 && ops[|limits|] == LimitOp(req, None, |limits|)
    ensures forall q :: 0 <= q < |limits| ==> ops[q] == LimitOp(req, Some(limits[q]), q)
  {
    RuleCalls(req, limits, 0) + [LimitOp(req, None, |limits|)]
  }

  /** Each limit - the default for 0 - leaves room for its own call and every later one. */
  predicate Roomy(cfg: Config, limits: seq<int>) {
    && (forall q :: 0 <= q < |limits| && limits[q] != 0 ==> limits[q] >= |limits| + 1 - q)
    && (forall q :: 0 <= q < |limits| && limits[q] == 0 ==> cfg.capacity >= |limits| + 1 - q)
    && cfg.capacity >= 1
  }

  lemma {:induction false} RoomyIsRoom(cfg: Config, req: Request, limits: seq<int>)
    ensures Roomy(cfg, limits)
       <==> forall q :: 0 <= q < |LimitCalls(req, limits)| ==>
              CapacityOf(cfg, LimitCalls(req, limits)[q]) >= |LimitCalls(req, limits)| - q
  {
    var ops := LimitCalls(req, limits);
    assert forall q :: 0 <= q < |limits| ==>
        CapacityOf(cfg, ops[q]) == if limits[q] != 0 then limits[q] else cfg.capacity;
    assert CapacityOf(cfg, ops[|limits|]) == cfg.capacity;
  }

  /** A replay check leaves every limiter reply as it was. */
  lemma {:induction false} ReplayKeepsLimits(db: Keyspace, cfg: Config, req: Request, op: Op)
    requires op.AllowOp?
    ensures Reply(RunFrom(db, cfg, ReplayTrail(db, cfg, req).ops), cfg, op) == Reply(db, cfg, op)
  {
    if ChecksReplay(req) {
      var check := ReplayOp(req);
      RunFromOne(db, cfg, check);
      FamiliesDisjoint(op.ip, op.ip, op.ip, check.client, check.nonce);
      StepIsLocal(db, cfg, check, Cell(op));
      StepIsLocal(db, cfg, op, Cell(op));
      StepIsLocal(Apply(db, cfg, check), cfg, op, Cell(op));
    }
  }

  /** A request that goes upstream has all of `LimitCalls` granted, as if they came in one go. */
  lemma {:induction false} ForwardedGrants(db: Keyspace, cfg: Config, req: Request, matched: seq<RE.FilterRule>)
    requires Reached(Decide(db, cfg, req, matched).outcome.value)
    ensures AllGranted(db, cfg, LimitCalls(req, RE.Limits(matched)))
  {
    var rules, limits := RuleTrail(db, cfg, req, matched, 0).ops, RE.Limits(matched);
    var last := LimitOp(req, None, |rules|);
    ForwardedTrail(db, cfg, req, matched);
    RulesAllGranted(db, cfg, req, matched, 0);
    ReplayKeepsLimits(RunFrom(db, cfg, rules), cfg, req, last);
    hide Decide, RuleTrail, ReplayTrail, RunFrom, RE.Limits, Reply;
    assert LimitCalls(req, limits) == rules + [last];
    AllGrantedSplit(db, cfg, rules, [last]);
    OneGranted(RunFrom(db, cfg, rules), cfg, last);
  }

  /** Whatever the bucket holds: a request whose calls all read one clock goes upstream only if its
      limits are roomy.  In particular one rule with `max_requests_per_sec` 1 then stops them all. */
  lemma {:induction false} ForwardedIsRoomy(db: Keyspace, cfg: Config, req: Request, matched: seq<RE.FilterRule>,
                                            t: real)
    requires forall k: nat :: k <= RE.Limiting(matched) ==> req.reading(k) == t
    requires Reached(Decide(db, cfg, req, matched).outcome.value)
    ensures Roomy(cfg, RE.Limits(matched))
  {
    hide Decide, AllGranted, TokensAt, LimitCalls, Together;
    var limits := RE.Limits(matched);
    var ops := LimitCalls(req, limits);
    ForwardedGrants(db, cfg, req, matched);
    GrantedNeedsRoom(db, cfg, ops, req.ip, t, req.at);
    RoomyIsRoom(cfg, req, limits);
  }

  // ----- and conversely -----

  /** A rule that does not block the country passes if the calls from its own on are granted. */
  lemma {:induction false} GrantedStepPasses(db: Keyspace, cfg: Config, req: Request, rule: RE.FilterRule, k: nat,
                                             rest: seq<Op>)
    requires !InBlocked(rule, req.country) && AllGranted(db, cfg, RuleStep(db, cfg, req, rule, k).ops + rest)
    ensures var step := RuleStep(db, cfg, req, rule, k);
      step.outcome.None? && AllGranted(RunFrom(db, cfg, step.ops), cfg, rest)
  {
    hide AllGranted, RunFrom;
    var ops := RuleStep(db, cfg, req, rule, k).ops;
    AllGrantedSplit(db, cfg, ops, rest);
    if ops != [] {
      OneGranted(db, cfg, ops[0]);
    }
  }

  lemma {:induction false} CallsFront(db: Keyspace, cfg: Config, req: Request, rules: seq<RE.FilterRule>, k: nat)
    requires rules != []
    ensures var step := RuleStep(db, cfg, req, rules[0], k).ops;
      RuleCalls(req, RE.Limits(rules), k) == step + RuleCalls(req, RE.Limits(rules[1..]), k + |step|)
  {
    RE.LimitsFront(rules);
    hide RE.Limits, Reply;
  }

  /** The rule loop runs through when no rule blocks the country and every limit grants its call. */
  lemma {:induction false} GrantedRulesPass(db: Keyspace, cfg: Config, req: Request, rules: seq<RE.FilterRule>, k: nat)
    requires forall i :: 0 <= i < |rules| ==> !InBlocked(rules[i], req.country)
    requires AllGranted(db, cfg, RuleCalls(req, RE.Limits(rules), k))
    ensures RuleTrail(db, cfg, req, rules, k) == Trail(RuleCalls(req, RE.Limits(rules), k), None)
    decreases |rules|
  {
    hide RE.Limits, AllGranted, RunFrom, RuleStep, RuleCalls;
    if rules == [] {
      NoLimits();
    } else {
      var step := RuleStep(db, cfg, req, rules[0], k).ops;
      CallsFront(db, cfg, req, rules, k);
      GrantedStepPasses(db, cfg, req, rules[0], k, RuleCalls(req, RE.Limits(rules[1..]), k + |step|));
      GrantedRulesPass(RunFrom(db, cfg, step), cfg, req, rules[1..], k + |step|);
    }
  }

  /** Limiter calls leave every replay verdict as it was. */
  lemma {:induction false} LimitsKeepReplay(db: Keyspace, cfg: Config, req: Request, ops: seq<Op>)
    requires ChecksReplay(req) && forall k :: 0 <= k < |ops| ==> ops[k].AllowOp?
    ensures Reply(RunFrom(db, cfg, ops), cfg, ReplayOp(req)) == Reply(db, cfg, ReplayOp(req))
  {
    if ops != [] {
      var front, last, check := ops[..|ops| - 1], ops[|ops| - 1], ReplayOp(req);
      var before := RunFrom(db, cfg, front);
      LimitsKeepReplay(db, cfg, req, front);
      FamiliesDisjoint(last.ip, last.ip, last.ip, check.client, check.nonce);
      StepIsLocal(before, cfg, last, Cell(check));
      StepIsLocal(before, cfg, check, Cell(check));
      StepIsLocal(Apply(before, cfg, last), cfg, check, Cell(check));
    }
  }

  /** Nothing but the limits can stop this request. */
  predicate Otherwise(db: Keyspace, cfg: Config, req: Request, matched: seq<RE.FilterRule>) {
    && !Exists(db, BanKey(req.ip), req.at) && req.geoAllowed && !req.isAnomaly
    && (forall i :: 0 <= i < |matched| ==> !InBlocked(matched[i], req.country))
    && ReplayTrail(db, cfg, req).outcome.None?
  }

  lemma {:induction false} GrantedIsForwarded(db: Keyspace, cfg: Config, req: Request, matched: seq<RE.FilterRule>)
    requires Otherwise(db, cfg, req, matched)
    requires AllGranted(db, cfg, LimitCalls(req, RE.Limits(matched)))
    ensures Reached(Decide(db, cfg, req, matched).outcome.value)
  {
    hide RE.Limits, AllGranted, RunFrom, RuleTrail, Reply;
    var limits := RE.Limits(matched);
    var calls, last := RuleCalls(req, limits, 0), LimitOp(req, None, |limits|);
    assert LimitCalls(req, limits) == calls + [last];
    var db' := RunFrom(db, cfg, calls);
    AllGrantedSplit(db, cfg, calls, [last]);
    OneGranted(db', cfg, last);
    GrantedRulesPass(db, cfg, req, matched, 0);
    ReplayKeepsLimits(db', cfg, req, last);
    if ChecksReplay(req) {
      LimitsKeepReplay(db, cfg, req, calls);
    }
  }

  /** At one clock reading and with a fresh bucket, a request that nothing else stops goes upstream
      iff its limits are roomy. */
  lemma {:induction false} FreshForwardedIff(db: Keyspace, cfg: Config, req: Request, matched: seq<RE.FilterRule>,
                                             t: real)
    requires forall k: nat :: k <= RE.Limiting(matched) ==> req.reading(k) == t
    requires Otherwise(db, cfg, req, matched) && !TB.LiveCell(CellAt(db, RateKey(req.ip)), req.at)
    ensures Reached(Decide(db, cfg, req, matched).outcome.value) <==> Roomy(cfg, RE.Limits(matched))
  {
    hide Decide, AllGranted, LimitCalls, Together, Otherwise, Roomy;
    var limits := RE.Limits(matched);
    if Reached(Decide(db, cfg, req, matched).outcome.value) {
      ForwardedIsRoomy(db, cfg, req, matched, t);
    } else if Roomy(cfg, limits) {
      RoomyIsRoom(cfg, req, limits);
      FreshGrantsIff(db, cfg, LimitCalls(req, limits), req.ip, t, req.at);
      GrantedIsForwarded(db, cfg, req, matched);
    }
  }
}
