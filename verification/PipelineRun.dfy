/** Runs of the gateway: HTTP requests of all clients, admin actions and the replay checks of the
    other transports, on one shared store. */
module PipelineRun {
  import opened Options
  import opened TimedStore
  import opened Keys
  import opened SharedStore
  import opened Pipeline
  import RE = RuleEngine

  datatype Action =
    | Http(req: Request, matched: seq<RE.FilterRule>)
    | AdminBan(ip: string, reason: string, at: real)
    | AdminUnban(ip: string, at: real)
    | PacketCheck(client: string, nonce: string, timestamp: real, now: real, at: real)

  function OpsOf(db: Keyspace, cfg: Config, a: Action): seq<Op> {
    match a
    case Http(req, matched) => Decide(db, cfg, req, matched).ops
    case AdminBan(ip, reason, at) => [BanOp(ip, reason, at)]
    case AdminUnban(ip, at) => [UnbanOp(ip, at)]
    case PacketCheck(client, nonce, timestamp, now, at) => [ValidateOp(client, nonce, timestamp, now, at)]
  }

  /** Every operation that the first `n` actions ran on the store. */
  function Trace(run: seq<Action>, cfg: Config, n: nat): seq<Op>
    requires n <= |run|
  {
    if n == 0 then []
    else Trace(run, cfg, n - 1) + OpsOf(RunFrom(map[], cfg, Trace(run, cfg, n - 1)), cfg, run[n - 1])
  }

  /** The store before action n. */
  function Before(run: seq<Action>, cfg: Config, n: nat): Keyspace
    requires n <= |run|
  {
    RunFrom(map[], cfg, Trace(run, cfg, n))
  }

  lemma {:induction false} TraceGrows(run: seq<Action>, cfg: Config, a: nat, b: nat)
    requires a <= b <= |run|
    ensures Trace(run, cfg, a) <= Trace(run, cfg, b)
    decreases b - a
  {
    hide OpsOf, RunFrom;
    if a < b {
      TraceGrows(run, cfg, a, b - 1);
    }
  }

  // ----- what a forwarded request costs -----

  /** The q-th operation of `ops`, started on `db`, is a granted limiter call. */
  predicate GrantedFrom(db: Keyspace, cfg: Config, ops: seq<Op>, q: nat)
    requires q < |ops|
  {
    ops[q].AllowOp? && Reply(RunFrom(db, cfg, ops[..q]), cfg, ops[q]) == Granted(true)
  }

  lemma {:induction false} GrantedConcat(db: Keyspace, cfg: Config, a: seq<Op>, b: seq<Op>, q: nat)
    requires q < |a| + |b|
    ensures q < |a| ==> (a + b)[q] == a[q] && (GrantedFrom(db, cfg, a + b, q) <==> GrantedFrom(db, cfg, a, q))
    ensures q >= |a| ==> (a + b)[q] == b[q - |a|]
    ensures q >= |a| ==> (GrantedFrom(db, cfg, a + b, q) <==> GrantedFrom(RunFrom(db, cfg, a), cfg, b, q - |a|))
  {
    if q < |a| {
      assert (a + b)[..q] == a[..q];
    } else {
      assert (a + b)[..q] == a + b[..q - |a|];
      RunFromConcat(db, cfg, a, b[..q - |a|]);
    }
  }

  lemma {:induction false} StepGranted(db: Keyspace, cfg: Config, req: Request, rule: RE.FilterRule, k: nat)
    requires RuleStep(db, cfg, req, rule, k).outcome.None?
    ensures var ops := RuleStep(db, cfg, req, rule, k).ops;
      && (rule.maxRequestsPerSec.Some? <==> ops != [])
      && (ops != [] ==> ops == [LimitOp(req, rule.maxRequestsPerSec, k)] && GrantedFrom(db, cfg, ops, 0))
  {
    var ops := RuleStep(db, cfg, req, rule, k).ops;
    assert ops != [] ==> ops[..0] == [];
  }

  /** A rule loop that runs through made one granted call per limiting rule, in rule order. */
  lemma {:induction false} RulesAllGranted(db: Keyspace, cfg: Config, req: Request, rules: seq<RE.FilterRule>, k: nat)
    requires RuleTrail(db, cfg, req, rules, k).outcome.None?
    ensures var ops, limits := RuleTrail(db, cfg, req, rules, k).ops, RE.Limits(rules);
      && |ops| == |limits|
      && forall q :: 0 <= q < |ops| ==> ops[q] == LimitOp(req, Some(limits[q]), k + q) && GrantedFrom(db, cfg, ops, q)
    decreases |rules|
  {
    hide RuleStep, RunFrom, GrantedFrom, RE.Limits;
    if rules == [] {
      NoLimits();
    } else {
      var step := RuleStep(db, cfg, req, rules[0], k);
      var db' := RunFrom(db, cfg, step.ops);
      var rest := RuleTrail(db', cfg, req, rules[1..], k + |step.ops|).ops;
      StepGranted(db, cfg, req, rules[0], k);
      RulesAllGranted(db', cfg, req, rules[1..], k + |step.ops|);
      RE.LimitsFront(rules);
      forall q | 0 <= q < |step.ops + rest|
        ensures (step.ops + rest)[q] == LimitOp(req, Some(RE.Limits(rules)[q]), k + q)
             && GrantedFrom(db, cfg, step.ops + rest, q)
      {
        GrantedConcat(db, cfg, step.ops, rest, q);
      }
    }
  }

  lemma {:induction false} NoLimits()
    ensures RE.Limits([]) == []
  {
  }

  /** The request passed every limit: it went upstream. */
  predicate Reached(outcome: Outcome) { outcome.Forwarded? || outcome.UpstreamFailed? }

  /** A request that goes upstream ran its rule calls, perhaps a replay check, and the default limit. */
  lemma {:induction false} ForwardedTrail(db: Keyspace, cfg: Config, req: Request, matched: seq<RE.FilterRule>)
    requires Reached(Decide(db, cfg, req, matched).outcome.value)
    ensures var rules := RuleTrail(db, cfg, req, matched, 0);
      var replay := ReplayTrail(RunFrom(db, cfg, rules.ops), cfg, req);
      var db2 := RunFrom(RunFrom(db, cfg, rules.ops), cfg, replay.ops);
      var last := LimitOp(req, None, |rules.ops|);
      && rules.outcome.None? && replay.outcome.None?
      && Decide(db, cfg, req, matched).ops == rules.ops + replay.ops + [last]
      && Reply(db2, cfg, last) == Granted(true)
  {
    var rules := RuleTrail(db, cfg, req, matched, 0);
    var replay := ReplayTrail(RunFrom(db, cfg, rules.ops), cfg, req);
    assert rules.ops + (replay.ops + [LimitOp(req, None, |rules.ops|)])
        == rules.ops + replay.ops + [LimitOp(req, None, |rules.ops|)];
  }

  /** How many of the operations a .. b - 1, started on `db`, are granted limiter calls of `ip`. */
  function Grants(db: Keyspace, cfg: Config, ops: seq<Op>, ip: string, a: nat, b: nat): nat
    requires a <= b <= |ops|
    decreases b - a
  {
    if a == b then 0
    else Grants(db, cfg, ops, ip, a, b - 1)
         + if Cell(ops[b - 1]) == {RateKey(ip)} && GrantedFrom(db, cfg, ops, b - 1) then 1 else 0
  }

  lemma {:induction false} GrantsSplit(db: Keyspace, cfg: Config, ops: seq<Op>, ip: string, a: nat, k: nat, b: nat)
    requires a <= k <= b <= |ops|
    ensures Grants(db, cfg, ops, ip, a, b) == Grants(db, cfg, ops, ip, a, k) + Grants(db, cfg, ops, ip, k, b)
    decreases b - k
  {
    if k < b {
      GrantsSplit(db, cfg, ops, ip, a, k, b - 1);
    }
  }

  lemma {:induction false} GrantsOfAll(db: Keyspace, cfg: Config, ops: seq<Op>, ip: string, a: nat, b: nat)
    requires a <= b <= |ops|
    requires forall p :: a <= p < b ==> Cell(ops[p]) == {RateKey(ip)} && GrantedFrom(db, cfg, ops, p)
    ensures Grants(db, cfg, ops, ip, a, b) == b - a
    decreases b - a
  {
    if a < b {
      GrantsOfAll(db, cfg, ops, ip, a, b - 1);
    }
  }

  /** Operations appended to a trace are granted there as they were granted on the store it left. */
  lemma {:induction false} GrantsLater(db: Keyspace, cfg: Config, trace: seq<Op>, ops: seq<Op>, ip: string, a: nat,
                                       b: nat)
    requires a <= b <= |ops|
    ensures Grants(db, cfg, trace + ops, ip, |trace| + a, |trace| + b)
         == Grants(RunFrom(db, cfg, trace), cfg, ops, ip, a, b)
    decreases b - a
  {
    hide GrantedFrom, Cell, RunFrom;
    if a < b {
      GrantsLater(db, cfg, trace, ops, ip, a, b - 1);
      GrantedConcat(db, cfg, trace, ops, |trace| + b - 1);
    }
  }

  lemma {:induction false} LastGranted(db: Keyspace, cfg: Config, req: Request, matched: seq<RE.FilterRule>)
    requires Reached(Decide(db, cfg, req, matched).outcome.value)
    ensures var ops := Decide(db, cfg, req, matched).ops;
      ops != [] && GrantedFrom(db, cfg, ops, |ops| - 1) && Cell(ops[|ops| - 1]) == {RateKey(req.ip)}
  {
    ForwardedTrail(db, cfg, req, matched);
    var rules := RuleTrail(db, cfg, req, matched, 0);
    var replay := ReplayTrail(RunFrom(db, cfg, rules.ops), cfg, req);
    var ops := Decide(db, cfg, req, matched).ops;
    assert ops[..|ops| - 1] == rules.ops + replay.ops;
    RunFromConcat(db, cfg, rules.ops, replay.ops);
  }

  lemma {:induction false} GrantsOfNone(db: Keyspace, cfg: Config, ops: seq<Op>, ip: string, a: nat, b: nat)
    requires a <= b <= |ops|
    requires forall p :: a <= p < b ==> !ops[p].AllowOp?
    ensures Grants(db, cfg, ops, ip, a, b) == 0
    decreases b - a
  {
    if a < b {
      GrantsOfNone(db, cfg, ops, ip, a, b - 1);
    }
  }

  /** In a request that goes upstream, the first m operations and the last are granted limiter calls,
      and nothing between them is a limiter call. */
  lemma {:induction false} ForwardedShape(db: Keyspace, cfg: Config, req: Request, matched: seq<RE.FilterRule>)
    requires Reached(Decide(db, cfg, req, matched).outcome.value)
    ensures var ops, m := Decide(db, cfg, req, matched).ops, RE.Limiting(matched);
      && m < |ops|
      && (forall p :: 0 <= p < m ==> Cell(ops[p]) == {RateKey(req.ip)} && GrantedFrom(db, cfg, ops, p))
      && (forall p :: m <= p < |ops| - 1 ==> !ops[p].AllowOp?)
  {
    var ops, rules := Decide(db, cfg, req, matched).ops, RuleTrail(db, cfg, req, matched, 0).ops;
    var replay := ReplayTrail(RunFrom(db, cfg, rules), cfg, req).ops;
    ForwardedTrail(db, cfg, req, matched);
    RulesAllGranted(db, cfg, req, matched, 0);
    hide Decide, RuleTrail, GrantedFrom, Cell, RunFrom, RE.Limits, ReplayTrail, Reply;
    var tail := replay + [LimitOp(req, None, |rules|)];
    assert ops == rules + tail;
    forall p | 0 <= p < |rules|
      ensures Cell(ops[p]) == {RateKey(req.ip)} && GrantedFrom(db, cfg, ops, p)
    {
      GrantedConcat(db, cfg, rules, tail, p);
    }
    forall p | |rules| <= p < |ops| - 1 ensures !ops[p].AllowOp? {
      assert ops[p] == replay[p - |rules|];
    }
  }

  lemma {:induction false} ShapeCost(db: Keyspace, cfg: Config, ops: seq<Op>, ip: string, m: nat)
    requires m < |ops|
    requires forall p :: 0 <= p < m ==> Cell(ops[p]) == {RateKey(ip)} && GrantedFrom(db, cfg, ops, p)
    requires forall p :: m <= p < |ops| - 1 ==> !ops[p].AllowOp?
    requires Cell(ops[|ops| - 1]) == {RateKey(ip)} && GrantedFrom(db, cfg, ops, |ops| - 1)
    ensures Grants(db, cfg, ops, ip, 0, |ops|) == m + 1
  {
    hide Grants, Cell, GrantedFrom;
    GrantsOfAll(db, cfg, ops, ip, 0, m);
    GrantsOfNone(db, cfg, ops, ip, m, |ops| - 1);
    GrantsOfAll(db, cfg, ops, ip, |ops| - 1, |ops|);
    GrantsSplit(db, cfg, ops, ip, 0, m, |ops|);
    GrantsSplit(db, cfg, ops, ip, m, |ops| - 1, |ops|);
  }

  /** A request that goes upstream, matched by m limiting rules, takes exactly m + 1 tokens. */
  lemma {:induction false} ForwardedCost(db: Keyspace, cfg: Config, req: Request, matched: seq<RE.FilterRule>)
    requires Reached(Decide(db, cfg, req, matched).outcome.value)
    ensures var ops := Decide(db, cfg, req, matched).ops;
      Grants(db, cfg, ops, req.ip, 0, |ops|) == RE.Limiting(matched) + 1
  {
    hide Decide, GrantedFrom, Cell, RE.Limiting, Grants;
    ForwardedShape(db, cfg, req, matched);
    LastGranted(db, cfg, req, matched);
    ShapeCost(db, cfg, Decide(db, cfg, req, matched).ops, req.ip, RE.Limiting(matched));
  }

}
