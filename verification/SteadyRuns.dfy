/** Runs in which the expiry of a bucket cannot be seen: there the forwarding bounds hold over every
    stretch, however long an ip was idle in between. */
module SteadyRuns {
  import opened Options
  import opened TimedStore
  import opened Keys
  import opened SharedStore
  import opened RateLimiter
  import opened Pipeline
  import opened PipelineRun
  import opened Forwarding
  import opened PipelineBans
  import IL = Interleaving
  import RE = RuleEngine
  import TB = TokenBucket
  import BX = BucketExpiry
  import BE = BucketEnvelope

  /** A limiter call that read the store's clock, with one of these capacities. */
  predicate SteadyOp(op: Op, cfg: Config, capacities: set<int>) {
    op.AllowOp? ==> op.now == op.at && EffectiveCapacity(cfg.capacity, op.capacityOverride) in capacities
  }

  predicate SteadyOps(ops: seq<Op>, cfg: Config, capacities: set<int>) {
    forall k :: 0 <= k < |ops| ==> SteadyOp(ops[k], cfg, capacities)
  }

  lemma {:induction false} OwnIsSteady(ops: seq<Op>, cfg: Config, capacities: set<int>, cell: set<string>, n: nat)
    requires n <= |ops| && SteadyOps(ops, cfg, capacities)
    ensures SteadyOps(Own(ops, cell, n), cfg, capacities)
  {
    hide Cell, SteadyOp;
    if n > 0 {
      OwnIsSteady(ops, cfg, capacities, cell, n - 1);
    }
  }

  /** The limiter calls of one ip in a steady trace are a steady run of its bucket. */
  lemma {:induction false} SteadyCalls(trace: seq<Op>, cfg: Config, capacities: set<int>, ip: string, upTo: real)
    requires Timed(trace, upTo) && SteadyOps(trace, cfg, capacities)
      && BX.Refills(capacities, cfg.refillPerSec, BUCKET_TTL)
    ensures BE.Steady(CallsOf(trace, cfg, ip), capacities, cfg.refillPerSec, BUCKET_TTL)
  {
    OwnAllows(trace, ip, |trace|);
    OwnIsSteady(trace, cfg, capacities, {RateKey(ip)}, |trace|);
    OwnIsTimed(trace, {RateKey(ip)}, |trace|, upTo);
    hide Own, BX.Refills;
    var own, calls := Own(trace, {RateKey(ip)}, |trace|), CallsOf(trace, cfg, ip);
    forall k | 0 <= k < |calls|
      ensures calls[k].now == calls[k].at == own[k].at
      ensures exists c :: c in capacities && calls[k].capacity == c as real
    {
      assert SteadyOp(own[k], cfg, capacities);
      assert EffectiveCapacity(cfg.capacity, own[k].capacityOverride) in capacities;
    }
  }

  // ----- atomic requests -----

  /** The default capacity and the limits of these rules, other than 0, are all in the set. */
  predicate LimitsIn(cfg: Config, capacities: set<int>, rules: seq<RE.FilterRule>) {
    && cfg.capacity in capacities
    && forall i :: 0 <= i < |rules| && rules[i].maxRequestsPerSec.Some? && rules[i].maxRequestsPerSec.value != 0 ==>
         rules[i].maxRequestsPerSec.value in capacities
  }

  ghost predicate SteadyAction(a: Action, cfg: Config, capacities: set<int>) {
    a.Http? ==> (forall k: nat :: a.req.reading(k) == a.req.at) && LimitsIn(cfg, capacities, a.matched)
  }

  lemma {:induction false} RulesAreSteady(db: Keyspace, cfg: Config, capacities: set<int>, req: Request,
                                          rules: seq<RE.FilterRule>, k: nat)
    requires (forall q: nat :: req.reading(q) == req.at) && LimitsIn(cfg, capacities, rules)
    ensures SteadyOps(RuleTrail(db, cfg, req, rules, k).ops, cfg, capacities)
    decreases |rules|
  {
    hide RunFrom, Reply;
    if rules != [] {
      var step := RuleStep(db, cfg, req, rules[0], k);
      RulesAreSteady(RunFrom(db, cfg, step.ops), cfg, capacities, req, rules[1..], k + |step.ops|);
    }
  }

  lemma {:induction false} RestIsSteady(db: Keyspace, cfg: Config, capacities: set<int>, req: Request, k: nat)
    requires (forall q: nat :: req.reading(q) == req.at) && cfg.capacity in capacities
    ensures SteadyOps(Rest(db, cfg, req, k).ops, cfg, capacities)
  {
    hide RunFrom, Reply, Apply;
  }

  lemma {:induction false} ActionIsSteady(db: Keyspace, cfg: Config, capacities: set<int>, a: Action)
    requires SteadyAction(a, cfg, capacities)
    ensures SteadyOps(OpsOf(db, cfg, a), cfg, capacities)
  {
    hide RunFrom, RuleTrail, Rest;
    if a.Http? {
      var rules := RuleTrail(db, cfg, a.req, a.matched, 0).ops;
      RulesAreSteady(db, cfg, capacities, a.req, a.matched, 0);
      RestIsSteady(RunFrom(db, cfg, rules), cfg, capacities, a.req, |rules|);
    }
  }

  /** Requests read the store's clock, in order, and an hour refills every capacity in use. */
  ghost predicate SteadyRun(run: seq<Action>, cfg: Config, capacities: set<int>) {
    && InOrder(run) && BX.Refills(capacities, cfg.refillPerSec, BUCKET_TTL)
    && forall n :: 0 <= n < |run| ==> SteadyAction(run[n], cfg, capacities)
  }

  lemma {:induction false} TraceIsSteady(run: seq<Action>, cfg: Config, capacities: set<int>, n: nat)
    requires n <= |run| && forall m :: 0 <= m < |run| ==> SteadyAction(run[m], cfg, capacities)
    ensures SteadyOps(Trace(run, cfg, n), cfg, capacities)
  {
    hide OpsOf, RunFrom, SteadyOp, SteadyAction, InOrder;
    if n > 0 {
      TraceIsSteady(run, cfg, capacities, n - 1);
      ActionIsSteady(Before(run, cfg, n - 1), cfg, capacities, run[n - 1]);
    }
  }

  /** The forwarding bound over every stretch of a steady run, expiries included. */
  lemma {:induction false} SteadyForwarding(run: seq<Action>, cfg: Config, capacities: set<int>, ip: string, a: nat,
                                            b: nat, i: nat, j: nat)
    requires a <= b <= |run| && SteadyRun(run, cfg, capacities)
    requires var trace := Trace(run, cfg, b);
      && |Trace(run, cfg, a)| <= |trace| && i <= CallIndex(trace, ip, |Trace(run, cfg, a)|)
      && i <= j && j + 1 == |CallsOf(trace, cfg, ip)| && DecisionsOf(trace, cfg, ip)[j]
    ensures Spent(run, cfg, ip, a, b) as real <= TB.Bound(CallsOf(Trace(run, cfg, b), cfg, ip), cfg.refillPerSec, i, j)
  {
    hide Trace, SteadyOps, Spent, TB.Bound, BE.Steady, Timed;
    var upTo := if b > 0 then TimeOf(run[b - 1]) else 0.0;
    TraceIsSteady(run, cfg, capacities, b);
    TraceIsTimed(run, cfg, b, upTo);
    SteadyCalls(Trace(run, cfg, b), cfg, capacities, ip, upTo);
    ForwardingBound(run, cfg, ip, a, b, i, j);
  }

  // ----- interleaved requests -----

  predicate SteadyStep(step: IL.Step, cfg: Config, capacities: set<int>) {
    match step
    case Arrive(_, matched) => LimitsIn(cfg, capacities, matched)
    case Turn(_, now, at) => now == at
    case Other(op) => SteadyOp(op, cfg, capacities)
  }

  /** When a step runs on the store; an arrival does not. */
  predicate RunsBy(step: IL.Step, upTo: real) {
    match step
    case Arrive(_, _) => true
    case Turn(_, _, at) => at <= upTo
    case Other(op) => op.at <= upTo
  }

  /** Every step of the first `n` on the store runs by the time of each later one. */
  predicate SteadyInterleaving(run: seq<IL.Step>, cfg: Config, capacities: set<int>) {
    && BX.Refills(capacities, cfg.refillPerSec, BUCKET_TTL)
    && (forall n :: 0 <= n < |run| ==> SteadyStep(run[n], cfg, capacities))
    && (forall m, n :: 0 <= m < n < |run| && !run[n].Arrive? ==> RunsBy(run[m], StepTime(run[n])))
  }

  function StepTime(step: IL.Step): real
    requires !step.Arrive?
  {
    if step.Turn? then step.at else step.op.at
  }

  lemma {:induction false} AskedLimit(req: Request, cfg: Config, capacities: set<int>, rules: seq<RE.FilterRule>,
                                      answers: seq<Answer>)
    requires LimitsIn(cfg, capacities, rules)
    ensures var ask := IL.InRules(req, rules, answers);
      ask.AskLimit? ==> EffectiveCapacity(cfg.capacity, ask.limit) in capacities
    decreases |rules|
  {
    if rules != [] {
      AskedLimit(req, cfg, capacities, rules[1..],
                 if rules[0].maxRequestsPerSec.Some? && answers != [] then answers[1..] else answers);
    }
  }

  lemma {:induction false} TurnIsSteady(db: Keyspace, cfg: Config, capacities: set<int>, job: IL.Job, at: real)
    requires LimitsIn(cfg, capacities, job.matched)
    ensures var (ops, job') := IL.TakeTurn(db, cfg, job, at, at);
      && job'.matched == job.matched && |ops| <= 1
      && forall k :: 0 <= k < |ops| ==> SteadyOp(ops[k], cfg, capacities) && ops[k].at == at
  {
    hide IL.InRules, Reply;
    if job.answers != [] {
      AskedLimit(job.req, cfg, capacities, job.matched, job.answers[1..]);
    }
  }

  predicate SteadyJobs(jobs: map<nat, IL.Job>, cfg: Config, capacities: set<int>) {
    forall id :: id in jobs ==> LimitsIn(cfg, capacities, jobs[id].matched)
  }

  lemma {:induction false} StepIsSteady(s: IL.System, cfg: Config, capacities: set<int>, n: nat, step: IL.Step,
                                        upTo: real)
    requires SteadyStep(step, cfg, capacities) && SteadyJobs(s.jobs, cfg, capacities)
      && SteadyOps(s.trace, cfg, capacities)
    requires Timed(s.trace, if step.Arrive? then upTo else StepTime(step)) && RunsBy(step, upTo)
    ensures var s' := IL.Next(s, cfg, n, step);
      SteadyJobs(s'.jobs, cfg, capacities) && SteadyOps(s'.trace, cfg, capacities) && Timed(s'.trace, upTo)
  {
    hide IL.TakeTurn, LimitsIn, SteadyOp;
    if step.Turn? && step.id in s.jobs {
      TurnIsSteady(IL.StoreOf(s, cfg), cfg, capacities, s.jobs[step.id], step.at);
    }
  }

  lemma {:induction false} InterleavingIsSteady(run: seq<IL.Step>, cfg: Config, capacities: set<int>, n: nat,
                                                upTo: real)
    requires n <= |run| && SteadyInterleaving(run, cfg, capacities)
    requires forall m :: 0 <= m < n ==> RunsBy(run[m], upTo)
    ensures var s := IL.StateAfter(run, cfg, n);
      SteadyJobs(s.jobs, cfg, capacities) && SteadyOps(s.trace, cfg, capacities) && Timed(s.trace, upTo)
  {
    if n > 0 {
      InterleavingIsSteady(run, cfg, capacities, n - 1, if run[n - 1].Arrive? then upTo else StepTime(run[n - 1]));
      hide IL.Next, SteadyStep, SteadyJobs, SteadyOps, Timed;
      StepIsSteady(IL.StateAfter(run, cfg, n - 1), cfg, capacities, n - 1, run[n - 1], upTo);
    }
  }

  /** The forwarding bound in every steady interleaving, over every stretch, expiries included. */
  lemma {:induction false} SteadyInterleavedBound(run: seq<IL.Step>, cfg: Config, capacities: set<int>, ip: string,
                                                  a: nat, b: nat,
                                                  i: nat, j: nat, upTo: real)
    requires a <= b <= |run| && SteadyInterleaving(run, cfg, capacities)
    requires forall m :: 0 <= m < b ==> RunsBy(run[m], upTo)
    requires var trace, from := IL.StateAfter(run, cfg, b).trace, |IL.StateAfter(run, cfg, a).trace|;
      && from <= |trace| && i <= CallIndex(trace, ip, from) && i <= j && j + 1 == |CallsOf(trace, cfg, ip)|
      && DecisionsOf(trace, cfg, ip)[j]
    ensures var s := IL.StateAfter(run, cfg, b);
      IL.Owed(s.jobs, ip, a, b) as real <= TB.Bound(CallsOf(s.trace, cfg, ip), cfg.refillPerSec, i, j)
  {
    hide IL.StateAfter, SteadyOps, IL.Owed, TB.Bound, BE.Steady, Timed, SteadyStep;
    InterleavingIsSteady(run, cfg, capacities, b, upTo);
    SteadyCalls(IL.StateAfter(run, cfg, b).trace, cfg, capacities, ip, upTo);
    IL.InterleavedBound(run, cfg, ip, a, b, i, j);
  }
}
