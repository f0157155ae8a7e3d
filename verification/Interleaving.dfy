/** Requests that run side by side: between two guard calls of one request, anything may happen.

    A job is a request together with the answers that its guard calls got so far; what it asks next is
    a function of these.  Each guard call is one step of the store. */
module Interleaving {
  import opened Options
  import opened TimedStore
  import opened Keys
  import opened Events
  import opened SharedStore
  import opened RateLimiter
  import opened Pipeline
  import opened PipelineRun
  import opened Forwarding
  import RG = ReplayGuard
  import RE = RuleEngine
  import TB = TokenBucket
  import BE = BucketEnvelope

  datatype Ask =
    | AskBan
    | AskLimit(limit: Option<int>)
    | AskReplay
    | AskViolation(reason: string)
    | End(outcome: Outcome)

  function AfterViolation(req: Request, action: ActionType, reason: string, answers: seq<Answer>): Ask {
    if answers == [] then AskViolation(reason)
    else End(Rejected(action, if answers[0] == Banned(true) then 403 else 429, req.country))
  }

  function AfterReplay(req: Request, answers: seq<Answer>): Ask {
    if answers == [] then AskLimit(None)
    else if answers[0] != Granted(true) then AfterViolation(req, RateLimited, "rate_limit_exceeded", answers[1..])
    else if req.isAnomaly then AfterViolation(req, AnomalyBlocked, "anomaly_detected", answers[1..])
    else End(FinalOutcome(req))
  }

  function AfterRules(req: Request, answers: seq<Answer>): Ask {
    if !ChecksReplay(req) then AfterReplay(req, answers)
    else if answers == [] then AskReplay
    else if answers[0] != Validated(RG.Accepted) then End(Rejected(ReplayBlocked, 403, req.country))
    else AfterReplay(req, answers[1..])
  }

  function InRules(req: Request, rules: seq<RE.FilterRule>, answers: seq<Answer>): Ask
    decreases |rules|
  {
    if rules == [] then AfterRules(req, answers)
    else if rules[0].maxRequestsPerSec.Some? && answers == [] then AskLimit(rules[0].maxRequestsPerSec)
    else if rules[0].maxRequestsPerSec.Some? && answers[0] != Granted(true)
        then End(Rejected(RateLimited, 429, req.country))
    else if InBlocked(rules[0], req.country) then End(Rejected(GeoBlocked, 403, req.country))
    else InRules(req, rules[1..], if rules[0].maxRequestsPerSec.Some? then answers[1..] else answers)
  }

  /** What a request does next. */
  function NextAsk(req: Request, matched: seq<RE.FilterRule>, answers: seq<Answer>): Ask {
    if answers == [] then AskBan
    else if answers[0] == Banned(true) then End(Rejected(Blacklisted, 403, None))
    else if !req.geoAllowed then End(Rejected(GeoBlocked, 403, req.country))
    else InRules(req, matched, answers[1..])
  }

  // ----- what a forwarded job has paid -----

  function Paid(answers: seq<Answer>): nat {
    if answers == [] then 0
    else Paid(answers[..|answers| - 1]) + if answers[|answers| - 1] == Granted(true) then 1 else 0
  }

  lemma {:induction false} PaidFront(answers: seq<Answer>)
    requires answers != []
    ensures Paid(answers) == (if answers[0] == Granted(true) then 1 else 0) + Paid(answers[1..])
  {
    var n := |answers| - 1;
    if n > 0 {
      PaidFront(answers[..n]);
      assert answers[1..][..n - 1] == answers[..n][1..];
    } else {
      assert answers[..0] == [] && answers[1..] == [];
    }
  }

  lemma {:induction false} RulesPaid(req: Request, rules: seq<RE.FilterRule>, answers: seq<Answer>)
    requires InRules(req, rules, answers).End? && Reached(InRules(req, rules, answers).outcome)
    ensures Paid(answers) >= RE.Limiting(rules) + 1
    decreases |rules|
  {
    hide Paid, RE.Limits;
    if rules == [] {
      NoLimits();
      PaidFront(answers);
      if ChecksReplay(req) {
        PaidFront(answers[1..]);
      }
    } else {
      RE.LimitsFront(rules);
      if rules[0].maxRequestsPerSec.Some? {
        PaidFront(answers);
      }
      RulesPaid(req, rules[1..], if rules[0].maxRequestsPerSec.Some? then answers[1..] else answers);
    }
  }

  /** However its calls were interleaved with others: a job that goes upstream had a token granted for
      every limiting rule, and one more. */
  lemma {:induction false} ForwardedJobPaid(req: Request, matched: seq<RE.FilterRule>, answers: seq<Answer>)
    requires NextAsk(req, matched, answers).End? && Reached(NextAsk(req, matched, answers).outcome)
    ensures Paid(answers) >= RE.Limiting(matched) + 1
  {
    hide Paid, RE.Limiting, InRules;
    PaidFront(answers);
    RulesPaid(req, matched, answers[1..]);
  }

  // ----- the system -----

  datatype Job = Job(req: Request, matched: seq<RE.FilterRule>, answers: seq<Answer>)

  /** A job is numbered by the step at which its request arrived. */
  datatype System = System(jobs: map<nat, Job>, trace: seq<Op>)

  /** `Turn` lets a job make its next call: it read the clock at `now`, and the store answers at `at`.
      `Other` is any guard call from elsewhere. */
  datatype Step =
    | Arrive(req: Request, matched: seq<RE.FilterRule>)
    | Turn(id: nat, now: real, at: real)
    | Other(op: Op)

  function CallFor(req: Request, ask: Ask, now: real, at: real): Op
    requires ask.AskLimit? || (ask.AskReplay? && ChecksReplay(req)) || ask.AskViolation?
  {
    match ask
    case AskLimit(limit) => AllowOp(req.ip, limit, now, at)
    case AskReplay =>
      ValidateOp(if req.clientId.Some? then req.clientId.value else req.ip,
                 req.nonce.value, req.timestamp.value, now, at)
    case AskViolation(reason) => ViolationOp(req.ip, reason, at)
  }

  lemma {:induction false} ReplayIsAsked(req: Request, rules: seq<RE.FilterRule>, answers: seq<Answer>)
    ensures InRules(req, rules, answers).AskReplay? ==> ChecksReplay(req)
    decreases |rules|
  {
    if rules != [] {
      ReplayIsAsked(req, rules[1..],
                    if rules[0].maxRequestsPerSec.Some? && answers != [] then answers[1..] else answers);
    }
  }

  /** One call of one job: what it asks of the store, and the job with the answer. */
  function TakeTurn(db: Keyspace, cfg: Config, job: Job, now: real, at: real): (seq<Op>, Job) {
    var ask := NextAsk(job.req, job.matched, job.answers);
    if ask.End? then ([], job)
    else if ask.AskBan? then ([], job.(answers := job.answers + [Banned(Exists(db, BanKey(job.req.ip), at))]))
    else
      assert ask.AskReplay? ==> ChecksReplay(job.req) by {
        ReplayIsAsked(job.req, job.matched, job.answers[1..]);
      }
      var op := CallFor(job.req, ask, now, at);
      ([op], job.(answers := job.answers + [Reply(db, cfg, op)]))
  }

  function StoreOf(s: System, cfg: Config): Keyspace { RunFrom(map[], cfg, s.trace) }

  function Next(s: System, cfg: Config, n: nat, step: Step): System {
    match step
    case Arrive(req, matched) => s.(jobs := s.jobs[n := Job(req, matched, [])])
    case Other(op) => s.(trace := s.trace + [op])
    case Turn(id, now, at) =>
      if id !in s.jobs then s
      else
        var (ops, job) := TakeTurn(StoreOf(s, cfg), cfg, s.jobs[id], now, at);
        System(s.jobs[id := job], s.trace + ops)
  }

  function StateAfter(run: seq<Step>, cfg: Config, n: nat): System
    requires n <= |run|
  {
    if n == 0 then System(map[], []) else Next(StateAfter(run, cfg, n - 1), cfg, n - 1, run[n - 1])
  }

  // ----- the bound, in every interleaving -----

  function PaidBy(jobs: map<nat, Job>, ip: string, id: nat): nat {
    if id in jobs && jobs[id].req.ip == ip then Paid(jobs[id].answers) else 0
  }

  /** What the jobs of `ip` that arrived at the steps a .. b - 1 have paid so far. */
  function PaidSum(jobs: map<nat, Job>, ip: string, a: nat, b: nat): nat
    requires a <= b
    decreases b - a
  {
    if a == b then 0 else PaidSum(jobs, ip, a, b - 1) + PaidBy(jobs, ip, b - 1)
  }

  lemma {:induction false} PaidSumUpdate(jobs: map<nat, Job>, ip: string, a: nat, b: nat, id: nat, job: Job)
    requires a <= b
    ensures PaidSum(jobs[id := job], ip, a, b)
         == PaidSum(jobs, ip, a, b) + if a <= id < b then PaidBy(jobs[id := job], ip, id) - PaidBy(jobs, ip, id) else 0
    decreases b - a
  {
    hide PaidBy;
    if a < b {
      PaidSumUpdate(jobs, ip, a, b - 1, id, job);
      OthersPaidTheSame(jobs, ip, b - 1, id, job);
    }
  }

  lemma {:induction false} OthersPaidTheSame(jobs: map<nat, Job>, ip: string, other: nat, id: nat, job: Job)
    ensures other != id ==> PaidBy(jobs[id := job], ip, other) == PaidBy(jobs, ip, other)
  {
  }

  lemma {:induction false} PaidSnoc(answers: seq<Answer>, x: Answer)
    ensures Paid(answers + [x]) == Paid(answers) + if x == Granted(true) then 1 else 0
  {
    assert (answers + [x])[..|answers|] == answers;
  }

  /** A job pays only by a granted limiter call of its own ip. */
  lemma {:induction false} TurnPays(db: Keyspace, cfg: Config, job: Job, now: real, at: real)
    ensures var (ops, job') := TakeTurn(db, cfg, job, now, at);
      && job'.req == job.req && job'.matched == job.matched && |ops| <= 1
      && Paid(job.answers) <= Paid(job'.answers) <= Paid(job.answers) + 1
      && (Paid(job'.answers) == Paid(job.answers) + 1 ==>
            ops != [] && Cell(ops[0]) == {RateKey(job.req.ip)} && GrantedFrom(db, cfg, ops, 0))
  {
    hide Paid, NextAsk, Reply;
    var ask := NextAsk(job.req, job.matched, job.answers);
    var (ops, job') := TakeTurn(db, cfg, job, now, at);
    if job'.answers != job.answers {
      PaidSnoc(job.answers, job'.answers[|job.answers|]);
      assert ops != [] ==> ops[..0] == [];
      GrantedOnlyByLimits(db, cfg, if ops != [] then ops[0] else AllowOp("", None, now, at));
    }
  }

  lemma {:induction false} GrantedOnlyByLimits(db: Keyspace, cfg: Config, op: Op)
    ensures Reply(db, cfg, op).Granted? <==> op.AllowOp?
    ensures Reply(db, cfg, op).Banned? <==> op.ViolationOp?
  {
  }

  lemma {:induction false} GrantsGrow(cfg: Config, trace: seq<Op>, ops: seq<Op>, ip: string, from: nat)
    requires from <= |trace| && |ops| <= 1
    ensures Grants(map[], cfg, trace + ops, ip, from, |trace + ops|)
         == Grants(map[], cfg, trace, ip, from, |trace|)
            + if ops != [] && Cell(ops[0]) == {RateKey(ip)} && GrantedFrom(RunFrom(map[], cfg, trace), cfg, ops, 0)
                then 1 else 0
  {
    hide GrantedFrom, Cell;
    GrantsPrefix(cfg, trace, ops, ip, from, |trace|);
    if ops == [] {
      assert trace + ops == trace;
    } else {
      GrantedConcat(map[], cfg, trace, ops, |trace|);
    }
  }

  lemma {:induction false} TraceGrows(run: seq<Step>, cfg: Config, a: nat, b: nat)
    requires a <= b <= |run|
    ensures |StateAfter(run, cfg, a).trace| <= |StateAfter(run, cfg, b).trace|
    ensures forall id :: id in StateAfter(run, cfg, b).jobs ==> id < b
    decreases b
  {
    hide TakeTurn, RunFrom;
    if a < b {
      TraceGrows(run, cfg, a, b - 1);
    } else if b > 0 {
      TraceGrows(run, cfg, b - 1, b - 1);
    }
  }

  lemma {:induction false} StepPays(s: System, cfg: Config, n: nat, step: Step, ip: string, a: nat, from: nat)
    requires a <= n && from <= |s.trace| && (forall id :: id in s.jobs ==> id < n)
    requires PaidSum(s.jobs, ip, a, n) <= Grants(map[], cfg, s.trace, ip, from, |s.trace|)
    ensures var s' := Next(s, cfg, n, step);
      from <= |s'.trace| && PaidSum(s'.jobs, ip, a, n + 1) <= Grants(map[], cfg, s'.trace, ip, from, |s'.trace|)
  {
    hide TakeTurn, Grants, Cell, GrantedFrom, RunFrom, Paid;
    match step
    case Arrive(req, matched) =>
      PaidSumUpdate(s.jobs, ip, a, n, n, Job(req, matched, []));
      NothingPaid();
    case Other(op) =>
      GrantsGrow(cfg, s.trace, [op], ip, from);
    case Turn(id, now, at) =>
      if id in s.jobs {
        var (ops, job) := TakeTurn(StoreOf(s, cfg), cfg, s.jobs[id], now, at);
        TurnPays(StoreOf(s, cfg), cfg, s.jobs[id], now, at);
        PaidSumUpdate(s.jobs, ip, a, n, id, job);
        GrantsGrow(cfg, s.trace, ops, ip, from);
      }
  }

  lemma {:induction false} NothingPaid()
    ensures Paid([]) == 0
  {
  }

  /** In every interleaving, all tokens that the jobs of the steps a .. b - 1 have paid were granted since
      step a, each to one of them. */
  lemma {:induction false} PaidWasGranted(run: seq<Step>, cfg: Config, ip: string, a: nat, b: nat)
    requires a <= b <= |run|
    ensures |StateAfter(run, cfg, a).trace| <= |StateAfter(run, cfg, b).trace|
    ensures PaidSum(StateAfter(run, cfg, b).jobs, ip, a, b)
         <= Grants(map[], cfg, StateAfter(run, cfg, b).trace, ip, |StateAfter(run, cfg, a).trace|,
                   |StateAfter(run, cfg, b).trace|)
    decreases b - a
  {
    hide Next, Grants, PaidBy;
    TraceGrows(run, cfg, a, b);
    if a < b {
      PaidWasGranted(run, cfg, ip, a, b - 1);
      TraceGrows(run, cfg, a, b - 1);
      StepPays(StateAfter(run, cfg, b - 1), cfg, b - 1, run[b - 1], ip, a, |StateAfter(run, cfg, a).trace|);
    }
  }

  /** The job that arrived at step `id` has gone upstream. */
  predicate Upstream(jobs: map<nat, Job>, ip: string, id: nat) {
    id in jobs && jobs[id].req.ip == ip &&
    var ask := NextAsk(jobs[id].req, jobs[id].matched, jobs[id].answers);
    ask.End? && Reached(ask.outcome)
  }

  /** One token per limiting rule and one more, for every job of the steps a .. b - 1 that went upstream. */
  function Owed(jobs: map<nat, Job>, ip: string, a: nat, b: nat): nat
    requires a <= b
    decreases b - a
  {
    if a == b then 0
    else Owed(jobs, ip, a, b - 1) + if Upstream(jobs, ip, b - 1) then RE.Limiting(jobs[b - 1].matched) + 1 else 0
  }

  lemma {:induction false} OwedWasPaid(jobs: map<nat, Job>, ip: string, a: nat, b: nat)
    requires a <= b
    ensures Owed(jobs, ip, a, b) <= PaidSum(jobs, ip, a, b)
    decreases b - a
  {
    hide NextAsk, RE.Limiting, Paid;
    if a < b {
      OwedWasPaid(jobs, ip, a, b - 1);
      if Upstream(jobs, ip, b - 1) {
        ForwardedJobPaid(jobs[b - 1].req, jobs[b - 1].matched, jobs[b - 1].answers);
      }
    }
  }

  /** The end-to-end bound without atomic requests: in every interleaving of any number of handlers, the
      requests of one ip that arrive from step a on and have gone upstream by step b fit - at one token
      per limiting rule and one more - into the envelope of the limiter calls i .. j around them, if the
      bucket's key does not expire among these or its expiry cannot be seen. */
  lemma {:induction false} InterleavedBound(run: seq<Step>, cfg: Config, ip: string, a: nat, b: nat, i: nat, j: nat)
    requires a <= b <= |run|
    requires var trace, from := StateAfter(run, cfg, b).trace, |StateAfter(run, cfg, a).trace|;
      && from <= |trace| && i <= CallIndex(trace, ip, from) && i <= j && j + 1 == |CallsOf(trace, cfg, ip)|
      && DecisionsOf(trace, cfg, ip)[j] && BE.Enveloped(CallsOf(trace, cfg, ip), cfg.refillPerSec, BUCKET_TTL, i, j)
    ensures var s := StateAfter(run, cfg, b);
      Owed(s.jobs, ip, a, b) as real <= TB.Bound(CallsOf(s.trace, cfg, ip), cfg.refillPerSec, i, j)
  {
    var s, from := StateAfter(run, cfg, b), |StateAfter(run, cfg, a).trace|;
    OwedWasPaid(s.jobs, ip, a, b);
    PaidWasGranted(run, cfg, ip, a, b);
    hide StateAfter, Owed, PaidSum;
    GrantsAreAccepted(s.trace, cfg, ip, from, |s.trace|);
    BE.EnvelopeHolds(CallsOf(s.trace, cfg, ip), cfg.refillPerSec, BUCKET_TTL, i, j);
    TB.AcceptedSplit(DecisionsOf(s.trace, cfg, ip), i, CallIndex(s.trace, ip, from), j + 1);
  }
}
