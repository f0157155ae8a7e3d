/** The counters when requests overlap: each handler writes to them once, when it comes to its end. */
module InterleavedAccounting {
  import opened TimedStore
  import opened Events
  import opened SharedStore
  import opened Pipeline
  import opened Interleaving
  import opened Reports
  import AC = Accounting
  import RE = RuleEngine

  datatype Counters = Counters(requests: map<ActionType, nat>, blocked: map<ActionType, nat>)

  function AskOf(job: Job): Ask { NextAsk(job.req, job.matched, job.answers) }

  /** What a handler counts at its end: a failed upstream call is not counted at all. */
  function Count(c: Counters, outcome: Outcome): Counters {
    match outcome
    case UpstreamFailed => c
    case Forwarded(_) => c.(requests := Bump(c.requests, Allowed))
    case Rejected(action, _, _) => Counters(Bump(c.requests, action), Bump(c.blocked, action))
  }

  /** The counters after the first `n` steps: a handler counts in the step that ends it. */
  function CountersAfter(run: seq<Step>, cfg: Config, n: nat): Counters
    requires n <= |run|
  {
    if n == 0 then Counters(map[], map[])
    else
      var c, before, after := CountersAfter(run, cfg, n - 1), StateAfter(run, cfg, n - 1).jobs,
          StateAfter(run, cfg, n).jobs;
      if run[n - 1].Turn? && run[n - 1].id in before && !AskOf(before[run[n - 1].id]).End? && run[n - 1].id in after
         && AskOf(after[run[n - 1].id]).End?
      then Count(c, AskOf(after[run[n - 1].id]).outcome)
      else c
  }

  function Arrivals(run: seq<Step>, n: nat): nat
    requires n <= |run|
  {
    if n == 0 then 0 else Arrivals(run, n - 1) + if run[n - 1].Arrive? then 1 else 0
  }

  // ----- how the handlers stand -----

  predicate AnyJob(job: Job) { true }
  predicate Running(job: Job) { !AskOf(job).End? }
  predicate WasAllowed(job: Job) { AskOf(job).End? && AskOf(job).outcome.Forwarded? }
  predicate WasBlocked(job: Job) { AskOf(job).End? && AskOf(job).outcome.Rejected? }
  predicate HasFailed(job: Job) { AskOf(job).End? && AskOf(job).outcome.UpstreamFailed? }

  /** How many of the jobs with a number below `n` are such. */
  function Standing(jobs: map<nat, Job>, n: nat, p: Job -> bool): nat {
    if n == 0 then 0 else Standing(jobs, n - 1, p) + if n - 1 in jobs && p(jobs[n - 1]) then 1 else 0
  }

  function One(jobs: map<nat, Job>, id: nat, p: Job -> bool): nat {
    if id in jobs && p(jobs[id]) then 1 else 0
  }

  lemma {:induction false} StandingUpdate(jobs: map<nat, Job>, n: nat, p: Job -> bool, id: nat, job: Job)
    ensures Standing(jobs[id := job], n, p)
         == Standing(jobs, n, p) + if id < n then One(jobs[id := job], id, p) - One(jobs, id, p) else 0
  {
    if n > 0 {
      StandingUpdate(jobs, n - 1, p, id, job);
    }
  }

  /** Every job runs, was allowed, was blocked, or has failed. */
  lemma {:induction false} StandingsAddUp(jobs: map<nat, Job>, n: nat)
    ensures Standing(jobs, n, AnyJob)
         == Standing(jobs, n, Running) + Standing(jobs, n, WasAllowed) + Standing(jobs, n, WasBlocked)
             + Standing(jobs, n, HasFailed)
  {
    hide AskOf;
    if n > 0 {
      StandingsAddUp(jobs, n - 1);
    }
  }

  // ----- one handler -----

  lemma {:induction false} RulesNeverReject(req: Request, rules: seq<RE.FilterRule>, answers: seq<Answer>)
    ensures var ask := InRules(req, rules, answers);
      ask.End? && ask.outcome.Rejected? ==> ask.outcome.action != Allowed
    decreases |rules|
  {
    if rules != [] {
      RulesNeverReject(req, rules[1..],
                       if rules[0].maxRequestsPerSec.Some? && answers != [] then answers[1..] else answers);
    }
  }

  lemma {:induction false} NeverRejectedAsAllowed(job: Job)
    ensures WasBlocked(job) ==> AskOf(job).outcome.action != Allowed
  {
    if job.answers != [] {
      RulesNeverReject(job.req, job.matched, job.answers[1..]);
    }
    hide InRules;
  }

  lemma {:induction false} EndedStays(db: Keyspace, cfg: Config, job: Job, now: real, at: real)
    requires AskOf(job).End?
    ensures TakeTurn(db, cfg, job, now, at) == ([], job)
  {
    hide NextAsk;
  }

  // ----- the counters against the handlers -----

  lemma {:induction false} BumpTotal(counts: map<ActionType, nat>, action: ActionType)
    ensures Total(Bump(counts, action)) == Total(counts) + 1
    ensures AllowedOf(Bump(counts, action)) == AllowedOf(counts) + if action == Allowed then 1 else 0
  {
    TotalUpdate(counts, action, (if action in counts then counts[action] else 0) + 1);
    hide Total;
  }

  /** The counters agree with how the jobs below `n` stand. */
  ghost predicate Right(c: Counters, jobs: map<nat, Job>, n: nat) {
    && AllowedOf(c.requests) == Standing(jobs, n, WasAllowed)
    && Total(c.blocked) == Standing(jobs, n, WasBlocked)
    && Total(c.requests) == Standing(jobs, n, WasAllowed) + Standing(jobs, n, WasBlocked)
    && AC.Agree(c.requests, c.blocked)
  }

  lemma {:induction false} CountIsRight(c: Counters, jobs: map<nat, Job>, n: nat, id: nat, job: Job)
    requires Right(c, jobs, n) && id in jobs && id < n && Running(jobs[id]) && AskOf(job).End?
    ensures Right(Count(c, AskOf(job).outcome), jobs[id := job], n)
  {
    hide AskOf, Total, AllowedOf, Bump;
    NeverRejectedAsAllowed(job);
    StandingUpdate(jobs, n, WasAllowed, id, job);
    StandingUpdate(jobs, n, WasBlocked, id, job);
    match AskOf(job).outcome
    case UpstreamFailed =>
    case Forwarded(_) =>
      BumpTotal(c.requests, Allowed);
      BumpsAgree(c.requests, c.blocked, Allowed);
    case Rejected(action, _, _) =>
      BumpTotal(c.requests, action);
      BumpTotal(c.blocked, action);
      BumpsAgree(c.requests, c.blocked, action);
  }

  lemma {:induction false} BumpsAgree(requests: map<ActionType, nat>, blocked: map<ActionType, nat>, action: ActionType)
    requires AC.Agree(requests, blocked)
    ensures AC.Agree(Bump(requests, action), if action == Allowed then blocked else Bump(blocked, action))
  {
  }

  /** A job that still runs is neither allowed nor blocked. */
  lemma {:induction false} RunningIsRight(c: Counters, jobs: map<nat, Job>, n: nat, id: nat, job: Job)
    requires Right(c, jobs, n) && id in jobs && Running(jobs[id]) && Running(job)
    ensures Right(c, jobs[id := job], n)
  {
    hide AskOf, Total, AllowedOf, AC.Agree;
    StandingUpdate(jobs, n, WasAllowed, id, job);
    StandingUpdate(jobs, n, WasBlocked, id, job);
  }

  lemma {:induction false} NewIsRight(c: Counters, jobs: map<nat, Job>, n: nat, job: Job)
    requires Right(c, jobs, n) && n !in jobs && Running(job)
    ensures Right(c, jobs[n := job], n + 1)
  {
    hide AskOf, Total, AllowedOf, AC.Agree;
    StandingUpdate(jobs, n, WasAllowed, n, job);
    StandingUpdate(jobs, n, WasBlocked, n, job);
  }

  lemma {:induction false} LaterIsRight(c: Counters, jobs: map<nat, Job>, n: nat)
    requires Right(c, jobs, n) && n !in jobs
    ensures Right(c, jobs, n + 1)
  {
    hide AskOf, Total, AllowedOf, AC.Agree;
  }

  lemma {:induction false} TurnIsRight(run: seq<Step>, cfg: Config, n: nat)
    requires n < |run| && run[n].Turn? && Right(CountersAfter(run, cfg, n), StateAfter(run, cfg, n).jobs, n)
    requires forall id :: id in StateAfter(run, cfg, n).jobs ==> id < n
    ensures Right(CountersAfter(run, cfg, n + 1), StateAfter(run, cfg, n + 1).jobs, n)
    ensures n !in StateAfter(run, cfg, n + 1).jobs
  {
    hide AskOf, Right, TakeTurn, StoreOf, Count;
    var s, c, id := StateAfter(run, cfg, n), CountersAfter(run, cfg, n), run[n].id;
    if id in s.jobs {
      var (ops, job) := TakeTurn(StoreOf(s, cfg), cfg, s.jobs[id], run[n].now, run[n].at);
      if AskOf(s.jobs[id]).End? {
        EndedStays(StoreOf(s, cfg), cfg, s.jobs[id], run[n].now, run[n].at);
        assert s.jobs[id := job] == s.jobs;
      } else if AskOf(job).End? {
        CountIsRight(c, s.jobs, n, id, job);
      } else {
        RunningIsRight(c, s.jobs, n, id, job);
      }
    }
  }

  lemma {:induction false} FreshRuns(req: Request, matched: seq<RE.FilterRule>)
    ensures Running(Job(req, matched, []))
  {
  }

  lemma {:induction false} CountersAreRight(run: seq<Step>, cfg: Config, n: nat)
    requires n <= |run|
    ensures Right(CountersAfter(run, cfg, n), StateAfter(run, cfg, n).jobs, n)
  {
    hide AskOf, TakeTurn, StoreOf;
    if n > 0 {
      hide Right;
      CountersAreRight(run, cfg, n - 1);
      TraceGrows(run, cfg, n - 1, n - 1);
      var s, c := StateAfter(run, cfg, n - 1), CountersAfter(run, cfg, n - 1);
      match run[n - 1]
      case Arrive(req, matched) =>
        FreshRuns(req, matched);
        NewIsRight(c, s.jobs, n - 1, Job(req, matched, []));
      case Other(op) =>
        LaterIsRight(c, s.jobs, n - 1);
      case Turn(id, now, at) =>
        TurnIsRight(run, cfg, n - 1);
        LaterIsRight(CountersAfter(run, cfg, n), StateAfter(run, cfg, n).jobs, n - 1);
    }
  }

  lemma {:induction false} KnownStaysOne(jobs: map<nat, Job>, n: nat, id: nat, job: Job)
    requires n !in jobs
    ensures Standing(jobs[n := job], n + 1, AnyJob) == Standing(jobs, n, AnyJob) + 1
    ensures Standing(jobs, n + 1, AnyJob) == Standing(jobs, n, AnyJob)
    ensures id in jobs ==> Standing(jobs[id := job], n + 1, AnyJob) == Standing(jobs, n, AnyJob)
  {
    StandingUpdate(jobs, n, AnyJob, n, job);
    StandingUpdate(jobs, n, AnyJob, id, job);
  }

  lemma {:induction false} AllArrived(run: seq<Step>, cfg: Config, n: nat)
    requires n <= |run|
    ensures Standing(StateAfter(run, cfg, n).jobs, n, AnyJob) == Arrivals(run, n)
  {
    hide TakeTurn, StoreOf, AskOf;
    if n > 0 {
      hide Standing;
      AllArrived(run, cfg, n - 1);
      TraceGrows(run, cfg, n - 1, n - 1);
      var jobs, jobs' := StateAfter(run, cfg, n - 1).jobs, StateAfter(run, cfg, n).jobs;
      match run[n - 1]
      case Arrive(req, matched) => KnownStaysOne(jobs, n - 1, 0, Job(req, matched, []));
      case Other(op) => LaterKnowsNoMore(jobs, n - 1);
      case Turn(id, now, at) =>
        LaterKnowsNoMore(jobs, n - 1);
        if id in jobs {
          KnownStaysOne(jobs, n - 1, id, jobs'[id]);
        }
    }
  }

  lemma {:induction false} LaterKnowsNoMore(jobs: map<nat, Job>, n: nat)
    requires n !in jobs
    ensures Standing(jobs, n + 1, AnyJob) == Standing(jobs, n, AnyJob)
  {
  }

  /** Conservation in every interleaving: each request that arrived is counted as allowed, counted as
      blocked, has failed upstream, or is still running, and the two counters agree. */
  lemma {:induction false} InterleavedConservation(run: seq<Step>, cfg: Config, n: nat)
    requires n <= |run|
    ensures var c, jobs := CountersAfter(run, cfg, n), StateAfter(run, cfg, n).jobs;
      && Arrivals(run, n)
         == AllowedOf(c.requests) + Total(c.blocked) + Standing(jobs, n, HasFailed) + Standing(jobs, n, Running)
      && Total(c.requests) == AllowedOf(c.requests) + Total(c.blocked)
      && AllowedOf(c.requests) == Standing(jobs, n, WasAllowed)
      && Total(c.blocked) == Standing(jobs, n, WasBlocked)
      && AC.Agree(c.requests, c.blocked)
  {
    CountersAreRight(run, cfg, n);
    AllArrived(run, cfg, n);
    StandingsAddUp(StateAfter(run, cfg, n).jobs, n);
    hide CountersAfter, StateAfter, Arrivals, Standing, Total, AllowedOf, AC.Agree;
  }
}
