/** The violation counter when requests overlap: a handler that passed its ban check may still record a
    violation after another one's ban, so the count can pass the threshold - but not by much. */
module Overlap {
  import opened TimedStore
  import opened Keys
  import opened SharedStore
  import opened Pipeline
  import opened Interleaving
  import RE = RuleEngine

  /** Past its ban check, and not at its end. */
  predicate Open(job: Job) {
    job.answers != [] && !NextAsk(job.req, job.matched, job.answers).End?
  }

  /** The jobs of `ip` that are past their ban check at once. */
  function Crowd(jobs: map<nat, Job>, ip: string): set<nat> {
    set id | id in jobs && jobs[id].req.ip == ip && Open(jobs[id])
  }

  // ----- a job that records a violation is at its end -----

  lemma {:induction false} ViolationEndsRules(req: Request, rules: seq<RE.FilterRule>, answers: seq<Answer>, x: Answer)
    ensures InRules(req, rules, answers).AskViolation? ==> InRules(req, rules, answers + [x]).End?
    decreases |rules|
  {
    if rules == [] {
      assert |answers| > 0 ==> (answers + [x])[1..] == answers[1..] + [x];
      assert |answers| > 1 ==> (answers + [x])[1..][1..] == answers[1..][1..] + [x];
    } else if rules[0].maxRequestsPerSec.Some? {
      if answers != [] {
        assert (answers + [x])[1..] == answers[1..] + [x];
        ViolationEndsRules(req, rules[1..], answers[1..], x);
      }
    } else {
      ViolationEndsRules(req, rules[1..], answers, x);
    }
  }

  lemma {:induction false} ViolationEnds(job: Job, x: Answer)
    requires NextAsk(job.req, job.matched, job.answers).AskViolation?
    ensures Open(job) && !Open(job.(answers := job.answers + [x]))
  {
    assert (job.answers + [x])[1..] == job.answers[1..] + [x];
    ViolationEndsRules(job.req, job.matched, job.answers[1..], x);
    hide InRules;
  }

  lemma {:induction false} RulesAskNoBan(req: Request, rules: seq<RE.FilterRule>, answers: seq<Answer>)
    ensures !InRules(req, rules, answers).AskBan?
    decreases |rules|
  {
    if rules != [] {
      RulesAskNoBan(req, rules[1..],
                    if rules[0].maxRequestsPerSec.Some? && answers != [] then answers[1..] else answers);
    }
  }

  // ----- what a call does to the two keys of an ip -----

  predicate SameKeys(a: Keyspace, b: Keyspace, ip: string) {
    && (ViolationKey(ip) in a <==> ViolationKey(ip) in b)
    && (ViolationKey(ip) in a ==> a[ViolationKey(ip)] == b[ViolationKey(ip)])
    && (BanKey(ip) in a <==> BanKey(ip) in b)
    && (BanKey(ip) in a ==> a[BanKey(ip)] == b[BanKey(ip)])
  }

  lemma {:induction false} OthersKeepKeys(db: Keyspace, cfg: Config, op: Op, ip: string)
    requires op.AllowOp? || op.ValidateOp? || op.ip != ip
    ensures SameKeys(db, Apply(db, cfg, op), ip)
  {
    if op.ValidateOp? {
      FamiliesDisjoint(ip, ip, ip, op.client, op.nonce);
    } else {
      FamiliesDisjoint(op.ip, ip, ip, "", "");
      FamiliesDisjoint(op.ip, op.ip, ip, "", "");
      FamiliesDisjoint(op.ip, ip, op.ip, "", "");
      if op.ip != ip {
        SubjectsDistinct(op.ip, ip);
      }
    }
  }

  // ----- the invariant -----

  /** The live counter of `ip` has reached the threshold. */
  predicate Hot(db: Keyspace, cfg: Config, ip: string, clock: real) {
    CountAt(db, ViolationKey(ip), clock) >= cfg.policy.threshold
  }

  /** A full counter has a ban that lasts as long, and no more jobs are waiting to add to it than the
      crowd leaves room for. */
  predicate Contained(db: Keyspace, jobs: map<nat, Job>, cfg: Config, ip: string, crowd: nat, clock: real) {
    var counter, ban := ViolationKey(ip), BanKey(ip);
    && (counter in db ==> db[counter].value.Count? && db[counter].expiry.Some?
                          && db[counter].expiry.value <= clock + cfg.policy.ttl)
    && (ban in db ==> db[ban].expiry.Some?)
    && (Hot(db, cfg, ip, clock) ==>
          && ban in db && counter in db && db[counter].expiry.value <= db[ban].expiry.value
          && CountAt(db, counter, clock) + |Crowd(jobs, ip)| <= cfg.policy.threshold - 1 + crowd)
  }

  lemma {:induction false} ContainedLater(db: Keyspace, jobs: map<nat, Job>, cfg: Config, ip: string, crowd: nat,
                                          clock: real, later: real)
    requires cfg.policy.threshold >= 1 && clock <= later && Contained(db, jobs, cfg, ip, crowd, clock)
    ensures Contained(db, jobs, cfg, ip, crowd, later)
    ensures Hot(db, cfg, ip, later) ==> Exists(db, BanKey(ip), later)
  {
    hide Crowd;
  }

  /** Neither the two keys nor, while the counter is full, the crowd grew. */
  lemma {:induction false} NoWorse(db: Keyspace, jobs: map<nat, Job>, db': Keyspace, jobs': map<nat, Job>, cfg: Config,
                                   ip: string,
                                   crowd: nat, clock: real)
    requires Contained(db, jobs, cfg, ip, crowd, clock) && SameKeys(db, db', ip)
    requires Hot(db, cfg, ip, clock) ==> Crowd(jobs', ip) <= Crowd(jobs, ip)
    ensures Contained(db', jobs', cfg, ip, crowd, clock)
  {
    if Hot(db, cfg, ip, clock) {
      Subset(Crowd(jobs', ip), Crowd(jobs, ip));
    }
    hide Crowd;
  }

  lemma {:induction false} Subset(a: set<nat>, b: set<nat>)
    requires a <= b
    ensures |a| <= |b|
  {
    assert b == a + (b - a);
  }

  /** A manual ban lasts at least as long as the counter, and an unban forgets both. */
  lemma {:induction false} AdminContains(db: Keyspace, jobs: map<nat, Job>, cfg: Config, op: Op, crowd: nat)
    requires (op.BanOp? || op.UnbanOp?) && cfg.policy.threshold >= 1 && Contained(db, jobs, cfg, op.ip, crowd, op.at)
    ensures Contained(Apply(db, cfg, op), jobs, cfg, op.ip, crowd, op.at)
  {
    FamiliesDisjoint(op.ip, op.ip, op.ip, "", "");
    hide Crowd;
  }

  /** A violation takes its job out of the crowd. */
  lemma {:induction false} ViolationContains(db: Keyspace, jobs: map<nat, Job>, jobs': map<nat, Job>, cfg: Config,
                                             ip: string,
                                             reason: string, crowd: nat, at: real)
    requires cfg.policy.threshold >= 1 && cfg.policy.ttl >= 0.0 && Contained(db, jobs, cfg, ip, crowd, at)
    requires |Crowd(jobs, ip)| <= crowd && |Crowd(jobs', ip)| + 1 <= |Crowd(jobs, ip)|
    ensures Contained(Apply(db, cfg, ViolationOp(ip, reason, at)), jobs', cfg, ip, crowd, at)
  {
    FamiliesDisjoint(ip, ip, ip, "", "");
    hide Crowd;
  }

  lemma {:induction false} CrowdWithout(jobs: map<nat, Job>, ip: string, id: nat, job: Job)
    requires id in jobs && job.req == jobs[id].req
    ensures Open(job) ==> Open(jobs[id]) || Crowd(jobs[id := job], ip) <= Crowd(jobs, ip) + {id}
    ensures (Open(job) ==> Open(jobs[id])) || jobs[id].req.ip != ip ==> Crowd(jobs[id := job], ip) <= Crowd(jobs, ip)
    ensures Open(jobs[id]) && !Open(job) && jobs[id].req.ip == ip ==>
      |Crowd(jobs[id := job], ip)| + 1 <= |Crowd(jobs, ip)|
  {
    hide Open;
    if Open(jobs[id]) && !Open(job) && jobs[id].req.ip == ip {
      assert id in Crowd(jobs, ip) && id !in Crowd(jobs[id := job], ip);
      Subset(Crowd(jobs[id := job], ip) + {id}, Crowd(jobs, ip));
    }
  }

  // ----- one step -----

  lemma {:induction false} BanCheckContains(db: Keyspace, jobs: map<nat, Job>, cfg: Config, ip: string, crowd: nat,
                                            id: nat, at: real)
    requires cfg.policy.threshold >= 1 && Contained(db, jobs, cfg, ip, crowd, at) && id in jobs
      && jobs[id].answers == []
    ensures var job := jobs[id].(answers := jobs[id].answers + [Banned(Exists(db, BanKey(jobs[id].req.ip), at))]);
      Contained(db, jobs[id := job], cfg, ip, crowd, at)
  {
    var job := jobs[id].(answers := jobs[id].answers + [Banned(Exists(db, BanKey(jobs[id].req.ip), at))]);
    ContainedLater(db, jobs, cfg, ip, crowd, at, at);
    assert job.answers[0] == Banned(Exists(db, BanKey(jobs[id].req.ip), at));
    CrowdWithout(jobs, ip, id, job);
    hide Contained, Crowd, InRules;
    NoWorse(db, jobs, db, jobs[id := job], cfg, ip, crowd, at);
  }

  lemma {:induction false} TurnContains(db: Keyspace, jobs: map<nat, Job>, cfg: Config, ip: string, crowd: nat, id: nat,
                                        now: real, at: real)
    requires cfg.policy.threshold >= 1 && cfg.policy.ttl >= 0.0 && Contained(db, jobs, cfg, ip, crowd, at)
    requires |Crowd(jobs, ip)| <= crowd && id in jobs
    ensures var (ops, job) := TakeTurn(db, cfg, jobs[id], now, at);
      Contained(RunFrom(db, cfg, ops), jobs[id := job], cfg, ip, crowd, at)
  {
    hide Contained, Crowd, InRules, Reply, Apply;
    var ask := NextAsk(jobs[id].req, jobs[id].matched, jobs[id].answers);
    var (ops, job) := TakeTurn(db, cfg, jobs[id], now, at);
    if ask.End? {
      assert jobs[id := job] == jobs;
    } else if ask.AskBan? {
      if jobs[id].answers != [] {
        RulesAskNoBan(jobs[id].req, jobs[id].matched, jobs[id].answers[1..]);
      }
      BanCheckContains(db, jobs, cfg, ip, crowd, id, at);
    } else {
      var op := ops[0];
      RunFromOne(db, cfg, op);
      CrowdWithout(jobs, ip, id, job);
      if ask.AskViolation? {
        ViolationEnds(jobs[id], Reply(db, cfg, op));
        if jobs[id].req.ip == ip {
          ViolationContains(db, jobs, jobs[id := job], cfg, ip, ask.reason, crowd, at);
        } else {
          OthersKeepKeys(db, cfg, op, ip);
          NoWorse(db, jobs, Apply(db, cfg, op), jobs[id := job], cfg, ip, crowd, at);
        }
      } else {
        OthersKeepKeys(db, cfg, op, ip);
        NoWorse(db, jobs, Apply(db, cfg, op), jobs[id := job], cfg, ip, crowd, at);
      }
    }
  }

  lemma {:induction false} OtherContains(db: Keyspace, jobs: map<nat, Job>, cfg: Config, ip: string, crowd: nat, op: Op)
    requires cfg.policy.threshold >= 1 && Contained(db, jobs, cfg, ip, crowd, op.at) && !op.ViolationOp?
    ensures Contained(Apply(db, cfg, op), jobs, cfg, ip, crowd, op.at)
  {
    hide Contained, Crowd, Apply;
    if op.AllowOp? || op.ValidateOp? || op.ip != ip {
      OthersKeepKeys(db, cfg, op, ip);
      NoWorse(db, jobs, Apply(db, cfg, op), jobs, cfg, ip, crowd, op.at);
    } else {
      AdminContains(db, jobs, cfg, op, crowd);
    }
  }

  lemma {:induction false} ArrivalContains(db: Keyspace, jobs: map<nat, Job>, cfg: Config, ip: string, crowd: nat,
                                           clock: real,
                                           id: nat, req: Request, matched: seq<RE.FilterRule>)
    requires Contained(db, jobs, cfg, ip, crowd, clock) && id !in jobs
    ensures Contained(db, jobs[id := Job(req, matched, [])], cfg, ip, crowd, clock)
  {
    hide Contained;
    NoWorse(db, jobs, db, jobs[id := Job(req, matched, [])], cfg, ip, crowd, clock);
  }

  // ----- whole runs -----

  function StepTime(step: Step): real
    requires !step.Arrive?
  {
    if step.Turn? then step.at else step.op.at
  }

  /** Violations are only recorded by requests, and the store's clock goes forward up to `clock`. */
  predicate Orderly(run: seq<Step>, n: nat, clock: real)
    requires n <= |run|
  {
    n == 0 ||
    if run[n - 1].Arrive? then Orderly(run, n - 1, clock)
    else
      && StepTime(run[n - 1]) <= clock && Orderly(run, n - 1, StepTime(run[n - 1]))
      && (run[n - 1].Other? ==> !run[n - 1].op.ViolationOp?)
  }

  /** At most `crowd` jobs of `ip` are past their ban check at once. */
  predicate CrowdAtMost(run: seq<Step>, cfg: Config, ip: string, crowd: nat, n: nat)
    requires n <= |run|
  {
    |Crowd(StateAfter(run, cfg, n).jobs, ip)| <= crowd && (n == 0 || CrowdAtMost(run, cfg, ip, crowd, n - 1))
  }

  lemma {:induction false} StepContains(s: System, cfg: Config, n: nat, step: Step, ip: string, crowd: nat, clock: real)
    requires cfg.policy.threshold >= 1 && cfg.policy.ttl >= 0.0 && |Crowd(s.jobs, ip)| <= crowd
    requires forall id :: id in s.jobs ==> id < n
    requires Contained(StoreOf(s, cfg), s.jobs, cfg, ip, crowd, if step.Arrive? then clock else StepTime(step))
    requires step.Arrive? || StepTime(step) <= clock
    requires step.Other? ==> !step.op.ViolationOp?
    ensures var s' := Next(s, cfg, n, step);
      Contained(StoreOf(s', cfg), s'.jobs, cfg, ip, crowd, clock)
  {
    hide Contained, Crowd, TakeTurn, Apply, RunFrom;
    var s' := Next(s, cfg, n, step);
    match step
    case Arrive(req, matched) => ArrivalContains(StoreOf(s, cfg), s.jobs, cfg, ip, crowd, clock, n, req, matched);
    case Other(op) =>
      OtherContains(StoreOf(s, cfg), s.jobs, cfg, ip, crowd, op);
      RunFromSnoc(map[], cfg, s.trace, op);
      ContainedLater(StoreOf(s', cfg), s'.jobs, cfg, ip, crowd, op.at, clock);
    case Turn(id, now, at) =>
      if id in s.jobs {
        var (ops, job) := TakeTurn(StoreOf(s, cfg), cfg, s.jobs[id], now, at);
        TurnContains(StoreOf(s, cfg), s.jobs, cfg, ip, crowd, id, now, at);
        RunFromConcat(map[], cfg, s.trace, ops);
      }
      ContainedLater(StoreOf(s', cfg), s'.jobs, cfg, ip, crowd, at, clock);
  }

  lemma {:induction false} AlwaysContained(run: seq<Step>, cfg: Config, ip: string, crowd: nat, n: nat, clock: real)
    requires cfg.policy.threshold >= 1 && cfg.policy.ttl >= 0.0
    requires n <= |run| && Orderly(run, n, clock) && CrowdAtMost(run, cfg, ip, crowd, n)
    ensures var s := StateAfter(run, cfg, n);
      Contained(StoreOf(s, cfg), s.jobs, cfg, ip, crowd, clock)
  {
    hide Next, Crowd, StoreOf, Contained;
    if n == 0 {
      EmptyContained(cfg, ip, crowd, clock);
    } else {
      AlwaysContained(run, cfg, ip, crowd, n - 1, if run[n - 1].Arrive? then clock else StepTime(run[n - 1]));
      TraceGrows(run, cfg, n - 1, n - 1);
      StepContains(StateAfter(run, cfg, n - 1), cfg, n - 1, run[n - 1], ip, crowd, clock);
    }
  }

  lemma {:induction false} EmptyContained(cfg: Config, ip: string, crowd: nat, clock: real)
    requires cfg.policy.threshold >= 1
    ensures Contained(StoreOf(System(map[], []), cfg), map[], cfg, ip, crowd, clock)
  {
  }

  /** In every interleaving in which at most `crowd` handlers of an ip are past their ban check at once:
      its live count is at most threshold - 1 + crowd, and below the threshold while it is not banned. */
  lemma {:induction false} OverlapBound(run: seq<Step>, cfg: Config, ip: string, crowd: nat, now: real)
    requires cfg.policy.threshold >= 1 && cfg.policy.ttl >= 0.0
    requires Orderly(run, |run|, now) && CrowdAtMost(run, cfg, ip, crowd, |run|)
    ensures var db := StoreOf(StateAfter(run, cfg, |run|), cfg);
      && CountAt(db, ViolationKey(ip), now) <= cfg.policy.threshold - 1 + crowd
      && (!Exists(db, BanKey(ip), now) ==> CountAt(db, ViolationKey(ip), now) <= cfg.policy.threshold - 1)
  {
    hide StateAfter, StoreOf, Crowd;
    AlwaysContained(run, cfg, ip, crowd, |run|, now);
    var s := StateAfter(run, cfg, |run|);
    ContainedLater(StoreOf(s, cfg), s.jobs, cfg, ip, crowd, now, now);
  }
}
