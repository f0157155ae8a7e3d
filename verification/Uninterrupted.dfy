/** A job that nobody interrupts is the atomic request of `Pipeline`: same calls, same outcome. */
module Uninterrupted {
  import opened Options
  import opened TimedStore
  import opened Keys
  import opened Events
  import opened SharedStore
  import opened Pipeline
  import opened Interleaving
  import RE = RuleEngine

  type Process = seq<Answer> -> Ask

  /** The job asks for exactly this call, with the clock readings of `op`. */
  predicate Follows(req: Request, ask: Ask, op: Op) {
    && (ask.AskLimit? || (ask.AskReplay? && ChecksReplay(req)) || ask.AskViolation?)
    && CallFor(req, ask, if op.AllowOp? || op.ValidateOp? then op.now else 0.0, op.at) == op
  }

  /** Fed with the store's answers, the process makes the calls of the trail and ends as the trail does. */
  ghost predicate Plays(req: Request, process: Process, db: Keyspace, cfg: Config, t: Trail)
    requires t.outcome.Some?
    decreases |t.ops|
  {
    if t.ops == [] then process([]) == End(t.outcome.value)
    else
      && Follows(req, process([]), t.ops[0])
      && Plays(req, answers => process([Reply(db, cfg, t.ops[0])] + answers), Apply(db, cfg, t.ops[0]), cfg,
               Trail(t.ops[1..], t.outcome))
  }

  lemma {:induction false} PlaysSame(req: Request, f: Process, g: Process, db: Keyspace, cfg: Config, t: Trail)
    requires t.outcome.Some? && forall answers :: f(answers) == g(answers)
    requires Plays(req, f, db, cfg, t)
    ensures Plays(req, g, db, cfg, t)
    decreases |t.ops|
  {
    if t.ops != [] {
      hide Reply, Apply, Follows;
      var x := Reply(db, cfg, t.ops[0]);
      PlaysSame(req, answers => f([x] + answers), answers => g([x] + answers), Apply(db, cfg, t.ops[0]), cfg,
                Trail(t.ops[1..], t.outcome));
    }
  }

  /** One more call in front. */
  lemma {:induction false} PlaysAfter(req: Request, process: Process, later: Process, db: Keyspace, cfg: Config, op: Op,
                                      t: Trail)
    requires t.outcome.Some? && Follows(req, process([]), op)
    requires forall answers :: process([Reply(db, cfg, op)] + answers) == later(answers)
    requires Plays(req, later, Apply(db, cfg, op), cfg, t)
    ensures Plays(req, process, db, cfg, Trail([op] + t.ops, t.outcome))
  {
    hide Reply, Apply, Follows;
    var all := Trail([op] + t.ops, t.outcome);
    assert Trail(all.ops[1..], all.outcome) == t;
    PlaysSame(req, later, answers => process([Reply(db, cfg, op)] + answers), Apply(db, cfg, op), cfg, t);
  }

  lemma {:induction false} ViolationPlays(db: Keyspace, cfg: Config, req: Request, action: ActionType, reason: string)
    ensures Plays(req, answers => AfterViolation(req, action, reason, answers), db, cfg,
      Violate(db, cfg, req, reason, action))
  {
    hide Reply, Apply;
    var process: Process := answers => AfterViolation(req, action, reason, answers);
    var op := ViolationOp(req.ip, reason, req.at);
    var outcome := Violate(db, cfg, req, reason, action).outcome;
    PlaysAfter(req, process, _ => End(outcome.value), db, cfg, op, Trail([], outcome));
    assert [op] + [] == [op];
  }

  lemma {:induction false} LimitPlays(db: Keyspace, cfg: Config, req: Request, k: nat)
    ensures Plays(req, answers => AfterReplay(req, answers), db, cfg, LimitTrail(db, cfg, req, k))
  {
    hide Reply, Apply, AfterViolation, Violate;
    var process: Process := answers => AfterReplay(req, answers);
    var op := LimitOp(req, None, k);
    var db' := Apply(db, cfg, op);
    if Reply(db, cfg, op) != Granted(true) {
      ViolationPlays(db', cfg, req, RateLimited, "rate_limit_exceeded");
      PlaysAfter(req, process, answers => AfterViolation(req, RateLimited, "rate_limit_exceeded", answers), db, cfg, op,
                 Violate(db', cfg, req, "rate_limit_exceeded", RateLimited));
    } else if req.isAnomaly {
      ViolationPlays(db', cfg, req, AnomalyBlocked, "anomaly_detected");
      PlaysAfter(req, process, answers => AfterViolation(req, AnomalyBlocked, "anomaly_detected", answers), db, cfg, op,
                 Violate(db', cfg, req, "anomaly_detected", AnomalyBlocked));
    } else {
      PlaysAfter(req, process, _ => End(FinalOutcome(req)), db, cfg, op, Trail([], Some(FinalOutcome(req))));
      assert [op] + [] == [op];
    }
  }

  lemma {:induction false} RestPlays(db: Keyspace, cfg: Config, req: Request, k: nat)
    ensures Plays(req, answers => AfterRules(req, answers), db, cfg, Rest(db, cfg, req, k))
  {
    hide Reply, Apply, AfterReplay, LimitTrail;
    var process: Process := answers => AfterRules(req, answers);
    var replay := ReplayTrail(db, cfg, req);
    if !ChecksReplay(req) {
      LimitPlays(db, cfg, req, k);
      NothingRun(db, cfg);
      assert [] + LimitTrail(db, cfg, req, k).ops == LimitTrail(db, cfg, req, k).ops;
      PlaysSame(req, answers => AfterReplay(req, answers), process, db, cfg, LimitTrail(db, cfg, req, k));
    } else {
      var op := ReplayOp(req);
      RunFromOne(db, cfg, op);
      if replay.outcome.Some? {
        PlaysAfter(req, process, _ => End(replay.outcome.value), db, cfg, op, Trail([], replay.outcome));
        assert [op] + [] == [op];
      } else {
        LimitPlays(Apply(db, cfg, op), cfg, req, k);
        PlaysAfter(req, process, answers => AfterReplay(req, answers), db, cfg, op,
                   LimitTrail(Apply(db, cfg, op), cfg, req, k));
      }
    }
  }

  /** The rule loop, and what follows it. */
  function RulesAndRest(db: Keyspace, cfg: Config, req: Request, rules: seq<RE.FilterRule>, k: nat): (t: Trail)
    ensures t.outcome.Some?
  {
    var t := RuleTrail(db, cfg, req, rules, k);
    if t.outcome.Some? then t
    else
      var rest := Rest(RunFrom(db, cfg, t.ops), cfg, req, k + |t.ops|);
      Trail(t.ops + rest.ops, rest.outcome)
  }

  lemma {:induction false} RulesFront(db: Keyspace, cfg: Config, req: Request, rules: seq<RE.FilterRule>, k: nat)
    requires rules != []
    ensures var step := RuleStep(db, cfg, req, rules[0], k);
      RulesAndRest(db, cfg, req, rules, k)
      == if step.outcome.Some? then step
         else var later := RulesAndRest(RunFrom(db, cfg, step.ops), cfg, req, rules[1..], k + |step.ops|);
              Trail(step.ops + later.ops, later.outcome)
  {
    hide RuleStep, RunFrom, Rest;
    var step := RuleStep(db, cfg, req, rules[0], k);
    if step.outcome.None? {
      var rest := RuleTrail(RunFrom(db, cfg, step.ops), cfg, req, rules[1..], k + |step.ops|);
      RunFromConcat(db, cfg, step.ops, rest.ops);
      if rest.outcome.None? {
        var last := Rest(RunFrom(db, cfg, step.ops + rest.ops), cfg, req, k + |step.ops| + |rest.ops|);
        assert step.ops + (rest.ops + last.ops) == step.ops + rest.ops + last.ops;
      }
    }
  }

  lemma {:induction false} RulesPlay(db: Keyspace, cfg: Config, req: Request, rules: seq<RE.FilterRule>, k: nat)
    ensures Plays(req, answers => InRules(req, rules, answers), db, cfg, RulesAndRest(db, cfg, req, rules, k))
    decreases |rules|
  {
    hide Reply, Apply, AfterRules, Rest, RuleTrail, RulesAndRest;
    var process: Process := answers => InRules(req, rules, answers);
    if rules == [] {
      RestPlays(db, cfg, req, k);
      NoRules(db, cfg, req, k);
      PlaysSame(req, answers => AfterRules(req, answers), process, db, cfg, Rest(db, cfg, req, k));
    } else {
      RulesFront(db, cfg, req, rules, k);
      var step := RuleStep(db, cfg, req, rules[0], k);
      var db' := RunFrom(db, cfg, step.ops);
      var later := RulesAndRest(db', cfg, req, rules[1..], k + |step.ops|);
      RulesPlay(db', cfg, req, rules[1..], k + |step.ops|);
      RulePlays(db, cfg, req, rules, k, later);
    }
  }

  lemma {:induction false} NoRules(db: Keyspace, cfg: Config, req: Request, k: nat)
    ensures RulesAndRest(db, cfg, req, [], k) == Rest(db, cfg, req, k)
  {
    hide Rest;
    var rest := Rest(db, cfg, req, k);
    assert [] + rest.ops == rest.ops;
  }

  /** One rule, in front of what the later rules do. */
  lemma {:induction false} RulePlays(db: Keyspace, cfg: Config, req: Request, rules: seq<RE.FilterRule>, k: nat,
                                     later: Trail)
    requires rules != [] && later.outcome.Some?
    requires var step := RuleStep(db, cfg, req, rules[0], k);
      Plays(req, answers => InRules(req, rules[1..], answers), RunFrom(db, cfg, step.ops), cfg, later)
    ensures var step := RuleStep(db, cfg, req, rules[0], k);
      Plays(req, answers => InRules(req, rules, answers), db, cfg,
            if step.outcome.Some? then step else Trail(step.ops + later.ops, later.outcome))
  {
    hide Reply, Apply, AfterRules, Plays, RunFrom;
    var process: Process := answers => InRules(req, rules, answers);
    var next: Process := answers => InRules(req, rules[1..], answers);
    var step := RuleStep(db, cfg, req, rules[0], k);
    if rules[0].maxRequestsPerSec.Some? {
      var op := LimitOp(req, rules[0].maxRequestsPerSec, k);
      RunFromOne(db, cfg, op);
      if step.outcome.Some? {
        EndPlays(req, step.outcome.value, Apply(db, cfg, op), cfg);
        PlaysAfter(req, process, _ => End(step.outcome.value), db, cfg, op, Trail([], step.outcome));
        assert [op] + [] == [op];
      } else {
        PlaysAfter(req, process, next, db, cfg, op, later);
      }
    } else if step.outcome.Some? {
      EndPlays(req, step.outcome.value, db, cfg);
      PlaysSame(req, _ => End(step.outcome.value), process, db, cfg, step);
    } else {
      NothingRun(db, cfg);
      assert [] + later.ops == later.ops;
      PlaysSame(req, next, process, db, cfg, later);
    }
  }

  lemma {:induction false} EndPlays(req: Request, outcome: Outcome, db: Keyspace, cfg: Config)
    ensures Plays(req, _ => End(outcome), db, cfg, Trail([], Some(outcome)))
  {
  }

  /** The atomic request is the uninterrupted job: once it knows whether its ip is banned, the job makes
      exactly the calls of `Decide` and comes to its outcome. */
  lemma {:induction false} DecideIsUninterrupted(db: Keyspace, cfg: Config, req: Request, matched: seq<RE.FilterRule>)
    ensures NextAsk(req, matched, []) == AskBan
    ensures var banned := Banned(Exists(db, BanKey(req.ip), req.at));
      Plays(req, answers => NextAsk(req, matched, [banned] + answers), db, cfg, Decide(db, cfg, req, matched))
  {
    hide Reply, Apply, InRules, RuleTrail, Rest, RunFrom, Plays;
    var banned := Banned(Exists(db, BanKey(req.ip), req.at));
    var process: Process := answers => NextAsk(req, matched, [banned] + answers);
    var t := Decide(db, cfg, req, matched);
    if Exists(db, BanKey(req.ip), req.at) || !req.geoAllowed {
      EndPlays(req, t.outcome.value, db, cfg);
      PlaysSame(req, _ => End(t.outcome.value), process, db, cfg, t);
    } else {
      RulesPlay(db, cfg, req, matched, 0);
      assert t == RulesAndRest(db, cfg, req, matched, 0);
      PlaysSame(req, answers => InRules(req, matched, answers), process, db, cfg, t);
    }
  }
}
