/** Whole runs of the gateway give every ip a history in which violations only happen while no ban is
    live; so what `CleanSlate` proves of such histories holds of the shared store. */
module PipelineBans {
  import opened Options
  import opened TimedStore
  import opened Keys
  import opened SharedStore
  import opened Pipeline
  import opened PipelineRun
  import BH = BanHistory
  import CS = CleanSlate
  import RE = RuleEngine
  import Blacklist

  /** Every recorded violation found no live ban of its ip. */
  predicate GatedFrom(db: Keyspace, cfg: Config, ops: seq<Op>) {
    ops == [] ||
    var front, last := ops[..|ops| - 1], ops[|ops| - 1];
    && GatedFrom(db, cfg, front)
    && (last.ViolationOp? ==> !Exists(RunFrom(db, cfg, front), BanKey(last.ip), last.at))
  }

  lemma {:induction false} GatedConcat(db: Keyspace, cfg: Config, a: seq<Op>, b: seq<Op>)
    requires GatedFrom(db, cfg, a) && GatedFrom(RunFrom(db, cfg, a), cfg, b)
    ensures GatedFrom(db, cfg, a + b)
  {
    hide RunFrom;
    if b == [] {
      assert a + b == a;
    } else {
      var front := b[..|b| - 1];
      assert (a + b)[..|a + b| - 1] == a + front;
      GatedConcat(db, cfg, a, front);
      RunFromConcat(db, cfg, a, front);
    }
  }

  lemma {:induction false} GatedAt(db: Keyspace, cfg: Config, ops: seq<Op>, p: nat)
    requires GatedFrom(db, cfg, ops) && p < |ops| && ops[p].ViolationOp?
    ensures !Exists(RunFrom(db, cfg, ops[..p]), BanKey(ops[p].ip), ops[p].at)
  {
    hide RunFrom;
    if p < |ops| - 1 {
      GatedAt(db, cfg, ops[..|ops| - 1], p);
      assert ops[..|ops| - 1][..p] == ops[..p];
    }
  }

  /** Limiter calls and replay checks. */
  predicate Harmless(ops: seq<Op>) {
    forall k :: 0 <= k < |ops| ==> ops[k].AllowOp? || ops[k].ValidateOp?
  }

  lemma {:induction false} HarmlessKeepsBans(db: Keyspace, cfg: Config, ops: seq<Op>, ip: string, at: real)
    requires Harmless(ops)
    ensures GatedFrom(db, cfg, ops)
    ensures Exists(RunFrom(db, cfg, ops), BanKey(ip), at) <==> Exists(db, BanKey(ip), at)
  {
    if ops != [] {
      var front, last := ops[..|ops| - 1], ops[|ops| - 1];
      HarmlessKeepsBans(db, cfg, front, ip, at);
      if last.AllowOp? {
        FamiliesDisjoint(last.ip, ip, ip, "", "");
      } else {
        FamiliesDisjoint(ip, ip, ip, last.client, last.nonce);
      }
      StepIsLocal(RunFrom(db, cfg, front), cfg, last, {BanKey(ip)});
      assert BanKey(ip) in Restrict(RunFrom(db, cfg, ops), {BanKey(ip)}) <==> BanKey(ip) in RunFrom(db, cfg, ops);
      assert BanKey(ip) in Restrict(RunFrom(db, cfg, front), {BanKey(ip)}) <==> BanKey(ip) in RunFrom(db, cfg, front);
    }
  }

  lemma {:induction false} RulesAreHarmless(db: Keyspace, cfg: Config, req: Request, rules: seq<RE.FilterRule>, k: nat)
    ensures Harmless(RuleTrail(db, cfg, req, rules, k).ops)
    ensures forall p :: 0 <= p < |RuleTrail(db, cfg, req, rules, k).ops| ==>
      RuleTrail(db, cfg, req, rules, k).ops[p].at == req.at
    decreases |rules|
  {
    if rules != [] {
      hide RunFrom, Reply;
      var step := RuleStep(db, cfg, req, rules[0], k);
      RulesAreHarmless(RunFrom(db, cfg, step.ops), cfg, req, rules[1..], k + |step.ops|);
    }
  }

  /** Harmless operations at the request's instant, then at most one violation of the request's ip. */
  predicate Shaped(ops: seq<Op>, req: Request, violated: bool) {
    && (forall k :: 0 <= k < |ops| ==> ops[k].at == req.at)
    && (violated ==> ops != [] && ops[|ops| - 1].ViolationOp? && ops[|ops| - 1].ip == req.ip)
    && Harmless(if violated then ops[..|ops| - 1] else ops)
  }

  lemma {:induction false} LimitIsShaped(db: Keyspace, cfg: Config, req: Request, k: nat) returns (violated: bool)
    ensures Shaped(LimitTrail(db, cfg, req, k).ops, req, violated)
  {
    hide Reply, Apply;
    violated := Reply(db, cfg, LimitOp(req, None, k)) != Granted(true) || req.isAnomaly;
  }

  lemma {:induction false} RestIsShaped(db: Keyspace, cfg: Config, req: Request, k: nat) returns (violated: bool)
    ensures Shaped(Rest(db, cfg, req, k).ops, req, violated)
  {
    hide Reply, RunFrom, LimitTrail;
    var replay := ReplayTrail(db, cfg, req);
    violated := LimitIsShaped(RunFrom(db, cfg, replay.ops), cfg, req, k);
    violated := violated && replay.outcome.None?;
  }

  /** A request that finds its ip banned runs no operation at all. */
  lemma {:induction false} DecideIsShaped(db: Keyspace, cfg: Config, req: Request, matched: seq<RE.FilterRule>)
    returns (violated: bool)
    ensures Shaped(Decide(db, cfg, req, matched).ops, req, violated)
    ensures violated ==> !Exists(db, BanKey(req.ip), req.at)
  {
    hide RunFrom, Rest, RuleTrail;
    var rules := RuleTrail(db, cfg, req, matched, 0);
    RulesAreHarmless(db, cfg, req, matched, 0);
    violated := RestIsShaped(RunFrom(db, cfg, rules.ops), cfg, req, |rules.ops|);
    violated := violated && rules.outcome.None? && req.geoAllowed && !Exists(db, BanKey(req.ip), req.at);
  }

  function TimeOf(a: Action): real {
    match a
    case Http(req, _) => req.at
    case AdminBan(_, _, at) => at
    case AdminUnban(_, at) => at
    case PacketCheck(_, _, _, _, at) => at
  }

  /** Actions come in the order of the store's clock. */
  predicate InOrder(run: seq<Action>) {
    forall i, j :: 0 <= i < j < |run| ==> TimeOf(run[i]) <= TimeOf(run[j])
  }

  lemma {:induction false} ActionIsGated(db: Keyspace, cfg: Config, a: Action)
    ensures GatedFrom(db, cfg, OpsOf(db, cfg, a))
    ensures forall k :: 0 <= k < |OpsOf(db, cfg, a)| ==> OpsOf(db, cfg, a)[k].at == TimeOf(a)
  {
    if a.Http? {
      hide Decide, RunFrom;
      var violated := DecideIsShaped(db, cfg, a.req, a.matched);
      var ops := OpsOf(db, cfg, a);
      HarmlessKeepsBans(db, cfg, if violated then ops[..|ops| - 1] else ops, a.req.ip, a.req.at);
    }
  }

  lemma {:induction false} TraceIsGated(run: seq<Action>, cfg: Config, n: nat)
    requires n <= |run|
    ensures GatedFrom(map[], cfg, Trace(run, cfg, n))
  {
    hide OpsOf;
    if n > 0 {
      TraceIsGated(run, cfg, n - 1);
      ActionIsGated(Before(run, cfg, n - 1), cfg, run[n - 1]);
      GatedConcat(map[], cfg, Trace(run, cfg, n - 1), OpsOf(Before(run, cfg, n - 1), cfg, run[n - 1]));
    }
  }

  predicate Timed(ops: seq<Op>, upTo: real) {
    && (forall i :: 0 <= i < |ops| ==> ops[i].at <= upTo)
    && (forall i, j :: 0 <= i < j < |ops| ==> ops[i].at <= ops[j].at)
  }

  lemma {:induction false} TraceIsTimed(run: seq<Action>, cfg: Config, n: nat, upTo: real)
    requires n <= |run| && InOrder(run)
    requires n > 0 ==> TimeOf(run[n - 1]) <= upTo
    ensures Timed(Trace(run, cfg, n), upTo)
  {
    hide OpsOf, RunFrom;
    if n > 0 {
      var db := Before(run, cfg, n - 1);
      TraceIsTimed(run, cfg, n - 1, TimeOf(run[n - 1]));
      ActionIsGated(db, cfg, run[n - 1]);
    }
  }

  lemma {:induction false} OwnIsTimed(ops: seq<Op>, cell: set<string>, n: nat, upTo: real)
    requires n <= |ops| && Timed(ops, upTo)
    ensures Timed(Own(ops, cell, n), if n < |ops| then ops[n].at else upTo)
  {
    hide Cell;
    if n > 0 {
      OwnIsTimed(ops, cell, n - 1, upTo);
    }
  }

  // ----- the history of one ip -----

  function BanCell(ip: string): set<string> { {BanKey(ip), ViolationKey(ip)} }

  function OwnOps(run: seq<Action>, cfg: Config, ip: string, n: nat): (own: seq<Op>)
    requires n <= |run|
    ensures BlacklistOf(own, ip)
  {
    var trace := Trace(run, cfg, n);
    OwnBlacklist(trace, ip, |trace|);
    Own(trace, BanCell(ip), |trace|)
  }

  /** What the first `n` actions did to one ip. */
  function HistoryOf(run: seq<Action>, cfg: Config, ip: string, n: nat): seq<BH.Event>
    requires n <= |run|
  {
    EventsOf(OwnOps(run, cfg, ip, n), ip)
  }

  /** Where the m-th operation of a cell is in the trace. */
  lemma {:induction false} OwnAt(ops: seq<Op>, cell: set<string>, n: nat, m: nat) returns (p: nat)
    requires n <= |ops| && m < |Own(ops, cell, n)|
    ensures p < n && Cell(ops[p]) == cell && ops[p] == Own(ops, cell, n)[m]
      && Own(ops, cell, p) == Own(ops, cell, n)[..m]
  {
    hide Cell;
    if m < |Own(ops, cell, n - 1)| {
      p := OwnAt(ops, cell, n - 1, m);
      assert Own(ops, cell, n)[..m] == Own(ops, cell, n - 1)[..m];
    } else {
      p := n - 1;
      assert Own(ops, cell, n)[..m] == Own(ops, cell, n - 1);
    }
  }

  lemma {:induction false} ExistsInRestrict(db: Keyspace, keys: set<string>, key: string, at: real)
    requires key in keys
    ensures Exists(Restrict(db, keys), key, at) <==> Exists(db, key, at)
    ensures CountAt(Restrict(db, keys), key, at) == CountAt(db, key, at)
    ensures key in Restrict(db, keys) <==> key in db
    ensures key in db ==> Restrict(db, keys)[key] == db[key]
  {
  }

  lemma {:induction false} EventIsGated(trace: seq<Op>, cfg: Config, ip: string, m: nat)
    requires GatedFrom(map[], cfg, trace)
    requires BlacklistOf(Own(trace, BanCell(ip), |trace|), ip)
    requires m < |Own(trace, BanCell(ip), |trace|)|
    ensures var events := EventsOf(Own(trace, BanCell(ip), |trace|), ip);
      events[m].Violation? ==> !Exists(BH.StoreAfter(events, cfg.policy, ip, m), BanKey(ip), events[m].at)
  {
    hide RunFrom, GatedFrom, Restrict, Exists;
    var own := Own(trace, BanCell(ip), |trace|);
    var p := OwnAt(trace, BanCell(ip), |trace|, m);
    if trace[p].ViolationOp? {
      GatedAt(map[], cfg, trace, p);
      Isolation(trace, cfg, trace[p], p);
      PrefixRun(own[..m], own, cfg, m);
      AloneIsHistory(own, cfg, ip, m);
      ExistsInRestrict(Run(trace, cfg, p), BanCell(ip), BanKey(ip), trace[p].at);
    }
  }

  /** Every run of the gateway is, for every ip, an ordered history of gated violations. */
  lemma {:induction false} RunsAreGated(run: seq<Action>, cfg: Config, ip: string, n: nat, upTo: real)
    requires n <= |run| && InOrder(run)
    requires n > 0 ==> TimeOf(run[n - 1]) <= upTo
    ensures CS.Gated(HistoryOf(run, cfg, ip, n), cfg.policy, ip)
    ensures BH.Ordered(HistoryOf(run, cfg, ip, n))
    ensures forall m :: 0 <= m < |HistoryOf(run, cfg, ip, n)| ==> HistoryOf(run, cfg, ip, n)[m].at <= upTo
  {
    var trace := Trace(run, cfg, n);
    TraceIsGated(run, cfg, n);
    TraceIsTimed(run, cfg, n, upTo);
    OwnIsTimed(trace, BanCell(ip), |trace|, upTo);
    hide Trace, GatedFrom, BH.StoreAfter, Exists;
    forall m | 0 <= m < |HistoryOf(run, cfg, ip, n)| && HistoryOf(run, cfg, ip, n)[m].Violation?
      ensures !Exists(BH.StoreAfter(HistoryOf(run, cfg, ip, n), cfg.policy, ip, m), BanKey(ip),
        HistoryOf(run, cfg, ip, n)[m].at)
    {
      OwnBlacklist(trace, ip, |trace|);
      EventIsGated(trace, cfg, ip, m);
    }
  }

  lemma {:induction false} StoreIsHistory(run: seq<Action>, cfg: Config, ip: string, n: nat)
    requires n <= |run|
    ensures var events := HistoryOf(run, cfg, ip, n);
      Restrict(Before(run, cfg, n), BanCell(ip)) == BH.StoreAfter(events, cfg.policy, ip, |events|)
  {
    hide RunFrom, Restrict, Own, BH.StoreAfter;
    var trace := Trace(run, cfg, n);
    BlacklistIsHistory(trace, cfg, ip);
    assert trace[..|trace|] == trace;
  }

  /** In every reachable state of the gateway, at every later instant: no counter is above the
      threshold, a counter at the threshold has a live ban, and no live ban expires before the counter -
      with requests, admin bans and unbans, and packets in any order. */
  lemma {:induction false} BansCoverCounters(run: seq<Action>, cfg: Config, ip: string, n: nat, now: real)
    requires n <= |run| && InOrder(run) && cfg.policy.ttl >= 0.0 && cfg.policy.threshold >= 1
    requires n > 0 ==> TimeOf(run[n - 1]) <= now
    ensures var db, counter, ban := Before(run, cfg, n), ViolationKey(ip), BanKey(ip);
      && CountAt(db, counter, now) <= cfg.policy.threshold
      && (CountAt(db, counter, now) == cfg.policy.threshold ==> Exists(db, ban, now))
      && (Exists(db, ban, now) && Exists(db, counter, now) ==>
            db[counter].expiry.Some? && db[ban].expiry.Some? && db[counter].expiry.value <= db[ban].expiry.value)
  {
    hide Before, HistoryOf, Restrict, BH.StoreAfter, CS.Gated;
    var db, events := Before(run, cfg, n), HistoryOf(run, cfg, ip, n);
    RunsAreGated(run, cfg, ip, n, now);
    StoreIsHistory(run, cfg, ip, n);
    CS.BanCoversCounter(events, cfg.policy, ip, now);
    ExistsInRestrict(db, BanCell(ip), ViolationKey(ip), now);
    ExistsInRestrict(db, BanCell(ip), BanKey(ip), now);
  }

  /** After a ban of an ip lapses, or an unban, the gateway bans it again only after a full threshold of
      new violations. */
  lemma {:induction false} FullThresholdInRuns(run: seq<Action>, cfg: Config, ip: string, n: nat, i: nat, j: nat)
    requires n <= |run| && InOrder(run) && cfg.policy.ttl >= 0.0 && cfg.policy.threshold >= 1
    requires 0 < i <= j < |HistoryOf(run, cfg, ip, n)|
    ensures var events := HistoryOf(run, cfg, ip, n);
      (CS.LapsesBefore(events, cfg.policy, ip, i) || events[i - 1].Unbanned?)
      && events[j].Violation? && Blacklist.Reaches(BH.StoreAfter(events, cfg.policy, ip, j), cfg.policy, ip,
                                                   events[j].at)
      ==> CS.Violations(events, i, j + 1) >= cfg.policy.threshold
  {
    RunsAreGated(run, cfg, ip, n, if n > 0 then TimeOf(run[n - 1]) else 0.0);
    CS.FullThresholdAgain(HistoryOf(run, cfg, ip, n), cfg.policy, ip, i, j);
  }
}
