/** How an HTTP request ends, written out: the first that holds of a list of conditions on the request,
    the matched rules and the store, and the guard calls that it makes on the way. */
module Outcomes {
  import opened Options
  import opened TimedStore
  import opened Keys
  import opened Events
  import opened SharedStore
  import opened Pipeline
  import SC = SameClock
  import RG = ReplayGuard
  import RE = RuleEngine

  /** The limiter calls of the rules before rule i: one for each that has a limit. */
  function CallsBefore(req: Request, matched: seq<RE.FilterRule>, i: nat): seq<Op>
    requires i <= |matched|
  {
    if i == 0 then []
    else
      var calls, limit := CallsBefore(req, matched, i - 1), matched[i - 1].maxRequestsPerSec;
      if limit.Some? then calls + [AllowOp(req.ip, limit, req.reading(|calls|), req.at)] else calls
  }

  /** Rule i has no limit, or its limit grants its call after those of the rules before it. */
  predicate LimitPasses(db: Keyspace, cfg: Config, req: Request, matched: seq<RE.FilterRule>, i: nat)
    requires i < |matched|
  {
    var calls, limit := CallsBefore(req, matched, i), matched[i].maxRequestsPerSec;
    limit.Some? ==>
      Reply(RunFrom(db, cfg, calls), cfg, AllowOp(req.ip, limit, req.reading(|calls|), req.at)) == Granted(true)
  }

  /** No rule before rule i ends the request. */
  predicate Arrives(db: Keyspace, cfg: Config, req: Request, matched: seq<RE.FilterRule>, i: nat)
    requires i <= |matched|
  {
    forall j :: 0 <= j < i ==>
      LimitPasses(db, cfg, req, matched, j)
      && (req.country.None? || req.country.value !in matched[j].blockedCountries)
  }

  // ----- the rule loop -----

  /** Rule i, met after the calls of the rules before it. */
  lemma {:induction false} StepAt(db: Keyspace, cfg: Config, req: Request, matched: seq<RE.FilterRule>, i: nat)
    requires i < |matched|
    ensures var calls := CallsBefore(req, matched, i);
      var step := RuleStep(RunFrom(db, cfg, calls), cfg, req, matched[i], |calls|);
      && calls + step.ops == CallsBefore(req, matched, i + 1)
      && (if !LimitPasses(db, cfg, req, matched, i) then step.outcome == Some(Rejected(RateLimited, 429, req.country))
          else if req.country.Some? && req.country.value in matched[i].blockedCountries
          then step.outcome == Some(Rejected(GeoBlocked, 403, req.country))
          else step.outcome == None)
  {
    hide RunFrom, Reply;
    var calls := CallsBefore(req, matched, i);
    assert calls + [] == calls;
  }

  /** The loop as seen from rule i, if it gets there. */
  lemma {:induction false} LoopFrom(db: Keyspace, cfg: Config, req: Request, matched: seq<RE.FilterRule>, i: nat)
    requires i <= |matched| && Arrives(db, cfg, req, matched, i)
    ensures var calls := CallsBefore(req, matched, i);
      var rest := RuleTrail(RunFrom(db, cfg, calls), cfg, req, matched[i..], |calls|);
      RuleTrail(db, cfg, req, matched, 0) == Trail(calls + rest.ops, rest.outcome)
  {
    hide RuleStep, LimitPasses, RuleTrail, RunFrom, Reply;
    var all := RuleTrail(db, cfg, req, matched, 0);
    if i == 0 {
      assert matched[0..] == matched && [] + all.ops == all.ops;
      NothingRun(db, cfg);
    } else {
      LoopFrom(db, cfg, req, matched, i - 1);
      StepAt(db, cfg, req, matched, i - 1);
      var calls := CallsBefore(req, matched, i - 1);
      var step := RuleStep(RunFrom(db, cfg, calls), cfg, req, matched[i - 1], |calls|);
      RuleTurn(all, calls, RunFrom(db, cfg, calls), cfg, req, matched, i - 1, |calls|);
      RunFromConcat(db, cfg, calls, step.ops);
    }
  }

  /** A rule that is reached and ends the request. */
  lemma {:induction false} LoopStops(db: Keyspace, cfg: Config, req: Request, matched: seq<RE.FilterRule>, i: nat)
    requires i < |matched| && Arrives(db, cfg, req, matched, i) && !Arrives(db, cfg, req, matched, i + 1)
    ensures RuleTrail(db, cfg, req, matched, 0)
         == Trail(CallsBefore(req, matched, i + 1),
                  Some(if LimitPasses(db, cfg, req, matched, i) then Rejected(GeoBlocked, 403, req.country)
                       else Rejected(RateLimited, 429, req.country)))
  {
    hide RuleStep, LimitPasses, RunFrom, Reply, CallsBefore;
    LoopFrom(db, cfg, req, matched, i);
    StepAt(db, cfg, req, matched, i);
    assert matched[i..][0] == matched[i];
  }

  lemma {:induction false} LoopPasses(db: Keyspace, cfg: Config, req: Request, matched: seq<RE.FilterRule>)
    requires Arrives(db, cfg, req, matched, |matched|)
    ensures RuleTrail(db, cfg, req, matched, 0) == Trail(CallsBefore(req, matched, |matched|), None)
  {
    hide Arrives, RunFrom, Reply, CallsBefore;
    LoopFrom(db, cfg, req, matched, |matched|);
    var calls := CallsBefore(req, matched, |matched|);
    assert calls + [] == calls;
  }

  /** How far the loop gets. */
  lemma {:induction false} FirstStop(db: Keyspace, cfg: Config, req: Request, matched: seq<RE.FilterRule>, n: nat)
    returns (stop: nat)
    requires n <= |matched|
    ensures stop <= n && Arrives(db, cfg, req, matched, stop)
    ensures stop < n ==> !Arrives(db, cfg, req, matched, stop + 1)
  {
    hide LimitPasses;
    stop := 0;
    if n > 0 {
      stop := FirstStop(db, cfg, req, matched, n - 1);
      if stop == n - 1 && Arrives(db, cfg, req, matched, n) {
        stop := n;
      }
    }
  }

  // ----- what follows the loop -----

  lemma {:induction false} CallsAreLimits(req: Request, matched: seq<RE.FilterRule>, i: nat)
    requires i <= |matched|
    ensures forall k :: 0 <= k < |CallsBefore(req, matched, i)| ==>
      CallsBefore(req, matched, i)[k].AllowOp? && CallsBefore(req, matched, i)[k].ip == req.ip
  {
    if i > 0 {
      CallsAreLimits(req, matched, i - 1);
    }
  }

  /** Limiter calls and replay checks leave the violation counter of every ip alone. */
  lemma {:induction false} CounterIsKept(db: Keyspace, cfg: Config, ops: seq<Op>, op: Op)
    requires op.ViolationOp? && forall k :: 0 <= k < |ops| ==> ops[k].AllowOp? || ops[k].ValidateOp?
    ensures Reply(RunFrom(db, cfg, ops), cfg, op) == Reply(db, cfg, op)
  {
    hide Apply, Reply;
    if ops == [] {
      NothingRun(db, cfg);
    } else {
      var front, last := ops[..|ops| - 1], ops[|ops| - 1];
      CounterIsKept(db, cfg, front, op);
      CounterStep(RunFrom(db, cfg, front), cfg, last, op);
    }
  }

  lemma {:induction false} CounterStep(db: Keyspace, cfg: Config, other: Op, op: Op)
    requires op.ViolationOp? && (other.AllowOp? || other.ValidateOp?)
    ensures Reply(Apply(db, cfg, other), cfg, op) == Reply(db, cfg, op)
  {
    hide Apply, Reply, Restrict;
    CellsApart(other, op);
    if other.AllowOp? {
      FamiliesDisjoint(other.ip, op.ip, op.ip, "", "");
    } else {
      FamiliesDisjoint(op.ip, op.ip, op.ip, other.client, other.nonce);
    }
    assert BanKey(op.ip) in Cell(op) && BanKey(op.ip) !in Cell(other);
    StepIsLocal(db, cfg, other, Cell(op));
    StepIsLocal(db, cfg, op, Cell(op));
    StepIsLocal(Apply(db, cfg, other), cfg, op, Cell(op));
  }

  /** The replay check, on the store as it was before the limiter calls. */
  lemma {:induction false} ReplayPart(db: Keyspace, cfg: Config, req: Request, calls: seq<Op>)
    requires forall k :: 0 <= k < |calls| ==> calls[k].AllowOp?
    ensures var checked := req.nonce.Some? && req.nonce.value != "" && req.timestamp.Some?;
      var client := if req.clientId.Some? then req.clientId.value else req.ip;
      var check := if checked then [ValidateOp(client, req.nonce.value, req.timestamp.value, req.at, req.at)] else [];
      ReplayTrail(RunFrom(db, cfg, calls), cfg, req)
      == if checked && (req.at - req.timestamp.value > cfg.replay.window
                        || req.timestamp.value - req.at > cfg.replay.window
                        || Exists(db, "vanguard:nonce:" + client + ":" + req.nonce.value, req.at))
         then Trail(check, Some(Rejected(ReplayBlocked, 403, req.country)))
         else Trail(check, None)
  {
    if ChecksReplay(req) {
      SC.LimitsKeepReplay(db, cfg, req, calls);
      assert NonceKey(ReplayOp(req).client, req.nonce.value)
          == "vanguard:nonce:" + ReplayOp(req).client + ":" + req.nonce.value;
    }
    hide RunFrom, NonceKey, Exists;
  }

  lemma {:induction false} ViolatePart(db: Keyspace, cfg: Config, req: Request, ops: seq<Op>, reason: string,
                                       action: ActionType)
    requires forall k :: 0 <= k < |ops| ==> ops[k].AllowOp? || ops[k].ValidateOp?
    ensures var count := CountAt(db, "vanguard:violations:" + req.ip, req.at) + 1;
      Violate(RunFrom(db, cfg, ops), cfg, req, reason, action)
      == Trail([ViolationOp(req.ip, reason, req.at)],
               Some(Rejected(action, if count >= cfg.policy.threshold then 403 else 429, req.country)))
  {
    CounterIsKept(db, cfg, ops, ViolationOp(req.ip, reason, req.at));
    assert ViolationKey(req.ip) == "vanguard:violations:" + req.ip;
    hide RunFrom, CountAt, ViolationKey;
  }

  /** The default limit, the anomaly verdict and the upstream call, after the calls of the rules and the
      replay check. */
  lemma {:induction false} LimitPart(db: Keyspace, cfg: Config, req: Request, calls: seq<Op>)
    requires forall k :: 0 <= k < |calls| ==> calls[k].AllowOp?
    ensures var check := ReplayTrail(RunFrom(db, cfg, calls), cfg, req).ops;
      var last := AllowOp(req.ip, None, req.reading(|calls|), req.at);
      var count := CountAt(db, "vanguard:violations:" + req.ip, req.at) + 1;
      var status := if count >= cfg.policy.threshold then 403 else 429;
      LimitTrail(RunFrom(db, cfg, calls + check), cfg, req, |calls|)
      == if Reply(RunFrom(db, cfg, calls), cfg, last) != Granted(true) then
           Trail([last, ViolationOp(req.ip, "rate_limit_exceeded", req.at)],
                 Some(Rejected(RateLimited, status, req.country)))
         else if req.isAnomaly then
           Trail([last, ViolationOp(req.ip, "anomaly_detected", req.at)],
                 Some(Rejected(AnomalyBlocked, status, req.country)))
         else
           Trail([last], Some(if req.upstreamStatus.None? then UpstreamFailed else Forwarded(req.upstreamStatus.value)))
  {
    var check := ReplayTrail(RunFrom(db, cfg, calls), cfg, req).ops;
    var last := LimitOp(req, None, |calls|);
    SC.ReplayKeepsLimits(RunFrom(db, cfg, calls), cfg, req, last);
    CheckIsReplay(RunFrom(db, cfg, calls), cfg, req);
    hide RunFrom, Reply, CountAt, Violate, Apply, ReplayTrail;
    RunFromConcat(db, cfg, calls, check);
    RunFromSnoc(db, cfg, calls + check, last);
    ViolatePart(db, cfg, req, calls + check + [last], "rate_limit_exceeded", RateLimited);
    ViolatePart(db, cfg, req, calls + check + [last], "anomaly_detected", AnomalyBlocked);
  }

  lemma {:induction false} CheckIsReplay(db: Keyspace, cfg: Config, req: Request)
    ensures forall k :: 0 <= k < |ReplayTrail(db, cfg, req).ops| ==> ReplayTrail(db, cfg, req).ops[k].ValidateOp?
  {
    hide Reply;
  }

  lemma {:induction false} Late(db: Keyspace, cfg: Config, req: Request, matched: seq<RE.FilterRule>)
    requires !Exists(db, BanKey(req.ip), req.at) && req.geoAllowed
    requires Arrives(db, cfg, req, matched, |matched|)
    ensures var calls := CallsBefore(req, matched, |matched|);
      var replay := ReplayTrail(RunFrom(db, cfg, calls), cfg, req);
      var limit := LimitTrail(RunFrom(db, cfg, calls + replay.ops), cfg, req, |calls|);
      Decide(db, cfg, req, matched)
      == if replay.outcome.Some? then Trail(calls + replay.ops, replay.outcome)
         else Trail(calls + replay.ops + limit.ops, limit.outcome)
  {
    hide Arrives, RunFrom, Exists, RuleTrail, ReplayTrail, LimitTrail, CallsBefore;
    LoopPasses(db, cfg, req, matched);
    var calls := CallsBefore(req, matched, |matched|);
    var replay := ReplayTrail(RunFrom(db, cfg, calls), cfg, req);
    RunFromConcat(db, cfg, calls, replay.ops);
    var limit := LimitTrail(RunFrom(db, cfg, calls + replay.ops), cfg, req, |calls|);
    assert calls + (replay.ops + limit.ops) == calls + replay.ops + limit.ops;
  }

  // ----- the whole request -----

  /** Every request ends at the first of these: a live ban, a refused country, the first matched rule
      whose limit refuses its call or whose list has the country, a replay, a refused default limit, an
      anomaly, and the reply of the upstream.  It makes the guard calls up to there and no others; a
      refused default limit and an anomaly each record one violation. */
  lemma {:induction false} EndsAtFirst(db: Keyspace, cfg: Config, req: Request, matched: seq<RE.FilterRule>)
    returns (stop: nat)
    ensures stop <= |matched|
    ensures forall j :: 0 <= j < stop ==>
      LimitPasses(db, cfg, req, matched, j)
      && (req.country.None? || req.country.value !in matched[j].blockedCountries)
    ensures stop < |matched| ==>
      !LimitPasses(db, cfg, req, matched, stop)
      || (req.country.Some? && req.country.value in matched[stop].blockedCountries)
    ensures var calls := CallsBefore(req, matched, |matched|);
      var checked := req.nonce.Some? && req.nonce.value != "" && req.timestamp.Some?;
      var client := if req.clientId.Some? then req.clientId.value else req.ip;
      var check := if checked then [ValidateOp(client, req.nonce.value, req.timestamp.value, req.at, req.at)] else [];
      var last := AllowOp(req.ip, None, req.reading(|calls|), req.at);
      var count := CountAt(db, "vanguard:violations:" + req.ip, req.at) + 1;
      var status := if count >= cfg.policy.threshold then 403 else 429;
      Decide(db, cfg, req, matched)
      == if Exists(db, "vanguard:blacklist:" + req.ip, req.at) then Trail([], Some(Rejected(Blacklisted, 403, None)))
         else if !req.geoAllowed then Trail([], Some(Rejected(GeoBlocked, 403, req.country)))
         else if stop < |matched| then
           Trail(CallsBefore(req, matched, stop + 1),
                 Some(if LimitPasses(db, cfg, req, matched, stop) then Rejected(GeoBlocked, 403, req.country)
                      else Rejected(RateLimited, 429, req.country)))
         else if checked && (req.at - req.timestamp.value > cfg.replay.window
                             || req.timestamp.value - req.at > cfg.replay.window
                             || Exists(db, "vanguard:nonce:" + client + ":" + req.nonce.value, req.at)) then
           Trail(calls + check, Some(Rejected(ReplayBlocked, 403, req.country)))
         else if Reply(RunFrom(db, cfg, calls), cfg, last) != Granted(true) then
           Trail(calls + check + [last, ViolationOp(req.ip, "rate_limit_exceeded", req.at)],
                 Some(Rejected(RateLimited, status, req.country)))
         else if req.isAnomaly then
           Trail(calls + check + [last, ViolationOp(req.ip, "anomaly_detected", req.at)],
                 Some(Rejected(AnomalyBlocked, status, req.country)))
         else
           Trail(calls + check + [last],
                 Some(if req.upstreamStatus.None? then UpstreamFailed else Forwarded(req.upstreamStatus.value)))
  {
    stop := FirstStop(db, cfg, req, matched, |matched|);
    var banKey := BanKey(req.ip);
    assert banKey == "vanguard:blacklist:" + req.ip;
    if Exists(db, BanKey(req.ip), req.at) || !req.geoAllowed {
      hide RunFrom, Reply, LimitPasses, RuleTrail, Rest;
    } else if stop < |matched| {
      LoopStops(db, cfg, req, matched, stop);
      hide RunFrom, Reply, LimitPasses, RuleTrail, Rest;
    } else {
      var calls := CallsBefore(req, matched, |matched|);
      CallsAreLimits(req, matched, |matched|);
      Late(db, cfg, req, matched);
      ReplayPart(db, cfg, req, calls);
      LimitPart(db, cfg, req, calls);
      hide RunFrom, Reply, LimitPasses, RuleTrail, Rest, Decide, ReplayTrail, LimitTrail, CallsBefore, Exists, CountAt;
    }
  }

  /** Whatever goes upstream: its ip was not banned, its country is allowed and on the list of no matched
      rule, every limit granted its call, and a nonce with a timestamp got past the replay guard under the
      client id of the header, or else the ip. */
  lemma {:induction false} UpstreamMeans(db: Keyspace, cfg: Config, req: Request, matched: seq<RE.FilterRule>)
    requires var o := Decide(db, cfg, req, matched).outcome.value;
      o.Forwarded? || o.UpstreamFailed?
    ensures !Exists(db, "vanguard:blacklist:" + req.ip, req.at) && req.geoAllowed && !req.isAnomaly
    ensures forall i :: 0 <= i < |matched| ==>
      LimitPasses(db, cfg, req, matched, i)
      && (req.country.None? || req.country.value !in matched[i].blockedCountries)
    ensures req.nonce.Some? && req.nonce.value != "" && req.timestamp.Some? ==>
      var client := if req.clientId.Some? then req.clientId.value else req.ip;
      && -cfg.replay.window <= req.at - req.timestamp.value <= cfg.replay.window
      && !Exists(db, "vanguard:nonce:" + client + ":" + req.nonce.value, req.at)
      && ValidateOp(client, req.nonce.value, req.timestamp.value, req.at, req.at) in Decide(db, cfg, req, matched).ops
  {
    hide Decide, LimitPasses, RunFrom, Reply, CallsBefore, Exists, CountAt;
    var stop := EndsAtFirst(db, cfg, req, matched);
  }

  /** A request is refused for its country iff its ip is not banned and the country is refused outright, or
      is on the list of a matched rule that every earlier rule and its own limit let it come to. */
  lemma {:induction false} GeoBlockedIff(db: Keyspace, cfg: Config, req: Request, matched: seq<RE.FilterRule>)
    ensures var o := Decide(db, cfg, req, matched).outcome.value;
      o.Rejected? && o.action == GeoBlocked
      <==> !Exists(db, "vanguard:blacklist:" + req.ip, req.at)
           && (!req.geoAllowed
               || exists i :: 0 <= i < |matched| && LimitPasses(db, cfg, req, matched, i)
                    && req.country.Some? && req.country.value in matched[i].blockedCountries
                    && forall j :: 0 <= j < i ==>
                         LimitPasses(db, cfg, req, matched, j) && req.country.value !in matched[j].blockedCountries)
    ensures var o := Decide(db, cfg, req, matched).outcome.value;
      o.Rejected? && o.action == GeoBlocked ==> o.status == 403 && o.country == req.country
  {
    hide Decide, LimitPasses, RunFrom, Reply, CallsBefore, Exists, CountAt;
    var stop := EndsAtFirst(db, cfg, req, matched);
  }
}
