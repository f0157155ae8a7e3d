/** How much one client can get forwarded: the bucket's envelope, seen end to end. */
module Forwarding {
  import opened Options
  import opened Keys
  import opened SharedStore
  import opened RateLimiter
  import opened Pipeline
  import opened PipelineRun
  import RE = RuleEngine
  import TB = TokenBucket
  import BE = BucketEnvelope

  /** The limiter calls of one ip in a trace, and what the bucket theory says about each. */
  function CallsOf(trace: seq<Op>, cfg: Config, ip: string): seq<TB.Call> {
    OwnAllows(trace, ip, |trace|);
    Calls(Own(trace, {RateKey(ip)}, |trace|), cfg)
  }

  function DecisionsOf(trace: seq<Op>, cfg: Config, ip: string): seq<bool> {
    TB.Decisions(CallsOf(trace, cfg, ip), cfg.refillPerSec, Some(BUCKET_TTL))
  }

  /** How many of those calls come before position n of the trace. */
  function CallIndex(trace: seq<Op>, ip: string, n: nat): nat
    requires n <= |trace|
  {
    |Own(trace, {RateKey(ip)}, n)|
  }

  lemma {:induction false} OwnGrows(trace: seq<Op>, cell: set<string>, a: nat, b: nat)
    requires a <= b <= |trace|
    ensures Own(trace, cell, a) <= Own(trace, cell, b)
    decreases b - a
  {
    if a < b {
      OwnGrows(trace, cell, a, b - 1);
    }
  }

  /** A limiter call in a trace is granted iff the bucket theory accepts it. */
  lemma {:induction false} GrantedIsAccepted(trace: seq<Op>, cfg: Config, ip: string, p: nat)
    requires p < |trace| && Cell(trace[p]) == {RateKey(ip)}
    ensures CallIndex(trace, ip, p) < |CallsOf(trace, cfg, ip)|
    ensures GrantedFrom(map[], cfg, trace, p) <==> DecisionsOf(trace, cfg, ip)[CallIndex(trace, ip, p)]
  {
    RateCellIsAllow(trace[p], ip);
    AllowIsBucketDecision(trace, cfg, p);
    OwnGrows(trace, {RateKey(ip)}, p + 1, |trace|);
    OwnAllows(trace, ip, p + 1);
    var own := Own(trace, {RateKey(ip)}, p + 1);
    TB.AfterPrefix(Calls(own, cfg), CallsOf(trace, cfg, ip), cfg.refillPerSec, Some(BUCKET_TTL), |own| - 1);
  }

  lemma {:induction false} CallIndexBound(trace: seq<Op>, cfg: Config, ip: string, n: nat)
    requires n <= |trace|
    ensures CallIndex(trace, ip, n) <= |CallsOf(trace, cfg, ip)| == |DecisionsOf(trace, cfg, ip)|
  {
    OwnGrows(trace, {RateKey(ip)}, n, |trace|);
  }

  lemma {:induction false} GrantsAreAccepted(trace: seq<Op>, cfg: Config, ip: string, a: nat, b: nat)
    requires a <= b <= |trace|
    ensures CallIndex(trace, ip, a) <= CallIndex(trace, ip, b) <= |CallsOf(trace, cfg, ip)|
    ensures Grants(map[], cfg, trace, ip, a, b)
         == TB.Accepted(DecisionsOf(trace, cfg, ip), CallIndex(trace, ip, a), CallIndex(trace, ip, b))
    decreases b - a
  {
    hide Cell, GrantedFrom, DecisionsOf, CallsOf;
    CallIndexBound(trace, cfg, ip, b);
    OwnGrows(trace, {RateKey(ip)}, a, b);
    if a < b {
      GrantsAreAccepted(trace, cfg, ip, a, b - 1);
      if Cell(trace[b - 1]) == {RateKey(ip)} {
        GrantedIsAccepted(trace, cfg, ip, b - 1);
      }
    }
  }

  // ----- the bound -----

  predicate ForwardedFor(run: seq<Action>, cfg: Config, ip: string, n: nat)
    requires n < |run|
  {
    run[n].Http? && run[n].req.ip == ip
    && Reached(Decide(Before(run, cfg, n), cfg, run[n].req, run[n].matched).outcome.value)
  }

  /** One token per limiting rule and one more, for every request of `ip` among the actions
      a .. b - 1 that went upstream. */
  function Spent(run: seq<Action>, cfg: Config, ip: string, a: nat, b: nat): nat
    requires a <= b <= |run|
    decreases b - a
  {
    if a == b then 0
    else Spent(run, cfg, ip, a, b - 1)
         + if ForwardedFor(run, cfg, ip, b - 1) then RE.Limiting(run[b - 1].matched) + 1 else 0
  }

  lemma {:induction false} GrantsPrefix(cfg: Config, trace: seq<Op>, ops: seq<Op>, ip: string, a: nat, b: nat)
    requires a <= b <= |trace|
    ensures Grants(map[], cfg, trace + ops, ip, a, b) == Grants(map[], cfg, trace, ip, a, b)
    decreases b - a
  {
    if a < b {
      GrantsPrefix(cfg, trace, ops, ip, a, b - 1);
      GrantedConcat(map[], cfg, trace, ops, b - 1);
    }
  }

  lemma {:induction false} ActionCost(run: seq<Action>, cfg: Config, ip: string, n: nat)
    requires n < |run| && ForwardedFor(run, cfg, ip, n)
    ensures var ops := OpsOf(Before(run, cfg, n), cfg, run[n]);
      Grants(Before(run, cfg, n), cfg, ops, ip, 0, |ops|) == RE.Limiting(run[n].matched) + 1
  {
    ForwardedCost(Before(run, cfg, n), cfg, run[n].req, run[n].matched);
  }

  lemma {:induction false} SpentWasGranted(run: seq<Action>, cfg: Config, ip: string, a: nat, b: nat)
    requires a <= b <= |run|
    ensures |Trace(run, cfg, a)| <= |Trace(run, cfg, b)|
    ensures Spent(run, cfg, ip, a, b)
         <= Grants(map[], cfg, Trace(run, cfg, b), ip, |Trace(run, cfg, a)|, |Trace(run, cfg, b)|)
    decreases b - a
  {
    hide OpsOf, Cell, GrantedFrom, RE.Limiting, Decide;
    TraceGrows(run, cfg, a, b);
    if a < b {
      SpentWasGranted(run, cfg, ip, a, b - 1);
      var before, ops := Trace(run, cfg, b - 1), OpsOf(Before(run, cfg, b - 1), cfg, run[b - 1]);
      assert Trace(run, cfg, b) == before + ops;
      GrantsPrefix(cfg, before, ops, ip, |Trace(run, cfg, a)|, |before|);
      GrantsSplit(map[], cfg, before + ops, ip, |Trace(run, cfg, a)|, |before|, |before + ops|);
      if ForwardedFor(run, cfg, ip, b - 1) {
        ActionCost(run, cfg, ip, b - 1);
        GrantsLater(map[], cfg, before, ops, ip, 0, |ops|);
      }
    }
  }

  /** End to end: whatever the other clients, the admins and the other transports do meanwhile, the
      requests of one ip that go upstream within the limiter calls i .. j - each paid with one token
      per limiting rule and one more - fit into the envelope of that interval, if the bucket's key does
      not expire in it or its expiry cannot be seen (`SteadyRuns` says which runs these are). */
  lemma {:induction false} ForwardingBound(run: seq<Action>, cfg: Config, ip: string, a: nat, b: nat, i: nat, j: nat)
    requires a <= b <= |run|
    requires var trace := Trace(run, cfg, b);
      && |Trace(run, cfg, a)| <= |trace| && i <= CallIndex(trace, ip, |Trace(run, cfg, a)|)
      && i <= j && j + 1 == |CallsOf(trace, cfg, ip)|
      && DecisionsOf(trace, cfg, ip)[j] && BE.Enveloped(CallsOf(trace, cfg, ip), cfg.refillPerSec, BUCKET_TTL, i, j)
    ensures Spent(run, cfg, ip, a, b) as real <= TB.Bound(CallsOf(Trace(run, cfg, b), cfg, ip), cfg.refillPerSec, i, j)
  {
    var trace, from := Trace(run, cfg, b), |Trace(run, cfg, a)|;
    SpentWasGranted(run, cfg, ip, a, b);
    GrantsAreAccepted(trace, cfg, ip, from, |trace|);
    BE.EnvelopeHolds(CallsOf(trace, cfg, ip), cfg.refillPerSec, BUCKET_TTL, i, j);
    TB.AcceptedSplit(DecisionsOf(trace, cfg, ip), i, CallIndex(trace, ip, from), j + 1);
  }

  lemma {:induction false} SpentUniform(run: seq<Action>, cfg: Config, ip: string, a: nat, b: nat, m: nat,
                                        forwarded: nat)
    requires a <= b <= |run|
    requires forall n :: a <= n < b && ForwardedFor(run, cfg, ip, n) ==> RE.Limiting(run[n].matched) == m
    requires forwarded == Forwards(run, cfg, ip, a, b)
    ensures Spent(run, cfg, ip, a, b) == forwarded * (m + 1)
    decreases b - a
  {
    hide ForwardedFor, RE.Limiting;
    if a < b {
      var f := Forwards(run, cfg, ip, a, b - 1);
      SpentUniform(run, cfg, ip, a, b - 1, m, f);
    }
  }

  /** The number of requests of `ip` among the actions a .. b - 1 that went upstream. */
  function Forwards(run: seq<Action>, cfg: Config, ip: string, a: nat, b: nat): nat
    requires a <= b <= |run|
    decreases b - a
  {
    if a == b then 0 else Forwards(run, cfg, ip, a, b - 1) + if ForwardedFor(run, cfg, ip, b - 1) then 1 else 0
  }

  /** The same with one number: F requests with m limiting rules each cost F * (m + 1) tokens. */
  lemma {:induction false} UniformBound(run: seq<Action>, cfg: Config, ip: string, a: nat, b: nat, i: nat, j: nat,
                                        m: nat)
    requires a <= b <= |run|
    requires forall n :: a <= n < b && ForwardedFor(run, cfg, ip, n) ==> RE.Limiting(run[n].matched) == m
    requires var trace := Trace(run, cfg, b);
      && |Trace(run, cfg, a)| <= |trace| && i <= CallIndex(trace, ip, |Trace(run, cfg, a)|)
      && i <= j && j + 1 == |CallsOf(trace, cfg, ip)|
      && DecisionsOf(trace, cfg, ip)[j] && BE.Enveloped(CallsOf(trace, cfg, ip), cfg.refillPerSec, BUCKET_TTL, i, j)
    ensures (Forwards(run, cfg, ip, a, b) * (m + 1)) as real
         <= TB.Bound(CallsOf(Trace(run, cfg, b), cfg, ip), cfg.refillPerSec, i, j)
  {
    ForwardingBound(run, cfg, ip, a, b, i, j);
    SpentUniform(run, cfg, ip, a, b, m, Forwards(run, cfg, ip, a, b));
  }
}
