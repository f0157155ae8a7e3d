/** The books over whole runs: counters, log and alerts against what happened to the requests. */
module Accounting {
  import opened Options
  import opened TimedStore
  import opened Keys
  import opened Events
  import opened RateLimiter
  import opened SharedStore
  import opened Pipeline
  import opened PipelineRun
  import opened Reports
  import AL = Alerting
  import RuleEngine

  function Start(): GatewayState { GatewayState(map[], AL.State([], 0.0), map[], map[], []) }

  /** Only HTTP requests are counted; the other actions just use the store. */
  function Step(s: GatewayState, cfg: Config, threshold: int, a: Action): GatewayState {
    if a.Http? then Handle(s, cfg, threshold, a.req, a.matched)
    else s.(db := RunFrom(s.db, cfg, OpsOf(s.db, cfg, a)))
  }

  /** The gateway after the first `n` actions. */
  function StateAfter(run: seq<Action>, cfg: Config, threshold: int, n: nat): GatewayState
    requires n <= |run|
  {
    if n == 0 then Start() else Step(StateAfter(run, cfg, threshold, n - 1), cfg, threshold, run[n - 1])
  }

  lemma {:induction false} AccountKeepsStore(s: GatewayState, cfg: Config, threshold: int, req: Request,
                                             outcome: Outcome)
    ensures Account(s, cfg, threshold, req, outcome).db == s.db
  {
  }

  lemma {:induction false} StepStore(s: GatewayState, cfg: Config, threshold: int, a: Action)
    ensures Step(s, cfg, threshold, a).db == RunFrom(s.db, cfg, OpsOf(s.db, cfg, a))
  {
    hide Decide, RunFrom, Account;
    if a.Http? {
      var t := Decide(s.db, cfg, a.req, a.matched);
      AccountKeepsStore(s.(db := RunFrom(s.db, cfg, t.ops)), cfg, threshold, a.req, t.outcome.value);
    }
  }

  lemma {:induction false} NextStore(s: GatewayState, cfg: Config, threshold: int, a: Action, trace: seq<Op>)
    requires s.db == RunFrom(map[], cfg, trace)
    ensures Step(s, cfg, threshold, a).db == RunFrom(map[], cfg, trace + OpsOf(s.db, cfg, a))
  {
    hide Step, OpsOf, RunFrom;
    StepStore(s, cfg, threshold, a);
    RunFromConcat(map[], cfg, trace, OpsOf(s.db, cfg, a));
  }

  /** The store of the gateway is the store of the trace. */
  lemma {:induction false} StoreIsBefore(run: seq<Action>, cfg: Config, threshold: int, n: nat)
    requires n <= |run|
    ensures StateAfter(run, cfg, threshold, n).db == Before(run, cfg, n)
  {
    hide Step, OpsOf;
    if n > 0 {
      StoreIsBefore(run, cfg, threshold, n - 1);
      NextStore(StateAfter(run, cfg, threshold, n - 1), cfg, threshold, run[n - 1], Trace(run, cfg, n - 1));
    }
  }

  function OutcomeAt(run: seq<Action>, cfg: Config, n: nat): Outcome
    requires n < |run| && run[n].Http?
  {
    Decide(Before(run, cfg, n), cfg, run[n].req, run[n].matched).outcome.value
  }

  /** The event of an outcome, read off the store as the request left it. */
  function EventOf(db: Keyspace, cfg: Config, req: Request, outcome: Outcome): seq<TrafficEvent> {
    match outcome
    case UpstreamFailed => []
    case Forwarded(_) => [EventFor(db, cfg, req, Allowed, req.country)]
    case Rejected(action, _, country) => [EventFor(db, cfg, req, action, country)]
  }

  function BlockOf(req: Request, outcome: Outcome): seq<AL.Block> {
    if outcome.Rejected? then [AL.Block(req.at, req.checkedAt)] else []
  }

  function ActionEvents(db: Keyspace, cfg: Config, a: Action): seq<TrafficEvent> {
    if a.Http? then
      var t := Decide(db, cfg, a.req, a.matched);
      EventOf(RunFrom(db, cfg, t.ops), cfg, a.req, t.outcome.value)
    else []
  }

  function ActionBlocks(db: Keyspace, cfg: Config, a: Action): seq<AL.Block> {
    if a.Http? then BlockOf(a.req, Decide(db, cfg, a.req, a.matched).outcome.value) else []
  }

  /** The events of the first `n` actions. */
  function Emitted(run: seq<Action>, cfg: Config, n: nat): seq<TrafficEvent>
    requires n <= |run|
  {
    if n == 0 then [] else Emitted(run, cfg, n - 1) + ActionEvents(Before(run, cfg, n - 1), cfg, run[n - 1])
  }

  /** The `record_block` calls of the first `n` actions: one for each rejected request. */
  function Blocks(run: seq<Action>, cfg: Config, n: nat): seq<AL.Block>
    requires n <= |run|
  {
    if n == 0 then [] else Blocks(run, cfg, n - 1) + ActionBlocks(Before(run, cfg, n - 1), cfg, run[n - 1])
  }

  /** The actions of the events that were not allowed. */
  function Refusals(events: seq<TrafficEvent>): seq<ActionType> {
    if events == [] then []
    else Refusals(events[..|events| - 1])
         + if events[|events| - 1].action != Allowed then [events[|events| - 1].action] else []
  }

  predicate AnyOutcome(o: Outcome) { true }
  predicate IsForwarded(o: Outcome) { o.Forwarded? }
  predicate IsRejected(o: Outcome) { o.Rejected? }
  predicate HasFailed(o: Outcome) { o.UpstreamFailed? }

  /** How many of the first `n` actions are requests that ended in such an outcome. */
  function Kind(run: seq<Action>, cfg: Config, n: nat, p: Outcome -> bool): nat
    requires n <= |run|
  {
    if n == 0 then 0
    else Kind(run, cfg, n - 1, p) + if run[n - 1].Http? && p(OutcomeAt(run, cfg, n - 1)) then 1 else 0
  }

  // ----- one action -----

  /** No guard ever rejects a request as "allowed". */
  lemma {:induction false} RejectedIsNotAllowed(db: Keyspace, cfg: Config, req: Request,
                                                matched: seq<RuleEngine.FilterRule>)
    ensures var outcome := Decide(db, cfg, req, matched).outcome.value;
      outcome.Rejected? ==> outcome.action != Allowed
  {
    RulesNeverAllow(db, cfg, req, matched, 0);
    hide RuleTrail, RunFrom, Apply, Reply;
  }

  lemma {:induction false} RulesNeverAllow(db: Keyspace, cfg: Config, req: Request, rules: seq<RuleEngine.FilterRule>,
                                           k: nat)
    ensures var outcome := RuleTrail(db, cfg, req, rules, k).outcome;
      outcome.Some? ==> outcome.value.action != Allowed
    decreases |rules|
  {
    hide RunFrom, Reply;
    if rules != [] {
      var step := RuleStep(db, cfg, req, rules[0], k);
      RulesNeverAllow(RunFrom(db, cfg, step.ops), cfg, req, rules[1..], k + |step.ops|);
    }
  }

  /** The books are right: they agree with the events and the rejections so far. */
  ghost predicate Balanced(s: GatewayState, threshold: int, events: seq<TrafficEvent>, blocks: seq<AL.Block>) {
    && s.requests == CountBy(Actions(events))
    && s.blocked == CountBy(Refusals(events))
    && s.log == LogAfter(events, |events|)
    && s.alerts == AL.StateAfter(blocks, threshold, |blocks|)
    && |Refusals(events)| == |blocks|
  }

  lemma {:induction false} LogPrefix(short: seq<TrafficEvent>, long: seq<TrafficEvent>, n: nat)
    requires short <= long && n <= |short|
    ensures LogAfter(short, n) == LogAfter(long, n)
  {
    if n > 0 {
      LogPrefix(short, long, n - 1);
    }
  }

  lemma {:induction false} AlertsPrefix(short: seq<AL.Block>, long: seq<AL.Block>, threshold: int, n: nat)
    requires short <= long && n <= |short|
    ensures AL.StateAfter(short, threshold, n) == AL.StateAfter(long, threshold, n)
  {
    if n > 0 {
      AlertsPrefix(short, long, threshold, n - 1);
    }
  }

  lemma {:induction false} CountOneMore<K>(keys: seq<K>, k: K)
    ensures CountBy(keys + [k]) == CountBy(keys)[k := (if k in CountBy(keys) then CountBy(keys)[k] else 0) + 1]
  {
    assert (keys + [k])[..|keys|] == keys;
  }

  lemma {:induction false} EventAction(db: Keyspace, cfg: Config, req: Request, action: ActionType,
                                       country: Option<string>)
    ensures EventFor(db, cfg, req, action, country).action == action
  {
  }

  /** One more event on the books. */
  lemma {:induction false} EmitBalances(s: GatewayState, cfg: Config, threshold: int, req: Request, action: ActionType,
                                        country: Option<string>, events: seq<TrafficEvent>, events': seq<TrafficEvent>)
    requires s.requests == CountBy(Actions(events)) && s.log == LogAfter(events, |events|)
    requires events' == events + [EventFor(s.db, cfg, req, action, country)]
    ensures var s' := Emit(s, cfg, req, action, country);
      s'.requests == CountBy(Actions(events')) && s'.log == LogAfter(events', |events'|)
    ensures Refusals(events') == Refusals(events) + if action != Allowed then [action] else []
  {
    hide EventFor, CountBy;
    assert events'[..|events'| - 1] == events;
    EventAction(s.db, cfg, req, action, country);
    CountOneMore(Actions(events), action);
    LogPrefix(events, events', |events|);
  }

  lemma {:induction false} AccountBalances(s: GatewayState, cfg: Config, threshold: int, req: Request, outcome: Outcome,
                                           events: seq<TrafficEvent>, blocks: seq<AL.Block>)
    requires Balanced(s, threshold, events, blocks)
    requires outcome.Rejected? ==> outcome.action != Allowed
    ensures Balanced(Account(s, cfg, threshold, req, outcome), threshold, events + EventOf(s.db, cfg, req, outcome),
                     blocks + BlockOf(req, outcome))
  {
    var events' := events + EventOf(s.db, cfg, req, outcome);
    hide EventFor, AL.Next, CountBy, LogAfter, Actions, Refusals;
    match outcome
    case UpstreamFailed =>
      assert events' == events;
      assert blocks + [] == blocks;
    case Forwarded(_) =>
      EmitBalances(s, cfg, threshold, req, Allowed, req.country, events, events');
      assert Refusals(events) + [] == Refusals(events);
      assert blocks + [] == blocks;
    case Rejected(action, _, country) =>
      EmitBalances(s, cfg, threshold, req, action, country, events, events');
      CountOneMore(Refusals(events), action);
      AlertsPrefix(blocks, blocks + [AL.Block(req.at, req.checkedAt)], threshold, |blocks|);
  }

  lemma {:induction false} HandleBalances(s: GatewayState, cfg: Config, threshold: int, req: Request,
                                          matched: seq<RuleEngine.FilterRule>,
                                          events: seq<TrafficEvent>, blocks: seq<AL.Block>)
    requires Balanced(s, threshold, events, blocks)
    ensures var t := Decide(s.db, cfg, req, matched);
      var outcome := t.outcome.value;
      Balanced(Handle(s, cfg, threshold, req, matched), threshold,
               events + EventOf(RunFrom(s.db, cfg, t.ops), cfg, req, outcome), blocks + BlockOf(req, outcome))
  {
    RejectedIsNotAllowed(s.db, cfg, req, matched);
    var t := Decide(s.db, cfg, req, matched);
    hide Decide, RunFrom, EventOf, AL.StateAfter, CountBy, LogAfter, Actions, Refusals, Account;
    AccountBalances(s.(db := RunFrom(s.db, cfg, t.ops)), cfg, threshold, req, t.outcome.value, events, blocks);
  }

  lemma {:induction false} StepBalances(s: GatewayState, cfg: Config, threshold: int, a: Action,
                                        events: seq<TrafficEvent>,
                                        blocks: seq<AL.Block>)
    requires Balanced(s, threshold, events, blocks)
    ensures Balanced(Step(s, cfg, threshold, a), threshold, events + ActionEvents(s.db, cfg, a),
      blocks + ActionBlocks(s.db, cfg, a))
  {
    if a.Http? {
      hide Balanced, Decide, RunFrom, Handle;
      HandleBalances(s, cfg, threshold, a.req, a.matched, events, blocks);
    } else {
      hide Decide, RunFrom, Handle, OpsOf;
      assert events + [] == events && blocks + [] == blocks;
    }
  }

  lemma {:induction false} StartBalances(threshold: int)
    ensures Balanced(Start(), threshold, [], [])
  {
  }

  /** In every reachable state the counters count the events, the log is the log of the events, and the
      alert window has seen exactly the rejections. */
  lemma {:induction false} BooksBalance(run: seq<Action>, cfg: Config, threshold: int, n: nat)
    requires n <= |run|
    ensures Balanced(StateAfter(run, cfg, threshold, n), threshold, Emitted(run, cfg, n), Blocks(run, cfg, n))
  {
    hide Step, Before, ActionEvents, ActionBlocks, Balanced, Start;
    if n == 0 {
      StartBalances(threshold);
    } else {
      BooksBalance(run, cfg, threshold, n - 1);
      StoreIsBefore(run, cfg, threshold, n - 1);
      StepBalances(StateAfter(run, cfg, threshold, n - 1), cfg, threshold, run[n - 1], Emitted(run, cfg, n - 1),
                   Blocks(run, cfg, n - 1));
    }
  }

  // ----- conservation -----

  lemma {:induction false} RefusalsOfActions(events: seq<TrafficEvent>)
    ensures Allowed !in Refusals(events)
    ensures forall a :: a != Allowed ==> multiset(Refusals(events))[a] == multiset(Actions(events))[a]
    ensures |Actions(events)| == |events| == |Refusals(events)| + multiset(Actions(events))[Allowed]
  {
    if events != [] {
      RefusalsOfActions(events[..|events| - 1]);
    }
  }

  /** What became of the requests: forwarded, rejected, or lost to a failed upstream. */
  lemma {:induction false} KindsAddUp(run: seq<Action>, cfg: Config, n: nat)
    requires n <= |run|
    ensures Kind(run, cfg, n, AnyOutcome)
         == Kind(run, cfg, n, IsForwarded) + Kind(run, cfg, n, IsRejected) + Kind(run, cfg, n, HasFailed)
    ensures Kind(run, cfg, n, IsRejected) == |Blocks(run, cfg, n)|
  {
    hide Decide, Before;
    if n > 0 {
      KindsAddUp(run, cfg, n - 1);
    }
  }

  lemma {:induction false} ForwardedAreAllowed(run: seq<Action>, cfg: Config, n: nat)
    requires n <= |run|
    ensures Kind(run, cfg, n, IsForwarded) == multiset(Actions(Emitted(run, cfg, n)))[Allowed]
  {
    hide Decide, Before, EventOf, Actions, RunFrom;
    if n > 0 {
      ForwardedAreAllowed(run, cfg, n - 1);
      var db, a := Before(run, cfg, n - 1), run[n - 1];
      if a.Http? {
        var t := Decide(db, cfg, a.req, a.matched);
        RejectedIsNotAllowed(db, cfg, a.req, a.matched);
        OneKind(RunFrom(db, cfg, t.ops), cfg, a.req, t.outcome.value, Emitted(run, cfg, n - 1));
      } else {
        assert Emitted(run, cfg, n) == Emitted(run, cfg, n - 1);
      }
    } else {
      NoEvents();
    }
  }

  lemma {:induction false} NoEvents()
    ensures Actions([]) == []
  {
  }

  lemma {:induction false} OneKind(db: Keyspace, cfg: Config, req: Request, outcome: Outcome, events: seq<TrafficEvent>)
    requires outcome.Rejected? ==> outcome.action != Allowed
    ensures multiset(Actions(events + EventOf(db, cfg, req, outcome)))[Allowed]
         == multiset(Actions(events))[Allowed] + if outcome.Forwarded? then 1 else 0
  {
    hide RateNow;
    var events' := events + EventOf(db, cfg, req, outcome);
    if outcome.UpstreamFailed? {
      assert events' == events;
    } else {
      assert events'[..|events'| - 1] == events;
    }
  }

  predicate Agree(requests: map<ActionType, nat>, blocked: map<ActionType, nat>) {
    && Allowed !in blocked
    && forall a :: a != Allowed ==> (a in blocked <==> a in requests) && (a in blocked ==> blocked[a] == requests[a])
  }

  lemma {:induction false} CountersAgree(events: seq<TrafficEvent>)
    ensures Agree(CountBy(Actions(events)), CountBy(Refusals(events)))
  {
    hide CountBy, Actions, Refusals;
    RefusalsOfActions(events);
    CountsAddUp(Actions(events));
    CountsAddUp(Refusals(events));
    forall a | a != Allowed
      ensures a in CountBy(Refusals(events)) <==> a in CountBy(Actions(events))
      ensures a in CountBy(Refusals(events)) ==> CountBy(Refusals(events))[a] == CountBy(Actions(events))[a]
    {
      assert multiset(Refusals(events))[a] == multiset(Actions(events))[a];
      assert a in Refusals(events) <==> multiset(Refusals(events))[a] > 0;
      assert a in Actions(events) <==> multiset(Actions(events))[a] > 0;
    }
  }

  lemma {:induction false} CountersTotal(events: seq<TrafficEvent>)
    ensures AllowedOf(CountBy(Actions(events))) == multiset(Actions(events))[Allowed]
    ensures Total(CountBy(Refusals(events))) == |Refusals(events)|
    ensures Total(CountBy(Actions(events))) == |Refusals(events)| + multiset(Actions(events))[Allowed]
  {
    hide CountBy, Actions, Refusals, Total;
    RefusalsOfActions(events);
    CountsAddUp(Actions(events));
    CountsAddUp(Refusals(events));
    assert Allowed in Actions(events) <==> multiset(Actions(events))[Allowed] > 0;
  }

  /** Conservation: every handled request is counted exactly once - as allowed, as blocked, or as a
      failed upstream call - and for every reason but "allowed" both counters agree. */
  lemma {:induction false} Conservation(run: seq<Action>, cfg: Config, threshold: int, n: nat)
    requires n <= |run|
    ensures var s := StateAfter(run, cfg, threshold, n);
      var failed := Kind(run, cfg, n, HasFailed);
      && Kind(run, cfg, n, AnyOutcome) == AllowedOf(s.requests) + Total(s.blocked) + failed
      && Total(s.requests) + failed == Kind(run, cfg, n, AnyOutcome)
      && AllowedOf(s.requests) == Kind(run, cfg, n, IsForwarded)
      && Total(s.blocked) == Kind(run, cfg, n, IsRejected) == |Blocks(run, cfg, n)|
      && Agree(s.requests, s.blocked)
  {
    var events := Emitted(run, cfg, n);
    BooksBalance(run, cfg, threshold, n);
    KindsAddUp(run, cfg, n);
    ForwardedAreAllowed(run, cfg, n);
    CountersAgree(events);
    CountersTotal(events);
    hide Emitted, Blocks, CountBy, Actions, Refusals, LogAfter, AL.StateAfter, StateAfter, Kind, Total, Agree,
        AllowedOf;
  }

  /** The stored log is the newest 50000 events of the whole run, and the alert state is that of all its
      rejections. */
  lemma {:induction false} LogAndAlerts(run: seq<Action>, cfg: Config, threshold: int, n: nat)
    requires n <= |run|
    ensures var s, blocks := StateAfter(run, cfg, threshold, n), Blocks(run, cfg, n);
      && s.log == Newest(Emitted(run, cfg, n), LOG_LIMIT)
      && s.alerts == AL.StateAfter(blocks, threshold, |blocks|)
  {
    var events := Emitted(run, cfg, n);
    BooksBalance(run, cfg, threshold, n);
    hide StateAfter, Emitted, LogAfter, Newest, Blocks, CountBy, Actions, Refusals, AL.StateAfter;
    LogIsNewest(events, |events|);
    assert events[..|events|] == events;
  }

  lemma {:induction false} EventFields(db: Keyspace, cfg: Config, req: Request, action: ActionType,
                                       country: Option<string>)
    ensures var bucket := Get(db, "vanguard:ratelimit:" + req.ip, req.at);
      var rate := if bucket.Some? && bucket.value.Bucket? then cfg.capacity as real - bucket.value.tokens else 0.0;
      EventFor(db, cfg, req, action, country)
      == TrafficEvent(req.at, req.ip, req.endpoint, req.packetSize, action, Truncate(rate), country)
  {
    var key := RateKey(req.ip);
    assert key == "vanguard:ratelimit:" + req.ip;
    hide Truncate, RateKey;
  }

  lemma {:induction false} AfterRequest(run: seq<Action>, cfg: Config, n: nat)
    requires n < |run| && run[n].Http?
    ensures Emitted(run, cfg, n + 1)
         == Emitted(run, cfg, n) + EventOf(Before(run, cfg, n + 1), cfg, run[n].req, OutcomeAt(run, cfg, n))
  {
    hide Decide, RunFrom, EventOf;
    RunFromConcat(map[], cfg, Trace(run, cfg, n), Decide(Before(run, cfg, n), cfg, run[n].req, run[n].matched).ops);
  }

  /** What one request adds to the events, field by field; `rate` is the number of tokens in use once the
      request is through with its guards. */
  lemma {:induction false} EventWrittenOut(run: seq<Action>, cfg: Config, n: nat)
    requires n < |run| && run[n].Http?
    ensures var req, earlier := run[n].req, Emitted(run, cfg, n);
      var bucket := Get(Before(run, cfg, n + 1), "vanguard:ratelimit:" + req.ip, req.at);
      var rate := if bucket.Some? && bucket.value.Bucket? then cfg.capacity as real - bucket.value.tokens else 0.0;
      Emitted(run, cfg, n + 1)
      == match OutcomeAt(run, cfg, n)
         case UpstreamFailed => earlier
         case Forwarded(_) =>
           earlier + [TrafficEvent(req.at, req.ip, req.endpoint, req.packetSize, Allowed, Truncate(rate), req.country)]
         case Rejected(action, _, country) =>
           earlier + [TrafficEvent(req.at, req.ip, req.endpoint, req.packetSize, action, Truncate(rate), country)]
  {
    hide OutcomeAt, Before, EventFor, Truncate, Get, Emitted;
    AfterRequest(run, cfg, n);
    var req := run[n].req;
    match OutcomeAt(run, cfg, n)
    case UpstreamFailed => assert Emitted(run, cfg, n) + [] == Emitted(run, cfg, n);
    case Forwarded(_) => EventFields(Before(run, cfg, n + 1), cfg, req, Allowed, req.country);
    case Rejected(action, _, country) => EventFields(Before(run, cfg, n + 1), cfg, req, action, country);
  }

  // ----- alerts -----

  /** The gateway's clock never goes backwards, from request to request and within one. */
  predicate ClockForward(run: seq<Action>) {
    && (forall n :: 0 <= n < |run| && run[n].Http? ==> run[n].req.at <= run[n].req.checkedAt)
    && (forall i, j :: 0 <= i < j < |run| && run[i].Http? && run[j].Http? ==> run[i].req.checkedAt <= run[j].req.at)
  }

  lemma {:induction false} BlocksOneMore(run: seq<Action>, cfg: Config, n: nat)
    requires n < |run|
    ensures Blocks(run, cfg, n + 1)
         == Blocks(run, cfg, n) + if run[n].Http? then BlockOf(run[n].req, OutcomeAt(run, cfg, n)) else []
  {
    hide Decide, Before;
  }

  /** The first `n` requests were over by time `upTo`. */
  predicate OverBy(run: seq<Action>, n: nat, upTo: real)
    requires n <= |run|
  {
    forall i :: 0 <= i < n && run[i].Http? ==> run[i].req.checkedAt <= upTo
  }

  /** A block window that goes forward and ends by time `upTo`. */
  predicate ForwardUpTo(blocks: seq<AL.Block>, upTo: real) {
    AL.Forward(blocks) && forall k :: 0 <= k < |blocks| ==> blocks[k].checkedAt <= upTo
  }

  lemma {:induction false} ForwardOneMore(blocks: seq<AL.Block>, b: AL.Block, upTo: real)
    requires ForwardUpTo(blocks, b.at) && b.at <= b.checkedAt <= upTo
    ensures ForwardUpTo(blocks + [b], upTo) && ForwardUpTo(blocks, upTo)
  {
  }

  lemma {:induction false} ClockStep(run: seq<Action>, n: nat, upTo: real)
    requires n < |run| && ClockForward(run) && OverBy(run, n + 1, upTo)
    ensures OverBy(run, n, upTo)
    ensures run[n].Http? ==> OverBy(run, n, run[n].req.at) && run[n].req.at <= run[n].req.checkedAt <= upTo
  {
  }

  lemma {:induction false} NoBlocks(upTo: real)
    ensures ForwardUpTo([], upTo)
  {
  }

  lemma {:induction false} BlocksForward(run: seq<Action>, cfg: Config, n: nat, upTo: real)
    requires n <= |run| && ClockForward(run) && OverBy(run, n, upTo)
    ensures ForwardUpTo(Blocks(run, cfg, n), upTo)
  {
    hide ClockForward, OverBy, ForwardUpTo, ActionBlocks, OutcomeAt, Before;
    if n == 0 {
      NoBlocks(upTo);
    } else {
      ClockStep(run, n - 1, upTo);
      BlocksOneMore(run, cfg, n - 1);
      hide Blocks;
      if run[n - 1].Http? {
        var req := run[n - 1].req;
        BlocksForward(run, cfg, n - 1, req.at);
        ForwardOneMore(Blocks(run, cfg, n - 1), AL.Block(req.at, req.checkedAt), upTo);
      } else {
        BlocksForward(run, cfg, n - 1, upTo);
      }
      assert Blocks(run, cfg, n - 1) + [] == Blocks(run, cfg, n - 1);
    }
  }

  /** Request n is rejected and its rejection sends an alert. */
  predicate AlertsAt(run: seq<Action>, cfg: Config, threshold: int, n: nat)
    requires n < |run|
  {
    run[n].Http? && OutcomeAt(run, cfg, n).Rejected?
    && AL.Sends(StateAfter(run, cfg, threshold, n).alerts, threshold, AL.Block(run[n].req.at, run[n].req.checkedAt))
  }

  lemma {:induction false} AlertIsSent(run: seq<Action>, cfg: Config, threshold: int, n: nat)
    requires n < |run| && run[n].Http? && OutcomeAt(run, cfg, n).Rejected?
    ensures var blocks := Blocks(run, cfg, n + 1);
      && blocks == Blocks(run, cfg, n) + [AL.Block(run[n].req.at, run[n].req.checkedAt)]
      && (AlertsAt(run, cfg, threshold, n) <==> AL.Sent(blocks, threshold, |blocks| - 1))
  {
    BooksBalance(run, cfg, threshold, n);
    BlocksOneMore(run, cfg, n);
    hide StateAfter, Emitted, Blocks, OutcomeAt, AL.Sends, AL.StateAfter, CountBy, LogAfter, Actions, Refusals;
    AlertsPrefix(Blocks(run, cfg, n), Blocks(run, cfg, n + 1), threshold, |Blocks(run, cfg, n)|);
  }

  /** In every run: a rejected request sends an alert iff one is due by the schedule of all rejections. */
  lemma {:induction false} AlertsOfRun(run: seq<Action>, cfg: Config, threshold: int, n: nat)
    requires n < |run| && ClockForward(run) && run[n].Http? && OutcomeAt(run, cfg, n).Rejected?
    ensures Blocks(run, cfg, n + 1) != []
    ensures AlertsAt(run, cfg, threshold, n)
       <==> AL.Due(Blocks(run, cfg, n + 1), threshold, |Blocks(run, cfg, n + 1)| - 1)
  {
    hide Blocks, OutcomeAt, AlertsAt, ClockForward, OverBy, AL.Sent, AL.Due, AL.Forward;
    AlertIsSent(run, cfg, threshold, n);
    LatestIsOver(run, n);
    BlocksForward(run, cfg, n + 1, run[n].req.checkedAt);
    var blocks := Blocks(run, cfg, n + 1);
    AL.AlertSchedule(blocks, threshold, |blocks| - 1);
  }

  lemma {:induction false} LatestIsOver(run: seq<Action>, n: nat)
    requires n < |run| && ClockForward(run) && run[n].Http?
    ensures OverBy(run, n + 1, run[n].req.checkedAt)
  {
  }
}
