/** The bound of `Overlap` is exact: a crowd of handlers that all passed their ban check in time brings the
    counter to threshold - 1 plus their number. */
module OverlapReached {
  import opened Options
  import opened TimedStore
  import opened Keys
  import opened SharedStore
  import opened Pipeline
  import opened Interleaving
  import opened Overlap
  import RateLimiter

  /** Some orderly run, all of it at time zero, leads to `s` after `n` steps with the crowd never too large. */
  ghost predicate Reachable(cfg: Config, crowd: nat, n: nat, s: System) {
    exists run: seq<Step> ::
      |run| == n && Orderly(run, n, 0.0) && CrowdAtMost(run, cfg, "", crowd, n) && StateAfter(run, cfg, n) == s
  }

  lemma {:induction false} Prefix(short: seq<Step>, long: seq<Step>, cfg: Config, crowd: nat, n: nat, clock: real)
    requires short <= long && n <= |short|
    ensures StateAfter(short, cfg, n) == StateAfter(long, cfg, n)
    ensures Orderly(short, n, clock) <==> Orderly(long, n, clock)
    ensures CrowdAtMost(short, cfg, "", crowd, n) <==> CrowdAtMost(long, cfg, "", crowd, n)
  {
    hide Next, Crowd;
    if n > 0 {
      Prefix(short, long, cfg, crowd, n - 1, if long[n - 1].Arrive? then clock else StepTime(long[n - 1]));
    }
  }

  lemma {:induction false} ReachStart(cfg: Config, crowd: nat)
    ensures Reachable(cfg, crowd, 0, System(map[], []))
  {
    var run: seq<Step> := [];
    assert Crowd(map[], "") == {};
    assert Orderly(run, 0, 0.0) && CrowdAtMost(run, cfg, "", crowd, 0) && StateAfter(run, cfg, 0) == System(map[], []);
  }

  lemma {:induction false} ReachNext(cfg: Config, crowd: nat, n: nat, s: System, step: Step, s': System)
    requires Reachable(cfg, crowd, n, s) && s' == Next(s, cfg, n, step) && |Crowd(s'.jobs, "")| <= crowd
    requires step.Arrive? || (step.Turn? && step.at == 0.0)
    ensures Reachable(cfg, crowd, n + 1, s')
  {
    hide Next, Crowd;
    var run: seq<Step> :|
      |run| == n && Orderly(run, n, 0.0) && CrowdAtMost(run, cfg, "", crowd, n) && StateAfter(run, cfg, n) == s;
    var longer := run + [step];
    Prefix(run, longer, cfg, crowd, n, 0.0);
    assert longer[n] == step;
    assert StateAfter(longer, cfg, n + 1) == s';
    assert Orderly(longer, n + 1, 0.0) && CrowdAtMost(longer, cfg, "", crowd, n + 1);
  }

  // ----- the handlers -----

  /** A request that only the anomaly verdict stops. */
  function Odd(): Request {
    Request("", "", 0, None, None, None, true, None, true, None, 0.0, _ => 0.0, 0.0)
  }

  /** The handlers in `waiting` found no ban and went no further; `count` violations are recorded. */
  ghost predicate Waiting(s: System, cfg: Config, n: nat, count: nat, waiting: set<nat>) {
    var db := StoreOf(s, cfg);
    && (forall id :: id in s.jobs ==> id < n)
    && CountAt(db, ViolationKey(""), 0.0) == count
    && (Exists(db, BanKey(""), 0.0) ==> count >= cfg.policy.threshold)
    && Crowd(s.jobs, "") == waiting
    && forall id :: id in waiting ==> id in s.jobs && s.jobs[id] == Job(Odd(), [], [Banned(false)])
  }

  lemma {:induction false} OddAsks(granted: bool, banned: bool)
    ensures NextAsk(Odd(), [], []) == AskBan
    ensures NextAsk(Odd(), [], [Banned(false)]) == AskLimit(None)
    ensures NextAsk(Odd(), [], [Banned(false), Granted(granted)]) == AskViolation(ReasonFor(granted))
    ensures NextAsk(Odd(), [], [Banned(false), Granted(granted), Banned(banned)]).End?
  {
    var first, second, third := Banned(false), Granted(granted), Banned(banned);
    assert [first][1..] == [];
    assert [first, second][1..] == [second] && [second][1..] == [];
    assert [first, second, third][1..] == [second, third] && [second, third][1..] == [third];
  }

  function ReasonFor(granted: bool): string {
    if granted then "anomaly_detected" else "rate_limit_exceeded"
  }

  lemma {:induction false} CrowdSame(jobs: map<nat, Job>, id: nat, job: Job)
    requires if id in jobs then Open(jobs[id]) == Open(job) && jobs[id].req.ip == job.req.ip else !Open(job)
    ensures Crowd(jobs[id := job], "") == Crowd(jobs, "")
  {
    hide Open;
  }

  lemma {:induction false} CrowdJoined(jobs: map<nat, Job>, id: nat, job: Job)
    requires Open(job) && job.req.ip == ""
    ensures Crowd(jobs[id := job], "") == Crowd(jobs, "") + {id}
  {
    hide Open;
  }

  lemma {:induction false} CrowdLeft(jobs: map<nat, Job>, id: nat, job: Job)
    requires !Open(job)
    ensures Crowd(jobs[id := job], "") == Crowd(jobs, "") - {id}
  {
    hide Open;
  }

  /** A new request arrives and finds no ban. */
  lemma {:induction false} OneMoreWaits(cfg: Config, crowd: nat, n: nat, s: System, count: nat,
                                        waiting: set<nat>) returns (s': System)
    requires Reachable(cfg, crowd, n, s) && Waiting(s, cfg, n, count, waiting)
    requires count < cfg.policy.threshold && |waiting| < crowd
    ensures Reachable(cfg, crowd, n + 2, s') && Waiting(s', cfg, n + 2, count, waiting + {n}) && n !in waiting
  {
    hide Reachable, Crowd, NextAsk, StoreOf;
    OddAsks(true, true);
    var newcomer, asked := Job(Odd(), [], []), Job(Odd(), [], [Banned(false)]);
    var arrived := Next(s, cfg, n, Arrive(Odd(), []));
    CrowdSame(s.jobs, n, newcomer);
    ReachNext(cfg, crowd, n, s, Arrive(Odd(), []), arrived);
    s' := Next(arrived, cfg, n + 1, Turn(n, 0.0, 0.0));
    SameStore(s, arrived, cfg);
    assert newcomer.answers + [Banned(false)] == asked.answers;
    assert !Exists(StoreOf(arrived, cfg), BanKey(""), 0.0);
    assert TakeTurn(StoreOf(arrived, cfg), cfg, newcomer, 0.0, 0.0) == ([], asked);
    assert arrived.trace + [] == arrived.trace;
    CrowdJoined(arrived.jobs, n, asked);
    ReachNext(cfg, crowd, n + 1, arrived, Turn(n, 0.0, 0.0), s');
    SameStore(arrived, s', cfg);
  }

  lemma {:induction false} SameStore(a: System, b: System, cfg: Config)
    requires a.trace == b.trace
    ensures StoreOf(a, cfg) == StoreOf(b, cfg)
  {
  }

  /** What a limiter call and then a violation leave of the two keys. */
  lemma {:induction false} LimitThenViolation(db: Keyspace, cfg: Config, reason: string, count: nat)
    requires cfg.policy.ttl >= 0.0 && CountAt(db, ViolationKey(""), 0.0) == count
    requires Exists(db, BanKey(""), 0.0) ==> count >= cfg.policy.threshold
    ensures var db' := Apply(Apply(db, cfg, AllowOp("", None, 0.0, 0.0)), cfg, ViolationOp("", reason, 0.0));
      && CountAt(db', ViolationKey(""), 0.0) == count + 1
      && (Exists(db', BanKey(""), 0.0) ==> count + 1 >= cfg.policy.threshold)
  {
    FamiliesDisjoint("", "", "", "", "");
    OthersKeepKeys(db, cfg, AllowOp("", None, 0.0, 0.0), "");
    hide RateLimiter.RunScript;
  }

  /** A waiting handler makes its limiter call and records its violation. */
  lemma {:induction false} OneRecords(cfg: Config, crowd: nat, n: nat, s: System, count: nat, waiting: set<nat>,
                                      id: nat) returns (s': System)
    requires cfg.policy.ttl >= 0.0 && id in waiting && |waiting| <= crowd
    requires Reachable(cfg, crowd, n, s) && Waiting(s, cfg, n, count, waiting)
    ensures Reachable(cfg, crowd, n + 2, s') && Waiting(s', cfg, n + 2, count + 1, waiting - {id})
  {
    hide Reachable, Crowd, NextAsk, Apply, Reply, RunFrom;
    var db, call := StoreOf(s, cfg), AllowOp("", None, 0.0, 0.0);
    GrantedOnlyByLimits(db, cfg, call);
    var granted := Reply(db, cfg, call).yes;
    OddAsks(granted, true);
    OddAsks(granted, false);
    var limited := Job(Odd(), [], [Banned(false), Granted(granted)]);
    assert [Banned(false)] + [Granted(granted)] == limited.answers;
    assert TakeTurn(db, cfg, s.jobs[id], 0.0, 0.0) == ([call], limited);
    var halfway := Next(s, cfg, n, Turn(id, 0.0, 0.0));
    CrowdSame(s.jobs, id, limited);
    ReachNext(cfg, crowd, n, s, Turn(id, 0.0, 0.0), halfway);
    RunFromSnoc(map[], cfg, s.trace, call);
    var mid, op := StoreOf(halfway, cfg), ViolationOp("", ReasonFor(granted), 0.0);
    GrantedOnlyByLimits(mid, cfg, op);
    var banned := Reply(mid, cfg, op).yes;
    var ended := Job(Odd(), [], [Banned(false), Granted(granted), Banned(banned)]);
    assert limited.answers + [Banned(banned)] == ended.answers;
    assert TakeTurn(mid, cfg, limited, 0.0, 0.0) == ([op], ended);
    s' := Next(halfway, cfg, n + 1, Turn(id, 0.0, 0.0));
    CrowdLeft(halfway.jobs, id, ended);
    Subset(waiting - {id}, waiting);
    ReachNext(cfg, crowd, n + 1, halfway, Turn(id, 0.0, 0.0), s');
    RunFromSnoc(map[], cfg, halfway.trace, op);
    LimitThenViolation(db, cfg, ReasonFor(granted), count);
  }

  // ----- the run -----

  /** One handler after the other records a violation, below the threshold. */
  lemma {:induction false} OneByOne(cfg: Config, crowd: nat, count: nat) returns (n: nat, s: System)
    requires cfg.policy.ttl >= 0.0 && crowd >= 1 && count < cfg.policy.threshold
    ensures Reachable(cfg, crowd, n, s) && Waiting(s, cfg, n, count, {})
  {
    hide Reachable, Waiting;
    if count == 0 {
      n, s := 0, System(map[], []);
      ReachStart(cfg, crowd);
      NobodyWaits(cfg);
    } else {
      n, s := OneByOne(cfg, crowd, count - 1);
      s := OneMoreWaits(cfg, crowd, n, s, count - 1, {});
      assert {} + {n} == {n} && {n} - {n} == {};
      s := OneRecords(cfg, crowd, n + 2, s, count - 1, {n}, n);
      n := n + 4;
    }
  }

  lemma {:induction false} NobodyWaits(cfg: Config)
    ensures Waiting(System(map[], []), cfg, 0, 0, {})
  {
    assert StoreOf(System(map[], []), cfg) == map[];
  }

  /** Then a crowd passes the ban check. */
  lemma {:induction false} CrowdGathers(cfg: Config, crowd: nat, count: nat, k: nat) returns (n: nat, s: System,
                                        waiting: set<nat>)
    requires cfg.policy.ttl >= 0.0 && 1 <= crowd && k <= crowd && count < cfg.policy.threshold
    ensures Reachable(cfg, crowd, n, s) && Waiting(s, cfg, n, count, waiting) && |waiting| == k
  {
    hide Reachable, Waiting;
    if k == 0 {
      n, s := OneByOne(cfg, crowd, count);
      waiting := {};
    } else {
      n, s, waiting := CrowdGathers(cfg, crowd, count, k - 1);
      s := OneMoreWaits(cfg, crowd, n, s, count, waiting);
      waiting, n := waiting + {n}, n + 2;
    }
  }

  /** And then all of them record. */
  lemma {:induction false} CrowdRecords(cfg: Config, crowd: nat, n: nat, s: System, count: nat, waiting: set<nat>)
    returns (n': nat, s': System)
    requires cfg.policy.ttl >= 0.0 && |waiting| <= crowd && Reachable(cfg, crowd, n, s)
      && Waiting(s, cfg, n, count, waiting)
    ensures Reachable(cfg, crowd, n', s') && Waiting(s', cfg, n', count + |waiting|, {})
    decreases |waiting|
  {
    hide Reachable, Waiting;
    if waiting == {} {
      n', s' := n, s;
    } else {
      var id :| id in waiting;
      s' := OneRecords(cfg, crowd, n, s, count, waiting, id);
      n', s' := CrowdRecords(cfg, crowd, n + 2, s', count + 1, waiting - {id});
    }
  }

  /** No run with such a crowd counts further than `bound`. */
  ghost predicate BoundHolds(cfg: Config, crowd: nat, bound: int) {
    forall run: seq<Step>, ip, now :: Orderly(run, |run|, now) && CrowdAtMost(run, cfg, ip, crowd, |run|) ==>
      CountAt(StoreOf(StateAfter(run, cfg, |run|), cfg), ViolationKey(ip), now) <= bound
  }

  /** The largest count that overlapping requests can reach is exactly threshold - 1 plus the crowd. */
  lemma {:induction false} OverlapBoundIff(cfg: Config, crowd: nat, bound: int)
    requires cfg.policy.threshold >= 1 && cfg.policy.ttl >= 0.0 && crowd >= 1
    ensures BoundHolds(cfg, crowd, bound) <==> bound >= cfg.policy.threshold - 1 + crowd
  {
    if bound >= cfg.policy.threshold - 1 + crowd {
      forall run: seq<Step>, ip, now | Orderly(run, |run|, now) && CrowdAtMost(run, cfg, ip, crowd, |run|)
        ensures CountAt(StoreOf(StateAfter(run, cfg, |run|), cfg), ViolationKey(ip), now) <= bound
      {
        OverlapBound(run, cfg, ip, crowd, now);
      }
    } else {
      var n, s, waiting := CrowdGathers(cfg, crowd, cfg.policy.threshold - 1, crowd);
      n, s := CrowdRecords(cfg, crowd, n, s, cfg.policy.threshold - 1, waiting);
      TooMany(cfg, crowd, bound, n, s);
    }
  }

  lemma {:induction false} TooMany(cfg: Config, crowd: nat, bound: int, n: nat, s: System)
    requires Reachable(cfg, crowd, n, s) && bound < cfg.policy.threshold - 1 + crowd
    requires cfg.policy.threshold >= 1 && Waiting(s, cfg, n, cfg.policy.threshold - 1 + crowd, {})
    ensures !BoundHolds(cfg, crowd, bound)
  {
    hide StateAfter, Orderly, CrowdAtMost, Crowd;
    var run: seq<Step> :|
      |run| == n && Orderly(run, n, 0.0) && CrowdAtMost(run, cfg, "", crowd, n) && StateAfter(run, cfg, n) == s;
    assert CountAt(StoreOf(StateAfter(run, cfg, |run|), cfg), ViolationKey(""), 0.0) > bound;
  }
}
