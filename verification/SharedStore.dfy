/** All guards on one store: what one guard keeps there, no other guard can change.

    An operation is one whole call of a guard's method.  Its cell is the set of keys it may touch. */
module SharedStore {
  import opened Options
  import opened TimedStore
  import opened Keys
  import opened RateLimiter
  import opened Blacklist
  import RG = ReplayGuard
  import TB = TokenBucket
  import BH = BanHistory

  datatype Config = Config(capacity: int, refillPerSec: real, policy: Policy, replay: RG.Settings)

  datatype Op =
    | AllowOp(ip: string, capacityOverride: Option<int>, now: real, at: real)
    | ValidateOp(client: string, nonce: string, timestamp: real, now: real, at: real)
    | ViolationOp(ip: string, reason: string, at: real)
    | BanOp(ip: string, reason: string, at: real)
    | UnbanOp(ip: string, at: real)

  datatype Answer = Granted(yes: bool) | Validated(verdict: RG.Verdict) | Banned(yes: bool) | Done

  function CallOf(cfg: Config, op: Op): TB.Call
    requires op.AllowOp?
  {
    TB.Call(EffectiveCapacity(cfg.capacity, op.capacityOverride) as real, op.now, op.at)
  }

  function Apply(db: Keyspace, cfg: Config, op: Op): Keyspace {
    match op
    case AllowOp(ip, _, _, _) => RunScript(db, RateKey(ip), CallOf(cfg, op), cfg.refillPerSec)
    case ValidateOp(client, nonce, timestamp, now, at) =>
      RG.JudgeStore(db, cfg.replay, client, nonce, timestamp, now, at)
    case ViolationOp(ip, reason, at) => ViolationStore(db, cfg.policy, ip, reason, at, at)
    case BanOp(ip, reason, at) => BanStore(db, cfg.policy, ip, reason, 1, at, at)
    case UnbanOp(ip, _) => UnbanStore(db, ip)
  }

  function Reply(db: Keyspace, cfg: Config, op: Op): Answer {
    match op
    case AllowOp(ip, _, _, _) => Granted(TB.Refill(CellAt(db, RateKey(ip)), CallOf(cfg, op), cfg.refillPerSec) >= 1.0)
    case ValidateOp(client, nonce, timestamp, now, at) =>
      Validated(RG.Judge(db, cfg.replay, client, nonce, timestamp, now, at))
    case ViolationOp(ip, _, at) => Banned(Reaches(db, cfg.policy, ip, at))
    case BanOp(_, _, _) => Done
    case UnbanOp(_, _) => Done
  }

  function Cell(op: Op): set<string> {
    match op
    case AllowOp(ip, _, _, _) => {RateKey(ip)}
    case ValidateOp(client, nonce, _, _, _) => {NonceKey(client, nonce)}
    case ViolationOp(ip, _, _) => {BanKey(ip), ViolationKey(ip)}
    case BanOp(ip, _, _) => {BanKey(ip), ViolationKey(ip)}
    case UnbanOp(ip, _) => {BanKey(ip), ViolationKey(ip)}
  }

  /** What each call leaves in the store, key by key; the limiter's follows below. */
  lemma {:induction false} ApplyWrittenOut(db: Keyspace, cfg: Config, op: Op)
    requires !op.AllowOp?
    ensures Apply(db, cfg, op)
         == match op
            case ValidateOp(client, nonce, timestamp, now, at) =>
              var key, window := "vanguard:nonce:" + client + ":" + nonce, cfg.replay.window;
              if -window <= now - timestamp <= window && !Exists(db, key, at)
              then db[key := Entry(Mark, Some(at + cfg.replay.nonceTtl))] else db
            case ViolationOp(ip, reason, at) =>
              var counter, n := "vanguard:violations:" + ip, CountAt(db, "vanguard:violations:" + ip, at) + 1;
              var until, counted := at + cfg.policy.ttl, db[counter := Entry(Count(n), Some(at + cfg.policy.ttl))];
              if n < cfg.policy.threshold then counted
              else
                counted["vanguard:blacklist:" + ip :=
                          Entry(Ban(BlacklistEntry(ip, reason, at, until, n)), Some(until))]
            case BanOp(ip, reason, at) =>
              var until := at + cfg.policy.ttl;
              db["vanguard:blacklist:" + ip := Entry(Ban(BlacklistEntry(ip, reason, at, until, 1)), Some(until))]
            case UnbanOp(ip, _) => db - {"vanguard:blacklist:" + ip, "vanguard:violations:" + ip}
  {
    match op
    case ValidateOp(client, nonce, _, _, _) =>
      assert NonceKey(client, nonce) == "vanguard:nonce:" + client + ":" + nonce;
      hide NonceKey, Exists;
    case ViolationOp(ip, reason, at) =>
      ViolationWrittenOut(db, cfg.policy, ip, reason, at, at);
      hide ViolationStore, CountAt;
    case BanOp(ip, reason, at) =>
      AdminWrittenOut(db, cfg.policy, ip, reason, at, at);
      hide BanStore;
    case UnbanOp(ip, at) =>
      AdminWrittenOut(db, cfg.policy, ip, "", at, at);
      hide UnbanStore;
  }

  /** The limiter's call, with its answer: `now` is the caller's reading and `at` the store's. */
  lemma {:induction false} AllowWrittenOut(db: Keyspace, cfg: Config, op: Op)
    requires op.AllowOp? && (RateKey(op.ip) in db ==> db[RateKey(op.ip)].value.Bucket?)
    ensures var key, bucket := "vanguard:ratelimit:" + op.ip, Get(db, RateKey(op.ip), op.at);
      var cap := (match op.capacityOverride
                  case None => cfg.capacity
                  case Some(k) => if k == 0 then cfg.capacity else k) as real;
      var refilled := if bucket.None? then cap
                      else bucket.value.tokens + (op.now - bucket.value.lastRefill) * cfg.refillPerSec;
      var tokens := if refilled < cap then refilled else cap;
      var left := if tokens >= 1.0 then tokens - 1.0 else tokens;
      && Reply(db, cfg, op) == Granted(tokens >= 1.0)
      && Apply(db, cfg, op) == db[key := Entry(Bucket(left, op.now), Some(op.at + 3600.0))]
  {
    ScriptWrittenOut(db, op.ip, cfg.capacity, op.capacityOverride, cfg.refillPerSec, op.now, op.at);
    assert RateKey(op.ip) == "vanguard:ratelimit:" + op.ip;
    hide RateKey, RunScript, CellAt, TB.Refill, EffectiveCapacity, Exists;
  }

  /** The store after some operations. */
  function RunFrom(db: Keyspace, cfg: Config, ops: seq<Op>): Keyspace {
    if ops == [] then db else Apply(RunFrom(db, cfg, ops[..|ops| - 1]), cfg, ops[|ops| - 1])
  }

  lemma {:induction false} RunFromSnoc(db: Keyspace, cfg: Config, ops: seq<Op>, op: Op)
    ensures RunFrom(db, cfg, ops + [op]) == Apply(RunFrom(db, cfg, ops), cfg, op)
  {
    assert (ops + [op])[..|ops|] == ops;
  }

  lemma {:induction false} RunFromOne(db: Keyspace, cfg: Config, op: Op)
    ensures RunFrom(db, cfg, [op]) == Apply(db, cfg, op)
  {
    RunFromSnoc(db, cfg, [], op);
    assert [] + [op] == [op];
  }

  lemma {:induction false} RunFromTwo(db: Keyspace, cfg: Config, a: Op, b: Op)
    ensures RunFrom(db, cfg, [a, b]) == Apply(Apply(db, cfg, a), cfg, b)
  {
    RunFromOne(db, cfg, a);
    RunFromSnoc(db, cfg, [a], b);
    assert [a] + [b] == [a, b];
  }

  lemma {:induction false} RunFromConcat(db: Keyspace, cfg: Config, a: seq<Op>, b: seq<Op>)
    ensures RunFrom(db, cfg, a + b) == RunFrom(RunFrom(db, cfg, a), cfg, b)
  {
    if b == [] {
      assert a + b == a;
    } else {
      assert (a + b)[..|a + b| - 1] == a + b[..|b| - 1];
      RunFromConcat(db, cfg, a, b[..|b| - 1]);
    }
  }

  /** The store after the first `n` operations of a run that starts empty. */
  function Run(ops: seq<Op>, cfg: Config, n: nat): Keyspace
    requires n <= |ops|
  {
    RunFrom(map[], cfg, ops[..n])
  }

  lemma {:induction false} RunNext(ops: seq<Op>, cfg: Config, n: nat)
    requires n < |ops|
    ensures Run(ops, cfg, n + 1) == Apply(Run(ops, cfg, n), cfg, ops[n])
  {
    assert ops[..n + 1] == ops[..n] + [ops[n]];
    RunFromSnoc(map[], cfg, ops[..n], ops[n]);
  }

  function Restrict(db: Keyspace, keys: set<string>): Keyspace {
    map k | k in db && k in keys :: db[k]
  }

  /** The operations among the first `n` whose cell is `cell`, in order. */
  function Own(ops: seq<Op>, cell: set<string>, n: nat): seq<Op>
    requires n <= |ops|
  {
    if n == 0 then [] else Own(ops, cell, n - 1) + if Cell(ops[n - 1]) == cell then [ops[n - 1]] else []
  }

  /** Two operations have the same cell or nothing in common. */
  lemma {:induction false} CellsApart(a: Op, b: Op)
    ensures Cell(a) == Cell(b) || Cell(a) !! Cell(b)
  {
    var ips := (op: Op) => if op.ValidateOp? then "" else op.ip;
    var x, y := ips(a), ips(b);
    if a.ValidateOp? {
      FamiliesDisjoint(y, y, y, a.client, a.nonce);
    } else if b.ValidateOp? {
      FamiliesDisjoint(x, x, x, b.client, b.nonce);
    } else {
      FamiliesDisjoint(x, y, y, "", "");
      FamiliesDisjoint(y, x, x, "", "");
      FamiliesDisjoint(x, x, y, "", "");
      FamiliesDisjoint(y, y, x, "", "");
      if x != y {
        SubjectsDistinct(x, y);
      }
    }
  }

  lemma {:induction false} ViolationIsLocal(db: Keyspace, cfg: Config, op: Op)
    requires op.ViolationOp?
    ensures Restrict(Apply(db, cfg, op), Cell(op)) == Apply(Restrict(db, Cell(op)), cfg, op)
    ensures Reply(db, cfg, op) == Reply(Restrict(db, Cell(op)), cfg, op)
  {
    FamiliesDisjoint(op.ip, op.ip, op.ip, "", "");
    hide BanKey, ViolationKey;
    var small := Restrict(db, Cell(op));
    assert CountAt(small, ViolationKey(op.ip), op.at) == CountAt(db, ViolationKey(op.ip), op.at);
    assert Restrict(CountedStore(db, cfg.policy, op.ip, op.at), Cell(op))
        == CountedStore(small, cfg.policy, op.ip, op.at);
    hide CountedStore, CountAt;
  }

  lemma {:induction false} BlacklistStepIsLocal(db: Keyspace, cfg: Config, op: Op)
    requires op.ViolationOp? || op.BanOp? || op.UnbanOp?
    ensures Restrict(Apply(db, cfg, op), Cell(op)) == Apply(Restrict(db, Cell(op)), cfg, op)
    ensures Reply(db, cfg, op) == Reply(Restrict(db, Cell(op)), cfg, op)
  {
    if op.ViolationOp? {
      ViolationIsLocal(db, cfg, op);
    } else {
      FamiliesDisjoint(op.ip, op.ip, op.ip, "", "");
    }
  }

  /** An operation changes its own cell only, and there it depends on that cell only. */
  lemma {:induction false} StepIsLocal(db: Keyspace, cfg: Config, op: Op, cell: set<string>)
    ensures cell !! Cell(op) ==> Restrict(Apply(db, cfg, op), cell) == Restrict(db, cell)
    ensures cell == Cell(op) ==> Restrict(Apply(db, cfg, op), cell) == Apply(Restrict(db, cell), cfg, op)
    ensures cell == Cell(op) ==> Reply(db, cfg, op) == Reply(Restrict(db, cell), cfg, op)
  {
    if op.ViolationOp? || op.BanOp? || op.UnbanOp? {
      BlacklistStepIsLocal(db, cfg, op);
      assert forall k :: k !in Cell(op) ==> (k in Apply(db, cfg, op) <==> k in db);
    }
  }

  /** Isolation: after any mixed run, the keys of one cell are what that cell's own operations would
      have left if they had been alone on the store. */
  lemma {:induction false} Isolation(ops: seq<Op>, cfg: Config, op: Op, n: nat)
    requires n <= |ops|
    ensures var own := Own(ops, Cell(op), n);
      Restrict(Run(ops, cfg, n), Cell(op)) == Run(own, cfg, |own|)
  {
    hide Apply, Reply, Cell, RunFrom, Restrict;
    if n > 0 {
      Isolation(ops, cfg, op, n - 1);
      RunNext(ops, cfg, n - 1);
      StepIsLocal(Run(ops, cfg, n - 1), cfg, ops[n - 1], Cell(op));
      CellsApart(ops[n - 1], op);
      var before, own := Own(ops, Cell(op), n - 1), Own(ops, Cell(op), n);
      if Cell(ops[n - 1]) == Cell(op) {
        PrefixRun(before, own, cfg, |before|);
        RunNext(own, cfg, |before|);
      } else {
        assert own == before;
      }
    } else {
      assert ops[..0] == [];
      NothingRun(map[], cfg);
      NothingToRestrict(Cell(op));
    }
  }

  lemma {:induction false} NothingRun(db: Keyspace, cfg: Config)
    ensures RunFrom(db, cfg, []) == db
  {
  }

  lemma {:induction false} NothingToRestrict(keys: set<string>)
    ensures Restrict(map[], keys) == map[]
  {
  }

  lemma {:induction false} PrefixRun(short: seq<Op>, long: seq<Op>, cfg: Config, n: nat)
    requires short <= long && n <= |short|
    ensures Run(short, cfg, n) == Run(long, cfg, n)
  {
    assert short[..n] == long[..n];
  }

  /** So every answer in a mixed run is the answer its guard would have given alone. */
  lemma {:induction false} AnswersAreIsolated(ops: seq<Op>, cfg: Config, n: nat)
    requires n < |ops|
    ensures var own := Own(ops, Cell(ops[n]), n);
      Reply(Run(ops, cfg, n), cfg, ops[n]) == Reply(Run(own, cfg, |own|), cfg, ops[n])
  {
    Isolation(ops, cfg, ops[n], n);
    StepIsLocal(Run(ops, cfg, n), cfg, ops[n], Cell(ops[n]));
  }

  // ----- each guard alone is the machine its own module studies -----

  predicate AllowsOf(ops: seq<Op>, ip: string) {
    forall k :: 0 <= k < |ops| ==> ops[k].AllowOp? && ops[k].ip == ip
  }

  function Calls(ops: seq<Op>, cfg: Config): (calls: seq<TB.Call>)
    requires forall k :: 0 <= k < |ops| ==> ops[k].AllowOp?
    ensures |calls| == |ops| && forall k :: 0 <= k < |ops| ==> calls[k] == CallOf(cfg, ops[k])
  {
    seq(|ops|, k requires 0 <= k < |ops| => CallOf(cfg, ops[k]))
  }

  lemma {:induction false} OwnAllows(ops: seq<Op>, ip: string, n: nat)
    requires n <= |ops|
    ensures AllowsOf(Own(ops, {RateKey(ip)}, n), ip)
  {
    if n > 0 {
      OwnAllows(ops, ip, n - 1);
      if Cell(ops[n - 1]) == {RateKey(ip)} {
        RateCellIsAllow(ops[n - 1], ip);
      }
    }
  }

  lemma {:induction false} RateCellIsAllow(op: Op, ip: string)
    requires Cell(op) == {RateKey(ip)}
    ensures op.AllowOp? && op.ip == ip
  {
    assert RateKey(ip) in Cell(op);
    if op.ValidateOp? {
      FamiliesDisjoint(ip, ip, ip, op.client, op.nonce);
    } else {
      FamiliesDisjoint(ip, op.ip, op.ip, "", "");
      if op.ip != ip {
        SubjectsDistinct(op.ip, ip);
      }
    }
  }

  lemma {:induction false} AloneIsBucket(ops: seq<Op>, cfg: Config, ip: string, n: nat)
    requires n <= |ops| && AllowsOf(ops, ip)
    ensures CellAt(Run(ops, cfg, n), RateKey(ip)) == TB.After(Calls(ops, cfg), cfg.refillPerSec, Some(BUCKET_TTL), n)
  {
    hide RunFrom, TB.Refill, TB.Take;
    if n > 0 {
      AloneIsBucket(ops, cfg, ip, n - 1);
      RunNext(ops, cfg, n - 1);
      hide Run;
    } else {
      assert ops[..0] == [];
      NothingRun(map[], cfg);
    }
  }

  /** In any mixed run, the answer to an `allow` is the bucket theory's decision on the sequence of
      that ip's own calls: everything proved there holds on the shared store. */
  lemma {:induction false} AllowIsBucketDecision(ops: seq<Op>, cfg: Config, n: nat)
    requires n < |ops| && ops[n].AllowOp?
    ensures var own := Own(ops, Cell(ops[n]), n + 1);
      && AllowsOf(own, ops[n].ip) && |own| > 0
      && Reply(Run(ops, cfg, n), cfg, ops[n])
         == Granted(TB.Decisions(Calls(own, cfg), cfg.refillPerSec, Some(BUCKET_TTL))[|own| - 1])
  {
    var before, own := Own(ops, Cell(ops[n]), n), Own(ops, Cell(ops[n]), n + 1);
    AnswersAreIsolated(ops, cfg, n);
    OwnAllows(ops, ops[n].ip, n + 1);
    AloneIsBucket(own, cfg, ops[n].ip, |before|);
    PrefixRun(before, own, cfg, |before|);
  }

  predicate BlacklistOf(ops: seq<Op>, ip: string) {
    forall k :: 0 <= k < |ops| ==> (ops[k].ViolationOp? || ops[k].BanOp? || ops[k].UnbanOp?) && ops[k].ip == ip
  }

  /** The blacklist operations of one ip, as the events of `BanHistory`. */
  function EventOf(op: Op): BH.Event
    requires op.ViolationOp? || op.BanOp? || op.UnbanOp?
  {
    match op
    case ViolationOp(_, reason, at) => BH.Violation(at, reason)
    case BanOp(_, reason, at) => BH.ManualBan(at, reason)
    case UnbanOp(_, at) => BH.Unbanned(at)
  }

  function EventsOf(ops: seq<Op>, ip: string): (events: seq<BH.Event>)
    requires BlacklistOf(ops, ip)
    ensures |events| == |ops| && forall k :: 0 <= k < |ops| ==> events[k] == EventOf(ops[k])
  {
    seq(|ops|, k requires 0 <= k < |ops| => EventOf(ops[k]))
  }

  lemma {:induction false} BanCellIsBlacklist(op: Op, ip: string)
    requires Cell(op) == {BanKey(ip), ViolationKey(ip)}
    ensures (op.ViolationOp? || op.BanOp? || op.UnbanOp?) && op.ip == ip
  {
    assert BanKey(ip) in Cell(op);
    if op.ValidateOp? {
      FamiliesDisjoint(ip, ip, ip, op.client, op.nonce);
    } else {
      FamiliesDisjoint(op.ip, ip, op.ip, "", "");
      if op.ip != ip {
        SubjectsDistinct(op.ip, ip);
      }
    }
  }

  lemma {:induction false} OwnBlacklist(ops: seq<Op>, ip: string, n: nat)
    requires n <= |ops|
    ensures BlacklistOf(Own(ops, {BanKey(ip), ViolationKey(ip)}, n), ip)
  {
    if n > 0 {
      OwnBlacklist(ops, ip, n - 1);
      if Cell(ops[n - 1]) == {BanKey(ip), ViolationKey(ip)} {
        BanCellIsBlacklist(ops[n - 1], ip);
      }
    }
  }

  lemma {:induction false} AloneIsHistory(ops: seq<Op>, cfg: Config, ip: string, n: nat)
    requires n <= |ops| && BlacklistOf(ops, ip)
    ensures Run(ops, cfg, n) == BH.StoreAfter(EventsOf(ops, ip), cfg.policy, ip, n)
  {
    hide RunFrom, Apply, BH.Apply;
    if n > 0 {
      AloneIsHistory(ops, cfg, ip, n - 1);
      RunNext(ops, cfg, n - 1);
      hide Run;
      EventIsOp(Run(ops, cfg, n - 1), cfg, ops[n - 1]);
    } else {
      assert ops[..0] == [];
      NothingRun(map[], cfg);
    }
  }

  lemma {:induction false} EventIsOp(db: Keyspace, cfg: Config, op: Op)
    requires op.ViolationOp? || op.BanOp? || op.UnbanOp?
    ensures Apply(db, cfg, op) == BH.Apply(db, cfg.policy, op.ip, EventOf(op))
  {
  }

  /** In any mixed run, both blacklist keys of an ip are what its own history of events made them. */
  lemma {:induction false} BlacklistIsHistory(ops: seq<Op>, cfg: Config, ip: string)
    ensures var cell := {BanKey(ip), ViolationKey(ip)};
      var own := Own(ops, cell, |ops|);
      && BlacklistOf(own, ip)
      && Restrict(Run(ops, cfg, |ops|), cell) == BH.StoreAfter(EventsOf(own, ip), cfg.policy, ip, |own|)
  {
    var own := Own(ops, {BanKey(ip), ViolationKey(ip)}, |ops|);
    Isolation(ops, cfg, UnbanOp(ip, 0.0), |ops|);
    OwnBlacklist(ops, ip, |ops|);
    AloneIsHistory(own, cfg, ip, |own|);
  }

  // ----- key types -----

  /** Each key family holds its own type of value. */
  ghost predicate Typed(db: Keyspace) {
    && (forall ip :: RateKey(ip) in db ==> db[RateKey(ip)].value.Bucket?)
    && (forall ip :: ViolationKey(ip) in db ==> db[ViolationKey(ip)].value.Count?)
    && BansNamed(db)
  }

  lemma {:induction false} TypedStep(db: Keyspace, cfg: Config, op: Op)
    requires Typed(db)
    ensures Typed(Apply(db, cfg, op))
  {
    var db' := Apply(db, cfg, op);
    forall ip
      ensures RateKey(ip) in db' ==> db'[RateKey(ip)].value.Bucket?
      ensures ViolationKey(ip) in db' ==> db'[ViolationKey(ip)].value.Count?
      ensures BanKey(ip) in db' ==> db'[BanKey(ip)].value.Ban? && db'[BanKey(ip)].value.entry.ip == ip
    {
      if op.ValidateOp? {
        FamiliesDisjoint(ip, ip, ip, op.client, op.nonce);
      } else {
        FamiliesDisjoint(ip, op.ip, op.ip, "", "");
        FamiliesDisjoint(op.ip, ip, op.ip, "", "");
        FamiliesDisjoint(op.ip, op.ip, ip, "", "");
        if op.ip != ip {
          SubjectsDistinct(op.ip, ip);
        }
      }
    }
  }

  /** No run of the guards makes a command meet a value of another type. */
  lemma {:induction false} RunsStayTyped(ops: seq<Op>, cfg: Config, n: nat)
    requires n <= |ops|
    ensures Typed(Run(ops, cfg, n))
  {
    if n > 0 {
      RunsStayTyped(ops, cfg, n - 1);
      RunNext(ops, cfg, n - 1);
      TypedStep(Run(ops, cfg, n - 1), cfg, ops[n - 1]);
    }
  }
}
