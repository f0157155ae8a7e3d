/** Recording a violation and unbanning, with every store command a separate step of its own handler.

    A recorder does INCR, then EXPIRE, then (if its count reached the threshold) SET of the ban; an
    unban does DEL of the ban, then DEL of the counter.  Any number of handlers, for any ips, run
    interleaved, and a handler may stop for ever after any step.  The one timing assumption is `lag`:
    an EXPIRE comes at most `lag` after the INCR of the same handler. */
module BanProtocol {
  import opened Options
  import opened TimedStore
  import opened Keys
  import opened Blacklist

  datatype Phase = Counted | Armed

  datatype Recorder = Recorder(ip: string, count: int, since: real, phase: Phase)

  datatype System = System(db: Keyspace, clock: real, recorders: map<nat, Recorder>, unbans: map<nat, string>)

  datatype Step =
    | IncrCounter(at: real, id: nat, ip: string)
    | ExpireCounter(at: real, id: nat)
    | SetBan(at: real, id: nat, reason: string)
    | ManualBan(at: real, ip: string, reason: string)
    | DelBan(at: real, id: nat, ip: string)
    | DelCounter(at: real, id: nat)

  const START := System(map[], 0.0, map[], map[])

  predicate Enabled(s: System, step: Step, lag: real) {
    s.clock <= step.at &&
    match step
    case IncrCounter(_, id, _) => id !in s.recorders
    case ExpireCounter(at, id) =>
      id in s.recorders && s.recorders[id].phase.Counted? && at <= s.recorders[id].since + lag
    case SetBan(_, id, _) => id in s.recorders && s.recorders[id].phase.Armed?
    case ManualBan(_, _, _) => true
    case DelBan(_, id, _) => id !in s.unbans
    case DelCounter(_, id) => id in s.unbans
  }

  function Next(s: System, policy: Policy, step: Step): System {
    match step
    case IncrCounter(at, id, ip) =>
      var count := CountAt(s.db, ViolationKey(ip), at) + 1;
      System(Incr(s.db, ViolationKey(ip), at), at, s.recorders[id := Recorder(ip, count, at, Counted)], s.unbans)
    case ExpireCounter(at, id) =>
      if id !in s.recorders then s else
        var r := s.recorders[id];
        System(Expire(s.db, ViolationKey(r.ip), policy.ttl, at), at,
               if r.count >= policy.threshold then s.recorders[id := r.(phase := Armed)] else s.recorders - {id},
               s.unbans)
    case SetBan(at, id, reason) =>
      if id !in s.recorders then s else
        var r := s.recorders[id];
        System(BanStore(s.db, policy, r.ip, reason, r.count, at, at), at, s.recorders - {id}, s.unbans)
    case ManualBan(at, ip, reason) =>
      System(BanStore(s.db, policy, ip, reason, 1, at, at), at, s.recorders, s.unbans)
    case DelBan(at, id, ip) =>
      System(Del(s.db, BanKey(ip)), at, s.recorders, s.unbans[id := ip])
    case DelCounter(at, id) =>
      if id !in s.unbans then s else
        System(Del(s.db, ViolationKey(s.unbans[id])), at, s.recorders, s.unbans - {id})
  }

  function StateAfter(steps: seq<Step>, policy: Policy, n: nat): System
    requires n <= |steps|
  {
    if n == 0 then START else Next(StateAfter(steps, policy, n - 1), policy, steps[n - 1])
  }

  /** A recorder that nobody interrupts is one whole violation of the blacklist ... */
  lemma {:induction false} UninterruptedViolation(s: System, policy: Policy, id: nat, ip: string, reason: string,
                                                  at: real)
    requires id !in s.recorders
    ensures var counted := Next(s, policy, IncrCounter(at, id, ip));
      var expiring := Next(counted, policy, ExpireCounter(at, id));
      var done := if id in expiring.recorders then Next(expiring, policy, SetBan(at, id, reason)) else expiring;
      done == System(ViolationStore(s.db, policy, ip, reason, at, at), at, s.recorders, s.unbans)
  {
    hide Incr, Expire, BanStore, CountAt, ViolationKey;
    var r := Recorder(ip, CountAt(s.db, ViolationKey(ip), at) + 1, at, Counted);
    assert s.recorders[id := r] - {id} == s.recorders;
    assert s.recorders[id := r][id := r.(phase := Armed)] - {id} == s.recorders;
  }

  /** ... and an unban that nobody interrupts is one whole unban. */
  lemma {:induction false} UninterruptedUnban(s: System, policy: Policy, id: nat, ip: string, at: real)
    requires id !in s.unbans
    ensures Next(Next(s, policy, DelBan(at, id, ip)), policy, DelCounter(at, id))
         == System(UnbanStore(s.db, ip), at, s.recorders, s.unbans)
  {
    assert s.unbans[id := ip] - {id} == s.unbans;
  }

  /** Each of the first `n` steps was enabled when it ran. */
  predicate Legal(steps: seq<Step>, policy: Policy, lag: real, n: nat)
    requires n <= |steps|
  {
    n == 0 || (Legal(steps, policy, lag, n - 1) && Enabled(StateAfter(steps, policy, n - 1), steps[n - 1], lag))
  }

  /** The live counter of `ip` has reached the threshold. */
  predicate Hot(s: System, policy: Policy, ip: string, now: real) {
    var key := ViolationKey(ip);
    Exists(s.db, key, now) && s.db[key].value.Count? && s.db[key].value.n >= policy.threshold
  }

  predicate AboutToBan(s: System, policy: Policy, ip: string) {
    exists id :: id in s.recorders && s.recorders[id].ip == ip && s.recorders[id].count >= policy.threshold
  }

  predicate Unbanning(s: System, ip: string) {
    exists id :: id in s.unbans && s.unbans[id] == ip
  }

  /** The counter expires, and outlives the ban by at most `slack`. */
  predicate Covered(s: System, ip: string, slack: real) {
    var counter, ban := ViolationKey(ip), BanKey(ip);
    && counter in s.db && s.db[counter].expiry.Some?
    && ban in s.db && s.db[ban].expiry.Some?
    && s.db[counter].expiry.value <= s.db[ban].expiry.value + slack
  }

  predicate Safe(s: System, policy: Policy, ip: string, now: real, slack: real) {
    Hot(s, policy, ip, now) ==> AboutToBan(s, policy, ip) || Unbanning(s, ip) || Covered(s, ip, slack)
  }

  /** In every state that legal steps reach, and at every instant until the next step. */
  ghost predicate AlwaysSafe(policy: Policy, lag: real, slack: real) {
    forall steps, ip, now :: Legal(steps, policy, lag, |steps|) && StateAfter(steps, policy, |steps|).clock <= now ==>
      Safe(StateAfter(steps, policy, |steps|), policy, ip, now, slack)
  }

  // ----- the inductive invariant -----

  /** What holds of one ip whatever the others do. */
  ghost predicate Inv(s: System, policy: Policy, ip: string, slack: real) {
    var counter, ban := ViolationKey(ip), BanKey(ip);
    && (counter in s.db ==>
         && s.db[counter].value.Count? && s.db[counter].value.n >= 1
         && (s.db[counter].expiry.Some? ==> s.db[counter].expiry.value <= s.clock + policy.ttl))
    && (ban in s.db ==> s.db[ban].expiry.Some?)
    && (forall id :: id in s.recorders && s.recorders[id].ip == ip ==>
         s.recorders[id].since <= s.clock && s.recorders[id].count >= 1)
    && (Hot(s, policy, ip, s.clock) && s.db[counter].expiry.None? ==> Counting(s, policy, ip))
    && (Hot(s, policy, ip, s.clock) ==>
         AboutToBan(s, policy, ip) || Unbanning(s, ip) || (Covered(s, ip, slack) && LateCovered(s, policy, ip)))
  }

  /** A recorder that reached the threshold has not run its EXPIRE yet. */
  ghost predicate Counting(s: System, policy: Policy, ip: string) {
    exists id :: id in s.recorders && s.recorders[id].ip == ip && s.recorders[id].count >= policy.threshold
              && s.recorders[id].phase.Counted?
  }

  /** The ban is at least as recent as every INCR whose EXPIRE is still to come. */
  ghost predicate LateCovered(s: System, policy: Policy, ip: string)
    requires BanKey(ip) in s.db && s.db[BanKey(ip)].expiry.Some?
  {
    forall id :: id in s.recorders && s.recorders[id].ip == ip && s.recorders[id].phase.Counted? ==>
      s.recorders[id].since + policy.ttl <= s.db[BanKey(ip)].expiry.value
  }

  function IpOf(s: System, step: Step): Option<string> {
    match step
    case IncrCounter(_, _, ip) => Some(ip)
    case ExpireCounter(_, id) => if id in s.recorders then Some(s.recorders[id].ip) else None
    case SetBan(_, id, _) => if id in s.recorders then Some(s.recorders[id].ip) else None
    case ManualBan(_, ip, _) => Some(ip)
    case DelBan(_, _, ip) => Some(ip)
    case DelCounter(_, id) => if id in s.unbans then Some(s.unbans[id]) else None
  }

  /** If `ip`'s recorders above the threshold are still there, the facts about them are. */
  lemma {:induction false} StillRecording(s: System, s': System, policy: Policy, ip: string)
    requires forall id :: id in s.recorders && s.recorders[id].ip == ip && s.recorders[id].count >= policy.threshold ==>
      id in s'.recorders && s'.recorders[id].ip == ip && s'.recorders[id].count == s.recorders[id].count
    ensures AboutToBan(s, policy, ip) ==> AboutToBan(s', policy, ip)
  {
    if AboutToBan(s, policy, ip) {
      var id :| id in s.recorders && s.recorders[id].ip == ip && s.recorders[id].count >= policy.threshold;
      assert id in s'.recorders;
    }
  }

  lemma {:induction false} StillCounting(s: System, s': System, policy: Policy, ip: string)
    requires forall id :: id in s.recorders && s.recorders[id].ip == ip && s.recorders[id].phase.Counted? ==>
      id in s'.recorders && s'.recorders[id] == s.recorders[id]
    ensures Counting(s, policy, ip) ==> Counting(s', policy, ip)
  {
    if Counting(s, policy, ip) {
      var id :| id in s.recorders && s.recorders[id].ip == ip && s.recorders[id].count >= policy.threshold
             && s.recorders[id].phase.Counted?;
      assert id in s'.recorders;
    }
  }

  lemma {:induction false} StillUnbanning(s: System, s': System, ip: string)
    requires forall id :: id in s.unbans && s.unbans[id] == ip ==> id in s'.unbans && s'.unbans[id] == ip
    ensures Unbanning(s, ip) ==> Unbanning(s', ip)
  {
    if Unbanning(s, ip) {
      var id :| id in s.unbans && s.unbans[id] == ip;
      assert id in s'.unbans;
    }
  }

  /** A step about another ip leaves both keys and all handlers of this one alone. */
  lemma {:induction false} OtherIpUntouched(s: System, policy: Policy, step: Step, lag: real, ip: string)
    requires Enabled(s, step, lag) && IpOf(s, step).Some? && IpOf(s, step).value != ip
    ensures var s' := Next(s, policy, step);
      && (ViolationKey(ip) in s'.db <==> ViolationKey(ip) in s.db)
      && (ViolationKey(ip) in s.db ==> s'.db[ViolationKey(ip)] == s.db[ViolationKey(ip)])
      && (BanKey(ip) in s'.db <==> BanKey(ip) in s.db)
      && (BanKey(ip) in s.db ==> s'.db[BanKey(ip)] == s.db[BanKey(ip)])
      && s.clock <= s'.clock
      && (forall id :: id in s.recorders && s.recorders[id].ip == ip ==>
            id in s'.recorders && s'.recorders[id] == s.recorders[id])
      && (forall id :: id in s'.recorders && s'.recorders[id].ip == ip ==>
            id in s.recorders && s'.recorders[id] == s.recorders[id])
      && (forall id :: id in s.unbans && s.unbans[id] == ip ==> id in s'.unbans && s'.unbans[id] == ip)
  {
    var other := IpOf(s, step).value;
    FamiliesDisjoint(ip, other, ip, "", "");
    FamiliesDisjoint(ip, ip, other, "", "");
    SubjectsDistinct(ip, other);
  }

  lemma {:induction false} InvOtherIp(s: System, policy: Policy, step: Step, lag: real, ip: string, slack: real)
    requires Enabled(s, step, lag) && IpOf(s, step).Some? && IpOf(s, step).value != ip
    requires Inv(s, policy, ip, slack)
    ensures Inv(Next(s, policy, step), policy, ip, slack)
  {
    var s' := Next(s, policy, step);
    OtherIpUntouched(s, policy, step, lag, ip);
    hide Next, Enabled, IpOf, ViolationKey, BanKey;
    StillRecording(s, s', policy, ip);
    StillCounting(s, s', policy, ip);
    StillUnbanning(s, s', ip);
  }

  lemma {:induction false} InvIncr(s: System, policy: Policy, step: Step, lag: real, slack: real)
    requires Enabled(s, step, lag) && step.IncrCounter? && policy.ttl >= 0.0
    requires Inv(s, policy, step.ip, slack)
    ensures Inv(Next(s, policy, step), policy, step.ip, slack)
  {
    FamiliesDisjoint(step.ip, step.ip, step.ip, "", "");
    var s' := Next(s, policy, step);
    assert step.id in s'.recorders;
  }

  lemma {:induction false} InvExpire(s: System, policy: Policy, step: Step, lag: real, slack: real)
    requires Enabled(s, step, lag) && step.ExpireCounter? && policy.ttl >= 0.0
    requires slack >= 0.0 && (slack >= lag || policy.threshold <= 1)
    requires Inv(s, policy, s.recorders[step.id].ip, slack)
    ensures Inv(Next(s, policy, step), policy, s.recorders[step.id].ip, slack)
  {
    var ip := s.recorders[step.id].ip;
    FamiliesDisjoint(ip, ip, ip, "", "");
    var s' := Next(s, policy, step);
    StillRecording(s, s', policy, ip);
  }

  lemma {:induction false} InvSetBan(s: System, policy: Policy, step: Step, lag: real, slack: real)
    requires Enabled(s, step, lag) && step.SetBan? && policy.ttl >= 0.0 && slack >= 0.0
    requires Inv(s, policy, s.recorders[step.id].ip, slack)
    ensures Inv(Next(s, policy, step), policy, s.recorders[step.id].ip, slack)
  {
    var ip := s.recorders[step.id].ip;
    FamiliesDisjoint(ip, ip, ip, "", "");
    var s' := Next(s, policy, step);
    StillCounting(s, s', policy, ip);
  }

  lemma {:induction false} InvManualBan(s: System, policy: Policy, step: Step, lag: real, slack: real)
    requires Enabled(s, step, lag) && step.ManualBan? && policy.ttl >= 0.0 && slack >= 0.0
    requires Inv(s, policy, step.ip, slack)
    ensures Inv(Next(s, policy, step), policy, step.ip, slack)
  {
    FamiliesDisjoint(step.ip, step.ip, step.ip, "", "");
    var s' := Next(s, policy, step);
    assert Counting(s, policy, step.ip) ==> Counting(s', policy, step.ip);
  }

  lemma {:induction false} InvUnban(s: System, policy: Policy, step: Step, lag: real, slack: real)
    requires Enabled(s, step, lag) && (step.DelBan? || step.DelCounter?) && policy.ttl >= 0.0
    requires Inv(s, policy, IpOf(s, step).value, slack)
    ensures Inv(Next(s, policy, step), policy, IpOf(s, step).value, slack)
  {
    var ip, s' := IpOf(s, step).value, Next(s, policy, step);
    FamiliesDisjoint(ip, ip, ip, "", "");
    assert Counting(s, policy, ip) ==> Counting(s', policy, ip);
    assert step.DelBan? ==> step.id in s'.unbans;
  }

  lemma {:induction false} InvStep(s: System, policy: Policy, step: Step, lag: real, ip: string, slack: real,
                                   s': System)
    requires Enabled(s, step, lag) && policy.ttl >= 0.0
    requires slack >= 0.0 && (slack >= lag || policy.threshold <= 1)
    requires Inv(s, policy, ip, slack)
    requires s' == Next(s, policy, step)
    ensures Inv(s', policy, ip, slack)
  {
    if IpOf(s, step).value != ip {
      InvOtherIp(s, policy, step, lag, ip, slack);
    } else {
      match step
      case IncrCounter(_, _, _) => InvIncr(s, policy, step, lag, slack);
      case ExpireCounter(_, _) => InvExpire(s, policy, step, lag, slack);
      case SetBan(_, _, _) => InvSetBan(s, policy, step, lag, slack);
      case ManualBan(_, _, _) => InvManualBan(s, policy, step, lag, slack);
      case DelBan(_, _, _) => InvUnban(s, policy, step, lag, slack);
      case DelCounter(_, _) => InvUnban(s, policy, step, lag, slack);
    }
  }

  lemma {:induction false} InvStart(policy: Policy, ip: string, slack: real)
    ensures Inv(START, policy, ip, slack)
  {
  }

  lemma {:induction false} InvAlways(steps: seq<Step>, policy: Policy, lag: real, ip: string, slack: real, n: nat)
    requires n <= |steps| && Legal(steps, policy, lag, n) && policy.ttl >= 0.0
    requires slack >= 0.0 && (slack >= lag || policy.threshold <= 1)
    ensures Inv(StateAfter(steps, policy, n), policy, ip, slack)
  {
    if n == 0 {
      InvStart(policy, ip, slack);
    } else {
      InvAlways(steps, policy, lag, ip, slack, n - 1);
      InvStep(StateAfter(steps, policy, n - 1), policy, steps[n - 1], lag, ip, slack, StateAfter(steps, policy, n));
    }
  }

  /** Whatever the interleaving, a live counter at the threshold outlives the ban by at most the lag. */
  lemma {:induction false} SafeWithinLag(policy: Policy, lag: real, slack: real)
    requires policy.ttl >= 0.0
    requires slack >= 0.0 && (slack >= lag || policy.threshold <= 1)
    ensures AlwaysSafe(policy, lag, slack)
  {
    forall steps, ip, now | Legal(steps, policy, lag, |steps|) && StateAfter(steps, policy, |steps|).clock <= now
      ensures Safe(StateAfter(steps, policy, |steps|), policy, ip, now, slack)
    {
      InvAlways(steps, policy, lag, ip, slack, |steps|);
    }
  }

  // ----- the bound is exact -----

  ghost predicate Reachable(policy: Policy, lag: real, s: System) {
    exists steps :: Legal(steps, policy, lag, |steps|) && StateAfter(steps, policy, |steps|) == s
  }

  lemma {:induction false} LegalPrefix(short: seq<Step>, long: seq<Step>, policy: Policy, lag: real, n: nat)
    requires short <= long && n <= |short|
    ensures StateAfter(short, policy, n) == StateAfter(long, policy, n)
    ensures Legal(short, policy, lag, n) <==> Legal(long, policy, lag, n)
  {
    hide Next, Enabled;
    if n > 0 {
      LegalPrefix(short, long, policy, lag, n - 1);
    }
  }

  lemma {:induction false} ReachNext(policy: Policy, lag: real, s: System, step: Step, s': System)
    requires Reachable(policy, lag, s) && Enabled(s, step, lag) && s' == Next(s, policy, step)
    ensures Reachable(policy, lag, s')
  {
    hide Next, Enabled;
    var steps :| Legal(steps, policy, lag, |steps|) && StateAfter(steps, policy, |steps|) == s;
    LegalPrefix(steps, steps + [step], policy, lag, |steps|);
    assert Legal(steps + [step], policy, lag, |steps| + 1);
    assert StateAfter(steps + [step], policy, |steps| + 1) == s';
  }

  lemma {:induction false} ReachStart(policy: Policy, lag: real)
    ensures Reachable(policy, lag, START)
  {
    assert Legal([], policy, lag, 0) && StateAfter([], policy, 0) == START;
  }

  /** Recorders 0 .. k - 1, each of which counted a first violation and has not run its EXPIRE. */
  function Late(ip: string, k: nat): (late: map<nat, Recorder>)
    ensures forall id: nat :: (id in late <==> id < k) && (id in late ==> late[id] == Recorder(ip, 1, 0.0, Counted))
  {
    if k == 0 then map[] else Late(ip, k - 1)[k - 1 := Recorder(ip, 1, 0.0, Counted)]
  }

  /** One more of them, and an unban that starts the counter afresh. */
  lemma {:induction false} OneMoreLate(policy: Policy, lag: real, ip: string, k: nat)
    requires Reachable(policy, lag, System(map[], 0.0, Late(ip, k), map[]))
    ensures Reachable(policy, lag, System(map[], 0.0, Late(ip, k + 1), map[]))
  {
    hide Reachable;
    var s := System(map[], 0.0, Late(ip, k), map[]);
    var counted := System(map[ViolationKey(ip) := Entry(Count(1), None)], 0.0, Late(ip, k + 1), map[]);
    var halfway := counted.(unbans := map[0 := ip]);
    FamiliesDisjoint(ip, ip, ip, "", "");
    assert Late(ip, k)[k := Recorder(ip, 1, 0.0, Counted)] == Late(ip, k + 1);
    ReachNext(policy, lag, s, IncrCounter(0.0, k, ip), counted);
    assert Del(counted.db, BanKey(ip)) == counted.db;
    ReachNext(policy, lag, counted, DelBan(0.0, 0, ip), halfway);
    assert Del(halfway.db, ViolationKey(ip)) == map[];
    assert halfway.unbans - {0} == map[];
    ReachNext(policy, lag, halfway, DelCounter(0.0, 0), System(map[], 0.0, Late(ip, k + 1), map[]));
  }

  lemma {:induction false} ManyLate(policy: Policy, lag: real, ip: string, k: nat)
    ensures Reachable(policy, lag, System(map[], 0.0, Late(ip, k), map[]))
  {
    if k == 0 {
      ReachStart(policy, lag);
      assert Late(ip, 0) == map[];
    } else {
      ManyLate(policy, lag, ip, k - 1);
      OneMoreLate(policy, lag, ip, k - 1);
    }
  }

  /** After n prompt recorders, with k late ones still waiting. */
  function Prompt(policy: Policy, ip: string, k: nat, n: nat): System {
    System(if n == 0 then map[] else map[ViolationKey(ip) := Entry(Count(n), Some(0.0 + policy.ttl))], 0.0, Late(ip, k),
           map[])
  }

  /** One prompt recorder: its INCR, and its EXPIRE at once. */
  lemma {:induction false} OneMorePrompt(policy: Policy, lag: real, ip: string, k: nat, n: nat) returns (s: System)
    requires policy.ttl > 0.0 && lag >= 0.0 && Reachable(policy, lag, Prompt(policy, ip, k, n))
    ensures Reachable(policy, lag, s)
    ensures s == if n + 1 >= policy.threshold
                 then Prompt(policy, ip, k, n + 1).(recorders := Late(ip, k)[k := Recorder(ip, n + 1, 0.0, Armed)])
                 else Prompt(policy, ip, k, n + 1)
  {
    hide Reachable;
    var before := Prompt(policy, ip, k, n);
    var counted := Next(before, policy, IncrCounter(0.0, k, ip));
    assert counted.recorders == Late(ip, k)[k := Recorder(ip, n + 1, 0.0, Counted)];
    ReachNext(policy, lag, before, IncrCounter(0.0, k, ip), counted);
    s := Next(counted, policy, ExpireCounter(0.0, k));
    assert counted.recorders - {k} == Late(ip, k);
    ReachNext(policy, lag, counted, ExpireCounter(0.0, k), s);
  }

  lemma {:induction false} ManyPrompt(policy: Policy, lag: real, ip: string, k: nat, n: nat)
    requires policy.ttl > 0.0 && lag >= 0.0 && n < policy.threshold
    ensures Reachable(policy, lag, Prompt(policy, ip, k, n))
  {
    if n == 0 {
      ManyLate(policy, lag, ip, k);
    } else {
      ManyPrompt(policy, lag, ip, k, n - 1);
      var s := OneMorePrompt(policy, lag, ip, k, n - 1);
    }
  }

  /** The ban was set at time 0; at time `t` a late EXPIRE has just renewed the counter, and k more late
      recorders are waiting. */
  predicate Renewed(s: System, policy: Policy, ip: string, k: nat, t: real) {
    && s.clock == t && s.recorders == Late(ip, k) && s.unbans == map[]
    && ViolationKey(ip) in s.db && s.db[ViolationKey(ip)] == Entry(Count(policy.threshold), Some(t + policy.ttl))
    && BanKey(ip) in s.db && s.db[BanKey(ip)].expiry == Some(0.0 + policy.ttl)
  }

  lemma {:induction false} BanIsSet(policy: Policy, lag: real, ip: string, k: nat) returns (s: System)
    requires policy.threshold >= 2 && policy.ttl > 0.0 && lag >= 0.0
    ensures Reachable(policy, lag, s) && Renewed(s, policy, ip, k, 0.0)
  {
    hide Reachable;
    FamiliesDisjoint(ip, ip, ip, "", "");
    ManyPrompt(policy, lag, ip, k, policy.threshold - 1);
    var armed := OneMorePrompt(policy, lag, ip, k, policy.threshold - 1);
    s := Next(armed, policy, SetBan(0.0, k, ""));
    assert armed.recorders - {k} == Late(ip, k);
    ReachNext(policy, lag, armed, SetBan(0.0, k, ""), s);
  }

  /** Each late EXPIRE comes while the counter is still live, and renews it up to time `end`. */
  lemma {:induction false} RenewUntil(policy: Policy, lag: real, ip: string, k: nat, t: real, end: real, s: System)
    returns (last: System, m: nat)
    requires policy.threshold >= 2 && policy.ttl > 0.0
    requires Reachable(policy, lag, s) && Renewed(s, policy, ip, k, t)
    requires 0.0 <= t < end <= lag && end <= t + k as real * policy.ttl
    ensures Reachable(policy, lag, last) && Renewed(last, policy, ip, m, end)
    decreases k
  {
    hide Reachable;
    FamiliesDisjoint(ip, ip, ip, "", "");
    var at := if end <= t + policy.ttl then end else t + policy.ttl;
    last := Next(s, policy, ExpireCounter(at, k - 1));
    m := k - 1;
    assert Late(ip, k) - {k - 1} == Late(ip, k - 1);
    ReachNext(policy, lag, s, ExpireCounter(at, k - 1), last);
    if at < end {
      assert k as real * policy.ttl == (k - 1) as real * policy.ttl + policy.ttl;
      last, m := RenewUntil(policy, lag, ip, k - 1, at, end, last);
    }
  }

  lemma {:induction false} EnoughRenewals(lag: real, ttl: real) returns (k: nat)
    requires ttl > 0.0 && lag >= 0.0
    ensures k as real * ttl >= lag
  {
    var q := lag / ttl;
    assert q * ttl == lag;
    k := q.Floor + 1;
    var rest := k as real - q;
    assert rest * ttl > 0.0;
    assert k as real * ttl == rest * ttl + q * ttl;
  }

  lemma {:induction false} RenewedIsUnsafe(s: System, policy: Policy, ip: string, k: nat, end: real, slack: real)
    requires policy.threshold >= 2 && policy.ttl > 0.0 && slack < end && Renewed(s, policy, ip, k, end)
    ensures !Safe(s, policy, ip, end, slack)
  {
  }

  /** A run that uses the whole lag: handlers whose first violations an unban forgot keep renewing the
      counter after the ban was set. */
  lemma {:induction false} LagIsReached(policy: Policy, lag: real, slack: real)
    requires policy.threshold >= 2 && policy.ttl > 0.0 && 0.0 <= slack < lag
    ensures !AlwaysSafe(policy, lag, slack)
  {
    var k := EnoughRenewals(lag, policy.ttl);
    var banned := BanIsSet(policy, lag, "", k);
    var s, m := RenewUntil(policy, lag, "", k, 0.0, lag, banned);
    RenewedIsUnsafe(s, policy, "", m, lag, slack);
    var steps :| Legal(steps, policy, lag, |steps|) && StateAfter(steps, policy, |steps|) == s;
    assert StateAfter(steps, policy, |steps|).clock <= lag;
  }

  /** A live counter at the threshold always has its ban (up to `slack`), or a handler about to set
      it, or an unban half done - exactly when `slack` covers the lag, or one violation already bans.
      With `slack` 0 this says when the ban always lasts as long as the counter. */
  lemma {:induction false} AlwaysSafeIff(policy: Policy, lag: real, slack: real)
    requires 0.0 <= slack && policy.ttl > 0.0
    ensures AlwaysSafe(policy, lag, slack) <==> slack >= lag || policy.threshold <= 1
  {
    if slack >= lag || policy.threshold <= 1 {
      SafeWithinLag(policy, lag, slack);
    } else {
      LagIsReached(policy, lag, slack);
    }
  }
}
