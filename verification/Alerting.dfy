/** The alert on a burst of blocked requests: a 60-second window and a 300-second cooldown. */
module Alerting {
  import opened SlidingWindow

  const WINDOW := 60.0
  const COOLDOWN := 300.0

  /** One `record_block`: the clock reading that is stored, and the later one of the cooldown check. */
  datatype Block = Block(at: real, checkedAt: real)

  datatype State = State(recent: seq<Stamped<()>>, lastAlert: real)

  function Arrive(s: State, b: Block): seq<Stamped<()>> {
    Evict(s.recent + [Stamped(b.at, ())], b.at, WINDOW)
  }

  predicate Sends(s: State, threshold: int, b: Block) {
    |Arrive(s, b)| >= threshold && b.checkedAt - s.lastAlert >= COOLDOWN
  }

  function Next(s: State, threshold: int, b: Block): State {
    State(Arrive(s, b), if Sends(s, threshold, b) then b.checkedAt else s.lastAlert)
  }

  class AlertManager {
    const threshold: int
    var recentBlocks: seq<Stamped<()>>
    var lastAlertSent: real

    function Snapshot(): State
      reads this
    {
      State(recentBlocks, lastAlertSent)
    }

    constructor (threshold: int)
      ensures this.threshold == threshold && Snapshot() == State([], 0.0)
    {
      this.threshold, recentBlocks, lastAlertSent := threshold, [], 0.0;
    }

    method RecordBlock(at: real, checkedAt: real) returns (sent: bool)
      modifies this
      ensures Snapshot() == Next(old(Snapshot()), threshold, Block(at, checkedAt))
      ensures sent == Sends(old(Snapshot()), threshold, Block(at, checkedAt))
    {
      recentBlocks := recentBlocks + [Stamped(at, ())];
      ghost var all := recentBlocks;
      while recentBlocks != [] && at - recentBlocks[0].at > WINDOW
        invariant Evict(all, at, WINDOW) == Evict(recentBlocks, at, WINDOW)
        invariant lastAlertSent == old(lastAlertSent)
        decreases |recentBlocks|
      {
        recentBlocks := recentBlocks[1..];
      }
      sent := false;
      if |recentBlocks| >= threshold {
        sent := MaybeSendAlert(checkedAt);
      }
    }

    method MaybeSendAlert(now: real) returns (sent: bool)
      modifies `lastAlertSent
      ensures sent == (now - old(lastAlertSent) >= COOLDOWN)
      ensures lastAlertSent == if sent then now else old(lastAlertSent)
    {
      if now - lastAlertSent < COOLDOWN {
        return false;
      }
      lastAlertSent := now;
      return true;
    }
  }

  // ----- the schedule over a whole run -----

  function StateAfter(blocks: seq<Block>, threshold: int, n: nat): State
    requires n <= |blocks|
  {
    if n == 0 then State([], 0.0) else Next(StateAfter(blocks, threshold, n - 1), threshold, blocks[n - 1])
  }

  /** Block n sent an alert. */
  predicate Sent(blocks: seq<Block>, threshold: int, n: nat)
    requires n < |blocks|
  {
    Sends(StateAfter(blocks, threshold, n), threshold, blocks[n])
  }

  /** The clock never goes backwards. */
  predicate Forward(blocks: seq<Block>) {
    && (forall n :: 0 <= n < |blocks| ==> blocks[n].at <= blocks[n].checkedAt)
    && (forall i, j :: 0 <= i < j < |blocks| ==> blocks[i].checkedAt <= blocks[j].at)
  }

  function Arrivals(blocks: seq<Block>): (q: seq<Stamped<()>>)
    ensures |q| == |blocks| && forall n :: 0 <= n < |q| ==> q[n] == Stamped(blocks[n].at, ())
  {
    seq(|blocks|, n requires 0 <= n < |blocks| => Stamped(blocks[n].at, ()))
  }

  /** How many of the first `n` blocks of all time are at most 60 seconds old at `now`. */
  function NaiveCount(blocks: seq<Block>, n: nat, now: real): nat
    requires n <= |blocks|
  {
    if n == 0 then 0 else NaiveCount(blocks, n - 1, now) + if now - blocks[n - 1].at <= 60.0 then 1 else 0
  }

  lemma {:induction false} NaiveIsRecent(blocks: seq<Block>, n: nat, now: real)
    requires n <= |blocks|
    ensures NaiveCount(blocks, n, now) == |Recent(Arrivals(blocks)[..n], now, WINDOW)|
  {
    if n > 0 {
      NaiveIsRecent(blocks, n - 1, now);
      assert Arrivals(blocks)[..n] == Arrivals(blocks)[..n - 1] + [Stamped(blocks[n - 1].at, ())];
      RecentSnoc(Arrivals(blocks)[..n - 1], Stamped(blocks[n - 1].at, ()), now, WINDOW);
    }
  }

  lemma {:induction false} RecentIsDeque(blocks: seq<Block>, threshold: int, n: nat)
    requires n <= |blocks|
    ensures StateAfter(blocks, threshold, n).recent == DequeAfter(Arrivals(blocks), WINDOW, n)
  {
    if n > 0 {
      RecentIsDeque(blocks, threshold, n - 1);
    }
  }

  lemma {:induction false} WindowIsNaive(blocks: seq<Block>, threshold: int, n: nat)
    requires n < |blocks| && Forward(blocks)
    ensures |Arrive(StateAfter(blocks, threshold, n), blocks[n])| == NaiveCount(blocks, n + 1, blocks[n].at)
  {
    RecentIsDeque(blocks, threshold, n + 1);
    DequeIsRecent(Arrivals(blocks), WINDOW, n + 1);
    NaiveIsRecent(blocks, n + 1, blocks[n].at);
  }

  /** The last alert was sent by block i; or i is -1, no alert was sent, and it is the initial zero. */
  lemma {:induction false} LastAlertIs(blocks: seq<Block>, threshold: int, n: nat) returns (i: int)
    requires n <= |blocks|
    ensures -1 <= i < n
    ensures i >= 0 ==> Sent(blocks, threshold, i) && blocks[i].checkedAt == StateAfter(blocks, threshold, n).lastAlert
    ensures i < 0 ==> StateAfter(blocks, threshold, n).lastAlert == 0.0
  {
    i := -1;
    if n > 0 {
      i := LastAlertIs(blocks, threshold, n - 1);
      if Sent(blocks, threshold, n - 1) {
        i := n - 1;
      }
    }
  }

  lemma {:induction false} LastAlertAfterZero(blocks: seq<Block>, threshold: int, n: nat)
    requires n <= |blocks|
    ensures StateAfter(blocks, threshold, n).lastAlert >= 0.0
  {
    if n > 0 {
      LastAlertAfterZero(blocks, threshold, n - 1);
    }
  }

  lemma {:induction false} LastAlertCovers(blocks: seq<Block>, threshold: int, n: nat, i: nat)
    requires i < n <= |blocks| && Forward(blocks) && Sent(blocks, threshold, i)
    ensures blocks[i].checkedAt <= StateAfter(blocks, threshold, n).lastAlert
  {
    if i < n - 1 {
      LastAlertCovers(blocks, threshold, n - 1, i);
    }
  }

  /** At least `threshold` blocks of the full history are in the last minute, and no alert was sent in the
      last 300 seconds - where the zero of the clock counts as an alert, which only a clock reading below
      300 can notice. */
  predicate Due(blocks: seq<Block>, threshold: int, n: nat)
    requires n < |blocks|
  {
    && NaiveCount(blocks, n + 1, blocks[n].at) >= threshold
    && blocks[n].checkedAt >= 300.0
    && forall i :: 0 <= i < n && Sent(blocks, threshold, i) ==> blocks[n].checkedAt - blocks[i].checkedAt >= 300.0
  }

  /** The exact schedule: a block sends an alert iff one is due. */
  lemma {:induction false} AlertSchedule(blocks: seq<Block>, threshold: int, n: nat)
    requires n < |blocks| && Forward(blocks)
    ensures Sent(blocks, threshold, n) <==> Due(blocks, threshold, n)
  {
    WindowIsNaive(blocks, threshold, n);
    var last := LastAlertIs(blocks, threshold, n);
    LastAlertAfterZero(blocks, threshold, n);
    forall i | 0 <= i < n && Sent(blocks, threshold, i)
      ensures blocks[i].checkedAt <= StateAfter(blocks, threshold, n).lastAlert
    {
      LastAlertCovers(blocks, threshold, n, i);
    }
  }

  function Alerts(blocks: seq<Block>, threshold: int, i: nat, j: nat): nat
    requires i <= j <= |blocks|
    decreases j - i
  {
    if i == j then 0 else Alerts(blocks, threshold, i, j - 1) + if Sent(blocks, threshold, j - 1) then 1 else 0
  }

  /** So any span of D seconds holds at most D / 300 + 1 alerts. */
  lemma {:induction false} AlertsBounded(blocks: seq<Block>, threshold: int, i: nat, j: nat)
    requires i < j <= |blocks| && Forward(blocks)
    ensures (Alerts(blocks, threshold, i, j) - 1) as real * 300.0 <= blocks[j - 1].checkedAt - blocks[i].checkedAt
    decreases j - i
  {
    if i + 1 < j {
      AlertsBounded(blocks, threshold, i, j - 1);
      if Sent(blocks, threshold, j - 1) {
        FromLastAlert(blocks, threshold, i, j - 1);
      }
    }
  }

  /** Counted back from an alert at block n, the alerts since block i are 300 seconds apart. */
  lemma {:induction false} FromLastAlert(blocks: seq<Block>, threshold: int, i: nat, n: nat)
    requires i <= n < |blocks| && Forward(blocks) && Sent(blocks, threshold, n)
    ensures Alerts(blocks, threshold, i, n) as real * 300.0 <= blocks[n].checkedAt - blocks[i].checkedAt
    decreases n - i
  {
    if i < n {
      var k := LatestAlert(blocks, threshold, i, n);
      if i <= k {
        FromLastAlert(blocks, threshold, i, k);
        AlertSchedule(blocks, threshold, n);
      }
    }
  }

  /** The last block from i to n - 1 that sent an alert (i - 1 if none did). */
  lemma {:induction false} LatestAlert(blocks: seq<Block>, threshold: int, i: nat, n: nat) returns (k: int)
    requires i < n < |blocks|
    ensures i - 1 <= k < n
    ensures k < i ==> Alerts(blocks, threshold, i, n) == 0
    ensures i <= k ==>
      Sent(blocks, threshold, k) && Alerts(blocks, threshold, i, n) == Alerts(blocks, threshold, i, k) + 1
    decreases n - i
  {
    if Sent(blocks, threshold, n - 1) {
      k := n - 1;
    } else if i + 1 < n {
      k := LatestAlert(blocks, threshold, i, n - 1);
    } else {
      k := i - 1;
    }
  }
}
