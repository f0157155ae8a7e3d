/** The bounded, newest-first event log and the summary drawn from it. */
module Reports {
  import opened Options
  import opened Events

  const LOG_LIMIT := 50000

  /** LPUSH, then LTRIM 0 49999. */
  function Record(log: seq<TrafficEvent>, e: TrafficEvent): seq<TrafficEvent> {
    var pushed := [e] + log;
    if |pushed| <= LOG_LIMIT then pushed else pushed[..LOG_LIMIT]
  }

  function Newest(events: seq<TrafficEvent>, n: nat): seq<TrafficEvent> {
    if events == [] || n == 0 then [] else [events[|events| - 1]] + Newest(events[..|events| - 1], n - 1)
  }

  function LogAfter(events: seq<TrafficEvent>, n: nat): seq<TrafficEvent>
    requires n <= |events|
  {
    if n == 0 then [] else Record(LogAfter(events, n - 1), events[n - 1])
  }

  lemma {:induction false} NewestPrefix(events: seq<TrafficEvent>, n: nat, m: nat)
    requires n <= m
    ensures |Newest(events, m)| == if |events| <= m then |events| else m
    ensures Newest(events, n) == if |Newest(events, m)| <= n then Newest(events, m) else Newest(events, m)[..n]
  {
    if events != [] && n > 0 {
      NewestPrefix(events[..|events| - 1], n - 1, m - 1);
    } else if events != [] && m > 0 {
      NewestPrefix(events[..|events| - 1], 0, m - 1);
    }
  }

  /** The stored list is the newest 50000 of all events ever recorded, newest first. */
  lemma {:induction false} LogIsNewest(events: seq<TrafficEvent>, n: nat)
    requires n <= |events|
    ensures LogAfter(events, n) == Newest(events[..n], LOG_LIMIT)
  {
    if n > 0 {
      LogIsNewest(events, n - 1);
      assert events[..n][..n - 1] == events[..n - 1];
      NewestPrefix(events[..n - 1], LOG_LIMIT - 1, LOG_LIMIT);
    }
  }

  // ----- counting -----

  /** `Counter(keys)`. */
  function CountBy<K>(keys: seq<K>): map<K, nat> {
    if keys == [] then map[]
    else
      var rest, k := CountBy(keys[..|keys| - 1]), keys[|keys| - 1];
      rest[k := (if k in rest then rest[k] else 0) + 1]
  }

  /** All counts of a counter, added up. */
  ghost function Total<K>(counts: map<K, nat>): nat {
    if counts == map[] then 0 else var k :| k in counts; counts[k] + Total(counts - {k})
  }

  lemma {:induction false} TotalWithout<K>(counts: map<K, nat>, k: K)
    requires k in counts
    ensures Total(counts) == counts[k] + Total(counts - {k})
    decreases |counts|
  {
    var first :| first in counts && Total(counts) == counts[first] + Total(counts - {first});
    if first != k {
      TotalWithout(counts - {first}, k);
      TotalWithout(counts - {k}, first);
      assert counts - {first} - {k} == counts - {k} - {first};
    }
  }

  lemma {:induction false} TotalUpdate<K>(counts: map<K, nat>, k: K, n: nat)
    ensures Total(counts[k := n]) == Total(counts) - (if k in counts then counts[k] else 0) + n
  {
    TotalWithout(counts[k := n], k);
    if k in counts {
      TotalWithout(counts, k);
      assert counts[k := n] - {k} == counts - {k};
    } else {
      assert counts[k := n] - {k} == counts;
    }
  }

  /** The counts of a `Counter` are the multiplicities, and add up to the number of keys. */
  lemma {:induction false} CountsAddUp<K>(keys: seq<K>)
    ensures Total(CountBy(keys)) == |keys|
    ensures forall k :: (k in CountBy(keys) <==> k in keys) && (k in keys ==> CountBy(keys)[k] == multiset(keys)[k])
  {
    if keys != [] {
      var front, last := keys[..|keys| - 1], keys[|keys| - 1];
      assert keys == front + [last];
      CountsAddUp(front);
      TotalUpdate(CountBy(front), last, (if last in CountBy(front) then CountBy(front)[last] else 0) + 1);
    }
  }

  // ----- the summary -----

  /** The events of the log that are not older than the cutoff, in log order. */
  function Since(log: seq<TrafficEvent>, cutoff: real): seq<TrafficEvent> {
    if log == [] then []
    else Since(log[..|log| - 1], cutoff) + if log[|log| - 1].timestamp >= cutoff then [log[|log| - 1]] else []
  }

  function Actions(events: seq<TrafficEvent>): seq<ActionType> {
    if events == [] then [] else Actions(events[..|events| - 1]) + [events[|events| - 1].action]
  }

  /** The endpoints of the events that were not allowed. */
  function Targets(events: seq<TrafficEvent>): seq<string> {
    if events == [] then []
    else Targets(events[..|events| - 1])
         + if events[|events| - 1].action != Allowed then [events[|events| - 1].endpoint] else []
  }

  function Countries(events: seq<TrafficEvent>): seq<string> {
    if events == [] then []
    else Countries(events[..|events| - 1])
         + if events[|events| - 1].country.Some? && events[|events| - 1].country.value != ""
           then [events[|events| - 1].country.value] else []
  }

  /** `endpointTargets` is the whole counter, before the cut to its ten most common entries. */
  datatype Summary = Summary(
    totalEvents: nat, actionDistribution: map<ActionType, nat>, endpointTargets: map<string, nat>,
    countryDistribution: map<string, nat>, blockRatePercent: real)

  function AllowedOf(counts: map<ActionType, nat>): nat { if Allowed in counts then counts[Allowed] else 0 }

  function Summarize(events: seq<TrafficEvent>): Summary {
    var actions := CountBy(Actions(events));
    Summary(|events|, actions, CountBy(Targets(events)), CountBy(Countries(events)),
            if events == [] then 0.0
            else 100.0 * (1.0 - AllowedOf(actions) as real / |events| as real))
  }

  class ReportGenerator {
    var log: seq<TrafficEvent>

    constructor ()
      ensures log == []
    {
      log := [];
    }

    method RecordEvent(e: TrafficEvent)
      modifies this
      ensures log == Record(old(log), e)
    {
      log := [e] + log;
      if |log| > LOG_LIMIT {
        log := log[..LOG_LIMIT];
      }
    }

    method LoadEvents(sinceSeconds: real, now: real) returns (events: seq<TrafficEvent>)
      ensures events == Since(log, now - sinceSeconds)
    {
      var cutoff := now - sinceSeconds;
      events := [];
      for i := 0 to |log|
        invariant events == Since(log[..i], cutoff)
      {
        assert log[..i + 1][..i] == log[..i];
        if log[i].timestamp >= cutoff {
          events := events + [log[i]];
        }
      }
      assert log[..|log|] == log;
    }

    method GenerateSummary(sinceSeconds: real, now: real) returns (summary: Summary)
      ensures summary == Summarize(Since(log, now - sinceSeconds))
    {
      var events := LoadEvents(sinceSeconds, now);
      summary := Summarize(events);
    }
  }

  lemma {:induction false} ActionsLength(events: seq<TrafficEvent>)
    ensures |Actions(events)| == |events|
    ensures multiset(Actions(events))[Allowed] + |Targets(events)| == |events|
  {
    if events != [] {
      ActionsLength(events[..|events| - 1]);
    }
  }

  lemma {:induction false} RateInRange(allowed: nat, total: nat)
    requires allowed <= total && total > 0
    ensures 0.0 <= 100.0 * (1.0 - allowed as real / total as real) <= 100.0
  {
    var q := allowed as real / total as real;
    assert q * total as real == allowed as real;
    assert q < 0.0 ==> q * total as real < 0.0;
    assert q > 1.0 ==> q * total as real > 1.0 * total as real;
  }

  /** In every summary the action counts add up to the total, the endpoint counts to the events that
      were not allowed, and the block rate is a percentage. */
  lemma {:induction false} SummaryAddsUp(events: seq<TrafficEvent>)
    ensures var s := Summarize(events);
      && Total(s.actionDistribution) == s.totalEvents
      && Total(s.endpointTargets) == s.totalEvents - AllowedOf(s.actionDistribution)
      && 0.0 <= s.blockRatePercent <= 100.0
  {
    ActionsLength(events);
    CountsAddUp(Actions(events));
    CountsAddUp(Targets(events));
    if events != [] {
      RateInRange(AllowedOf(CountBy(Actions(events))), |events|);
    }
  }

  // ----- the log and the summary written out -----

  /** Entry k of the log, over all events ever recorded. */
  lemma {:induction false} LogEntry(events: seq<TrafficEvent>, k: nat)
    ensures var log := LogAfter(events, |events|);
      && |log| == (if |events| <= 50000 then |events| else 50000)
      && (k < |log| ==> log[k] == events[|events| - 1 - k])
  {
    LogIsNewest(events, |events|);
    assert events[..|events|] == events;
    NewestEntry(events, 50000, k);
  }

  lemma {:induction false} NewestEntry(events: seq<TrafficEvent>, n: nat, k: nat)
    ensures |Newest(events, n)| == if |events| <= n then |events| else n
    ensures k < |Newest(events, n)| ==> Newest(events, n)[k] == events[|events| - 1 - k]
  {
    if events != [] && n > 0 {
      NewestEntry(events[..|events| - 1], n - 1, if k == 0 then 0 else k - 1);
    }
  }

  /** Loading keeps an event iff it is not older than the cutoff, and keeps the order. */
  lemma {:induction false} SinceKeeps(a: seq<TrafficEvent>, b: seq<TrafficEvent>, e: TrafficEvent, cutoff: real)
    ensures Since([], cutoff) == []
    ensures Since([e], cutoff) == if e.timestamp >= cutoff then [e] else []
    ensures Since(a + b, cutoff) == Since(a, cutoff) + Since(b, cutoff)
  {
    assert [e][..0] == [];
    if b == [] {
      assert a + b == a && Since(a, cutoff) + [] == Since(a, cutoff);
    } else {
      assert (a + b)[..|a + b| - 1] == a + b[..|b| - 1];
      SinceKeeps(a, b[..|b| - 1], e, cutoff);
    }
  }

  function Positions(events: seq<TrafficEvent>, p: TrafficEvent -> bool): set<int> {
    set i | 0 <= i < |events| && p(events[i])
  }

  lemma {:induction false} PositionsSnoc(events: seq<TrafficEvent>, e: TrafficEvent, p: TrafficEvent -> bool)
    ensures |Positions(events + [e], p)| == |Positions(events, p)| + if p(e) then 1 else 0
  {
    assert Positions(events + [e], p) == Positions(events, p) + if p(e) then {|events|} else {};
    assert |events| !in Positions(events, p);
  }

  lemma {:induction false} ActionMultiplicity(events: seq<TrafficEvent>, a: ActionType)
    ensures multiset(Actions(events))[a] == |Positions(events, (e: TrafficEvent) => e.action == a)|
  {
    if events != [] {
      var front, e := events[..|events| - 1], events[|events| - 1];
      ActionMultiplicity(front, a);
      PositionsSnoc(front, e, (e: TrafficEvent) => e.action == a);
      assert front + [e] == events;
      hide Positions;
    }
  }

  lemma {:induction false} TargetMultiplicity(events: seq<TrafficEvent>, endpoint: string)
    ensures multiset(Targets(events))[endpoint]
         == |Positions(events, (e: TrafficEvent) => e.action != Allowed && e.endpoint == endpoint)|
  {
    if events != [] {
      var front, e := events[..|events| - 1], events[|events| - 1];
      TargetMultiplicity(front, endpoint);
      PositionsSnoc(front, e, (e: TrafficEvent) => e.action != Allowed && e.endpoint == endpoint);
      assert front + [e] == events;
      hide Positions;
    }
  }

  lemma {:induction false} CountryMultiplicity(events: seq<TrafficEvent>, country: string)
    ensures multiset(Countries(events))[country]
         == if country == "" then 0 else |Positions(events, (e: TrafficEvent) => e.country == Some(country))|
  {
    if events != [] {
      var front, e := events[..|events| - 1], events[|events| - 1];
      CountryMultiplicity(front, country);
      PositionsSnoc(front, e, (e: TrafficEvent) => e.country == Some(country));
      assert front + [e] == events;
      hide Positions;
    }
  }

  lemma {:induction false} CountEntry<K>(keys: seq<K>, k: K)
    ensures (if k in CountBy(keys) then CountBy(keys)[k] else 0) == multiset(keys)[k]
    ensures k in CountBy(keys) <==> multiset(keys)[k] > 0
  {
    CountsAddUp(keys);
    hide CountBy, Total;
    assert k in keys <==> multiset(keys)[k] > 0;
  }

  /** The summary written out over its events: an action is counted as often as it occurs ... */
  lemma {:induction false} ActionCounts(events: seq<TrafficEvent>, a: ActionType)
    ensures var s, at := Summarize(events), set i | 0 <= i < |events| && events[i].action == a;
      && s.totalEvents == |events|
      && (a in s.actionDistribution <==> at != {}) && (at != {} ==> s.actionDistribution[a] == |at|)
  {
    var at := set i | 0 <= i < |events| && events[i].action == a;
    assert at == Positions(events, (e: TrafficEvent) => e.action == a);
    hide Positions, CountBy, Actions, Targets, Countries;
    ActionMultiplicity(events, a);
    CountEntry(Actions(events), a);
  }

  /** ... an endpoint as often as something other than "allowed" happened to it ... */
  lemma {:induction false} TargetCounts(events: seq<TrafficEvent>, endpoint: string)
    ensures var s := Summarize(events);
      var at := set i | 0 <= i < |events| && events[i].action != Allowed && events[i].endpoint == endpoint;
      (endpoint in s.endpointTargets <==> at != {}) && (at != {} ==> s.endpointTargets[endpoint] == |at|)
  {
    var at := set i | 0 <= i < |events| && events[i].action != Allowed && events[i].endpoint == endpoint;
    assert at == Positions(events, (e: TrafficEvent) => e.action != Allowed && e.endpoint == endpoint);
    hide Positions, CountBy, Actions, Targets, Countries;
    TargetMultiplicity(events, endpoint);
    CountEntry(Targets(events), endpoint);
  }

  /** ... a country as often as it occurs, unless it is empty ... */
  lemma {:induction false} CountryCounts(events: seq<TrafficEvent>, country: string)
    ensures var s, at := Summarize(events), set i | 0 <= i < |events| && events[i].country == Some(country);
      && (country in s.countryDistribution <==> at != {} && country != "")
      && (at != {} && country != "" ==> s.countryDistribution[country] == |at|)
  {
    var at := set i | 0 <= i < |events| && events[i].country == Some(country);
    assert at == Positions(events, (e: TrafficEvent) => e.country == Some(country));
    hide Positions, CountBy, Actions, Targets, Countries;
    CountryMultiplicity(events, country);
    CountEntry(Countries(events), country);
  }

  lemma {:induction false} AllowedOrNot(events: seq<TrafficEvent>)
    ensures |Positions(events, (e: TrafficEvent) => e.action == Allowed)|
          + |Positions(events, (e: TrafficEvent) => e.action != Allowed)| == |events|
  {
    if events != [] {
      var front, e := events[..|events| - 1], events[|events| - 1];
      AllowedOrNot(front);
      PositionsSnoc(front, e, (e: TrafficEvent) => e.action == Allowed);
      PositionsSnoc(front, e, (e: TrafficEvent) => e.action != Allowed);
      assert front + [e] == events;
      hide Positions;
    }
  }

  lemma {:induction false} RateOfCounts(allowed: nat, blocked: nat, total: nat)
    requires total > 0 && allowed + blocked == total
    ensures 100.0 * (1.0 - allowed as real / total as real) * total as real == 100.0 * blocked as real
  {
    var q := allowed as real / total as real;
    assert q * total as real == allowed as real;
    assert 100.0 * (1.0 - q) * total as real == 100.0 * total as real - 100.0 * (q * total as real);
  }

  lemma {:induction false} RateOfSummary(events: seq<TrafficEvent>, blocked: nat)
    requires AllowedOf(CountBy(Actions(events))) + blocked == |events|
    ensures var s := Summarize(events);
      if events == [] then s.blockRatePercent == 0.0
      else s.blockRatePercent * |events| as real == 100.0 * blocked as real
  {
    hide CountBy, Actions, Targets, Countries, AllowedOf;
    if events != [] {
      RateOfCounts(AllowedOf(CountBy(Actions(events))), blocked, |events|);
    }
  }

  lemma {:induction false} AllowedAreCounted(events: seq<TrafficEvent>)
    ensures AllowedOf(CountBy(Actions(events))) == |Positions(events, (e: TrafficEvent) => e.action == Allowed)|
  {
    hide Positions, CountBy, Actions;
    ActionMultiplicity(events, Allowed);
    CountEntry(Actions(events), Allowed);
  }

  /** ... and the block rate is the percentage of the events that were not allowed. */
  lemma {:induction false} BlockRate(events: seq<TrafficEvent>)
    ensures var s, blocked := Summarize(events), set i | 0 <= i < |events| && events[i].action != Allowed;
      if events == [] then s.blockRatePercent == 0.0
      else s.blockRatePercent * |events| as real == 100.0 * |blocked| as real
  {
    var blocked := set i | 0 <= i < |events| && events[i].action != Allowed;
    assert blocked == Positions(events, (e: TrafficEvent) => e.action != Allowed);
    hide Positions, CountBy, Actions, AllowedOf, Summarize;
    AllowedOrNot(events);
    AllowedAreCounted(events);
    RateOfSummary(events, |blocked|);
  }
}
