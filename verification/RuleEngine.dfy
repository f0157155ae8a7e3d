/** The manual filter rules: a hash from rule id to rule. */
module RuleEngine {
  import opened Options

  datatype FilterRule = FilterRule(
    ruleId: string, name: string, endpointPattern: string, maxRequestsPerSec: Option<int>,
    blockedCountries: seq<string>, enabled: bool, createdBy: string, createdAt: real)

  /** `country_code and country_code in rule.blocked_countries`. */
  predicate Blocks(rule: FilterRule, country: Option<string>) {
    country.Some? && country.value != "" && country.value in rule.blockedCountries
  }

  predicate Applies(rule: FilterRule, endpoint: string, country: Option<string>, fnmatch: (string, string) -> bool) {
    rule.enabled && fnmatch(endpoint, rule.endpointPattern) && (Blocks(rule, country) || rule.maxRequestsPerSec.Some?)
  }

  function Matched(rules: seq<FilterRule>, endpoint: string, country: Option<string>,
                   fnmatch: (string, string) -> bool): seq<FilterRule>
  {
    if rules == [] then []
    else Matched(rules[..|rules| - 1], endpoint, country, fnmatch)
         + if Applies(rules[|rules| - 1], endpoint, country, fnmatch) then [rules[|rules| - 1]] else []
  }

  /** HGETALL replies with every rule of the hash once, in an order of its own. */
  predicate IsListing(rules: map<string, FilterRule>, listing: seq<FilterRule>) {
    && (forall i :: 0 <= i < |listing| ==> listing[i].ruleId in rules && rules[listing[i].ruleId] == listing[i])
    && (forall i, j :: 0 <= i < j < |listing| ==> listing[i].ruleId != listing[j].ruleId)
    && (forall id :: id in rules ==> rules[id] in listing)
  }

  /** Every rule is stored under its own id. */
  predicate WellKeyed(rules: map<string, FilterRule>) {
    forall id :: id in rules ==> rules[id].ruleId == id
  }

  class RuleEngine {
    var rules: map<string, FilterRule>
    const fnmatch: (string, string) -> bool

    constructor (fnmatch: (string, string) -> bool)
      ensures rules == map[] && this.fnmatch == fnmatch
    {
      rules, this.fnmatch := map[], fnmatch;
    }

    method CreateRule(freshId: string, name: string, endpointPattern: string, createdBy: string,
                      maxRequestsPerSec: Option<int>, blockedCountries: seq<string>, now: real)
      returns (rule: FilterRule)
      modifies this
      ensures rule == FilterRule(freshId, name, endpointPattern, maxRequestsPerSec, blockedCountries, true, createdBy,
        now)
      ensures rules == old(rules)[freshId := rule]
      ensures old(WellKeyed(rules)) ==> WellKeyed(rules)
    {
      rule := FilterRule(freshId, name, endpointPattern, maxRequestsPerSec, blockedCountries, true, createdBy, now);
      rules := rules[rule.ruleId := rule];
    }

    method DeleteRule(ruleId: string)
      modifies this
      ensures rules == old(rules) - {ruleId}
      ensures old(WellKeyed(rules)) ==> WellKeyed(rules)
    {
      rules := rules - {ruleId};
    }

    method ToggleRule(ruleId: string, enabled: bool)
      modifies this
      ensures rules == Toggled(old(rules), ruleId, enabled)
      ensures rules == if ruleId !in old(rules) then old(rules)
                       else old(rules)[ruleId := old(rules)[ruleId].(enabled := enabled)]
      ensures old(WellKeyed(rules)) ==> WellKeyed(rules)
    {
      if ruleId !in rules {
        return;
      }
      var rule := rules[ruleId];
      rule := rule.(enabled := enabled);
      rules := rules[ruleId := rule];
    }

    /** `listing` is the reply to HGETALL. */
    method MatchRules(listing: seq<FilterRule>, endpoint: string, country: Option<string>)
      returns (matched: seq<FilterRule>)
      requires IsListing(rules, listing)
      ensures matched == Matched(listing, endpoint, country, fnmatch)
    {
      matched := [];
      for i := 0 to |listing|
        invariant matched == Matched(listing[..i], endpoint, country, fnmatch)
      {
        var rule := listing[i];
        assert listing[..i + 1][..i] == listing[..i];
        if !rule.enabled {
          continue;
        }
        if !fnmatch(endpoint, rule.endpointPattern) {
          continue;
        }
        if country.Some? && country.value != "" && country.value in rule.blockedCountries {
          matched := matched + [rule];
          continue;
        }
        if rule.maxRequestsPerSec.Some? {
          matched := matched + [rule];
        }
      }
      assert listing[..|listing|] == listing;
    }
  }

  function Toggled(rules: map<string, FilterRule>, ruleId: string, enabled: bool): map<string, FilterRule> {
    if ruleId in rules then rules[ruleId := rules[ruleId].(enabled := enabled)] else rules
  }

  /** The limits of the rules that have one, in order. */
  function Limits(rules: seq<FilterRule>): seq<int> {
    if rules == [] then []
    else Limits(rules[..|rules| - 1])
         + if rules[|rules| - 1].maxRequestsPerSec.Some? then [rules[|rules| - 1].maxRequestsPerSec.value] else []
  }

  /** How many of the rules cost a request a token. */
  function Limiting(rules: seq<FilterRule>): nat { |Limits(rules)| }

  ghost function LimitingIds(rules: map<string, FilterRule>, endpoint: string, country: Option<string>,
                             fnmatch: (string, string) -> bool): set<string>
  {
    set id | id in rules && Costs(rules[id], endpoint, country, fnmatch)
  }

  lemma {:induction false} LimitsSnoc(rules: seq<FilterRule>, x: FilterRule)
    ensures Limits(rules + [x]) == Limits(rules) + if x.maxRequestsPerSec.Some? then [x.maxRequestsPerSec.value] else []
  {
    assert (rules + [x])[..|rules|] == rules;
  }

  lemma {:induction false} LimitsFront(rules: seq<FilterRule>)
    requires rules != []
    ensures Limits(rules)
         == (if rules[0].maxRequestsPerSec.Some? then [rules[0].maxRequestsPerSec.value] else []) + Limits(rules[1..])
  {
    var n := |rules| - 1;
    if n == 0 {
      assert rules[..0] == [] && rules[1..] == [];
    } else {
      LimitsFront(rules[..n]);
      assert rules[1..][..n - 1] == rules[..n][1..];
    }
  }

  predicate Costs(rule: FilterRule, endpoint: string, country: Option<string>, fnmatch: (string, string) -> bool) {
    Applies(rule, endpoint, country, fnmatch) && rule.maxRequestsPerSec.Some?
  }

  function CostingIds(rules: seq<FilterRule>, endpoint: string, country: Option<string>,
                      fnmatch: (string, string) -> bool): set<string>
  {
    if rules == [] then {}
    else CostingIds(rules[..|rules| - 1], endpoint, country, fnmatch)
         + if Costs(rules[|rules| - 1], endpoint, country, fnmatch) then {rules[|rules| - 1].ruleId} else {}
  }

  lemma {:induction false} CostingIdsMembers(rules: seq<FilterRule>, endpoint: string, country: Option<string>,
                                             fnmatch: (string, string) -> bool, id: string)
    ensures id in CostingIds(rules, endpoint, country, fnmatch)
       <==> exists i :: 0 <= i < |rules| && rules[i].ruleId == id && Costs(rules[i], endpoint, country, fnmatch)
  {
    if rules != [] {
      var front := rules[..|rules| - 1];
      CostingIdsMembers(front, endpoint, country, fnmatch, id);
      assert forall i :: 0 <= i < |front| ==> front[i] == rules[i];
    }
  }

  /** Distinct ids: each costing rule is counted once. */
  lemma {:induction false} LimitingIsCosting(rules: seq<FilterRule>, endpoint: string, country: Option<string>,
                                             fnmatch: (string, string) -> bool)
    requires forall i, j :: 0 <= i < j < |rules| ==> rules[i].ruleId != rules[j].ruleId
    ensures Limiting(Matched(rules, endpoint, country, fnmatch)) == |CostingIds(rules, endpoint, country, fnmatch)|
  {
    if rules != [] {
      var front, x := rules[..|rules| - 1], rules[|rules| - 1];
      LimitingIsCosting(front, endpoint, country, fnmatch);
      LimitsSnoc(Matched(front, endpoint, country, fnmatch), x);
      CostingIdsMembers(front, endpoint, country, fnmatch, x.ruleId);
      assert forall i :: 0 <= i < |front| ==> front[i].ruleId == rules[i].ruleId;
      assert x.ruleId !in CostingIds(front, endpoint, country, fnmatch);
      var added := if Costs(x, endpoint, country, fnmatch) then {x.ruleId} else {};
      assert |CostingIds(front, endpoint, country, fnmatch) + added|
          == |CostingIds(front, endpoint, country, fnmatch)| + |added|;
      assert !Applies(x, endpoint, country, fnmatch) ==>
        Matched(rules, endpoint, country, fnmatch) == Matched(front, endpoint, country, fnmatch);
    }
  }

  /** The token cost of a request does not depend on the order in which the hash is listed: it is the
      number of enabled, matching rules that have a limit. */
  lemma {:induction false} CostIsOrderFree(rules: map<string, FilterRule>, listing: seq<FilterRule>, endpoint: string,
                        country: Option<string>, fnmatch: (string, string) -> bool)
    requires WellKeyed(rules) && IsListing(rules, listing)
    ensures Limiting(Matched(listing, endpoint, country, fnmatch)) == |LimitingIds(rules, endpoint, country, fnmatch)|
  {
    LimitingIsCosting(listing, endpoint, country, fnmatch);
    var costing, ids := CostingIds(listing, endpoint, country, fnmatch), LimitingIds(rules, endpoint, country, fnmatch);
    forall id ensures id in costing <==> id in ids {
      CostingIdsMembers(listing, endpoint, country, fnmatch, id);
      if id in ids {
        var i :| 0 <= i < |listing| && listing[i] == rules[id];
      }
    }
    assert costing == ids;
  }

  lemma {:induction false} MatchedMembers(rules: seq<FilterRule>, endpoint: string, country: Option<string>,
                                          fnmatch: (string, string) -> bool, rule: FilterRule)
    ensures rule in Matched(rules, endpoint, country, fnmatch)
       <==> rule in rules && rule.enabled && fnmatch(endpoint, rule.endpointPattern)
            && (rule.maxRequestsPerSec.Some?
                || (country.Some? && country.value != "" && country.value in rule.blockedCountries))
  {
    if rules != [] {
      MatchedMembers(rules[..|rules| - 1], endpoint, country, fnmatch, rule);
      assert rules == rules[..|rules| - 1] + [rules[|rules| - 1]];
    }
  }

  /** Rules are matched one by one and stay in the order of the listing. */
  lemma {:induction false} MatchedInOrder(a: seq<FilterRule>, b: seq<FilterRule>, endpoint: string,
                                          country: Option<string>, fnmatch: (string, string) -> bool)
    ensures Matched(a + b, endpoint, country, fnmatch)
         == Matched(a, endpoint, country, fnmatch) + Matched(b, endpoint, country, fnmatch)
  {
    if b == [] {
      assert a + b == a;
    } else {
      assert (a + b)[..|a + b| - 1] == a + b[..|b| - 1];
      MatchedInOrder(a, b[..|b| - 1], endpoint, country, fnmatch);
    }
  }

  /** A rule adds its own limit to those before it, if it has one. */
  lemma {:induction false} LimitsInOrder(a: seq<FilterRule>, b: seq<FilterRule>, rule: FilterRule)
    ensures Limits([rule]) == match rule.maxRequestsPerSec case None => [] case Some(limit) => [limit]
    ensures Limits(a + b) == Limits(a) + Limits(b)
  {
    assert [rule][..0] == [];
    if b == [] {
      assert a + b == a;
    } else {
      assert (a + b)[..|a + b| - 1] == a + b[..|b| - 1];
      LimitsInOrder(a, b[..|b| - 1], rule);
    }
  }

  /** A rule that is switched off takes part in no request until it is switched on again, and
      switching it off and on leaves the hash as it was. */
  lemma {:induction false} ToggleOffAndOn(rules: map<string, FilterRule>, ruleId: string, listing: seq<FilterRule>,
                                          endpoint: string,
                       country: Option<string>, fnmatch: (string, string) -> bool, rule: FilterRule)
    requires WellKeyed(rules) && IsListing(Toggled(rules, ruleId, false), listing)
    ensures rule in Matched(listing, endpoint, country, fnmatch) ==> rule.ruleId != ruleId
    ensures ruleId in rules && rules[ruleId].enabled ==> Toggled(Toggled(rules, ruleId, false), ruleId, true) == rules
  {
    MatchedMembers(listing, endpoint, country, fnmatch, rule);
    if rule in listing {
      var i :| 0 <= i < |listing| && listing[i] == rule;
    }
  }
}
