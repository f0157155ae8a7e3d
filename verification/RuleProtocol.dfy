/** Toggling a rule, with its HGET and its HSET as separate steps of their own handler: what a deletion in
    between comes to. */
module RuleProtocol {
  import opened RuleEngine

  /** A toggle that has read a rule and not written it back yet. */
  datatype Toggle = Toggle(ruleId: string, rule: FilterRule, enabled: bool)

  datatype System = System(rules: map<string, FilterRule>, toggles: map<nat, Toggle>)

  /** `ReadRule` of an unknown id ends the toggle.  A new rule comes under an id of its own. */
  datatype Step =
    | CreateRule(rule: FilterRule)
    | DeleteRule(ruleId: string)
    | ReadRule(id: nat, ruleId: string, enabled: bool)
    | WriteRule(id: nat)

  function Next(s: System, step: Step): System {
    match step
    case CreateRule(rule) => s.(rules := s.rules[rule.ruleId := rule])
    case DeleteRule(ruleId) => s.(rules := s.rules - {ruleId})
    case ReadRule(id, ruleId, enabled) =>
      if ruleId in s.rules then s.(toggles := s.toggles[id := Toggle(ruleId, s.rules[ruleId], enabled)]) else s
    case WriteRule(id) =>
      if id !in s.toggles then s
      else
        var t := s.toggles[id];
        System(s.rules[t.ruleId := t.rule.(enabled := t.enabled)], s.toggles - {id})
  }

  /** A toggle that nobody interrupts is the rule engine's own. */
  lemma {:induction false} UninterruptedToggle(s: System, id: nat, ruleId: string, enabled: bool)
    requires id !in s.toggles && ruleId in s.rules
    ensures Next(Next(s, ReadRule(id, ruleId, enabled)), WriteRule(id))
         == System(Toggled(s.rules, ruleId, enabled), s.toggles)
  {
    assert s.toggles[id := Toggle(ruleId, s.rules[ruleId], enabled)] - {id} == s.toggles;
  }

  function StateAfter(steps: seq<Step>, n: nat): System
    requires n <= |steps|
  {
    if n == 0 then System(map[], map[]) else Next(StateAfter(steps, n - 1), steps[n - 1])
  }

  /** Step w writes back a rule under `ruleId`. */
  predicate Writes(steps: seq<Step>, w: nat, ruleId: string)
    requires w < |steps|
  {
    var toggles := StateAfter(steps, w).toggles;
    steps[w].WriteRule? && steps[w].id in toggles && toggles[steps[w].id].ruleId == ruleId
  }

  /** Step w writes back what its toggle had read before step d, with no later read of that toggle. */
  predicate StaleWrite(steps: seq<Step>, d: nat, w: nat, ruleId: string)
    requires d < w < |steps|
  {
    && Writes(steps, w, ruleId)
    && steps[w].id in StateAfter(steps, d).toggles
    && StateAfter(steps, w).toggles[steps[w].id] == StateAfter(steps, d).toggles[steps[w].id]
    && forall k :: d <= k < w && steps[k].ReadRule? && steps[k].id == steps[w].id ==>
        steps[k].ruleId !in StateAfter(steps, k).rules
  }

  /** From step d to step n - 1 the rule is neither deleted nor created. */
  predicate LeftAlone(steps: seq<Step>, d: nat, n: nat, ruleId: string)
    requires n <= |steps|
  {
    forall k :: d <= k < n ==>
      !(steps[k].DeleteRule? && steps[k].ruleId == ruleId) && !(steps[k].CreateRule? && steps[k].rule.ruleId == ruleId)
  }

  /** While a deleted rule has not come back, its pending toggles are those from before the deletion. */
  lemma {:induction false} OnlyOldToggles(steps: seq<Step>, d: nat, n: nat, ruleId: string, id: nat)
    requires d < n <= |steps| && steps[d] == DeleteRule(ruleId)
    requires forall k :: d < k < n ==> ruleId !in StateAfter(steps, k).rules
    requires id in StateAfter(steps, n).toggles && StateAfter(steps, n).toggles[id].ruleId == ruleId
    ensures id in StateAfter(steps, d).toggles && StateAfter(steps, n).toggles[id] == StateAfter(steps, d).toggles[id]
    ensures forall k :: d <= k < n && steps[k].ReadRule? && steps[k].id == id ==>
      steps[k].ruleId !in StateAfter(steps, k).rules
    decreases n
  {
    var s := StateAfter(steps, n - 1);
    assert StateAfter(steps, n) == Next(s, steps[n - 1]);
    if d + 1 < n {
      if steps[n - 1].ReadRule? && steps[n - 1].id == id {
        assert steps[n - 1].ruleId !in s.rules;
      }
      OnlyOldToggles(steps, d, n - 1, ruleId, id);
    }
  }

  /** Until something writes it back, a deleted rule stays away. */
  lemma {:induction false} StaysAway(steps: seq<Step>, d: nat, n: nat, ruleId: string)
    requires d < n <= |steps| && steps[d] == DeleteRule(ruleId) && LeftAlone(steps, d + 1, n, ruleId)
    requires forall w :: d < w < n ==> !Writes(steps, w, ruleId)
    ensures ruleId !in StateAfter(steps, n).rules
    decreases n
  {
    if d + 1 < n {
      StaysAway(steps, d, n - 1, ruleId);
      var k := n - 1;
      assert !(steps[k].CreateRule? && steps[k].rule.ruleId == ruleId);
      assert !Writes(steps, k, ruleId);
    }
  }

  /** Once written back, it stays. */
  lemma {:induction false} StaysBack(steps: seq<Step>, d: nat, w: nat, n: nat, ruleId: string)
    requires d < w < n <= |steps| && LeftAlone(steps, d + 1, n, ruleId) && Writes(steps, w, ruleId)
    ensures ruleId in StateAfter(steps, n).rules
    decreases n
  {
    assert StateAfter(steps, w + 1) == Next(StateAfter(steps, w), steps[w]);
    if w + 1 < n {
      StaysBack(steps, d, w, n - 1, ruleId);
      var k := n - 1;
      assert !(steps[k].DeleteRule? && steps[k].ruleId == ruleId);
    }
  }

  lemma {:induction false} FirstWrite(steps: seq<Step>, d: nat, n: nat, ruleId: string) returns (w: nat)
    requires d < n <= |steps| && exists k :: d < k < n && Writes(steps, k, ruleId)
    ensures d < w < n && Writes(steps, w, ruleId) && forall k :: d < k < w ==> !Writes(steps, k, ruleId)
    decreases n
  {
    if exists k :: d < k < n - 1 && Writes(steps, k, ruleId) {
      w := FirstWrite(steps, d, n - 1, ruleId);
    } else {
      w := n - 1;
    }
  }

  /** A deleted rule, not created again, is back exactly if a toggle that had read it before the deletion
      wrote after it.  (No later toggle can: it finds no rule to read.) */
  lemma {:induction false} ComesBackIff(steps: seq<Step>, d: nat, n: nat, ruleId: string)
    requires d < n <= |steps| && steps[d] == DeleteRule(ruleId) && LeftAlone(steps, d + 1, n, ruleId)
    ensures ruleId in StateAfter(steps, n).rules <==> exists w :: d < w < n && StaleWrite(steps, d, w, ruleId)
  {
    if w :| d < w < n && StaleWrite(steps, d, w, ruleId) {
      StaysBack(steps, d, w, n, ruleId);
    }
    if ruleId in StateAfter(steps, n).rules {
      if forall w :: d < w < n ==> !Writes(steps, w, ruleId) {
        StaysAway(steps, d, n, ruleId);
      } else {
        var w := FirstWrite(steps, d, n, ruleId);
        forall k | d < k < w ensures ruleId !in StateAfter(steps, k).rules {
          StaysAway(steps, d, k, ruleId);
        }
        OnlyOldToggles(steps, d, w, ruleId, steps[w].id);
        assert StaleWrite(steps, d, w, ruleId);
      }
    }
  }

  /** It does come back: read, delete, write. */
  lemma {:induction false} DeletionUndone(rule: FilterRule, enabled: bool)
    ensures var steps := [CreateRule(rule), ReadRule(0, rule.ruleId, enabled), DeleteRule(rule.ruleId), WriteRule(0)];
      StateAfter(steps, 4).rules == map[rule.ruleId := rule.(enabled := enabled)]
  {
    var steps := [CreateRule(rule), ReadRule(0, rule.ruleId, enabled), DeleteRule(rule.ruleId), WriteRule(0)];
    assert StateAfter(steps, 0) == System(map[], map[]);
    assert StateAfter(steps, 1).rules == map[rule.ruleId := rule];
    assert StateAfter(steps, 2).toggles == map[0 := Toggle(rule.ruleId, rule, enabled)];
    assert StateAfter(steps, 3).rules == map[];
  }
}
