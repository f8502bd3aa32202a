/**
  The scenario and `thinking` flag that `createCompletionV2` and
  `createCompletionStreamV2` derive from the requested model name, written as an ordered
  table of substring rules: the first rule whose pattern occurs in the name wins.
 */
module Scenarios {
  import opened Wrappers
  import opened Text

  datatype Scenario = K2 | K1 | Search | Research

  /** The tag sent over the RPC channel. */
  function Name(s: Scenario): string {
    match s
    case K2 => "SCENARIO_K2"
    case K1 => "SCENARIO_K1"
    case Search => "SCENARIO_SEARCH"
    case Research => "SCENARIO_RESEARCH"
  }

  datatype Rule = Rule(pattern: string, scenario: Scenario)

  /** The rules in the order the controller tests them. */
  const Rules: seq<Rule> := [Rule("search", Search), Rule("research", Research), Rule("k1", K1)]

  /**
    The scenario of the first rule whose pattern occurs in `model`: that rule matches and
    none before it does.
   */
  function FirstMatch(rules: seq<Rule>, model: string): (r: Option<Scenario>)
    ensures r.Some? ==> exists i :: 0 <= i < |rules| && rules[i].scenario == r.value && Contains(model, rules[i].pattern)
                                    && forall j :: 0 <= j < i ==> !Contains(model, rules[j].pattern)
    ensures r.None? ==> forall i :: 0 <= i < |rules| ==> !Contains(model, rules[i].pattern)
  {
    if |rules| == 0 then None
    else if Contains(model, rules[0].pattern) then Some(rules[0].scenario)
    else
      var r := FirstMatch(rules[1..], model);
      assert forall i :: 0 < i < |rules| ==> rules[i] == rules[1..][i - 1];
      if r.Some? then
        var k :| 0 <= k < |rules[1..]| && rules[1..][k].scenario == r.value && Contains(model, rules[1..][k].pattern)
                 && forall j :: 0 <= j < k ==> !Contains(model, rules[1..][j].pattern);
        assert rules[k + 1].scenario == r.value && Contains(model, rules[k + 1].pattern);
        assert forall j :: 0 <= j < k + 1 ==> !Contains(model, rules[j].pattern);
        r
      else r
  }

  /** The scenario for `model`; `K2` when no rule matches. */
  function SelectScenario(model: string): Scenario {
    FirstMatch(Rules, model).GetOr(K2)
  }

  /** `model.includes('thinking')`. */
  predicate Thinking(model: string) {
    Contains(model, "thinking")
  }

  /**
    The table behaves as the controller's chain of tests: `search`, then `research`,
    then `k1`, else `K2`.
   */
  lemma SelectScenarioPrecedence(model: string)
    ensures SelectScenario(model)
         == if Contains(model, "search") then Search
            else if Contains(model, "research") then Research
            else if Contains(model, "k1") then K1
            else K2
    ensures Name(SelectScenario(model))
         == if Contains(model, "search") then "SCENARIO_SEARCH"
            else if Contains(model, "research") then "SCENARIO_RESEARCH"
            else if Contains(model, "k1") then "SCENARIO_K1"
            else "SCENARIO_K2"
  {
    var r1 := Rules[1..];
    var r2 := r1[1..];
    assert Rules[0] == Rule("search", Search) && r1 == [Rule("research", Research), Rule("k1", K1)];
    assert r1[0] == Rule("research", Research) && r2 == [Rule("k1", K1)];
    assert r2[0] == Rule("k1", K1) && r2[1..] == [];
    assert FirstMatch(r2[1..], model) == None;
    assert FirstMatch(r2, model) == if Contains(model, "k1") then Some(K1) else None;
    assert FirstMatch(r1, model) == if Contains(model, "research") then Some(Research) else FirstMatch(r2, model);
    assert FirstMatch(Rules, model) == if Contains(model, "search") then Some(Search) else FirstMatch(r1, model);
  }

  /** Every name containing `research` also contains `search`. */
  lemma ResearchContainsSearch(model: string)
    requires Contains(model, "research")
    ensures Contains(model, "search")
  {
    assert "research" == "re" + "search";
    ContainsTail(model, "re", "search");
  }

  /** The `Research` rule is shadowed by the `search` rule, so no model name selects it. */
  lemma ResearchUnreachable(model: string)
    ensures SelectScenario(model) != Research
  {
    SelectScenarioPrecedence(model);
    if Contains(model, "research") {
      ResearchContainsSearch(model);
    }
  }

  /** Exactly the names containing `search` (hence all containing `research`) select `Search`. */
  lemma SearchExactly(model: string)
    ensures SelectScenario(model) == Search <==> Contains(model, "search")
    ensures SelectScenario(model) == K1 <==> !Contains(model, "search") && Contains(model, "k1")
    ensures SelectScenario(model) == K2 <==> !Contains(model, "search") && !Contains(model, "k1")
  {
    SelectScenarioPrecedence(model);
    ResearchUnreachable(model);
  }
}
