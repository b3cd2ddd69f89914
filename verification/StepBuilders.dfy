/** The loops that build the step lists, proved against their definitions. */
module StepBuilders {
  import opened Wrappers
  import opened Plan
  import opened Routing
  import opened Rollback
  import opened Sequences

  method AppendFamilySteps(acc: seq<RoutingStep>, previousLane: Option<LanePlan>, lane: LanePlan)
    returns (steps: seq<RoutingStep>)
    ensures steps == acc + FamilySteps(previousLane, lane, V4) + FamilySteps(previousLane, lane, V6)
  {
    steps := acc;
    for n := 0 to 2
      invariant n == 0 ==> steps == acc
      invariant n == 1 ==> steps == acc + FamilySteps(previousLane, lane, V4)
      invariant n == 2 ==> steps == acc + FamilySteps(previousLane, lane, V4) + FamilySteps(previousLane, lane, V6)
    {
      var f := FAMILIES[n];
      var unicast := LaneUnicast(lane, f);
      ghost var was := steps;
      if NeedsOpenTable(previousLane, lane, f) {
        steps := steps + [DeleteRoute(f, lane.table, Terminal)];
      }
      if unicast.Some? {
        steps := steps + [ReplaceRoute(f, lane.table, unicast.value)];
      }
      steps := steps + [ReplaceRoute(f, lane.table, Terminal)];
      assert steps == was + FamilySteps(previousLane, lane, f);
    }
  }

  method AppendNewRules(acc: seq<RoutingStep>, rules: seq<RuleOwnership>, previousRules: seq<RuleOwnership>)
    returns (steps: seq<RoutingStep>)
    ensures steps == acc + AddRules(Without(rules, previousRules))
  {
    steps := acc;
    for i := 0 to |rules|
      invariant steps + AddRules(Without(rules[i..], previousRules)) == acc + AddRules(Without(rules, previousRules))
    {
      assert rules[i..][1..] == rules[i + 1..];
      if rules[i] !in previousRules {
        AddRulesHead(rules[i], Without(rules[i + 1..], previousRules));
        steps := steps + [AddRule(rules[i])];
      }
    }
  }

  method BuildTransitionSteps(previous: Option<seq<LanePlan>>, next: seq<LanePlan>) returns (steps: seq<RoutingStep>)
    ensures steps == TransitionSteps(previous, next)
  {
    steps := [];
    for i := 0 to |next|
      invariant steps + RouteSteps(previous, next[i..]) == RouteSteps(previous, next)
    {
      assert next[i..][1..] == next[i + 1..];
      ghost var was, rest := steps, RouteSteps(previous, next[i + 1..]);
      var old' := PreviousLane(previous, next[i].table);
      steps := AppendFamilySteps(steps, old', next[i]);
      Regroup(was, FamilySteps(old', next[i], V4), FamilySteps(old', next[i], V6));
      Regroup(was, FamilySteps(old', next[i], V4) + FamilySteps(old', next[i], V6), rest);
    }
    steps := AppendNewRules(steps, InstallRules(next), PreviousRules(previous));
  }

  lemma AddRulesHead(u: RuleOwnership, rules: seq<RuleOwnership>)
    ensures AddRules([u] + rules) == [AddRule(u)] + AddRules(rules)
  {
  }

  lemma DeleteRulesHead(u: RuleOwnership, rules: seq<RuleOwnership>)
    ensures DeleteRules([u] + rules) == [DeleteRule(u)] + DeleteRules(rules)
  {
  }

  method AppendRetiredRules(acc: seq<RoutingStep>, rules: seq<RuleOwnership>, nextRules: seq<RuleOwnership>)
    returns (steps: seq<RoutingStep>)
    ensures steps == acc + DeleteRules(Without(rules, nextRules))
  {
    steps := acc;
    for i := 0 to |rules|
      invariant steps + DeleteRules(Without(rules[i..], nextRules)) == acc + DeleteRules(Without(rules, nextRules))
    {
      assert rules[i..][1..] == rules[i + 1..];
      if rules[i] !in nextRules {
        DeleteRulesHead(rules[i], Without(rules[i + 1..], nextRules));
        steps := steps + [DeleteRule(rules[i])];
      }
    }
  }

  method AppendRetiredTable(acc: seq<RoutingStep>, lane: LanePlan, nextLane: Option<LanePlan>)
    returns (steps: seq<RoutingStep>)
    ensures steps == acc + RetireTable(lane, nextLane)
  {
    if nextLane.None? {
      return acc + [FlushTable(V4, lane.table), FlushTable(V6, lane.table)];
    }
    steps := acc;
    for n := 0 to 2
      invariant n == 0 ==> steps == acc
      invariant n == 1 ==> steps == acc + RetireLane(lane, V4, nextLane.value)
      invariant n == 2 ==> steps == acc + RetireTable(lane, nextLane)
    {
      var f := FAMILIES[n];
      ghost var was := steps;
      var route := LaneUnicast(lane, f);
      if route.Some? && LaneUnicast(nextLane.value, f).None? {
        steps := steps + [DeleteRoute(f, lane.table, route.value)];
      }
      assert steps == was + RetireLane(lane, f, nextLane.value);
    }
  }

  lemma RetireRoutesStep(acc: seq<RoutingStep>, previous: seq<LanePlan>, i: nat, next: seq<LanePlan>)
    requires i < |previous|
    ensures acc + RetireRoutes(previous[i..], next) ==
            acc + RetireTable(previous[i], LaneForTable(next, previous[i].table)) + RetireRoutes(previous[i + 1..], next)
  {
    assert previous[i..][1..] == previous[i + 1..];
  }

  method BuildRetireSteps(previous: seq<LanePlan>, next: seq<LanePlan>) returns (steps: seq<RoutingStep>)
    ensures steps == RetireSteps(previous, next)
  {
    steps := AppendRetiredRules([], InstallRules(previous), InstallRules(next));
    for i := 0 to |previous|
      invariant steps + RetireRoutes(previous[i..], next) == RetireSteps(previous, next)
    {
      RetireRoutesStep(steps, previous, i, next);
      steps := AppendRetiredTable(steps, previous[i], LaneForTable(next, previous[i].table));
    }
  }

  /** Rules a rollback removes: each rule once, in order of first appearance. */
  method BuildRollbackRuleOrder(plans: seq<seq<LanePlan>>) returns (rules: seq<RuleOwnership>)
    ensures rules == RollbackRuleOrder(plans)
  {
    rules := [];
    for i := 0 to |plans|
      invariant AppendNew(rules, RulesOfPlans(plans[i..])) == RollbackRuleOrder(plans)
    {
      var installed := InstallRules(plans[i]);
      assert plans[i..][1..] == plans[i + 1..];
      AppendNewConcat(rules, installed, RulesOfPlans(plans[i + 1..]));
      ghost var goal := AppendNew(rules, installed);
      for n := 0 to |installed|
        invariant AppendNew(rules, installed[n..]) == goal
      {
        assert installed[n..][1..] == installed[n + 1..];
        if installed[n] !in rules {
          rules := rules + [installed[n]];
        }
      }
    }
  }

  method BuildRollbackTableOrder(plans: seq<seq<LanePlan>>) returns (tables: seq<RoutingStep>)
    ensures tables == RollbackTableOrder(plans)
  {
    tables := [];
    for i := 0 to |plans|
      invariant AppendNew(tables, FlushesOfPlans(plans[i..])) == RollbackTableOrder(plans)
    {
      assert plans[i..][1..] == plans[i + 1..];
      AppendNewConcat(tables, LaneFlushes(plans[i]), FlushesOfPlans(plans[i + 1..]));
      tables := AppendFlushes(tables, plans[i]);
    }
  }

  method AppendFlushes(acc: seq<RoutingStep>, lanes: seq<LanePlan>) returns (tables: seq<RoutingStep>)
    ensures tables == AppendNew(acc, LaneFlushes(lanes))
  {
    tables := acc;
    for i := 0 to |lanes|
      invariant AppendNew(tables, LaneFlushes(lanes[i..])) == AppendNew(acc, LaneFlushes(lanes))
    {
      assert lanes[i..][1..] == lanes[i + 1..];
      AppendNewPair(tables, FlushTable(V4, lanes[i].table), FlushTable(V6, lanes[i].table), LaneFlushes(lanes[i + 1..]));
      for n := 0 to 2
        invariant n == 0 ==> AppendNew(tables, LaneFlushes(lanes[i..])) == AppendNew(acc, LaneFlushes(lanes))
        invariant n == 1 ==> AppendNew(AppendOne(tables, FlushTable(V6, lanes[i].table)), LaneFlushes(lanes[i + 1..]))
                             == AppendNew(acc, LaneFlushes(lanes))
        invariant n == 2 ==> AppendNew(tables, LaneFlushes(lanes[i + 1..])) == AppendNew(acc, LaneFlushes(lanes))
      {
        var flush := FlushTable(FAMILIES[n], lanes[i].table);
        if flush !in tables {
          tables := tables + [flush];
        }
      }
    }
  }

  function AppendOne(acc: seq<RoutingStep>, step: RoutingStep): seq<RoutingStep> {
    if step in acc then acc else acc + [step]
  }

  lemma AppendNewPair(acc: seq<RoutingStep>, a: RoutingStep, b: RoutingStep, rest: seq<RoutingStep>)
    ensures AppendNew(acc, [a, b] + rest) == AppendNew(AppendOne(AppendOne(acc, a), b), rest)
  {
    assert ([a, b] + rest)[1..] == [b] + rest;
    assert ([b] + rest)[1..] == rest;
  }
}
