/** The removals a rollback performs, in order, and why interrupting and repeating them is harmless. */
module Rollback {
  import opened Wrappers
  import opened Plan
  import opened Routing
  import opened Composition
  import opened FailClosed

  /** Appends the elements that are not there yet, keeping first occurrences in order. */
  function AppendNew<T(==)>(acc: seq<T>, xs: seq<T>): seq<T>
    decreases |xs|
  {
    if xs == [] then acc else AppendNew(if xs[0] in acc then acc else acc + [xs[0]], xs[1..])
  }

  lemma {:induction false} AppendNewMembers<T>(acc: seq<T>, xs: seq<T>)
    ensures forall x :: x in AppendNew(acc, xs) <==> x in acc || x in xs
    ensures |AppendNew(acc, xs)| >= |acc| && AppendNew(acc, xs)[..|acc|] == acc
    decreases |xs|
  {
    if xs != [] {
      AppendNewMembers(if xs[0] in acc then acc else acc + [xs[0]], xs[1..]);
    }
  }

  lemma {:induction false} AppendNewConcat<T>(acc: seq<T>, xs: seq<T>, ys: seq<T>)
    ensures AppendNew(acc, xs + ys) == AppendNew(AppendNew(acc, xs), ys)
    decreases |xs|
  {
    if xs == [] {
      assert xs + ys == ys;
    } else {
      assert (xs + ys)[1..] == xs[1..] + ys;
      AppendNewConcat(if xs[0] in acc then acc else acc + [xs[0]], xs[1..], ys);
    }
  }

  function RulesOfPlans(plans: seq<seq<LanePlan>>): seq<RuleOwnership> {
    if plans == [] then [] else InstallRules(plans[0]) + RulesOfPlans(plans[1..])
  }

  function LaneFlushes(lanes: seq<LanePlan>): seq<RoutingStep> {
    if lanes == [] then []
    else [FlushTable(V4, lanes[0].table), FlushTable(V6, lanes[0].table)] + LaneFlushes(lanes[1..])
  }

  function FlushesOfPlans(plans: seq<seq<LanePlan>>): seq<RoutingStep> {
    if plans == [] then [] else LaneFlushes(plans[0]) + FlushesOfPlans(plans[1..])
  }

  function RollbackRuleOrder(plans: seq<seq<LanePlan>>): seq<RuleOwnership> {
    AppendNew([], RulesOfPlans(plans))
  }

  function RollbackTableOrder(plans: seq<seq<LanePlan>>): seq<RoutingStep> {
    AppendNew([], FlushesOfPlans(plans))
  }

  function RollbackSteps(plans: seq<seq<LanePlan>>): seq<RoutingStep> {
    DeleteRules(RollbackRuleOrder(plans)) + RollbackTableOrder(plans)
  }

  function Plans(active: Option<seq<LanePlan>>, pending: seq<LanePlan>): seq<seq<LanePlan>> {
    (if active.None? then [] else [active.value]) + [pending]
  }

  // ----- Removals -----

  ghost predicate Removal(step: RoutingStep) {
    step.DeleteRule? || step.FlushTable?
  }

  ghost predicate RemovesRoute(step: RoutingStep, r: RouteOwnership) {
    step.FlushTable? && step.family == r.family && step.table == r.table
  }

  ghost predicate RemovesRule(step: RoutingStep, u: RuleOwnership) {
    step.DeleteRule? && step.rule == u
  }

  ghost predicate AllRemovals(steps: seq<RoutingStep>) {
    forall i :: 0 <= i < |steps| ==> Removal(steps[i])
  }

  ghost predicate KeepsRoute(steps: seq<RoutingStep>, r: RouteOwnership) {
    forall i :: 0 <= i < |steps| ==> !RemovesRoute(steps[i], r)
  }

  ghost predicate KeepsRule(steps: seq<RoutingStep>, u: RuleOwnership) {
    forall i :: 0 <= i < |steps| ==> !RemovesRule(steps[i], u)
  }

  lemma {:induction false} RemovalRun(s: Ownership, steps: seq<RoutingStep>)
    requires AllRemovals(steps)
    ensures forall r :: r in Run(s, steps).routes <==> r in s.routes && KeepsRoute(steps, r)
    ensures forall u :: u in Run(s, steps).rules <==> u in s.rules && KeepsRule(steps, u)
    decreases |steps|
  {
    if steps != [] {
      var s1 := Apply(s, steps[0]);
      assert Removal(steps[0]);
      RemovalRun(s1, steps[1..]);
      forall r ensures KeepsRoute(steps, r) <==> !RemovesRoute(steps[0], r) && KeepsRoute(steps[1..], r) {
        assert forall i :: 0 < i < |steps| ==> steps[i] == steps[1..][i - 1];
      }
      forall u ensures KeepsRule(steps, u) <==> !RemovesRule(steps[0], u) && KeepsRule(steps[1..], u) {
        assert forall i :: 0 < i < |steps| ==> steps[i] == steps[1..][i - 1];
      }
    }
  }

  /** Interrupting a rollback and starting it over reaches only states of the uninterrupted rollback. */
  lemma InterruptedRollback(s: Ownership, steps: seq<RoutingStep>, j: nat, k: nat)
    requires AllRemovals(steps) && j <= |steps| && k <= |steps|
    ensures Run(Run(s, steps[..j]), steps[..k]) == Run(s, steps[..if j < k then k else j])
  {
    var once := Run(s, steps[..j]);
    var twice := Run(once, steps[..k]);
    var longer := Run(s, steps[..if j < k then k else j]);
    RemovalRun(s, steps[..j]);
    RemovalRun(once, steps[..k]);
    RemovalRun(s, steps[..if j < k then k else j]);
    assert forall r :: r in twice.routes <==> r in longer.routes;
    assert forall u :: u in twice.rules <==> u in longer.rules;
    assert twice.routes == longer.routes && twice.rules == longer.rules;
  }

  lemma {:induction false} LaneFlushesCover(lanes: seq<LanePlan>)
    ensures AllRemovals(LaneFlushes(lanes))
    ensures forall f, t :: FlushTable(f, t) in LaneFlushes(lanes) <==> LaneForTable(lanes, t).Some?
    ensures forall x :: x in LaneFlushes(lanes) ==> x.FlushTable?
  {
    if lanes != [] {
      LaneFlushesCover(lanes[1..]);
      forall f, t ensures FlushTable(f, t) in LaneFlushes(lanes) <==> LaneForTable(lanes, t).Some? {
        var block := [FlushTable(V4, lanes[0].table), FlushTable(V6, lanes[0].table)];
        assert LaneFlushes(lanes) == block + LaneFlushes(lanes[1..]);
        if t == lanes[0].table {
          match f {
            case V4 => assert FlushTable(f, t) == block[0];
            case V6 => assert FlushTable(f, t) == block[1];
          }
        }
      }
    }
  }

  lemma PlansOrder(active: Option<seq<LanePlan>>, pending: seq<LanePlan>)
    ensures RulesOfPlans(Plans(active, pending)) == PreviousRules(active) + InstallRules(pending)
    ensures FlushesOfPlans(Plans(active, pending))
            == (if active.None? then [] else LaneFlushes(active.value)) + LaneFlushes(pending)
  {
    var plans := Plans(active, pending);
    assert RulesOfPlans([]) == [] && FlushesOfPlans([]) == [];
    if active.None? {
      assert plans == [pending] && plans[1..] == [];
    } else {
      assert plans == [active.value, pending] && plans[1..] == [pending] && plans[1..][1..] == [];
      assert RulesOfPlans([pending]) == InstallRules(pending);
    }
  }

  lemma RollbackShape(active: Option<seq<LanePlan>>, pending: seq<LanePlan>)
    ensures AllRemovals(RollbackSteps(Plans(active, pending)))
    ensures forall u :: u in RollbackRuleOrder(Plans(active, pending)) <==> u in PreviousRules(active) || u in InstallRules(pending)
    ensures forall x :: x in RollbackTableOrder(Plans(active, pending)) ==> x.FlushTable?
    ensures forall f, t :: FlushTable(f, t) in RollbackTableOrder(Plans(active, pending))
                           <==> PreviousLane(active, t).Some? || LaneForTable(pending, t).Some?
  {
    var plans := Plans(active, pending);
    PlansOrder(active, pending);
    AppendNewMembers([], RulesOfPlans(plans));
    AppendNewMembers([], FlushesOfPlans(plans));
    LaneFlushesCover(pending);
    if active.Some? { LaneFlushesCover(active.value); }
    forall i | 0 <= i < |RollbackSteps(plans)| ensures Removal(RollbackSteps(plans)[i]) {
      var n := |DeleteRules(RollbackRuleOrder(plans))|;
      if i >= n { assert RollbackTableOrder(plans)[i - n] in RollbackTableOrder(plans); }
    }
  }

  /** The basis and the plan it came from are rolled back by the same steps. */
  lemma BasisRollsBackAlike(active: seq<LanePlan>, lost: LostUnicast, pending: seq<LanePlan>)
    ensures RollbackSteps(Plans(Some(RoutingBasis(active, lost)), pending)) == RollbackSteps(Plans(Some(active), pending))
    ensures RollbackSteps([RoutingBasis(active, lost)]) == RollbackSteps([active])
  {
    BasisKeepsRules(active, lost);
    BasisKeepsFlushes(active, lost);
    PlansOrder(Some(active), pending);
    PlansOrder(Some(RoutingBasis(active, lost)), pending);
    assert [active][1..] == [] && [RoutingBasis(active, lost)][1..] == [];
    assert RulesOfPlans([active]) == InstallRules(active);
    assert RulesOfPlans([RoutingBasis(active, lost)]) == InstallRules(active);
    assert FlushesOfPlans([active]) == LaneFlushes(active) == FlushesOfPlans([RoutingBasis(active, lost)]);
  }

  lemma {:induction false} BasisKeepsFlushes(lanes: seq<LanePlan>, lost: LostUnicast)
    ensures LaneFlushes(RoutingBasis(lanes, lost)) == LaneFlushes(lanes)
  {
    if lanes != [] {
      assert RoutingBasis(lanes, lost)[1..] == RoutingBasis(lanes[1..], lost);
      BasisKeepsFlushes(lanes[1..], lost);
    }
  }

  // ----- Whose resources a state holds -----

  /** Everything in the state belongs to a table and a rule of one of the two plans. */
  ghost predicate WithinPlans(active: Option<seq<LanePlan>>, pending: seq<LanePlan>, s: Ownership) {
    && (forall r :: r in s.routes ==> PreviousLane(active, r.table).Some? || LaneForTable(pending, r.table).Some?)
    && (forall u :: u in s.rules ==> u in PreviousRules(active) || u in InstallRules(pending))
  }

  /** An uninterrupted rollback empties every state that is within the two plans. */
  lemma RollbackEmpties(active: Option<seq<LanePlan>>, pending: seq<LanePlan>, s: Ownership)
    requires WithinPlans(active, pending, s)
    ensures Run(s, RollbackSteps(Plans(active, pending))) == EMPTY
  {
    var plans := Plans(active, pending);
    var steps := RollbackSteps(plans);
    RollbackShape(active, pending);
    RemovalRun(s, steps);
    var deletes := DeleteRules(RollbackRuleOrder(plans));
    forall u | u in s.rules ensures !KeepsRule(steps, u) {
      var i :| 0 <= i < |RollbackRuleOrder(plans)| && RollbackRuleOrder(plans)[i] == u;
      assert RemovesRule(steps[i], u);
    }
    forall r | r in s.routes ensures !KeepsRoute(steps, r) {
      assert FlushTable(r.family, r.table) in RollbackTableOrder(plans);
      var i :| 0 <= i < |RollbackTableOrder(plans)| && RollbackTableOrder(plans)[i] == FlushTable(r.family, r.table);
      assert RemovesRoute(steps[|deletes| + i], r);
    }
    assert Run(s, steps).routes == {} && Run(s, steps).rules == {};
  }

  lemma {:induction false} WithinRun(
    active: Option<seq<LanePlan>>, pending: seq<LanePlan>, s: Ownership, steps: seq<RoutingStep>)
    requires WithinPlans(active, pending, s)
    requires forall i :: 0 <= i < |steps| ==> AddsWithin(active, pending, steps[i])
    ensures WithinPlans(active, pending, Run(s, steps))
    decreases |steps|
  {
    if steps != [] {
      assert AddsWithin(active, pending, steps[0]);
      WithinRun(active, pending, Apply(s, steps[0]), steps[1..]);
    }
  }

  ghost predicate AddsWithin(active: Option<seq<LanePlan>>, pending: seq<LanePlan>, step: RoutingStep) {
    match step
    case ReplaceRoute(_, t, _) => PreviousLane(active, t).Some? || LaneForTable(pending, t).Some?
    case AddRule(u) => u in PreviousRules(active) || u in InstallRules(pending)
    case _ => true
  }

  lemma {:induction false} RouteStepsTables(previous: Option<seq<LanePlan>>, lanes: seq<LanePlan>)
    ensures forall x :: x in RouteSteps(previous, lanes) ==> x.ReplaceRoute? || x.DeleteRoute?
    ensures forall x :: x in RouteSteps(previous, lanes) && x.ReplaceRoute? ==> LaneForTable(lanes, x.table).Some?
  {
    if lanes != [] {
      RouteStepsTables(previous, lanes[1..]);
    }
  }

  lemma TransitionAddsWithin(active: Option<seq<LanePlan>>, pending: seq<LanePlan>)
    ensures forall x :: x in TransitionSteps(active, pending) ==> AddsWithin(active, pending, x)
  {
    RouteStepsTables(active, pending);
    WithoutMembers(InstallRules(pending), PreviousRules(active));
    var added := AddRules(Without(InstallRules(pending), PreviousRules(active)));
    forall x | x in added ensures AddsWithin(active, pending, x) {
      assert x.rule in Without(InstallRules(pending), PreviousRules(active));
    }
  }

  lemma {:induction false} RetireAddsNothing(previous: seq<LanePlan>, next: seq<LanePlan>)
    ensures forall x :: x in RetireRoutes(previous, next) ==> !x.AddRule? && !x.ReplaceRoute?
  {
    if previous != [] {
      RetireAddsNothing(previous[1..], next);
    }
  }

  lemma BasisIsWithin(active: Option<seq<LanePlan>>, pending: seq<LanePlan>)
    requires active.Some? ==> DistinctTables(active.value)
    ensures WithinPlans(active, pending, Basis(active))
  {
    if active.Some? { PlanOwnsExactly(active.value); }
  }

  /** Every state of the forward run is within the two plans. */
  lemma ForwardIsWithin(active: Option<seq<LanePlan>>, pending: seq<LanePlan>, k: nat)
    requires active.Some? ==> DistinctTables(active.value)
    requires k <= |TransitionSteps(active, pending)|
    ensures WithinPlans(active, pending, Run(Basis(active), TransitionSteps(active, pending)[..k]))
  {
    BasisIsWithin(active, pending);
    TransitionAddsWithin(active, pending);
    WithinRun(active, pending, Basis(active), TransitionSteps(active, pending)[..k]);
  }

  lemma RetireIsWithin(active: seq<LanePlan>, pending: seq<LanePlan>, k: nat)
    requires DistinctTables(active)
    requires k <= |RetireSteps(active, pending)|
    ensures WithinPlans(Some(active), pending,
      Run(Run(PlanOwnership(active), TransitionSteps(Some(active), pending)), RetireSteps(active, pending)[..k]))
  {
    var steps := TransitionSteps(Some(active), pending);
    ForwardIsWithin(Some(active), pending, |steps|);
    assert steps[..|steps|] == steps;
    RetireAddsNothing(active, pending);
    forall i | 0 <= i < k ensures AddsWithin(Some(active), pending, RetireSteps(active, pending)[i]) {
      var n := |Without(InstallRules(active), InstallRules(pending))|;
      if i >= n { assert RetireSteps(active, pending)[i] in RetireRoutes(active, pending); }
    }
    WithinRun(Some(active), pending, Run(PlanOwnership(active), steps), RetireSteps(active, pending)[..k]);
  }

  lemma RemovalsStayWithin(
    active: Option<seq<LanePlan>>, pending: seq<LanePlan>, s: Ownership, steps: seq<RoutingStep>)
    requires WithinPlans(active, pending, s) && AllRemovals(steps)
    ensures WithinPlans(active, pending, Run(s, steps))
  {
    RemovalRun(s, steps);
  }

  /** A rollback begun in a closed state stays closed: rules go before the tables they look up. */
  lemma RollbackFailsClosed(active: Option<seq<LanePlan>>, pending: seq<LanePlan>, s: Ownership, k: nat)
    requires Closed(s) && WithinPlans(active, pending, s)
    requires k <= |RollbackSteps(Plans(active, pending))|
    ensures Closed(Run(s, RollbackSteps(Plans(active, pending))[..k]))
  {
    var plans := Plans(active, pending);
    var rules := RollbackRuleOrder(plans);
    RollbackShape(active, pending);
    if k <= |rules| {
      assert RollbackSteps(plans)[..k] == DeleteRules(rules)[..k];
      DeleteRulesClosed(rules, s, k);
    } else {
      var tables := RollbackTableOrder(plans)[..k - |rules|];
      assert RollbackSteps(plans)[..k] == DeleteRules(rules) + tables;
      RunAppend(s, DeleteRules(rules), tables);
      DeleteRulesEffect(rules, s);
      RemovalRun(Run(s, DeleteRules(rules)), tables);
    }
  }
}
