/** Marked traffic must never fall through a lane table: each live rule's table holds a terminal route. */
module FailClosed {
  import opened Wrappers
  import opened Plan
  import opened Routing
  import opened Composition

  ghost predicate HoldsTerminal(s: Ownership, f: Family, table: nat) {
    RouteOwned(f, table, Terminal) in s.routes
  }

  ghost predicate Closed(s: Ownership) {
    forall u :: u in s.rules ==> HoldsTerminal(s, u.family, u.table)
  }

  ghost predicate ClosedExcept(s: Ownership, f: Family, table: nat) {
    forall u :: u in s.rules ==> (u.family == f && u.table == table) || HoldsTerminal(s, u.family, u.table)
  }

  /** The next step is at index `k`: the terminal of this IPv6 table was lifted one or two steps ago. */
  ghost predicate InWindow(steps: seq<RoutingStep>, k: nat, table: nat)
    requires k <= |steps|
  {
    || (k >= 1 && steps[k - 1] == DeleteRoute(V6, table, Terminal))
    || (k >= 2 && steps[k - 2] == DeleteRoute(V6, table, Terminal)
        && steps[k - 1].ReplaceRoute? && steps[k - 1].route.Unicast?)
  }

  /** A lifted table held no unicast before, and now holds at most the unicast being installed. */
  ghost predicate LiftedSafely(previous: Option<seq<LanePlan>>, next: seq<LanePlan>, s: Ownership, table: nat) {
    var old' := PreviousLane(previous, table);
    var lane := LaneForTable(next, table);
    && old'.Some? && lane.Some?
    && NeedsOpenTable(old', lane.value, V6)
    && (forall r :: r in s.routes && r.family == V6 && r.table == table
          ==> r == RouteOwned(V6, table, LaneUnicast(lane.value, V6).value))
  }

  ghost predicate ClosedOrInWindow(
    previous: Option<seq<LanePlan>>, next: seq<LanePlan>, steps: seq<RoutingStep>, s0: Ownership, k: nat)
    requires k <= |steps|
  {
    var s := Run(s0, steps[..k]);
    || Closed(s)
    || exists table :: InWindow(steps, k, table) && ClosedExcept(s, V6, table) && LiftedSafely(previous, next, s, table)
  }

  /** Every unicast in the slots of `lanes` is one the previous plan owns. */
  ghost predicate SlotsFromPrevious(previous: Option<seq<LanePlan>>, lanes: seq<LanePlan>, s: Ownership) {
    forall r :: r in s.routes && LaneForTable(lanes, r.table).Some? ==>
      && PreviousLane(previous, r.table).Some?
      && LaneOwns(PreviousLane(previous, r.table).value, r)
  }

  lemma FamilyStepsPrefix(
    previous: Option<seq<LanePlan>>, next: seq<LanePlan>, lane: LanePlan, f: Family, s: Ownership, k: nat)
    requires LaneForTable(next, lane.table) == Some(lane)
    requires Closed(s)
    requires forall r :: r in s.routes && r.family == f && r.table == lane.table ==>
               PreviousLane(previous, r.table).Some? && LaneOwns(PreviousLane(previous, r.table).value, r)
    requires k <= |FamilySteps(PreviousLane(previous, lane.table), lane, f)|
    ensures ClosedOrInWindow(previous, next, FamilySteps(PreviousLane(previous, lane.table), lane, f), s, k)
    ensures k == |FamilySteps(PreviousLane(previous, lane.table), lane, f)| ==>
      Closed(Run(s, FamilySteps(PreviousLane(previous, lane.table), lane, f)))
  {
    var old' := PreviousLane(previous, lane.table);
    var steps := FamilySteps(old', lane, f);
    FamilyStepsEffect(old', lane, f, s);
    if k == |steps| {
      assert steps[..k] == steps;
    } else if k > 0 {
      RunSnoc(s, steps, 0);
      assert Run(s, steps[..0]) == s;
      assert Run(s, steps[..1]) == Apply(s, steps[0]);
      if NeedsOpenTable(old', lane, f) {
        if k == 2 { RunSnoc(s, steps, 1); }
        assert InWindow(steps, k, lane.table);
        assert LiftedSafely(previous, next, Run(s, steps[..k]), lane.table);
      }
    }
  }

  lemma WindowSurvives(a: seq<RoutingStep>, b: seq<RoutingStep>, k: nat)
    requires k <= |b|
    ensures forall table :: InWindow(b, k, table) ==> InWindow(a + b, |a| + k, table)
  {
    if k >= 1 { assert (a + b)[|a| + k - 1] == b[k - 1]; }
    if k >= 2 { assert (a + b)[|a| + k - 2] == b[k - 2]; }
  }

  lemma WindowExtends(a: seq<RoutingStep>, b: seq<RoutingStep>, k: nat)
    requires k <= |a|
    ensures forall table :: InWindow(a, k, table) ==> InWindow(a + b, k, table)
  {
  }

  /** A property of the parts is a property of the whole list at the shifted index. */
  lemma Compose(
    previous: Option<seq<LanePlan>>, next: seq<LanePlan>,
    a: seq<RoutingStep>, b: seq<RoutingStep>, s: Ownership, k: nat)
    requires k <= |a + b|
    requires k <= |a| ==> ClosedOrInWindow(previous, next, a, s, k)
    requires k > |a| ==> ClosedOrInWindow(previous, next, b, Run(s, a), k - |a|)
    ensures ClosedOrInWindow(previous, next, a + b, s, k)
  {
    if k <= |a| {
      assert (a + b)[..k] == a[..k];
      WindowExtends(a, b, k);
    } else {
      assert (a + b)[..k] == a + b[..k - |a|];
      RunAppend(s, a, b[..k - |a|]);
      WindowSurvives(a, b, k - |a|);
    }
  }

  function LaneSteps(previous: Option<seq<LanePlan>>, lane: LanePlan): seq<RoutingStep> {
    FamilySteps(PreviousLane(previous, lane.table), lane, V4) + FamilySteps(PreviousLane(previous, lane.table), lane, V6)
  }

  lemma LaneStepsPrefix(
    previous: Option<seq<LanePlan>>, next: seq<LanePlan>, lane: LanePlan, s: Ownership, k: nat)
    requires LaneForTable(next, lane.table) == Some(lane)
    requires Closed(s)
    requires forall r :: r in s.routes && r.table == lane.table ==>
               PreviousLane(previous, r.table).Some? && LaneOwns(PreviousLane(previous, r.table).value, r)
    requires k <= |LaneSteps(previous, lane)|
    ensures ClosedOrInWindow(previous, next, LaneSteps(previous, lane), s, k)
    ensures Closed(Run(s, LaneSteps(previous, lane)))
    ensures forall r: RouteOwnership :: r.table != lane.table ==> (r in Run(s, LaneSteps(previous, lane)).routes <==> r in s.routes)
  {
    var old' := PreviousLane(previous, lane.table);
    var v4 := FamilySteps(old', lane, V4);
    var v6 := FamilySteps(old', lane, V6);
    var s4 := Run(s, v4);
    FamilyStepsEffect(old', lane, V4, s);
    FamilyStepsEffect(old', lane, V6, s4);
    RunAppend(s, v4, v6);
    FamilyStepsPrefix(previous, next, lane, V4, s, |v4|);
    FamilyStepsPrefix(previous, next, lane, V6, s4, |v6|);
    if k <= |v4| {
      FamilyStepsPrefix(previous, next, lane, V4, s, k);
    } else {
      FamilyStepsPrefix(previous, next, lane, V6, s4, k - |v4|);
    }
    Compose(previous, next, v4, v6, s, k);
  }

  lemma {:induction false} RouteStepsPrefix(
    previous: Option<seq<LanePlan>>, next: seq<LanePlan>, lanes: seq<LanePlan>, s: Ownership, k: nat)
    requires DistinctTables(lanes)
    requires forall i :: 0 <= i < |lanes| ==> LaneForTable(next, lanes[i].table) == Some(lanes[i])
    requires Closed(s) && SlotsFromPrevious(previous, lanes, s)
    requires k <= |RouteSteps(previous, lanes)|
    ensures ClosedOrInWindow(previous, next, RouteSteps(previous, lanes), s, k)
    ensures Closed(Run(s, RouteSteps(previous, lanes)))
    decreases |lanes|
  {
    if lanes != [] {
      var lane := lanes[0];
      var block := LaneSteps(previous, lane);
      var rest := RouteSteps(previous, lanes[1..]);
      LaneStepsPrefix(previous, next, lane, s, if k <= |block| then k else 0);
      var s1 := Run(s, block);
      assert SlotsFromPrevious(previous, lanes[1..], s1) by {
        assert LaneForTable(lanes[1..], lane.table).None?;
      }
      RouteStepsPrefix(previous, next, lanes[1..], s1, if k <= |block| then 0 else k - |block|);
      RunAppend(s, block, rest);
      Compose(previous, next, block, rest, s, k);
    }
  }

  lemma {:induction false} LanesLookUpThemselves(lanes: seq<LanePlan>)
    requires DistinctTables(lanes)
    ensures forall i :: 0 <= i < |lanes| ==> LaneForTable(lanes, lanes[i].table) == Some(lanes[i])
  {
    if lanes != [] {
      LanesLookUpThemselves(lanes[1..]);
      forall i | 0 <= i < |lanes| ensures LaneForTable(lanes, lanes[i].table) == Some(lanes[i]) {
        if i > 0 { assert lanes[i] == lanes[1..][i - 1]; }
      }
    }
  }

  lemma {:induction false} InstalledRulesHaveLanes(lanes: seq<LanePlan>)
    ensures forall u :: u in InstallRules(lanes) ==> LaneForTable(lanes, u.table).Some?
  {
    if lanes != [] {
      InstalledRulesHaveLanes(lanes[1..]);
    }
  }

  lemma AddRulesClosed(rules: seq<RuleOwnership>, s: Ownership, k: nat)
    requires Closed(s) && k <= |rules|
    requires forall u :: u in rules ==> HoldsTerminal(s, u.family, u.table)
    ensures Closed(Run(s, AddRules(rules)[..k]))
  {
    assert AddRules(rules)[..k] == AddRules(rules[..k]);
    AddRulesEffect(rules[..k], s);
  }

  function Basis(previous: Option<seq<LanePlan>>): Ownership {
    if previous.None? then EMPTY else PlanOwnership(previous.value)
  }

  lemma BasisIsClosed(previous: Option<seq<LanePlan>>)
    requires previous.Some? ==> DistinctTables(previous.value)
    ensures Closed(Basis(previous))
  {
    if previous.Some? {
      PlanOwnsExactly(previous.value);
      InstalledRulesHaveLanes(previous.value);
    }
  }

  /** Every state of the prepare stage is closed, except inside the two-state IPv6 window. */
  lemma PrepareFailsClosed(previous: Option<seq<LanePlan>>, next: seq<LanePlan>, k: nat)
    requires previous.Some? ==> DistinctTables(previous.value)
    requires DistinctTables(next)
    requires k <= |TransitionSteps(previous, next)|
    ensures ClosedOrInWindow(previous, next, TransitionSteps(previous, next), Basis(previous), k)
    ensures Closed(Run(Basis(previous), TransitionSteps(previous, next)))
  {
    var s0 := Basis(previous);
    var routes := RouteSteps(previous, next);
    var added := Without(InstallRules(next), PreviousRules(previous));
    PreparedRoutesAreClosed(previous, next, if k <= |routes| then k else 0);
    var s1 := Run(s0, routes);
    RunAppend(s0, routes, AddRules(added));
    AddRulesClosed(added, s1, |added|);
    assert AddRules(added)[..|added|] == AddRules(added);
    if k > |routes| {
      AddRulesClosed(added, s1, k - |routes|);
    }
    Compose(previous, next, routes, AddRules(added), s0, k);
  }

  lemma PreparedRoutesAreClosed(previous: Option<seq<LanePlan>>, next: seq<LanePlan>, k: nat)
    requires previous.Some? ==> DistinctTables(previous.value)
    requires DistinctTables(next)
    requires k <= |RouteSteps(previous, next)|
    ensures ClosedOrInWindow(previous, next, RouteSteps(previous, next), Basis(previous), k)
    ensures Closed(Run(Basis(previous), RouteSteps(previous, next)))
    ensures forall u :: u in Without(InstallRules(next), PreviousRules(previous)) ==>
      HoldsTerminal(Run(Basis(previous), RouteSteps(previous, next)), u.family, u.table)
  {
    BasisIsClosed(previous);
    LanesLookUpThemselves(next);
    if previous.Some? { PlanOwnsExactly(previous.value); }
    assert SlotsFromPrevious(previous, next, Basis(previous));
    RouteStepsPrefix(previous, next, next, Basis(previous), k);
    RouteStepsEffect(previous, next, Basis(previous));
    InstalledRulesHaveLanes(next);
    WithoutMembers(InstallRules(next), PreviousRules(previous));
  }

  /** Reinstalling a plan from an empty kernel has no window at all. */
  lemma InstallFailsClosed(lanes: seq<LanePlan>, k: nat)
    requires DistinctTables(lanes)
    requires k <= |InstallSteps(lanes)|
    ensures Closed(Run(EMPTY, InstallSteps(lanes)[..k]))
  {
    PrepareFailsClosed(None, lanes, k);
  }

  // ----- Removal -----

  /** A step that takes away no terminal of a table `next` still uses. */
  ghost predicate Harmless(step: RoutingStep, next: seq<LanePlan>) {
    match step
    case ReplaceRoute(_, _, _) => true
    case DeleteRoute(_, _, route) => route.Unicast?
    case AddRule(_) => false
    case DeleteRule(_) => true
    case FlushTable(_, table) => LaneForTable(next, table).None?
  }

  lemma {:induction false} HarmlessRun(s: Ownership, steps: seq<RoutingStep>, next: seq<LanePlan>)
    requires Closed(s)
    requires forall u :: u in s.rules ==> LaneForTable(next, u.table).Some?
    requires forall i :: 0 <= i < |steps| ==> Harmless(steps[i], next)
    ensures Closed(Run(s, steps))
    decreases |steps|
  {
    if steps != [] {
      var s1 := Apply(s, steps[0]);
      assert Harmless(steps[0], next);
      HarmlessRun(s1, steps[1..], next);
    }
  }

  lemma {:induction false} RetireRoutesAreHarmless(previous: seq<LanePlan>, next: seq<LanePlan>)
    ensures forall i :: 0 <= i < |RetireRoutes(previous, next)| ==> Harmless(RetireRoutes(previous, next)[i], next)
  {
    if previous != [] {
      RetireRoutesAreHarmless(previous[1..], next);
    }
  }

  lemma DeleteRulesClosed(rules: seq<RuleOwnership>, s: Ownership, k: nat)
    requires Closed(s) && k <= |rules|
    ensures Closed(Run(s, DeleteRules(rules)[..k]))
  {
    assert DeleteRules(rules)[..k] == DeleteRules(rules[..k]);
    DeleteRulesEffect(rules[..k], s);
  }

  /** Retiring the previous generation never opens a table. */
  lemma RetireFailsClosed(previous: seq<LanePlan>, next: seq<LanePlan>, k: nat)
    requires DistinctTables(previous) && DistinctTables(next)
    requires k <= |RetireSteps(previous, next)|
    ensures Closed(Run(Run(PlanOwnership(previous), TransitionSteps(Some(previous), next)), RetireSteps(previous, next)[..k]))
  {
    var s1 := Run(PlanOwnership(previous), TransitionSteps(Some(previous), next));
    var dropped := Without(InstallRules(previous), InstallRules(next));
    var deletes := DeleteRules(dropped);
    var routes := RetireRoutes(previous, next);
    PrepareFailsClosed(Some(previous), next, 0);
    if k <= |deletes| {
      assert RetireSteps(previous, next)[..k] == deletes[..k];
      DeleteRulesClosed(dropped, s1, k);
    } else {
      var j := k - |deletes|;
      assert RetireSteps(previous, next)[..k] == deletes + routes[..j];
      RunAppend(s1, deletes, routes[..j]);
      DeleteRulesClosed(dropped, s1, |deletes|);
      assert deletes[..|deletes|] == deletes;
      var s2 := Run(s1, deletes);
      PlanOwnsExactly(previous);
      TransitionEffect(Some(previous), next, PlanOwnership(previous));
      DeleteRulesEffect(dropped, s1);
      WithoutMembers(InstallRules(previous), InstallRules(next));
      InstalledRulesHaveLanes(next);
      RetireRoutesAreHarmless(previous, next);
      HarmlessRun(s2, routes[..j], next);
    }
  }
}
