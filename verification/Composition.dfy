/** What the steps of a transition do as a whole: two plans compose exactly. */
module Composition {
  import opened Wrappers
  import opened Plan
  import opened Routing

  // ----- Declarative ownership -----

  ghost predicate OwnsRoute(lanes: seq<LanePlan>, r: RouteOwnership) {
    var lane := LaneForTable(lanes, r.table);
    lane.Some? && LaneOwns(lane.value, r)
  }

  ghost predicate LaneOwns(lane: LanePlan, r: RouteOwnership)
  {
    if r.terminal then r == RouteOwned(r.family, r.table, Terminal)
    else LaneUnicast(lane, r.family).Some? && r == RouteOwned(r.family, r.table, LaneUnicast(lane, r.family).value)
  }

  ghost predicate OwnsExactly(lanes: seq<LanePlan>, s: Ownership) {
    && (forall r :: r in s.routes <==> OwnsRoute(lanes, r))
    && (forall u :: u in s.rules <==> u in InstallRules(lanes))
  }

  /** The routes of one slot once its lane has been prepared: a lane without a unicast keeps the old one. */
  ghost predicate PreparedRoute(lane: LanePlan, s: Ownership, r: RouteOwnership) {
    if !r.terminal && LaneUnicast(lane, r.family).None? then r in s.routes else LaneOwns(lane, r)
  }

  ghost predicate TransitionedRoute(next: seq<LanePlan>, s: Ownership, r: RouteOwnership) {
    var lane := LaneForTable(next, r.table);
    if lane.None? then r in s.routes else PreparedRoute(lane.value, s, r)
  }

  // ----- Effect of the step lists -----

  lemma FamilyStepsEffect(previous: Option<LanePlan>, lane: LanePlan, f: Family, s: Ownership)
    ensures Run(s, FamilySteps(previous, lane, f)).rules == s.rules
    ensures forall r :: r in Run(s, FamilySteps(previous, lane, f)).routes <==>
      if r.family == f && r.table == lane.table then PreparedRoute(lane, s, r) else r in s.routes
  {
    var opened' := if NeedsOpenTable(previous, lane, f) then [DeleteRoute(f, lane.table, Terminal)] else [];
    var unicast := if LaneUnicast(lane, f).Some? then [ReplaceRoute(f, lane.table, LaneUnicast(lane, f).value)] else [];
    var closed := [ReplaceRoute(f, lane.table, Terminal)];
    RunAppend(s, opened' + unicast, closed);
    RunAppend(s, opened', unicast);
    var s1 := Run(s, opened');
    assert s1 == s || s1 == Apply(s, DeleteRoute(f, lane.table, Terminal)) by {
      if opened' != [] { assert opened'[1..] == []; }
    }
    var s2 := Run(s1, unicast);
    assert s2 == if unicast == [] then s1 else Apply(s1, unicast[0]) by {
      if unicast != [] { assert unicast[1..] == []; }
    }
    assert Run(s2, closed) == Apply(s2, closed[0]) by {
      assert closed[1..] == [];
    }
  }

  lemma {:induction false} RouteStepsEffect(previous: Option<seq<LanePlan>>, lanes: seq<LanePlan>, s: Ownership)
    requires DistinctTables(lanes)
    ensures Run(s, RouteSteps(previous, lanes)).rules == s.rules
    ensures forall r :: r in Run(s, RouteSteps(previous, lanes)).routes <==> TransitionedRoute(lanes, s, r)
    decreases |lanes|
  {
    if lanes != [] {
      var lane := lanes[0];
      var old' := PreviousLane(previous, lane.table);
      var v4 := FamilySteps(old', lane, V4);
      var v6 := FamilySteps(old', lane, V6);
      RunAppend(s, v4 + v6, RouteSteps(previous, lanes[1..]));
      RunAppend(s, v4, v6);
      FamilyStepsEffect(old', lane, V4, s);
      FamilyStepsEffect(old', lane, V6, Run(s, v4));
      RouteStepsEffect(previous, lanes[1..], Run(Run(s, v4), v6));
      assert LaneForTable(lanes[1..], lane.table).None?;
    }
  }

  lemma {:induction false} AddRulesEffect(rules: seq<RuleOwnership>, s: Ownership)
    ensures Run(s, AddRules(rules)).routes == s.routes
    ensures forall u :: u in Run(s, AddRules(rules)).rules <==> u in s.rules || u in rules
    decreases |rules|
  {
    if rules != [] {
      assert AddRules(rules)[1..] == AddRules(rules[1..]);
      AddRulesEffect(rules[1..], Apply(s, AddRule(rules[0])));
    }
  }

  lemma {:induction false} DeleteRulesEffect(rules: seq<RuleOwnership>, s: Ownership)
    ensures Run(s, DeleteRules(rules)).routes == s.routes
    ensures forall u :: u in Run(s, DeleteRules(rules)).rules <==> u in s.rules && u !in rules
    decreases |rules|
  {
    if rules != [] {
      assert DeleteRules(rules)[1..] == DeleteRules(rules[1..]);
      DeleteRulesEffect(rules[1..], Apply(s, DeleteRule(rules[0])));
    }
  }

  lemma {:induction false} WithoutMembers(rules: seq<RuleOwnership>, dropped: seq<RuleOwnership>)
    ensures forall u :: u in Without(rules, dropped) <==> u in rules && u !in dropped
  {
    if rules != [] {
      WithoutMembers(rules[1..], dropped);
    }
  }

  /** After the prepare steps every lane of `next` has its routes and every rule of either plan is present. */
  lemma TransitionEffect(previous: Option<seq<LanePlan>>, next: seq<LanePlan>, s: Ownership)
    requires DistinctTables(next)
    requires forall u :: u in s.rules <==> u in PreviousRules(previous)
    ensures forall r :: r in Run(s, TransitionSteps(previous, next)).routes <==> TransitionedRoute(next, s, r)
    ensures forall u :: u in Run(s, TransitionSteps(previous, next)).rules
                        <==> u in PreviousRules(previous) || u in InstallRules(next)
  {
    var added := Without(InstallRules(next), PreviousRules(previous));
    RunAppend(s, RouteSteps(previous, next), AddRules(added));
    RouteStepsEffect(previous, next, s);
    AddRulesEffect(added, Run(s, RouteSteps(previous, next)));
    WithoutMembers(InstallRules(next), PreviousRules(previous));
  }

  /** Installing a plan from an empty kernel yields exactly what the plan declares. */
  lemma PlanOwnsExactly(lanes: seq<LanePlan>)
    requires DistinctTables(lanes)
    ensures OwnsExactly(lanes, PlanOwnership(lanes))
  {
    TransitionEffect(None, lanes, EMPTY);
  }

  lemma RetireLaneEffect(lane: LanePlan, f: Family, next: LanePlan, s: Ownership)
    ensures Run(s, RetireLane(lane, f, next)).rules == s.rules
    ensures Run(s, RetireLane(lane, f, next)).routes ==
      if LaneUnicast(lane, f).Some? && LaneUnicast(next, f).None?
      then s.routes - {RouteOwned(f, lane.table, LaneUnicast(lane, f).value)} else s.routes
  {
    var steps := RetireLane(lane, f, next);
    if steps != [] {
      assert steps[1..] == [];
      assert Run(s, steps) == Apply(s, steps[0]);
    }
  }

  /** Does retiring this lane for its successor remove the route? */
  ghost predicate RetiredWith(lane: LanePlan, next: Option<LanePlan>, r: RouteOwnership) {
    && r.table == lane.table
    && (next.None? || (!r.terminal && LaneOwns(lane, r) && LaneUnicast(next.value, r.family).None?))
  }

  ghost predicate Retired(previous: seq<LanePlan>, next: seq<LanePlan>, r: RouteOwnership) {
    var lane := LaneForTable(previous, r.table);
    lane.Some? && RetiredWith(lane.value, LaneForTable(next, r.table), r)
  }

  lemma RetireTableEffect(lane: LanePlan, next: Option<LanePlan>, s: Ownership)
    ensures Run(s, RetireTable(lane, next)).rules == s.rules
    ensures forall r :: r in Run(s, RetireTable(lane, next)).routes <==> r in s.routes && !RetiredWith(lane, next, r)
  {
    if next.None? {
      var flush := RetireTable(lane, next);
      assert flush[1..] == [flush[1]] && flush[1..][1..] == [];
      assert Run(s, flush) == Run(Apply(s, flush[0]), [flush[1]]) == Apply(Apply(s, flush[0]), flush[1]);
    } else {
      var v4 := RetireLane(lane, V4, next.value);
      RunAppend(s, v4, RetireLane(lane, V6, next.value));
      RetireLaneEffect(lane, V4, next.value, s);
      RetireLaneEffect(lane, V6, next.value, Run(s, v4));
    }
  }

  lemma {:induction false} RetireRoutesEffect(previous: seq<LanePlan>, next: seq<LanePlan>, s: Ownership)
    requires DistinctTables(previous)
    ensures Run(s, RetireRoutes(previous, next)).rules == s.rules
    ensures forall r :: r in Run(s, RetireRoutes(previous, next)).routes <==> r in s.routes && !Retired(previous, next, r)
    decreases |previous|
  {
    if previous != [] {
      var lane := previous[0];
      var nextLane := LaneForTable(next, lane.table);
      assert LaneForTable(previous[1..], lane.table).None?;
      RunAppend(s, RetireTable(lane, nextLane), RetireRoutes(previous[1..], next));
      RetireTableEffect(lane, nextLane, s);
      RetireRoutesEffect(previous[1..], next, Run(s, RetireTable(lane, nextLane)));
      forall r ensures Retired(previous, next, r) <==> RetiredWith(lane, nextLane, r) || Retired(previous[1..], next, r) {
        if r.table == lane.table {
          assert LaneForTable(previous[1..], r.table).None?;
        }
      }
    }
  }

  lemma ExactOwnershipIsUnique(lanes: seq<LanePlan>, s: Ownership, t: Ownership)
    requires OwnsExactly(lanes, s) && OwnsExactly(lanes, t)
    ensures s == t
  {
    assert s.routes == t.routes;
    assert s.rules == t.rules;
  }

  /**
   * Preparing `next` on top of `previous` and retiring `previous` yields exactly what `next` owns,
   * so the helper's check for an underivable committed state never fires.
   */
  lemma TransitionThenRetire(previous: seq<LanePlan>, next: seq<LanePlan>)
    requires DistinctTables(previous) && DistinctTables(next)
    ensures Run(Run(PlanOwnership(previous), TransitionSteps(Some(previous), next)), RetireSteps(previous, next))
            == PlanOwnership(next)
  {
    PlanOwnsExactly(previous);
    PlanOwnsExactly(next);
    var s0 := PlanOwnership(previous);
    TransitionEffect(Some(previous), next, s0);
    var s1 := Run(s0, TransitionSteps(Some(previous), next));
    var dropped := Without(InstallRules(previous), InstallRules(next));
    WithoutMembers(InstallRules(previous), InstallRules(next));
    RunAppend(s1, DeleteRules(dropped), RetireRoutes(previous, next));
    DeleteRulesEffect(dropped, s1);
    var s2 := Run(s1, DeleteRules(dropped));
    RetireRoutesEffect(previous, next, s2);
    ExactOwnershipIsUnique(next, Run(s2, RetireRoutes(previous, next)), PlanOwnership(next));
  }

  /** The first activation has nothing to retire. */
  lemma FirstTransition(next: seq<LanePlan>)
    ensures Run(EMPTY, TransitionSteps(None, next)) == PlanOwnership(next)
  {
  }

  // ----- Routing basis: what the kernel left of a plan -----

  type LostUnicast = set<(Family, nat)>

  function BasisLane(lane: LanePlan, lost: LostUnicast): LanePlan {
    lane.(routeV4 := if (V4, lane.table) in lost then None else lane.routeV4,
          routeV6 := if (V6, lane.table) in lost then None else lane.routeV6)
  }

  function RoutingBasis(lanes: seq<LanePlan>, lost: LostUnicast): (basis: seq<LanePlan>)
    ensures |basis| == |lanes|
    ensures forall i :: 0 <= i < |lanes| ==> basis[i] == BasisLane(lanes[i], lost)
  {
    seq(|lanes|, i requires 0 <= i < |lanes| => BasisLane(lanes[i], lost))
  }

  lemma {:induction false} BasisKeepsLookup(lanes: seq<LanePlan>, lost: LostUnicast, table: nat)
    ensures LaneForTable(RoutingBasis(lanes, lost), table) ==
      match LaneForTable(lanes, table) case None => None case Some(lane) => Some(BasisLane(lane, lost))
  {
    if lanes != [] {
      assert RoutingBasis(lanes, lost)[1..] == RoutingBasis(lanes[1..], lost);
      BasisKeepsLookup(lanes[1..], lost, table);
    }
  }

  /** The basis asks for the same rules in the same order. */
  lemma {:induction false} BasisKeepsRules(lanes: seq<LanePlan>, lost: LostUnicast)
    ensures InstallRules(RoutingBasis(lanes, lost)) == InstallRules(lanes)
  {
    if lanes != [] {
      assert RoutingBasis(lanes, lost)[1..] == RoutingBasis(lanes[1..], lost);
      BasisKeepsRules(lanes[1..], lost);
    }
  }

  /** The basis owns the plan's resources minus the lost unicast defaults; terminals and rules stay. */
  lemma BasisOwnership(lanes: seq<LanePlan>, lost: LostUnicast)
    requires DistinctTables(lanes)
    ensures DistinctTables(RoutingBasis(lanes, lost))
    ensures PlanOwnership(RoutingBasis(lanes, lost)).rules == PlanOwnership(lanes).rules
    ensures PlanOwnership(RoutingBasis(lanes, lost)).routes
            == set r | r in PlanOwnership(lanes).routes && (r.terminal || (r.family, r.table) !in lost)
  {
    var basis := RoutingBasis(lanes, lost);
    PlanOwnsExactly(lanes);
    PlanOwnsExactly(basis);
    BasisKeepsRules(lanes, lost);
    assert PlanOwnership(basis).rules == PlanOwnership(lanes).rules;
    forall r ensures r in PlanOwnership(basis).routes
                     <==> r in PlanOwnership(lanes).routes && (r.terminal || (r.family, r.table) !in lost)
    {
      BasisKeepsRoute(lanes, lost, r);
    }
  }

  lemma {:induction false} BasisKeepsRoute(lanes: seq<LanePlan>, lost: LostUnicast, r: RouteOwnership)
    ensures OwnsRoute(RoutingBasis(lanes, lost), r)
            <==> OwnsRoute(lanes, r) && (r.terminal || (r.family, r.table) !in lost)
  {
    BasisKeepsLookup(lanes, lost, r.table);
    var lane := LaneForTable(lanes, r.table);
    if lane.Some? {
      BasisLaneOwns(lane.value, lost, r);
    }
  }

  lemma BasisLaneOwns(lane: LanePlan, lost: LostUnicast, r: RouteOwnership)
    requires lane.table == r.table
    ensures LaneOwns(BasisLane(lane, lost), r) <==> LaneOwns(lane, r) && (r.terminal || (r.family, r.table) !in lost)
  {
  }
}
