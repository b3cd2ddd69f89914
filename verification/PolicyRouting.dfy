/** What the kernel does with a marked packet once a plan is installed: its rules by priority, then a table's routes. */
module PolicyRouting {
  import opened Wrappers
  import opened Plan
  import opened Routing
  import opened Composition
  import opened FailClosed
  import opened CrashModel
  import opened Journal

  datatype NextHop = Through(gateway: Option<IpAddr>, iface: string) | Unreachable

  ghost predicate TableHas(s: Ownership, f: Family, table: nat) {
    exists r :: r in s.routes && r.family == f && r.table == table
  }

  /** A unicast default goes before the terminal one, whose metric is the largest a table lists. */
  ghost predicate TableGives(s: Ownership, f: Family, table: nat, hop: NextHop) {
    match hop
    case Through(gateway, iface) => RouteOwnership(f, table, gateway, iface, false) in s.routes
    case Unreachable => TableHas(s, f, table) && forall r :: r in s.routes && r.family == f && r.table == table ==> r.terminal
  }

  predicate Matches(u: RuleOwnership, f: Family, mark: nat) {
    u.family == f && u.mark == mark
  }

  /** Of the rules for the packet, the first by priority whose table has a route for it. */
  ghost predicate LooksUp(s: Ownership, f: Family, mark: nat, table: nat) {
    exists u :: u in s.rules && Matches(u, f, mark) && u.table == table && FirstWithRoute(s, f, mark, u)
  }

  ghost predicate FirstWithRoute(s: Ownership, f: Family, mark: nat, u: RuleOwnership) {
    && TableHas(s, f, u.table)
    && forall v :: v in s.rules && Matches(v, f, mark) && v.priority < u.priority ==> !TableHas(s, f, v.table)
  }

  ghost predicate GoesTo(s: Ownership, f: Family, mark: nat, hop: NextHop) {
    exists table :: LooksUp(s, f, mark, table) && TableGives(s, f, table, hop)
  }

  // ----- What an installed plan owns, field by field -----

  /** The rule of a lane: its mark looks its table up, at its priority. */
  ghost predicate RuleOfSome(lanes: seq<LanePlan>, u: RuleOwnership) {
    exists lane :: lane in lanes && u.mark == lane.mark && u.table == lane.table && u.priority == lane.rulePriority
  }

  /** The routes of a lane: a terminal one, and one through its interface while it is available with a route. */
  ghost predicate RouteOfLane(lane: LanePlan, r: RouteOwnership) {
    if r.terminal then
      r.gateway == None && r.iface == ""
    else
      var route := if r.family == V4 then lane.routeV4 else lane.routeV6;
      && lane.availability == Available && r.iface == lane.iface
      && (if r.gateway.None? then route == Some(Device) else route == Some(Via(r.gateway.value)))
  }

  ghost predicate RouteOfSome(lanes: seq<LanePlan>, r: RouteOwnership) {
    exists lane :: lane in lanes && lane.table == r.table && RouteOfLane(lane, r)
  }

  lemma {:induction false} RulesAreTheLanes(lanes: seq<LanePlan>, u: RuleOwnership)
    ensures u in InstallRules(lanes) <==> RuleOfSome(lanes, u)
  {
    if lanes != [] {
      RulesAreTheLanes(lanes[1..], u);
      var first := lanes[0];
      assert u in InstallRules(lanes) <==> u == RuleOf(first, V4) || u == RuleOf(first, V6) || u in InstallRules(lanes[1..]);
      assert u == RuleOf(first, u.family) <==> u == RuleOf(first, V4) || u == RuleOf(first, V6) by {
        assert u.family == V4 || u.family == V6;
      }
      assert RuleOfSome(lanes, u) <==> u == RuleOf(first, u.family) || RuleOfSome(lanes[1..], u);
    }
  }

  lemma OwnsOfLane(lane: LanePlan, r: RouteOwnership)
    requires lane.table == r.table
    ensures LaneOwns(lane, r) <==> RouteOfLane(lane, r)
  {
  }

  lemma OnlyLaneOfTable(lanes: seq<LanePlan>, lane: LanePlan)
    requires DistinctTables(lanes) && lane in lanes
    ensures LaneForTable(lanes, lane.table) == Some(lane)
  {
    var i :| 0 <= i < |lanes| && lanes[i] == lane;
    var first := LaneForTable(lanes, lane.table);
    var j :| FirstOfTable(lanes, lane.table, j) && lanes[j] == first.value;
  }

  lemma RoutesAreTheLanes(lanes: seq<LanePlan>, r: RouteOwnership)
    requires DistinctTables(lanes)
    ensures OwnsRoute(lanes, r) <==> RouteOfSome(lanes, r)
  {
    var found := LaneForTable(lanes, r.table);
    if found.Some? {
      OwnsOfLane(found.value, r);
    }
    if lane :| lane in lanes && lane.table == r.table && RouteOfLane(lane, r) {
      OnlyLaneOfTable(lanes, lane);
      OwnsOfLane(lane, r);
    }
  }

  /** An installed plan owns, for each lane and family, that lane's rule and routes, and nothing else. */
  lemma PlanOwnsItsLanes(lanes: seq<LanePlan>)
    requires DistinctTables(lanes)
    ensures forall u :: u in PlanOwnership(lanes).rules <==> RuleOfSome(lanes, u)
    ensures forall r :: r in PlanOwnership(lanes).routes <==> RouteOfSome(lanes, r)
  {
    PlanOwnsExactly(lanes);
    forall u ensures u in PlanOwnership(lanes).rules <==> RuleOfSome(lanes, u) {
      RulesAreTheLanes(lanes, u);
    }
    forall r ensures r in PlanOwnership(lanes).routes <==> RouteOfSome(lanes, r) {
      RoutesAreTheLanes(lanes, r);
    }
  }

  // ----- Where marked packets go -----

  /** The gateway of the lane's route on its interface while it is available with one, and otherwise nowhere. */
  function HopOf(lane: LanePlan, f: Family): NextHop {
    match (lane.availability, if f == V4 then lane.routeV4 else lane.routeV6)
    case (Available, Some(Via(gateway))) => Through(Some(gateway), lane.iface)
    case (Available, Some(Device)) => Through(None, lane.iface)
    case _ => Unreachable
  }

  lemma OnlyLaneOfMark(plan: KernelPlan, a: LanePlan, b: LanePlan)
    requires ValidPlan(plan) && a in plan.lanes && b in plan.lanes && (a.mark == b.mark || a.table == b.table)
    ensures a == b
  {
    var i :| 0 <= i < |plan.lanes| && plan.lanes[i] == a;
    var j :| 0 <= j < |plan.lanes| && plan.lanes[j] == b;
  }

  lemma OwnTableRoutes(plan: KernelPlan, lane: LanePlan, r: RouteOwnership)
    requires ValidPlan(plan) && lane in plan.lanes && r.table == lane.table
    ensures r in PlanOwnership(plan.lanes).routes <==> RouteOfLane(lane, r)
  {
    PlanOwnsItsLanes(plan.lanes);
    if RouteOfSome(plan.lanes, r) {
      var other :| other in plan.lanes && other.table == r.table && RouteOfLane(other, r);
      OnlyLaneOfMark(plan, lane, other);
    }
  }

  lemma OwnTableGives(plan: KernelPlan, lane: LanePlan, f: Family, hop: NextHop)
    requires ValidPlan(plan) && lane in plan.lanes
    ensures TableHas(PlanOwnership(plan.lanes), f, lane.table)
    ensures TableGives(PlanOwnership(plan.lanes), f, lane.table, hop) <==> hop == HopOf(lane, f)
  {
    forall r: RouteOwnership | r.table == lane.table ensures r in PlanOwnership(plan.lanes).routes <==> RouteOfLane(lane, r) {
      OwnTableRoutes(plan, lane, r);
    }
    LaneRoutesGive(lane, PlanOwnership(plan.lanes), f, hop);
  }

  lemma LaneRoutesGive(lane: LanePlan, s: Ownership, f: Family, hop: NextHop)
    requires forall r: RouteOwnership :: r.table == lane.table ==> (r in s.routes <==> RouteOfLane(lane, r))
    ensures TableHas(s, f, lane.table) && (TableGives(s, f, lane.table, hop) <==> hop == HopOf(lane, f))
  {
    var own := HopOf(lane, f);
    assert RouteOwnership(f, lane.table, None, "", true) in s.routes;
    if own.Through? {
      assert RouteOwnership(f, lane.table, own.gateway, own.iface, false) in s.routes;
    }
  }

  lemma LooksUpOwnTable(plan: KernelPlan, lane: LanePlan, f: Family, table: nat)
    requires ValidPlan(plan) && lane in plan.lanes
    ensures LooksUp(PlanOwnership(plan.lanes), f, lane.mark, table) <==> table == lane.table
  {
    var s := PlanOwnership(plan.lanes);
    PlanOwnsItsLanes(plan.lanes);
    OwnTableGives(plan, lane, f, Unreachable);
    var rule := RuleOwnership(f, lane.rulePriority, lane.table, lane.mark);
    forall u | u in s.rules && u.mark == lane.mark ensures u.table == lane.table && u.priority == lane.rulePriority {
      var other :| other in plan.lanes && u.mark == other.mark && u.table == other.table && u.priority == other.rulePriority;
      OnlyLaneOfMark(plan, lane, other);
    }
    assert RuleOfSome(plan.lanes, rule) && rule in s.rules && Matches(rule, f, lane.mark);
    assert FirstWithRoute(s, f, lane.mark, rule);
  }

  /** A packet with a lane's mark is looked up in that lane's table, and goes where the lane's own route leads. */
  lemma MarkedPacketsTakeTheirLane(plan: KernelPlan, lane: LanePlan, f: Family)
    requires ValidPlan(plan) && lane in plan.lanes
    ensures forall table :: LooksUp(PlanOwnership(plan.lanes), f, lane.mark, table) <==> table == lane.table
    ensures forall hop :: GoesTo(PlanOwnership(plan.lanes), f, lane.mark, hop) <==> hop == HopOf(lane, f)
  {
    forall table ensures LooksUp(PlanOwnership(plan.lanes), f, lane.mark, table) <==> table == lane.table {
      LooksUpOwnTable(plan, lane, f, table);
    }
    forall hop ensures GoesTo(PlanOwnership(plan.lanes), f, lane.mark, hop) <==> hop == HopOf(lane, f) {
      OwnTableGives(plan, lane, f, hop);
    }
  }

  /** A packet whose mark is no lane's is left to the rules that RouteLane does not own. */
  lemma OtherPacketsAreLeftAlone(plan: KernelPlan, f: Family, mark: nat)
    requires ValidPlan(plan) && forall lane :: lane in plan.lanes ==> lane.mark != mark
    ensures forall hop :: !GoesTo(PlanOwnership(plan.lanes), f, mark, hop)
  {
    PlanOwnsItsLanes(plan.lanes);
  }

  // ----- What the kernel accepts on the way -----

  /** A table in which nothing can reach a gateway. */
  ghost predicate TerminalOnly(s: Ownership, f: Family, table: nat) {
    TableHas(s, f, table) && forall r :: r in s.routes && r.family == f && r.table == table ==> r.terminal
  }

  predicate InstallsGateway(step: RoutingStep, f: Family, table: nat) {
    step.ReplaceRoute? && step.family == f && step.table == table && step.route.Unicast? && step.route.gateway.Some?
  }

  /** The slots of these lanes are as the previous plan left them. */
  ghost predicate SlotsUntouched(previous: Option<seq<LanePlan>>, lanes: seq<LanePlan>, s: Ownership) {
    forall r: RouteOwnership :: r.family == V6 && LaneForTable(lanes, r.table).Some? ==>
      (r in s.routes <==> PreviousLane(previous, r.table).Some? && LaneOwns(PreviousLane(previous, r.table).value, r))
  }

  lemma FamilyGateway(old': Option<LanePlan>, lane: LanePlan, s: Ownership, k: nat)
    requires forall r: RouteOwnership :: r.family == V6 && r.table == lane.table ==>
               (r in s.routes <==> old'.Some? && LaneOwns(old'.value, r))
    requires k < |FamilySteps(old', lane, V6)| && InstallsGateway(FamilySteps(old', lane, V6)[k], V6, lane.table)
    ensures !TerminalOnly(StateAt(s, FamilySteps(old', lane, V6), k), V6, lane.table)
  {
    var steps := FamilySteps(old', lane, V6);
    if NeedsOpenTable(old', lane, V6) {
      RunSnoc(s, steps, 0);
      assert steps[..0] == [] && k == 1;
      assert StateAt(s, steps, 1) == Apply(s, DeleteRoute(V6, lane.table, Terminal));
    } else {
      assert k == 0 && steps[..0] == [];
      if old'.Some? {
        assert RouteOwned(V6, lane.table, LaneUnicast(old'.value, V6).value) in s.routes;
      }
    }
  }

  /** The state within the second of two lists of steps. */
  lemma StateWithin(s: Ownership, a: seq<RoutingStep>, b: seq<RoutingStep>, k: nat)
    requires |a| <= k < |a + b|
    ensures StateAt(s, a + b, k) == StateAt(Run(s, a), b, k - |a|) && (a + b)[k] == b[k - |a|]
  {
    assert (a + b)[..k] == a + b[..k - |a|];
    RunAppend(s, a, b[..k - |a|]);
  }

  lemma LaneGateway(previous: Option<seq<LanePlan>>, lane: LanePlan, s: Ownership, k: nat, table: nat)
    requires SlotsUntouched(previous, [lane], s)
    requires k < |LaneSteps(previous, lane)| && InstallsGateway(LaneSteps(previous, lane)[k], V6, table)
    ensures !TerminalOnly(StateAt(s, LaneSteps(previous, lane), k), V6, table)
  {
    var old' := PreviousLane(previous, lane.table);
    var v4, v6 := FamilySteps(old', lane, V4), FamilySteps(old', lane, V6);
    FamilyStepsEffect(old', lane, V4, s);
    assert LaneForTable([lane], lane.table) == Some(lane);
    StateWithin(s, v4, v6, k);
    FamilyGateway(old', lane, Run(s, v4), k - |v4|);
  }

  lemma LaneKeepsOtherSlots(previous: Option<seq<LanePlan>>, lanes: seq<LanePlan>, s: Ownership)
    requires lanes != [] && DistinctTables(lanes) && SlotsUntouched(previous, lanes, s)
    ensures SlotsUntouched(previous, [lanes[0]], s)
    ensures SlotsUntouched(previous, lanes[1..], Run(s, LaneSteps(previous, lanes[0])))
  {
    var lane := lanes[0];
    var old' := PreviousLane(previous, lane.table);
    var v4 := FamilySteps(old', lane, V4);
    FamilyStepsEffect(old', lane, V4, s);
    FamilyStepsEffect(old', lane, V6, Run(s, v4));
    RunAppend(s, v4, FamilySteps(old', lane, V6));
    assert LaneForTable(lanes[1..], lane.table).None? && LaneForTable([lane], lane.table) == Some(lane);
  }

  lemma {:induction false} RouteStepsGateway(
    previous: Option<seq<LanePlan>>, lanes: seq<LanePlan>, s: Ownership, k: nat, table: nat)
    requires DistinctTables(lanes) && SlotsUntouched(previous, lanes, s)
    requires k < |RouteSteps(previous, lanes)| && InstallsGateway(RouteSteps(previous, lanes)[k], V6, table)
    ensures !TerminalOnly(StateAt(s, RouteSteps(previous, lanes), k), V6, table)
    decreases |lanes|
  {
    var block, rest := LaneSteps(previous, lanes[0]), RouteSteps(previous, lanes[1..]);
    LaneKeepsOtherSlots(previous, lanes, s);
    if k < |block| {
      assert (block + rest)[..k] == block[..k];
      LaneGateway(previous, lanes[0], s, k, table);
    } else {
      StateWithin(s, block, rest, k);
      RouteStepsGateway(previous, lanes[1..], Run(s, block), k - |block|, table);
    }
  }

  /**
   * The kernel refuses an IPv6 gateway in a table that holds only a terminal route. No preparation asks for one:
   * neither the transition between two plans nor the reinstallation over nothing.
   */
  lemma GatewaysAreAccepted(previous: Option<seq<LanePlan>>, next: seq<LanePlan>, k: nat, table: nat)
    requires (previous.Some? ==> DistinctTables(previous.value)) && DistinctTables(next)
    requires k < |TransitionSteps(previous, next)| && InstallsGateway(TransitionSteps(previous, next)[k], V6, table)
    ensures !TerminalOnly(StateAt(Basis(previous), TransitionSteps(previous, next), k), V6, table)
  {
    var routes := RouteSteps(previous, next);
    if previous.Some? {
      PlanOwnsExactly(previous.value);
    }
    assert k < |routes|;
    assert TransitionSteps(previous, next)[..k] == routes[..k] && TransitionSteps(previous, next)[k] == routes[k];
    RouteStepsGateway(previous, next, Basis(previous), k, table);
  }

  /** The lane had no IPv6 unicast default, and its successor has a gateway. */
  ghost predicate GainsGateway(previous: Option<seq<LanePlan>>, next: seq<LanePlan>, table: nat) {
    exists a, b ::
      && previous.Some? && a in previous.value && b in next && a.table == b.table == table
      && (a.availability == Unavailable || a.routeV6 == None)
      && b.availability == Available && b.routeV6.Some? && b.routeV6.value.Via?
  }

  lemma {:induction false} RouteStepsLift(previous: Option<seq<LanePlan>>, lanes: seq<LanePlan>, step: RoutingStep)
    requires step in RouteSteps(previous, lanes) && !step.ReplaceRoute?
    ensures step.DeleteRoute? && step == DeleteRoute(V6, step.table, Terminal) && GainsGateway(previous, lanes, step.table)
  {
    var lane := lanes[0];
    var old' := PreviousLane(previous, lane.table);
    if step in FamilySteps(old', lane, V4) || step in FamilySteps(old', lane, V6) {
      assert step == DeleteRoute(V6, lane.table, Terminal) && old'.value in previous.value && lane in lanes;
    } else {
      RouteStepsLift(previous, lanes[1..], step);
    }
  }

  /** A preparation takes away nothing but the IPv6 terminal of a table that gains a gateway. */
  lemma OnlyGainedGatewaysLift(previous: Option<seq<LanePlan>>, next: seq<LanePlan>, step: RoutingStep)
    requires step in TransitionSteps(previous, next) && !step.ReplaceRoute? && !step.AddRule?
    ensures step.DeleteRoute? && step == DeleteRoute(V6, step.table, Terminal) && GainsGateway(previous, next, step.table)
  {
    RouteStepsLift(previous, next, step);
  }
}
