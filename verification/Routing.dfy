/**
 * Typed routing steps and the executable model of what each of them does to the kernel.
 * A routing state is the set of default routes and policy rules RouteLane owns.
 */
module Routing {
  import opened Wrappers
  import opened Plan

  datatype OwnedRoute = Unicast(gateway: Option<IpAddr>, iface: string) | Terminal

  datatype RuleOwnership = RuleOwnership(family: Family, priority: nat, table: nat, mark: nat)

  datatype RouteOwnership = RouteOwnership(
    family: Family, table: nat, gateway: Option<IpAddr>, iface: string, terminal: bool)

  datatype Ownership = Ownership(routes: set<RouteOwnership>, rules: set<RuleOwnership>)

  const EMPTY: Ownership := Ownership({}, {})

  datatype RoutingStep =
    | ReplaceRoute(family: Family, table: nat, route: OwnedRoute)
    | DeleteRoute(family: Family, table: nat, route: OwnedRoute)
    | AddRule(rule: RuleOwnership)
    | DeleteRule(rule: RuleOwnership)
    | FlushTable(family: Family, table: nat)

  function RouteOwned(f: Family, table: nat, route: OwnedRoute): RouteOwnership {
    match route
    case Unicast(gateway, iface) => RouteOwnership(f, table, gateway, iface, false)
    case Terminal => RouteOwnership(f, table, None, "", true)
  }

  /**
   * A slot holds at most one unicast and one terminal route, and a replace decides which; deleting what is absent
   * changes nothing.
   */
  function Apply(s: Ownership, step: RoutingStep): Ownership {
    match step
    case ReplaceRoute(f, t, route) =>
      var added := RouteOwned(f, t, route);
      s.(routes := (set r | r in s.routes && !(r.family == f && r.table == t && r.terminal == added.terminal)) + {added})
    case DeleteRoute(f, t, route) => s.(routes := s.routes - {RouteOwned(f, t, route)})
    case AddRule(rule) => s.(rules := s.rules + {rule})
    case DeleteRule(rule) => s.(rules := s.rules - {rule})
    case FlushTable(f, t) => s.(routes := set r | r in s.routes && !(r.family == f && r.table == t))
  }

  /** A step concerns one rule or one slot: it adds or removes what it names there, and leaves everything else alone. */
  lemma StepsKeepToTheirSlot(s: Ownership, step: RoutingStep)
    ensures var t := Apply(s, step);
            && (forall u :: (u in t.rules) != (u in s.rules) ==> step == AddRule(u) || step == DeleteRule(u))
            && (step.AddRule? ==> step.rule in t.rules) && (step.DeleteRule? ==> step.rule !in t.rules)
            && (step.AddRule? || step.DeleteRule? ==> t.routes == s.routes)
            && (step.ReplaceRoute? || step.DeleteRoute? || step.FlushTable? ==>
                  forall r :: (r in t.routes) != (r in s.routes) ==> r.family == step.family && r.table == step.table)
            && (step.ReplaceRoute? ==>
                  && (forall r :: (r in t.routes) != (r in s.routes) ==> r.terminal == step.route.Terminal?)
                  && forall r: RouteOwnership :: r.family == step.family && r.table == step.table && r.terminal == step.route.Terminal? ==>
                       (r in t.routes <==> r == RouteOwned(step.family, step.table, step.route)))
            && (step.DeleteRoute? ==>
                  && RouteOwned(step.family, step.table, step.route) !in t.routes
                  && forall r :: (r in t.routes) != (r in s.routes) ==> r == RouteOwned(step.family, step.table, step.route))
            && (step.FlushTable? ==> forall r :: r in t.routes ==> r.family != step.family || r.table != step.table)
  {
  }

  function Run(s: Ownership, steps: seq<RoutingStep>): Ownership
    decreases |steps|
  {
    if steps == [] then s else Run(Apply(s, steps[0]), steps[1..])
  }

  lemma {:induction false} RunAppend(s: Ownership, a: seq<RoutingStep>, b: seq<RoutingStep>)
    ensures Run(s, a + b) == Run(Run(s, a), b)
    decreases |a|
  {
    if a == [] {
      assert a + b == b;
    } else {
      assert (a + b)[1..] == a[1..] + b;
      RunAppend(Apply(s, a[0]), a[1..], b);
    }
  }

  lemma RunSnoc(s: Ownership, steps: seq<RoutingStep>, k: nat)
    requires k < |steps|
    ensures Run(s, steps[..k + 1]) == Apply(Run(s, steps[..k]), steps[k])
  {
    RunAppend(s, steps[..k], [steps[k]]);
    assert steps[..k + 1] == steps[..k] + [steps[k]];
    var before := Run(s, steps[..k]);
    assert Run(before, [steps[k]]) == Run(Apply(before, steps[k]), []);
  }

  /** The object the helper updates step by step. */
  class RoutingState {
    var routes: set<RouteOwnership>
    var rules: set<RuleOwnership>

    function Value(): Ownership
      reads this
    {
      Ownership(routes, rules)
    }

    constructor (s: Ownership)
      ensures Value() == s
    {
      routes, rules := s.routes, s.rules;
    }

    method ApplyStep(step: RoutingStep)
      modifies this
      ensures Value() == Apply(old(Value()), step)
    {
      match step {
        case ReplaceRoute(f, t, route) =>
          var added := RouteOwned(f, t, route);
          routes := set r | r in routes && (r.family != f || r.table != t || r.terminal != added.terminal);
          routes := routes + {added};
        case DeleteRoute(f, t, route) =>
          routes := routes - {RouteOwned(f, t, route)};
        case AddRule(rule) =>
          rules := rules + {rule};
        case DeleteRule(rule) =>
          rules := rules - {rule};
        case FlushTable(f, t) =>
          routes := set r | r in routes && (r.family != f || r.table != t);
      }
    }
  }

  // ----- Steps of a transition -----

  function LaneUnicast(lane: LanePlan, f: Family): Option<OwnedRoute> {
    if lane.availability != Available || lane.Route(f).None? then None
    else Some(Unicast(if lane.Route(f).value.Via? then Some(lane.Route(f).value.gateway) else None, lane.iface))
  }

  function RuleOf(lane: LanePlan, f: Family): RuleOwnership {
    RuleOwnership(f, lane.rulePriority, lane.table, lane.mark)
  }

  /** The first lane of a table. */
  function LaneForTable(lanes: seq<LanePlan>, table: nat): (r: Option<LanePlan>)
    ensures r.Some? ==> r.value in lanes && r.value.table == table
    ensures r.Some? ==> exists i :: FirstOfTable(lanes, table, i) && lanes[i] == r.value
    ensures r.None? ==> forall lane :: lane in lanes ==> lane.table != table
  {
    if lanes == [] then None
    else if lanes[0].table == table then
      assert FirstOfTable(lanes, table, 0);
      Some(lanes[0])
    else
      var r := LaneForTable(lanes[1..], table);
      assert forall i :: FirstOfTable(lanes[1..], table, i) ==> FirstOfTable(lanes, table, i + 1);
      r
  }

  predicate FirstOfTable(lanes: seq<LanePlan>, table: nat, i: int) {
    0 <= i < |lanes| && lanes[i].table == table && forall j :: 0 <= j < i ==> lanes[j].table != table
  }

  /** Looks a lane up in a plan that may not exist. */
  function PreviousLane(previous: Option<seq<LanePlan>>, table: nat): Option<LanePlan> {
    if previous.None? then None else LaneForTable(previous.value, table)
  }

  /** A new IPv6 gateway is refused by a table that holds only its terminal route. */
  predicate NeedsOpenTable(previous: Option<LanePlan>, lane: LanePlan, f: Family) {
    && f == V6
    && previous.Some?
    && LaneUnicast(previous.value, f).None?
    && LaneUnicast(lane, f).Some?
    && LaneUnicast(lane, f).value.gateway.Some?
  }

  function FamilySteps(previous: Option<LanePlan>, lane: LanePlan, f: Family): seq<RoutingStep> {
    (if NeedsOpenTable(previous, lane, f) then [DeleteRoute(f, lane.table, Terminal)] else [])
    + (if LaneUnicast(lane, f).Some? then [ReplaceRoute(f, lane.table, LaneUnicast(lane, f).value)] else [])
    + [ReplaceRoute(f, lane.table, Terminal)]
  }

  function RouteSteps(previous: Option<seq<LanePlan>>, lanes: seq<LanePlan>): seq<RoutingStep> {
    if lanes == [] then []
    else
      var old' := PreviousLane(previous, lanes[0].table);
      FamilySteps(old', lanes[0], V4) + FamilySteps(old', lanes[0], V6) + RouteSteps(previous, lanes[1..])
  }

  function InstallRules(lanes: seq<LanePlan>): seq<RuleOwnership> {
    if lanes == [] then [] else [RuleOf(lanes[0], V4), RuleOf(lanes[0], V6)] + InstallRules(lanes[1..])
  }

  function Without(rules: seq<RuleOwnership>, dropped: seq<RuleOwnership>): seq<RuleOwnership> {
    if rules == [] then []
    else (if rules[0] in dropped then [] else [rules[0]]) + Without(rules[1..], dropped)
  }

  function AddRules(rules: seq<RuleOwnership>): seq<RoutingStep> {
    seq(|rules|, i requires 0 <= i < |rules| => AddRule(rules[i]))
  }

  function DeleteRules(rules: seq<RuleOwnership>): seq<RoutingStep> {
    seq(|rules|, i requires 0 <= i < |rules| => DeleteRule(rules[i]))
  }

  function PreviousRules(previous: Option<seq<LanePlan>>): seq<RuleOwnership> {
    if previous.None? then [] else InstallRules(previous.value)
  }

  function TransitionSteps(previous: Option<seq<LanePlan>>, next: seq<LanePlan>): seq<RoutingStep> {
    RouteSteps(previous, next) + AddRules(Without(InstallRules(next), PreviousRules(previous)))
  }

  function InstallSteps(lanes: seq<LanePlan>): seq<RoutingStep> {
    TransitionSteps(None, lanes)
  }

  function RetireLane(lane: LanePlan, f: Family, next: LanePlan): seq<RoutingStep> {
    if LaneUnicast(lane, f).Some? && LaneUnicast(next, f).None?
    then [DeleteRoute(f, lane.table, LaneUnicast(lane, f).value)]
    else []
  }

  function RetireTable(lane: LanePlan, next: Option<LanePlan>): seq<RoutingStep> {
    if next.None? then [FlushTable(V4, lane.table), FlushTable(V6, lane.table)]
    else RetireLane(lane, V4, next.value) + RetireLane(lane, V6, next.value)
  }

  function RetireRoutes(previous: seq<LanePlan>, next: seq<LanePlan>): seq<RoutingStep> {
    if previous == [] then []
    else RetireTable(previous[0], LaneForTable(next, previous[0].table)) + RetireRoutes(previous[1..], next)
  }

  function RetireSteps(previous: seq<LanePlan>, next: seq<LanePlan>): seq<RoutingStep> {
    DeleteRules(Without(InstallRules(previous), InstallRules(next))) + RetireRoutes(previous, next)
  }

  /** The exact routing state a plan owns once it is installed. */
  function PlanOwnership(lanes: seq<LanePlan>): Ownership {
    Run(EMPTY, InstallSteps(lanes))
  }
}
