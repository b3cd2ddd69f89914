/** What a profile asks for, in terms of its own fields and the topology, and that compiled plans do exactly that. */
module PlannerIntent {
  import opened Wrappers
  import opened Plan
  import opened Domain
  import opened Fallback
  import opened Planner
  import opened PlannerMeaning
  import opened PlannerPlans
  import opened NftChains
  import opened NftPolicy
  import NftRender
  import Sorting

  // ----- Which lane carries -----

  /** The interface of some lane with this id has a route for the family and, once observed, is ready with a source. */
  predicate Carries(lanes: seq<Lane>, topology: Topology, id: LaneId, f: Family) {
    exists lane :: lane in lanes && lane.id == id && CarriesOn(topology, lane.iface, f)
  }

  predicate CarriesOn(topology: Topology, name: string, f: Family) {
    && name in topology.interfaces
    && var entry := topology.interfaces[name];
       && (if f == V4 then entry.routeV4 else entry.routeV6).Some?
       && (topology.observed ==>
             && entry.identity.Some? && entry.linkReady
             && (if f == V4 then entry.sourceV4 else entry.sourceV6) != [])
  }

  /** The lane n fallback hops away carries the family, and none before it does. */
  ghost predicate CarrierAt(lanes: seq<Lane>, topology: Topology, id: LaneId, f: Family, n: nat) {
    && Hop(lanes, id, n).Some? && Carries(lanes, topology, Hop(lanes, id, n).value, f)
    && forall m: nat :: m < n && Hop(lanes, id, m).Some? ==> !Carries(lanes, topology, Hop(lanes, id, m).value, f)
  }

  ghost predicate NoCarrier(lanes: seq<Lane>, topology: Topology, id: LaneId, f: Family) {
    forall n: nat :: Hop(lanes, id, n).Some? ==> !Carries(lanes, topology, Hop(lanes, id, n).value, f)
  }

  // ----- What an action means -----

  predicate MarkOfLane(plans: seq<LanePlan>, id: LaneId, action: CompiledAction) {
    exists plan :: plan in plans && plan.id == id && action == Mark(plan.mark)
  }

  /** The mark of the family's primary exit, or a refusal when it is blocked. */
  predicate PrimaryMeans(primary: PrimaryDecision, plans: seq<LanePlan>, f: Family, action: CompiledAction) {
    match if f == V4 then primary.effective.v4 else primary.effective.v6
    case LaneExit(id) => MarkOfLane(plans, id, action)
    case Blocked => action == CompiledAction.Block
  }

  predicate PolicyMeans(
    policy: LaneFailurePolicy, primary: PrimaryDecision, plans: seq<LanePlan>, f: Family, action: Option<CompiledAction>)
  {
    match policy
    case BlockTraffic => action == Some(CompiledAction.Block)
    case UseDirect => action.Some? && PrimaryMeans(primary, plans, f, action.value)
    case Inactive => action == None
  }

  /** A lane's traffic goes to the first lane of its fallbacks that can carry it, or is subject to its own failure policy. */
  ghost predicate ActionMeans(
    lanes: seq<Lane>, topology: Topology, primary: PrimaryDecision, plans: seq<LanePlan>, action: RuleAction, f: Family,
    compiled: Option<CompiledAction>)
  {
    match action
    case RouteBlock => compiled == Some(CompiledAction.Block)
    case RouteDirect => compiled.Some? && PrimaryMeans(primary, plans, f, compiled.value)
    case Route(id) =>
      && (forall n: nat :: CarrierAt(lanes, topology, id, f, n) ==>
            compiled.Some? && MarkOfLane(plans, Hop(lanes, id, n).value, compiled.value))
      && (NoCarrier(lanes, topology, id, f) ==>
            forall lane :: lane in lanes && lane.id == id ==> PolicyMeans(lane.failurePolicy, primary, plans, f, compiled))
  }

  /** There is a first carrier or none at all, so a meaning determines its action. */
  lemma MeaningIsUnique(
    lanes: seq<Lane>, topology: Topology, primary: PrimaryDecision, plans: seq<LanePlan>, action: RuleAction, f: Family,
    a: Option<CompiledAction>, b: Option<CompiledAction>)
    requires forall i, j :: 0 <= i < j < |plans| ==> plans[i].id != plans[j].id
    requires action.Route? ==> HasLane(lanes, action.lane)
    requires ActionMeans(lanes, topology, primary, plans, action, f, a)
    requires ActionMeans(lanes, topology, primary, plans, action, f, b)
    ensures a == b
  {
    if action.Route? && !NoCarrier(lanes, topology, action.lane, f) {
      var n: nat :| Hop(lanes, action.lane, n).Some? && Carries(lanes, topology, Hop(lanes, action.lane, n).value, f);
      var _ := FirstCarrier(lanes, topology, action.lane, f, n);
    } else if action.Route? {
      var lane := FindLane(lanes, action.lane).value;
      assert lane in lanes && lane.id == action.lane;
    }
  }

  lemma {:induction false} FirstCarrier(lanes: seq<Lane>, topology: Topology, id: LaneId, f: Family, n: nat) returns (k: nat)
    requires Hop(lanes, id, n).Some? && Carries(lanes, topology, Hop(lanes, id, n).value, f)
    ensures CarrierAt(lanes, topology, id, f, k)
    decreases n
  {
    if m: nat :| m < n && Hop(lanes, id, m).Some? && Carries(lanes, topology, Hop(lanes, id, m).value, f) {
      k := FirstCarrier(lanes, topology, id, f, m);
    } else {
      k := n;
    }
  }

  // ----- The planner means the same -----

  lemma PlanOfLane(lanes: seq<Lane>, topology: Topology, id: LaneId)
    requires UniqueLanes(lanes) && HasLane(lanes, id)
    ensures var plan := FindPlan(CompileLanes(SortLanes(lanes), topology), id);
            plan.Some? && forall f :: FamilyAvailable(plan.value, f) <==> Carries(lanes, topology, id, f)
  {
    var sorted := SortLanes(lanes);
    var plans := CompileLanes(sorted, topology);
    EveryLaneHasAPlan(lanes, topology, id);
    var plan := FindPlan(plans, id).value;
    var i :| 0 <= i < |plans| && plans[i] == plan;
    Sorting.SortKeeps(lanes, LaneBefore);
    assert sorted[i] in sorted && sorted[i].id == id;
    forall lane | lane in lanes && lane.id == id ensures lane == sorted[i] {
      OneLaneOfId(lanes, lane, sorted[i]);
    }
    forall f ensures FamilyAvailable(plan, f) <==> Carries(lanes, topology, id, f) {
      LaneCarries(sorted[i], topology, i, f);
    }
  }

  lemma OneLaneOfId(lanes: seq<Lane>, a: Lane, b: Lane)
    requires UniqueLanes(lanes) && a in lanes && b in lanes && a.id == b.id
    ensures a == b
  {
    var i :| 0 <= i < |lanes| && lanes[i] == a;
    var j :| 0 <= j < |lanes| && lanes[j] == b;
  }

  lemma LaneCarries(lane: Lane, topology: Topology, slot: nat, f: Family)
    ensures FamilyAvailable(CompileLane(lane, topology, slot), f) <==> CarriesOn(topology, lane.iface, f)
  {
  }

  /** Each lane has one plan: its own name and policy, and what was observed of its interface. */
  lemma PlanShowsTheInterface(profile: Profile, topology: Topology, lane: Lane) returns (plan: LanePlan)
    requires UniqueLanes(profile.lanes) && lane in profile.lanes
    ensures var plans := CompileLanes(SortLanes(profile.lanes), topology);
            plan in plans && FindPlan(plans, lane.id) == Some(plan)
    ensures plan.id == lane.id && plan.iface == lane.iface && plan.failurePolicy == lane.failurePolicy
    ensures if lane.iface in topology.interfaces then
              var entry := topology.interfaces[lane.iface];
              plan.identity == entry.identity && plan.sourceV4 == entry.sourceV4 && plan.sourceV6 == entry.sourceV6
            else
              plan.identity == None && plan.sourceV4 == [] && plan.sourceV6 == []
    ensures plan.routeV4 == if CarriesOn(topology, lane.iface, V4) then topology.interfaces[lane.iface].routeV4 else None
    ensures plan.routeV6 == if CarriesOn(topology, lane.iface, V6) then topology.interfaces[lane.iface].routeV6 else None
    ensures plan.availability == Available <==> CarriesOn(topology, lane.iface, V4) || CarriesOn(topology, lane.iface, V6)
  {
    var sorted := SortLanes(profile.lanes);
    var plans := CompileLanes(sorted, topology);
    assert HasLane(profile.lanes, lane.id) by {
      var k :| 0 <= k < |profile.lanes| && profile.lanes[k] == lane;
    }
    EveryLaneHasAPlan(profile.lanes, topology, lane.id);
    plan := FindPlan(plans, lane.id).value;
    var i :| 0 <= i < |plans| && plans[i] == plan;
    Sorting.SortKeeps(profile.lanes, LaneBefore);
    assert sorted[i] in sorted;
    OneLaneOfId(profile.lanes, lane, sorted[i]);
    LaneCarries(lane, topology, i, V4);
    LaneCarries(lane, topology, i, V6);
  }

  /** An exit is acceptable if it is blocked, or a lane whose interface is known, carries the family and has a source for it. */
  lemma ExitIsUsableIff(profile: Profile, topology: Topology, resolutions: Resolutions, primary: PrimaryDecision, f: Family)
    requires UniqueLanes(profile.lanes)
    ensures ContextOf(profile, topology, resolutions, primary).PrimaryUsable(f) <==>
              match if f == V4 then primary.effective.v4 else primary.effective.v6
              case Blocked => true
              case LaneExit(id) =>
                exists lane :: lane in profile.lanes && lane.id == id && CarriesOn(topology, lane.iface, f)
                               && topology.interfaces[lane.iface].identity.Some?
                               && topology.interfaces[lane.iface].Sources(f) != []
  {
    var exit := primary.effective.For(f);
    if exit.LaneExit? {
      var found := FindPlan(CompileLanes(SortLanes(profile.lanes), topology), exit.id);
      if lane :| lane in profile.lanes && lane.id == exit.id {
        var plan := PlanShowsTheInterface(profile, topology, lane);
        forall other | other in profile.lanes && other.id == exit.id ensures other == lane {
          OneLaneOfId(profile.lanes, other, lane);
        }
      } else if found.Some? {
        PlansAreOfLanes(profile, topology, found.value);
      }
    }
  }

  lemma PlansAreOfLanes(profile: Profile, topology: Topology, plan: LanePlan)
    requires plan in CompileLanes(SortLanes(profile.lanes), topology)
    ensures exists lane :: lane in profile.lanes && lane.id == plan.id
  {
    var sorted := SortLanes(profile.lanes);
    var i :| 0 <= i < |sorted| && CompileLanes(sorted, topology)[i] == plan;
    Sorting.SortKeeps(profile.lanes, LaneBefore);
    assert sorted[i] in sorted;
  }

  lemma {:induction false} FirstAvailableAt(plans: seq<LanePlan>, chain: seq<LaneId>, f: Family) returns (k: nat)
    ensures var r := FirstAvailable(plans, chain, f);
            && k <= |chain|
            && (r.Some? ==> k < |chain| && r == FindPlan(plans, chain[k]) && FamilyAvailable(r.value, f))
            && (r.None? ==> k == |chain|)
            && forall j :: 0 <= j < k ==> FindPlan(plans, chain[j]).None? || !FamilyAvailable(FindPlan(plans, chain[j]).value, f)
    decreases |chain|
  {
    k := 0;
    if chain != [] && (FindPlan(plans, chain[0]).None? || !FamilyAvailable(FindPlan(plans, chain[0]).value, f)) {
      k := FirstAvailableAt(plans, chain[1..], f);
      assert forall j :: 0 < j < |chain| ==> chain[j] == chain[1..][j - 1];
      k := k + 1;
    }
  }

  lemma HopsHaveLanes(lanes: seq<Lane>, id: LaneId, n: nat)
    requires FallbacksKnown(lanes) && HasLane(lanes, id) && Hop(lanes, id, n).Some?
    ensures HasLane(lanes, Hop(lanes, id, n).value)
  {
    if n > 0 {
      NextHasLane(lanes, Hop(lanes, id, n - 1).value);
    }
  }

  lemma {:induction false} PastTheEnd(lanes: seq<Lane>, id: LaneId, n: nat, d: nat)
    requires Hop(lanes, id, n).None?
    ensures Hop(lanes, id, n + d).None?
  {
    if d > 0 {
      PastTheEnd(lanes, id, n, d - 1);
    }
  }

  lemma {:induction false} ChainHop(lanes: seq<Lane>, id: LaneId, chain: seq<LaneId>, n: nat)
    requires WholeChain(lanes, id, 0, chain)
    ensures Hop(lanes, id, n) == if n < |chain| then Some(chain[n]) else None
  {
    if n < |chain| {
      assert Hop(lanes, id, 0 + n) == Some(chain[n]);
    } else {
      assert Hop(lanes, id, 0 + |chain|) == None;
      PastTheEnd(lanes, id, |chain|, n - |chain|);
      assert |chain| + (n - |chain|) == n;
    }
  }

  lemma ChainCarries(lanes: seq<Lane>, topology: Topology, id: LaneId, f: Family, chain: seq<LaneId>, n: nat)
    requires UniqueLanes(lanes) && FallbacksKnown(lanes) && HasLane(lanes, id)
    requires n < |chain| && Hop(lanes, id, n) == Some(chain[n])
    ensures var plan := FindPlan(CompileLanes(SortLanes(lanes), topology), chain[n]);
            plan.Some? && (FamilyAvailable(plan.value, f) <==> Carries(lanes, topology, chain[n], f))
  {
    HopsHaveLanes(lanes, id, n);
    PlanOfLane(lanes, topology, chain[n]);
  }

  /** The walk finds the first carrier, or there is none. */
  lemma WalkFindsTheCarrier(lanes: seq<Lane>, topology: Topology, id: LaneId, f: Family) returns (k: nat)
    requires UniqueLanes(lanes) && FallbacksKnown(lanes) && Acyclic(lanes) && HasLane(lanes, id)
    ensures var plans := CompileLanes(SortLanes(lanes), topology);
            var found := FirstAvailable(plans, Chain(lanes, id), f);
            && (found.Some? ==> CarrierAt(lanes, topology, id, f, k) && found == FindPlan(plans, Hop(lanes, id, k).value))
            && (found.None? ==> NoCarrier(lanes, topology, id, f))
  {
    var plans, chain := CompileLanes(SortLanes(lanes), topology), Chain(lanes, id);
    ChainIsTheHops(lanes, id);
    forall n: nat ensures Hop(lanes, id, n) == if n < |chain| then Some(chain[n]) else None {
      ChainHop(lanes, id, chain, n);
    }
    forall n: nat | n < |chain|
      ensures FindPlan(plans, chain[n]).Some?
      ensures FamilyAvailable(FindPlan(plans, chain[n]).value, f) <==> Carries(lanes, topology, chain[n], f)
    {
      ChainCarries(lanes, topology, id, f, chain, n);
    }
    k := FirstAvailableAt(plans, chain, f);
  }

  lemma OneCarrier(lanes: seq<Lane>, topology: Topology, id: LaneId, f: Family, a: nat, b: nat)
    requires CarrierAt(lanes, topology, id, f, a) && CarrierAt(lanes, topology, id, f, b)
    ensures a == b
  {
  }

  /** A route action means the first carrier's mark, or what the lane's own failure policy says. */
  lemma RouteActionMeans(profile: Profile, topology: Topology, resolutions: Resolutions, primary: PrimaryDecision, id: LaneId, f: Family)
    requires ValidProfile(profile) && HasLane(profile.lanes, id)
    requires ContextOf(profile, topology, resolutions, primary).PrimaryUsable(f)
    ensures var ctx := ContextOf(profile, topology, resolutions, primary);
            ActionMeans(profile.lanes, topology, primary, ctx.plans, Route(id), f, RouteAction(ctx, id, f))
  {
    var ctx, lanes := ContextOf(profile, topology, resolutions, primary), profile.lanes;
    var found := FirstAvailable(ctx.plans, Chain(lanes, id), f);
    var k := WalkFindsTheCarrier(lanes, topology, id, f);
    if found.Some? {
      forall n: nat | CarrierAt(lanes, topology, id, f, n) ensures n == k {
        OneCarrier(lanes, topology, id, f, n, k);
      }
      assert MarkOfLane(ctx.plans, Hop(lanes, id, k).value, RouteAction(ctx, id, f).value);
    } else {
      FailurePolicyMeans(ctx, id, f);
    }
  }

  lemma FailurePolicyMeans(ctx: Context, id: LaneId, f: Family)
    requires ctx.PrimaryUsable(f) && UniqueLanes(ctx.lanes) && HasLane(ctx.lanes, id)
    requires FirstAvailable(ctx.plans, Chain(ctx.lanes, id), f).None?
    ensures forall lane :: lane in ctx.lanes && lane.id == id ==>
              PolicyMeans(lane.failurePolicy, ctx.primary, ctx.plans, f, RouteAction(ctx, id, f))
  {
    PrimaryActionMeans(ctx, f);
    forall lane | lane in ctx.lanes && lane.id == id ensures lane == FindLane(ctx.lanes, id).value {
      OneLaneOfId(ctx.lanes, lane, FindLane(ctx.lanes, id).value);
    }
  }

  lemma PrimaryActionMeans(ctx: Context, f: Family)
    requires ctx.PrimaryUsable(f)
    ensures PrimaryMeans(ctx.primary, ctx.plans, f, PrimaryAction(ctx, f))
  {
  }

  lemma MarksAreOfLanes(ctx: Context, action: RuleAction, f: Family)
    requires ctx.PrimaryUsable(f) && (action.Route? ==> HasLane(ctx.lanes, action.lane))
    ensures var r := ResolveAction(ctx, action, f); r.Some? && r.value.Mark? ==> NftRender.HasMark(ctx.plans, r.value.mark)
  {
    if action.Route? {
      FirstAvailableIsUsable(ctx.plans, Chain(ctx.lanes, action.lane), f);
    }
  }

  /** Every action is compiled to what it means. */
  lemma ActionsMeanTheProfile(
    profile: Profile, topology: Topology, resolutions: Resolutions, primary: PrimaryDecision, action: RuleAction, f: Family)
    requires ValidProfile(profile) && (action.Route? ==> HasLane(profile.lanes, action.lane))
    requires ContextOf(profile, topology, resolutions, primary).PrimaryUsable(f)
    ensures var ctx := ContextOf(profile, topology, resolutions, primary);
            ActionMeans(profile.lanes, topology, primary, ctx.plans, action, f, ResolveAction(ctx, action, f))
  {
    match action
    case Route(id) => RouteActionMeans(profile, topology, resolutions, primary, id, f);
    case RouteDirect => PrimaryActionMeans(ContextOf(profile, topology, resolutions, primary), f);
    case RouteBlock =>
  }

  // ----- Which rule governs a packet -----

  /** The action asks for nothing: no lane can carry it, and its own lane is then to be ignored. */
  ghost predicate Dormant(lanes: seq<Lane>, topology: Topology, action: RuleAction, f: Family) {
    && action.Route? && NoCarrier(lanes, topology, action.lane, f)
    && exists lane :: lane in lanes && lane.id == action.lane && lane.failurePolicy == Inactive
  }

  ghost predicate Applies(profile: Profile, topology: Topology, resolutions: Resolutions, p: Packet, rule: ProfileRule) {
    && rule in profile.rules && rule.enabled && SourceMatches(rule, resolutions, p)
    && !Dormant(profile.lanes, topology, rule.action, p.Family())
  }

  /** Of the rules that apply, the one with the smallest priority number, and among those with the first id. */
  ghost predicate Governs(profile: Profile, topology: Topology, resolutions: Resolutions, p: Packet, rule: ProfileRule) {
    && Applies(profile, topology, resolutions, p, rule)
    && forall other :: Applies(profile, topology, resolutions, p, other) && other != rule ==>
         || rule.priority < other.priority
         || (rule.priority == other.priority && Sorting.Lexicographic(rule.id, other.id))
  }

  lemma DormantLane(lanes: seq<Lane>, topology: Topology, lane: Lane, f: Family)
    requires UniqueLanes(lanes) && lane in lanes
    ensures Dormant(lanes, topology, Route(lane.id), f) <==> NoCarrier(lanes, topology, lane.id, f) && lane.failurePolicy == Inactive
  {
    forall other | other in lanes && other.id == lane.id ensures other == lane {
      OneLaneOfId(lanes, other, lane);
    }
  }

  lemma CarriedMeansSomething(
    lanes: seq<Lane>, topology: Topology, primary: PrimaryDecision, plans: seq<LanePlan>, id: LaneId, f: Family,
    compiled: Option<CompiledAction>)
    requires ActionMeans(lanes, topology, primary, plans, Route(id), f, compiled) && !NoCarrier(lanes, topology, id, f)
    ensures compiled.Some?
  {
    var n: nat :| Hop(lanes, id, n).Some? && Carries(lanes, topology, Hop(lanes, id, n).value, f);
    var _ := FirstCarrier(lanes, topology, id, f, n);
  }

  lemma PolicyOfLane(
    lanes: seq<Lane>, topology: Topology, primary: PrimaryDecision, plans: seq<LanePlan>, lane: Lane, f: Family,
    compiled: Option<CompiledAction>)
    requires ActionMeans(lanes, topology, primary, plans, Route(lane.id), f, compiled)
    requires NoCarrier(lanes, topology, lane.id, f) && lane in lanes
    ensures lane.failurePolicy == Inactive <==> compiled.None?
  {
  }

  lemma DormantHasNoMeaning(
    lanes: seq<Lane>, topology: Topology, primary: PrimaryDecision, plans: seq<LanePlan>, action: RuleAction, f: Family,
    compiled: Option<CompiledAction>)
    requires UniqueLanes(lanes) && (action.Route? ==> HasLane(lanes, action.lane))
    requires ActionMeans(lanes, topology, primary, plans, action, f, compiled)
    ensures Dormant(lanes, topology, action, f) <==> compiled.None?
  {
    if action.Route? {
      var lane := FindLane(lanes, action.lane).value;
      DormantLane(lanes, topology, lane, f);
      if NoCarrier(lanes, topology, lane.id, f) {
        PolicyOfLane(lanes, topology, primary, plans, lane, f, compiled);
      } else {
        CarriedMeansSomething(lanes, topology, primary, plans, lane.id, f, compiled);
      }
    }
  }

  lemma DormantMeansNothing(
    profile: Profile, topology: Topology, resolutions: Resolutions, primary: PrimaryDecision, action: RuleAction, f: Family)
    requires ValidProfile(profile) && (action.Route? ==> HasLane(profile.lanes, action.lane))
    requires ContextOf(profile, topology, resolutions, primary).PrimaryUsable(f)
    ensures Dormant(profile.lanes, topology, action, f)
            <==> ResolveAction(ContextOf(profile, topology, resolutions, primary), action, f).None?
  {
    var ctx := ContextOf(profile, topology, resolutions, primary);
    ActionsMeanTheProfile(profile, topology, resolutions, primary, action, f);
    DormantHasNoMeaning(profile.lanes, topology, primary, ctx.plans, action, f, ResolveAction(ctx, action, f));
  }

  lemma AppliesIsEffective(
    profile: Profile, topology: Topology, resolutions: Resolutions, primary: PrimaryDecision, p: Packet, rule: ProfileRule)
    requires ValidProfile(profile) && ContextOf(profile, topology, resolutions, primary).PrimaryUsable(V4)
    requires ContextOf(profile, topology, resolutions, primary).PrimaryUsable(V6)
    requires rule in profile.rules && rule.enabled && (rule.action.Route? ==> HasLane(profile.lanes, rule.action.lane))
    ensures Applies(profile, topology, resolutions, p, rule)
            <==> TakesEffect(ContextOf(profile, topology, resolutions, primary), rule, p)
  {
    assert p.Family() == V4 || p.Family() == V6;
    DormantMeansNothing(profile, topology, resolutions, primary, rule.action, p.Family());
  }

  lemma DecidesIsGoverns(
    profile: Profile, topology: Topology, resolutions: Resolutions, primary: PrimaryDecision, p: Packet, rule: ProfileRule)
    requires ValidProfile(profile)
    requires var ctx := ContextOf(profile, topology, resolutions, primary);
             ctx.PrimaryUsable(V4) && ctx.PrimaryUsable(V6) && ActionsKnown(ctx, profile.rules)
             && Decides(ctx, profile.rules, p, rule)
    ensures Governs(profile, topology, resolutions, p, rule)
  {
    AppliesIsEffective(profile, topology, resolutions, primary, p, rule);
    forall other | Applies(profile, topology, resolutions, p, other) && other != rule
      ensures rule.priority < other.priority || (rule.priority == other.priority && Sorting.Lexicographic(rule.id, other.id))
    {
      AppliesIsEffective(profile, topology, resolutions, primary, p, other);
      Sorting.TextIsTotal(rule.id, other.id);
      Sorting.TextBeforeIsLexicographic(rule.id, other.id);
      DifferentRulesDifferentIds(profile.rules, rule, other);
    }
  }

  lemma DifferentRulesDifferentIds(rules: seq<ProfileRule>, a: ProfileRule, b: ProfileRule)
    requires UniqueRules(rules) && a in rules && b in rules && a != b
    ensures a.id != b.id
  {
    var i :| 0 <= i < |rules| && rules[i] == a;
    var j :| 0 <= j < |rules| && rules[j] == b;
  }

  // ----- Which rules are duplicates -----

  /** The network a target names, an address being a network of its own. */
  function NetworkOf(target: RuleTarget): Option<IpNet> {
    match target
    case Ip(address) => Some(RawNet(address, Width(address.family)))
    case Cidr(net) => Some(net)
    case _ => None
  }

  predicate SameSource(a: RuleSource, b: RuleSource) {
    match (a, b)
    case (AnySource, AnySource) => true
    case (Application(x, children, _), Application(y, others, _)) => x == y && children == others
    case _ => false
  }

  predicate SameTarget(a: RuleTarget, b: RuleTarget) {
    var x, y := NetworkOf(a), NetworkOf(b);
    if x.Some? && y.Some? then SameNetwork(x.value, y.value) else a == b
  }

  /** Rules say the same when program, children, destination and action agree; ids, priorities and desktop entries do not count. */
  lemma DuplicatesIff(a: ProfileRule, b: ProfileRule)
    ensures ContentOf(a) == ContentOf(b)
            <==> SameSource(a.source, b.source) && SameTarget(a.target, b.target) && a.action == b.action
  {
    var x, y := NetworkOf(a.target), NetworkOf(b.target);
    if x.Some? {
      HostIsWhole(x.value);
    }
    if y.Some? {
      HostIsWhole(y.value);
    }
    if x.Some? && y.Some? {
      SameNetworkSameTrunc(x.value, y.value);
    }
  }

  lemma HostIsWhole(n: IpNet)
    ensures n.len == Width(n.addr.family) ==> Trunc(n) == n
  {
    if n.len == Width(n.addr.family) {
      assert n.Block() == 1;
    }
  }

  /** An application rule claims the desktop entry it names, unless that name is empty. */
  lemma ClaimsIff(rule: ProfileRule, entry: string)
    ensures DesktopEntry(rule) == Some(entry) <==> rule.source.Application? && rule.source.desktopId == Some(entry) && entry != ""
  {
  }

  // ----- From profile to packet -----

  /**
   * A new connection is treated as the profile says: by the action of the rule that governs it; without one it
   * reaches the local networks as it is, and everything else by the primary exit.
   */
  lemma NewConnectionsFollowTheProfile(
    plan: KernelPlan, profile: Profile, topology: Topology, resolutions: Resolutions, primary: PrimaryDecision, p: Packet)
    returns (rule: Option<ProfileRule>, action: CompiledAction)
    requires PlanOf(plan, profile, topology, resolutions, primary) && WellFormedTopology(topology)
    requires Opens(p) && !IsControl(p, topology.localNetworks)
    ensures rule.Some? ==>
              && Governs(profile, topology, resolutions, p, rule.value)
              && ActionMeans(profile.lanes, topology, primary, plan.lanes, rule.value.action, p.Family(), Some(action))
              && Decide(plan, p) == Carry(action, p)
    ensures rule.None? ==>
              && (forall other :: !Applies(profile, topology, resolutions, p, other))
              && PrimaryMeans(primary, plan.lanes, p.Family(), action)
              && Decide(plan, p) == if SomeContains(topology.localNetworks, p.destination) then Accept(p) else Carry(action, p)
    ensures action.Mark? ==> NftRender.HasMark(plan.lanes, action.mark)
  {
    var ctx := ContextOf(profile, topology, resolutions, primary);
    PlanContext(plan, profile, topology, resolutions, primary);
    rule := NewConnectionsFollow(plan, profile, topology, resolutions, primary, p);
    assert ctx.PrimaryUsable(p.Family()) by { assert p.Family() == V4 || p.Family() == V6; }
    if rule.Some? {
      DecidesIsGoverns(profile, topology, resolutions, primary, p, rule.value);
      ActionsMeanTheProfile(profile, topology, resolutions, primary, rule.value.action, p.Family());
      action := FamilyAction(ctx, rule.value, p.Family()).value;
      MarksAreOfLanes(ctx, rule.value.action, p.Family());
    } else {
      forall other ensures !Applies(profile, topology, resolutions, p, other) {
        if other in profile.rules && other.enabled {
          AppliesIsEffective(profile, topology, resolutions, primary, p, other);
        }
      }
      PrimaryActionMeans(ctx, p.Family());
      action := PrimaryAction(ctx, p.Family());
    }
  }
}
