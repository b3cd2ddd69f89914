/** From the profile to the wire: chains, policy rules and routes of one compiled plan, taken together. */
module EndToEnd {
  import opened Wrappers
  import opened Plan
  import opened Domain
  import opened Routing
  import opened Journal
  import opened PolicyRouting
  import opened NftChains
  import opened NftRender
  import opened NftPolicy
  import opened NftCorrect
  import opened NftHooks
  import opened Planner
  import opened PlannerMeaning
  import opened PlannerPlans
  import opened PlannerIntent
  import Sorting
  import Sticky

  /** The way out that was observed on an interface. */
  function ObservedHop(topology: Topology, name: string, f: Family): NextHop
    requires CarriesOn(topology, name, f)
  {
    var entry := topology.interfaces[name];
    match (if f == V4 then entry.routeV4 else entry.routeV6).value
    case Via(gateway) => Through(Some(gateway), name)
    case Device => Through(None, name)
  }

  /** A lane plan that is ready comes from a lane whose interface was seen to carry the family. */
  lemma ReadyLaneWasObserved(profile: Profile, topology: Topology, lane: LanePlan, f: Family) returns (carrier: Lane)
    requires WellFormedTopology(topology) && lane in CompileLanes(SortLanes(profile.lanes), topology) && Ready(lane, f)
    ensures carrier in profile.lanes && carrier.id == lane.id && carrier.iface == lane.iface
    ensures CarriesOn(topology, carrier.iface, f) && HopOf(lane, f) == ObservedHop(topology, carrier.iface, f)
    ensures topology.interfaces[carrier.iface].identity == lane.identity && lane.identity.Some?
  {
    var sorted := SortLanes(profile.lanes);
    var i :| 0 <= i < |sorted| && CompileLanes(sorted, topology)[i] == lane;
    Sorting.SortKeeps(profile.lanes, LaneBefore);
    carrier := sorted[i];
    assert carrier in sorted;
    LaneCarries(carrier, topology, i, f);
  }

  lemma MarkedOpeningIsReady(plan: KernelPlan, p: Packet, m: nat)
    requires Opens(p) && m != 0 && Decide(plan, p) == Accept(Marked(p, m))
    ensures ReadyMark(plan.lanes, Sticky.DecidingFamily(plan, p), m)
  {
    Sticky.OnlyReadyLanesAreMarked(plan, p);
  }

  lemma MarkedIsRerouted(plan: KernelPlan, pending: Option<KernelPlan>, p: Packet, m: nat)
    requires DistinctMarks(plan.lanes) && Opens(p) && m != 0 && Decide(plan, p) == Accept(Marked(p, m))
    ensures AtHook(Render(Some(plan), pending, false), OutputHook, p) == Passage(Accept(Marked(p, m)), true)
  {
    OutputHookDecides(Some(plan), pending, false, p);
  }

  /** The packet on its way out of an interface. */
  function Sent(p: Packet, device: InterfaceIdentity): Packet {
    p.(oif := device.ifindex, oifname := device.name)
  }

  lemma ProvenIsTranslated(plan: KernelPlan, pending: Option<KernelPlan>, lane: LanePlan, f: Family, p: Packet)
    requires DistinctMarks(plan.lanes) && lane in plan.lanes && Ready(lane, f) && Opens(p) && p.iif == 0
    requires p.ct.value.source.family == f && p.ct.value.source in plan.localAddresses
    ensures AtHook(Render(Some(plan), pending, false), PostroutingHook, Sent(Marked(p, lane.mark), lane.identity.value))
            == Passage(Outcome(Masqueraded, Sent(Marked(p, lane.mark), lane.identity.value)), false)
  {
    var q := Sent(Marked(p, lane.mark), lane.identity.value);
    assert Proven(plan, f, lane, q) by { assert f == V4 || f == V6; }
    assert ProvenBySome(plan, q) by { assert f == V4 || f == V6; }
    PostroutingHookDecides(Some(plan), pending, false, q);
  }

  /** What happens to a new connection with a lane's mark: routed again by the mark, out through what was observed, translated there. */
  ghost predicate LeavesBy(
    plan: KernelPlan, pending: Option<KernelPlan>, topology: Topology, p: Packet, action: CompiledAction, carrier: Lane)
    requires p.ct.Some?
  {
    var f := p.Family();
    && action.Mark? && MarkOfLane(plan.lanes, carrier.id, action) && CarriesOn(topology, carrier.iface, f)
    && AtHook(Render(Some(plan), pending, false), OutputHook, p) == Passage(Accept(Marked(p, action.mark)), true)
    && (forall hop :: GoesTo(PlanOwnership(plan.lanes), f, action.mark, hop) <==> hop == ObservedHop(topology, carrier.iface, f))
    && var device := topology.interfaces[carrier.iface].identity;
       && device.Some?
       && (p.iif == 0 && p.ct.value.source.family == f && p.ct.value.source in topology.assignedAddresses ==>
             var q := Sent(Marked(p, action.mark), device.value);
             AtHook(Render(Some(plan), pending, false), PostroutingHook, q) == Passage(Outcome(Masqueraded, q), false))
  }

  lemma MarkedLeavesByItsLane(
    plan: KernelPlan, pending: Option<KernelPlan>, profile: Profile, topology: Topology, resolutions: Resolutions,
    primary: PrimaryDecision, p: Packet, action: CompiledAction)
    returns (carrier: Lane)
    requires PlanOf(plan, profile, topology, resolutions, primary) && WellFormedTopology(topology) && ValidPlan(plan)
    requires Opens(p) && action.Mark? && HasMark(plan.lanes, action.mark) && Decide(plan, p) == Carry(action, p)
    ensures carrier in profile.lanes && LeavesBy(plan, pending, topology, p, action, carrier)
  {
    var lane := ReadyLaneOf(plan, profile, topology, resolutions, primary, p, action.mark);
    PlanContext(plan, profile, topology, resolutions, primary);
    carrier := ReadyLaneWasObserved(profile, topology, lane, p.Family());
    LaneLeavesBy(plan, pending, topology, p, lane, carrier);
  }

  lemma ReadyLaneOf(
    plan: KernelPlan, profile: Profile, topology: Topology, resolutions: Resolutions, primary: PrimaryDecision, p: Packet, m: nat)
    returns (lane: LanePlan)
    requires PlanOf(plan, profile, topology, resolutions, primary) && ValidPlan(plan)
    requires Opens(p) && HasMark(plan.lanes, m) && Decide(plan, p) == Accept(Marked(p, m))
    ensures lane in plan.lanes && lane in CompileLanes(SortLanes(profile.lanes), topology)
    ensures Ready(lane, p.Family()) && lane.mark == m && m != 0
  {
    MarksAreNotZero(plan, m);
    PlanContext(plan, profile, topology, resolutions, primary);
    CompiledPlansMarkForOwnFamily(plan, profile, topology, resolutions, primary);
    MarkedOpeningIsReady(plan, p, m);
    lane :| lane in plan.lanes && Ready(lane, p.Family()) && lane.mark == m;
  }

  lemma MarksAreNotZero(plan: KernelPlan, m: nat)
    requires ValidPlan(plan) && HasMark(plan.lanes, m)
    ensures m != 0
  {
    var lane :| lane in plan.lanes && lane.mark == m;
    var i :| 0 <= i < |plan.lanes| && plan.lanes[i] == lane;
    assert InReservedRanges(plan.lanes[i]);
  }

  lemma LaneLeavesBy(
    plan: KernelPlan, pending: Option<KernelPlan>, topology: Topology, p: Packet, lane: LanePlan, carrier: Lane)
    requires ValidPlan(plan) && plan.localAddresses == topology.assignedAddresses
    requires Opens(p) && Decide(plan, p) == Accept(Marked(p, lane.mark)) && lane.mark != 0
    requires lane in plan.lanes && Ready(lane, p.Family()) && carrier.id == lane.id
    requires CarriesOn(topology, carrier.iface, p.Family()) && HopOf(lane, p.Family()) == ObservedHop(topology, carrier.iface, p.Family())
    requires topology.interfaces[carrier.iface].identity == lane.identity && lane.identity.Some?
    ensures LeavesBy(plan, pending, topology, p, Mark(lane.mark), carrier)
  {
    var f := p.Family();
    MarkedPacketsTakeTheirLane(plan, lane, f);
    MarkedIsRerouted(plan, pending, p, lane.mark);
    if p.iif == 0 && p.ct.value.source.family == f && p.ct.value.source in topology.assignedAddresses {
      ProvenIsTranslated(plan, pending, lane, f, p);
    }
    assert MarkOfLane(plan.lanes, carrier.id, Mark(lane.mark));
  }

  lemma UnmarkedIsNot(plan: KernelPlan, pending: Option<KernelPlan>, p: Packet)
    requires DistinctMarks(plan.lanes) && (Decide(plan, p) == Accept(p) || Decide(plan, p) == Refuse(p))
    ensures AtHook(Render(Some(plan), pending, false), OutputHook, p) == Passage(Decide(plan, p), false)
  {
    OutputHookDecides(Some(plan), pending, false, p);
  }

  /**
   * The whole path of a new connection: the rule that governs it means an action; a lane's mark leads it out by the
   * gateway and interface observed for that lane, where its source is translated; anything else is refused.
   */
  lemma NewConnectionsReachTheWire(
    plan: KernelPlan, pending: Option<KernelPlan>, profile: Profile, topology: Topology, resolutions: Resolutions,
    primary: PrimaryDecision, p: Packet)
    returns (rule: Option<ProfileRule>, action: CompiledAction, carrier: Option<Lane>)
    requires PlanOf(plan, profile, topology, resolutions, primary) && WellFormedTopology(topology) && ValidPlan(plan)
    requires Opens(p) && !IsControl(p, topology.localNetworks)
    ensures if rule.Some? then
              Governs(profile, topology, resolutions, p, rule.value)
              && ActionMeans(profile.lanes, topology, primary, plan.lanes, rule.value.action, p.Family(), Some(action))
            else
              (forall other :: !Applies(profile, topology, resolutions, p, other))
              && PrimaryMeans(primary, plan.lanes, p.Family(), action)
    ensures rule.None? && SomeContains(topology.localNetworks, p.destination) ==>
              AtHook(Render(Some(plan), pending, false), OutputHook, p) == Passage(Accept(p), false)
    ensures rule.Some? || !SomeContains(topology.localNetworks, p.destination) ==>
              if action.Mark? then
                carrier.Some? && carrier.value in profile.lanes && LeavesBy(plan, pending, topology, p, action, carrier.value)
              else
                AtHook(Render(Some(plan), pending, false), OutputHook, p) == Passage(Refuse(p), false)
  {
    rule, action := NewConnectionsFollowTheProfile(plan, profile, topology, resolutions, primary, p);
    carrier := None;
    if rule.None? && SomeContains(topology.localNetworks, p.destination) {
      UnmarkedIsNot(plan, pending, p);
    } else if action.Mark? {
      var lane := MarkedLeavesByItsLane(plan, pending, profile, topology, resolutions, primary, p, action);
      carrier := Some(lane);
    } else {
      UnmarkedIsNot(plan, pending, p);
    }
  }
}
