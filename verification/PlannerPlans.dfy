/** Compiled plans are sound: slots, marks, and what the chains rendered from them do with new connections. */
module PlannerPlans {
  import opened Wrappers
  import opened Plan
  import opened Domain
  import opened Fallback
  import opened Planner
  import opened PlannerMeaning
  import opened NftChains
  import opened NftRender
  import opened NftPolicy
  import opened Routing
  import Sorting
  import Sticky

  // Slots.

  lemma {:induction false} InsertIsUnique(lane: Lane, sorted: seq<Lane>)
    requires UniqueLanes(sorted) && lane.id !in LaneIds(sorted)
    ensures var r := Sorting.Insert(lane, sorted, LaneBefore);
            UniqueLanes(r) && LaneIds(r) == LaneIds(sorted) + {lane.id}
  {
    var r := Sorting.Insert(lane, sorted, LaneBefore);
    if sorted == [] || !LaneBefore(sorted[0], lane) {
      Prepended(lane, sorted);
    } else {
      var rest := sorted[1..];
      assert sorted == [sorted[0]] + rest;
      Prepended(sorted[0], rest);
      InsertIsUnique(lane, rest);
      assert sorted[0].id !in LaneIds(rest) by {
        assert forall i :: 0 <= i < |rest| ==> rest[i] == sorted[i + 1];
      }
      Prepended(sorted[0], Sorting.Insert(lane, rest, LaneBefore));
    }
  }

  lemma Prepended(lane: Lane, lanes: seq<Lane>)
    ensures LaneIds([lane] + lanes) == LaneIds(lanes) + {lane.id}
    ensures UniqueLanes(lanes) && lane.id !in LaneIds(lanes) ==> UniqueLanes([lane] + lanes)
  {
    var all := [lane] + lanes;
    assert all[0] == lane && forall i :: 0 <= i < |lanes| ==> all[i + 1] == lanes[i];
    forall id | id in LaneIds(lanes) + {lane.id}
      ensures id in LaneIds(all)
    {
      if id in LaneIds(lanes) {
        var i :| 0 <= i < |lanes| && lanes[i].id == id;
        assert all[i + 1].id == id;
      } else {
        assert all[0].id == id;
      }
    }
  }

  lemma {:induction false} SortedIsUnique(lanes: seq<Lane>)
    requires UniqueLanes(lanes)
    ensures UniqueLanes(SortLanes(lanes)) && LaneIds(SortLanes(lanes)) == LaneIds(lanes)
    ensures |SortLanes(lanes)| == |lanes|
  {
    Sorting.SortKeeps(lanes, LaneBefore);
    if lanes != [] {
      var rest := lanes[1..];
      assert lanes == [lanes[0]] + rest;
      Prepended(lanes[0], rest);
      assert lanes[0].id !in LaneIds(rest) by {
        assert forall i :: 0 <= i < |rest| ==> rest[i] == lanes[i + 1];
      }
      SortedIsUnique(rest);
      InsertIsUnique(lanes[0], SortLanes(rest));
    }
  }

  function LanesBefore(lanes: seq<Lane>, id: LaneId): set<LaneId> {
    set x | x in LaneIds(lanes) && Sorting.TextBefore(x, id)
  }

  lemma {:induction false} PrefixSize(lanes: seq<Lane>, i: nat)
    requires UniqueLanes(lanes) && i <= |lanes|
    ensures |LaneIds(lanes[..i])| == i
  {
    if i > 0 {
      PrefixSize(lanes, i - 1);
      var before := LaneIds(lanes[..i - 1]);
      assert LaneIds(lanes[..i]) == before + {lanes[i - 1].id} by {
        assert lanes[..i][i - 1] == lanes[i - 1];
        assert forall j :: 0 <= j < i - 1 ==> lanes[..i][j] == lanes[..i - 1][j];
      }
      assert lanes[i - 1].id !in before;
    }
  }

  /** A lane's table, mark and priority have one common offset: how many lane ids come before its own. */
  lemma SlotIsRank(profile: Profile, topology: Topology, i: nat)
    requires UniqueLanes(profile.lanes) && i < |profile.lanes|
    ensures |CompileLanes(SortLanes(profile.lanes), topology)| == |profile.lanes|
    ensures var plan := CompileLanes(SortLanes(profile.lanes), topology)[i];
            var slot := |LanesBefore(profile.lanes, plan.id)|;
            && plan.id in LaneIds(profile.lanes)
            && plan.table == 20_000 + slot && plan.mark == 0x524c0001 + slot && plan.rulePriority == 10_000 + slot
  {
    var sorted := SortLanes(profile.lanes);
    SortedIsUnique(profile.lanes);
    RuleOrderIsStrict();
    Sorting.SortSorts(profile.lanes, LaneBefore);
    RankOfSorted(sorted, i);
    assert sorted[i].id in LaneIds(sorted);
    assert LanesBefore(profile.lanes, sorted[i].id) == LanesBefore(sorted, sorted[i].id);
  }

  lemma RankOfSorted(sorted: seq<Lane>, i: nat)
    requires UniqueLanes(sorted) && Sorting.Sorted(sorted, LaneBefore) && i < |sorted|
    ensures |LanesBefore(sorted, sorted[i].id)| == i
  {
    var id := sorted[i].id;
    forall j | 0 <= j < |sorted|
      ensures Sorting.TextBefore(sorted[j].id, id) <==> j < i
    {
      Sorting.TextIsTotal(sorted[j].id, id);
      if j < i {
        assert !LaneBefore(sorted[i], sorted[j]);
      } else if i < j {
        assert !LaneBefore(sorted[j], sorted[i]);
      }
    }
    assert LanesBefore(sorted, id) == LaneIds(sorted[..i]) by {
      forall x | x in LanesBefore(sorted, id) ensures x in LaneIds(sorted[..i]) {
        var j :| 0 <= j < |sorted| && sorted[j].id == x;
        assert sorted[..i][j].id == x;
      }
      forall x | x in LaneIds(sorted[..i]) ensures x in LanesBefore(sorted, id) {
        var j :| 0 <= j < i && sorted[..i][j].id == x;
        assert sorted[j].id == x;
      }
    }
    PrefixSize(sorted, i);
  }

  // Rules.

  predicate SoundRule(plans: seq<LanePlan>, rule: CompiledRule) {
    && rule.action != CompiledAction.Direct
    && (rule.target.Network? ==> rule.target.net.addr.family == rule.family)
    && (rule.action.Mark? ==>
          exists plan :: plan in plans && plan.mark == rule.action.mark && FamilyAvailable(plan, rule.family))
  }

  lemma {:induction false} FirstAvailableIsUsable(plans: seq<LanePlan>, chain: seq<LaneId>, f: Family)
    ensures var r := FirstAvailable(plans, chain, f);
            r.Some? ==> r.value in plans && FamilyAvailable(r.value, f)
    decreases |chain|
  {
    if chain != [] {
      FirstAvailableIsUsable(plans, chain[1..], f);
    }
  }

  lemma ActionIsSound(ctx: Context, rule: ProfileRule, target: CompiledTarget, f: Family)
    requires ctx.PrimaryUsable(V4) && ctx.PrimaryUsable(V6)
    requires rule.action.Route? ==> HasLane(ctx.lanes, rule.action.lane)
    requires target.Network? ==> target.net.addr.family == f
    requires FamilyAction(ctx, rule, f).Some?
    ensures SoundRule(ctx.plans, CompiledRule(f, rule.id, rule.priority, target, FamilyAction(ctx, rule, f).value))
  {
    assert ctx.PrimaryUsable(f);
    if rule.action.Route? {
      FirstAvailableIsUsable(ctx.plans, Fallback.Chain(ctx.lanes, rule.action.lane), f);
    }
  }

  ghost predicate AllSound(plans: seq<LanePlan>, rules: seq<CompiledRule>) {
    forall rule :: rule in rules ==> SoundRule(plans, rule)
  }

  lemma {:induction false} FamiliesAreSound(ctx: Context, rule: ProfileRule, target: CompiledTarget, families: seq<Family>)
    requires ctx.PrimaryUsable(V4) && ctx.PrimaryUsable(V6)
    requires rule.action.Route? ==> HasLane(ctx.lanes, rule.action.lane)
    requires target.Network? ==> forall f :: f in families ==> f == target.net.addr.family
    ensures AllSound(ctx.plans, CompileFamilies(ctx, rule, target, families))
    decreases |families|
  {
    if families != [] {
      var f, rest := families[|families| - 1], families[..|families| - 1];
      assert f in families && forall x :: x in rest ==> x in families;
      FamiliesAreSound(ctx, rule, target, rest);
      if FamilyAction(ctx, rule, f).Some? {
        ActionIsSound(ctx, rule, target, f);
      }
    }
  }

  lemma {:induction false} TargetsAreSound(ctx: Context, rule: ProfileRule, targets: seq<CompiledTarget>)
    requires ctx.PrimaryUsable(V4) && ctx.PrimaryUsable(V6)
    requires rule.action.Route? ==> HasLane(ctx.lanes, rule.action.lane)
    ensures AllSound(ctx.plans, CompileTargets(ctx, rule, targets))
    decreases |targets|
  {
    if targets != [] {
      var target, rest := targets[|targets| - 1], targets[..|targets| - 1];
      TargetsAreSound(ctx, rule, rest);
      FamiliesAreSound(ctx, rule, target, TargetFamilies(target));
    }
  }

  lemma {:induction false} RulesAreSound(ctx: Context, rules: seq<ProfileRule>)
    requires ctx.PrimaryUsable(V4) && ctx.PrimaryUsable(V6) && ActionsKnown(ctx, rules)
    requires CompileRules(ctx, rules).Ok?
    ensures AllSound(ctx.plans, CompileRules(ctx, rules).value)
    decreases |rules|
  {
    if rules != [] {
      var n := |rules| - 1;
      CompileStep(ctx, rules, n);
      RulesAreSound(ctx, rules[..n]);
      TargetsAreSound(ctx, rules[n], RuleTargets(rules[n], ctx.resolutions).value);
    }
  }

  lemma PlanRulesAreSound(
    plan: KernelPlan, profile: Profile, topology: Topology, resolutions: Resolutions, primary: PrimaryDecision)
    requires PlanOf(plan, profile, topology, resolutions, primary)
    ensures AllSound(plan.lanes, plan.rules)
    ensures Sticky.ConsistentFamilies(plan)
  {
    var ctx := ContextOf(profile, topology, resolutions, primary);
    PlanContext(plan, profile, topology, resolutions, primary);
    RulesAreSound(ctx, ExecutionOrder(profile.rules));
    DeduplicatedKeysAreUnique(CompileRules(ctx, ExecutionOrder(profile.rules)).value);
  }

  /** In a compiled plan every packet is decided for its own family. */
  lemma CompiledPlansMarkForOwnFamily(
    plan: KernelPlan, profile: Profile, topology: Topology, resolutions: Resolutions, primary: PrimaryDecision)
    requires PlanOf(plan, profile, topology, resolutions, primary)
    ensures Sticky.MarksForOwnFamily(plan)
    ensures forall p :: Sticky.DecidingFamily(plan, p) == p.Family()
  {
    PlanRulesAreSound(plan, profile, topology, resolutions, primary);
    forall p ensures Sticky.MarkedForOwnFamily(plan, p) && Sticky.DecidingFamily(plan, p) == p.Family() {
      Sticky.HarmlessMarks(plan, p);
      Sticky.ConsistentMeansOwnFamily(plan, p);
    }
  }

  lemma LanesAreValid(profile: Profile, topology: Topology)
    requires UniqueLanes(profile.lanes) && |profile.lanes| <= MAX_LANES
    ensures var plans := CompileLanes(SortLanes(profile.lanes), topology);
            && |plans| <= MAX_LANES && DistinctTables(plans) && DistinctMarks(plans)
            && (forall i :: 0 <= i < |plans| ==> InReservedRanges(plans[i]))
            && (forall i, j :: 0 <= i < j < |plans| ==> plans[i].id != plans[j].id)
            && (forall i, j :: 0 <= i < j < |plans| ==> plans[i].rulePriority != plans[j].rulePriority)
  {
    SortedIsUnique(profile.lanes);
  }

  /** Every mark a compiled rule carries belongs to a lane of its plan. */
  lemma MarksAreKnown(
    plan: KernelPlan, profile: Profile, topology: Topology, resolutions: Resolutions, primary: PrimaryDecision)
    requires PlanOf(plan, profile, topology, resolutions, primary)
    ensures forall i :: 0 <= i < |plan.rules| && plan.rules[i].action.Mark? ==>
              exists n :: 0 <= n < |plan.lanes| && plan.lanes[n].mark == plan.rules[i].action.mark
  {
    PlanRulesAreSound(plan, profile, topology, resolutions, primary);
    forall i | 0 <= i < |plan.rules| && plan.rules[i].action.Mark?
      ensures exists n :: 0 <= n < |plan.lanes| && plan.lanes[n].mark == plan.rules[i].action.mark
    {
      assert SoundRule(plan.lanes, plan.rules[i]);
      var lane :| lane in plan.lanes && lane.mark == plan.rules[i].action.mark && FamilyAvailable(lane, plan.rules[i].family);
      var n :| 0 <= n < |plan.lanes| && plan.lanes[n] == lane;
    }
  }

  // Readiness.

  /** What observation guarantees: interfaces are listed under their own names, with kernel indices. */
  ghost predicate WellFormedTopology(topology: Topology) {
    && topology.observed
    && forall name :: name in topology.interfaces && topology.interfaces[name].identity.Some? ==>
         && topology.interfaces[name].identity.value.name == name
         && 0 < topology.interfaces[name].identity.value.ifindex <= IFINDEX_MAX
  }

  lemma AvailableMeansReady(lane: Lane, topology: Topology, slot: nat, f: Family)
    requires WellFormedTopology(topology)
    ensures FamilyAvailable(CompileLane(lane, topology, slot), f) <==> Ready(CompileLane(lane, topology, slot), f)
  {
  }

  lemma PlanLanesReady(lanes: seq<Lane>, topology: Topology, plan: LanePlan, f: Family)
    requires WellFormedTopology(topology) && plan in CompileLanes(lanes, topology)
    ensures FamilyAvailable(plan, f) <==> Ready(plan, f)
  {
    var i :| 0 <= i < |lanes| && CompileLanes(lanes, topology)[i] == plan;
    AvailableMeansReady(lanes[i], topology, i, f);
  }

  /** On observed topology every mark a rule carries is the mark of a lane the renderer considers ready for that family. */
  lemma EmittedMarksAreReady(
    plan: KernelPlan, profile: Profile, topology: Topology, resolutions: Resolutions, primary: PrimaryDecision,
    rule: CompiledRule)
    requires PlanOf(plan, profile, topology, resolutions, primary) && WellFormedTopology(topology)
    requires rule in plan.rules
    ensures rule.action != CompiledAction.Direct
    ensures rule.action.Mark? ==> ReadyMark(plan.lanes, rule.family, rule.action.mark)
  {
    PlanContext(plan, profile, topology, resolutions, primary);
    PlanRulesAreSound(plan, profile, topology, resolutions, primary);
    assert SoundRule(plan.lanes, rule);
    if rule.action.Mark? {
      var lane :| lane in plan.lanes && lane.mark == rule.action.mark && FamilyAvailable(lane, rule.family);
      PlanLanesReady(SortLanes(profile.lanes), topology, lane, rule.family);
    }
  }

  lemma {:induction false} MarkOfTheOnly(plans: seq<LanePlan>, id: LaneId, f: Family)
    requires forall i, j :: 0 <= i < j < |plans| ==> plans[i].id != plans[j].id
    requires FindPlan(plans, id).Some? && Ready(FindPlan(plans, id).value, f)
    ensures MarkOf(plans, id, f) == Some(FindPlan(plans, id).value.mark)
  {
    if plans[0].id != id {
      MarkOfTheOnly(plans[1..], id, f);
    }
  }

  /** The renderer's primary mark is the planner's primary action. */
  lemma PrimariesAgree(
    plan: KernelPlan, profile: Profile, topology: Topology, resolutions: Resolutions, primary: PrimaryDecision, f: Family)
    requires PlanOf(plan, profile, topology, resolutions, primary) && WellFormedTopology(topology)
    ensures var ctx := ContextOf(profile, topology, resolutions, primary);
            && ctx.PrimaryUsable(f)
            && PrimaryAction(ctx, f) ==
               (if PrimaryMark(plan, f).Some? then Mark(PrimaryMark(plan, f).value) else CompiledAction.Block)
  {
    var ctx := ContextOf(profile, topology, resolutions, primary);
    PlanContext(plan, profile, topology, resolutions, primary);
    LanesAreValid(profile, topology);
    assert ctx.PrimaryUsable(f) by { assert f == V4 || f == V6; }
    if primary.effective.For(f).LaneExit? {
      var id := primary.effective.For(f).id;
      var lane := FindPlan(plan.lanes, id).value;
      PlanLanesReady(SortLanes(profile.lanes), topology, lane, f);
      MarkOfTheOnly(plan.lanes, id, f);
    }
  }

  // A new connection.

  /** The first packet of a connection this host opens. */
  predicate Opens(p: Packet) {
    p.mark == 0 && p.ct.Some? && p.ct.value.mark == 0 && p.ct.value.state == New && p.ct.value.direction == Original
  }

  function Marked(p: Packet, m: nat): Packet
    requires p.ct.Some?
  {
    p.(mark := m, ct := Some(p.ct.value.(mark := m)))
  }

  function Carry(action: CompiledAction, p: Packet): Outcome
    requires p.ct.Some?
  {
    if action.Mark? then Accept(Marked(p, action.mark)) else Refuse(p)
  }

  /** What the profile asks for: its deciding rule's action, or local delivery, or the primary exit. */
  function Intended(ctx: Context, networks: seq<IpNet>, rule: Option<ProfileRule>, p: Packet): Outcome
    requires ctx.PrimaryUsable(V4) && ctx.PrimaryUsable(V6) && p.ct.Some?
    requires rule.Some? && rule.value.action.Route? ==> HasLane(ctx.lanes, rule.value.action.lane)
    requires rule.Some? ==> FamilyAction(ctx, rule.value, p.Family()).Some?
  {
    if rule.Some? then
      Carry(FamilyAction(ctx, rule.value, p.Family()).value, p)
    else if SomeContains(networks, p.destination) then
      Accept(p)
    else
      assert ctx.PrimaryUsable(p.Family()) by { assert p.Family() == V4 || p.Family() == V6; }
      Carry(PrimaryAction(ctx, p.Family()), p)
  }

  lemma SelectedOpens(plan: KernelPlan, f: Family, m: nat, p: Packet)
    requires Opens(p) && ReadyMark(plan.lanes, f, m)
    ensures Selected(plan, f, m, p) == Accept(Marked(p, m)) && HasMark(plan.lanes, m)
  {
    var lane :| lane in plan.lanes && Ready(lane, f) && lane.mark == m;
  }

  lemma PrimaryIsReady(plan: KernelPlan, f: Family)
    ensures PrimaryMark(plan, f).Some? ==> ReadyMark(plan.lanes, f, PrimaryMark(plan, f).value)
  {
  }

  lemma OpensDecision(plan: KernelPlan, p: Packet)
    requires Opens(p) && !IsControl(p, plan.localNetworks)
    ensures Decide(plan, p) ==
            if FirstHit(plan.rules, p).Some? then
              ByAction(plan, FirstHit(plan.rules, p).value, p)
            else if SomeContains(plan.localNetworks, p.destination) then
              Accept(p)
            else
              ByPrimary(plan, p)
  {
  }

  lemma ActionCarries(plan: KernelPlan, rule: CompiledRule, p: Packet)
    requires Opens(p) && rule.action != CompiledAction.Direct
    requires rule.action.Mark? ==> ReadyMark(plan.lanes, rule.family, rule.action.mark)
    ensures ByAction(plan, rule, p) == Carry(rule.action, p)
  {
    if rule.action.Mark? {
      SelectedOpens(plan, rule.family, rule.action.mark, p);
    }
  }

  lemma PrimaryCarries(
    plan: KernelPlan, profile: Profile, topology: Topology, resolutions: Resolutions, primary: PrimaryDecision, p: Packet)
    requires PlanOf(plan, profile, topology, resolutions, primary) && WellFormedTopology(topology) && Opens(p)
    ensures var ctx := ContextOf(profile, topology, resolutions, primary);
            ctx.PrimaryUsable(p.Family()) && ByPrimary(plan, p) == Carry(PrimaryAction(ctx, p.Family()), p)
  {
    PrimariesAgree(plan, profile, topology, resolutions, primary, p.Family());
    PrimaryIsReady(plan, p.Family());
    if PrimaryMark(plan, p.Family()).Some? {
      SelectedOpens(plan, p.Family(), PrimaryMark(plan, p.Family()).value, p);
    }
  }

  lemma HitIsInPlan(plan: KernelPlan, p: Packet)
    requires FirstHit(plan.rules, p).Some?
    ensures FirstHit(plan.rules, p).value in plan.rules
  {
  }

  /** The rendered policy treats a new connection as the planner resolved its deciding rule. */
  lemma NewConnectionsFollow(
    plan: KernelPlan, profile: Profile, topology: Topology, resolutions: Resolutions, primary: PrimaryDecision, p: Packet)
    returns (rule: Option<ProfileRule>)
    requires PlanOf(plan, profile, topology, resolutions, primary) && WellFormedTopology(topology)
    requires Opens(p) && !IsControl(p, topology.localNetworks)
    ensures var ctx := ContextOf(profile, topology, resolutions, primary);
            && ctx.Valid() && ActionsKnown(ctx, profile.rules)
            && (rule.None? ==> Undecided(ctx, profile.rules, p))
            && (rule.Some? ==> Decides(ctx, profile.rules, p, rule.value))
            && Decide(plan, p) == Intended(ctx, topology.localNetworks, rule, p)
  {
    PlanContext(plan, profile, topology, resolutions, primary);
    rule := CompiledRulesMeanTheProfile(plan, profile, topology, resolutions, primary, p);
    OpensDecision(plan, p);
    if rule.Some? {
      var hit := FirstHit(plan.rules, p).value;
      HitIsInPlan(plan, p);
      EmittedMarksAreReady(plan, profile, topology, resolutions, primary, hit);
      ActionCarries(plan, hit, p);
    } else {
      PrimaryCarries(plan, profile, topology, resolutions, primary, p);
    }
  }

  // Plans of one profile.

  lemma {:induction false} RulesOfCompiled(plans: seq<LanePlan>, others: seq<LanePlan>)
    requires |plans| == |others|
    requires forall i :: 0 <= i < |plans| ==>
               plans[i].table == others[i].table && plans[i].mark == others[i].mark
               && plans[i].rulePriority == others[i].rulePriority
    ensures InstallRules(plans) == InstallRules(others)
  {
    if plans != [] {
      RulesOfCompiled(plans[1..], others[1..]);
    }
  }

  lemma {:induction false} NothingWithout(rules: seq<RuleOwnership>, dropped: seq<RuleOwnership>)
    requires forall r :: r in rules ==> r in dropped
    ensures Without(rules, dropped) == []
  {
    if rules != [] {
      NothingWithout(rules[1..], dropped);
    }
  }

  predicate TouchesRules(step: RoutingStep) {
    step.AddRule? || step.DeleteRule? || step.FlushTable?
  }

  ghost predicate RoutesOnly(steps: seq<RoutingStep>) {
    forall step :: step in steps ==> !TouchesRules(step)
  }

  lemma {:induction false} RouteStepsAreRoutes(previous: Option<seq<LanePlan>>, lanes: seq<LanePlan>)
    ensures RoutesOnly(RouteSteps(previous, lanes))
  {
    if lanes != [] {
      RouteStepsAreRoutes(previous, lanes[1..]);
    }
  }

  lemma {:induction false} SharedTablesRetireRoutes(previous: seq<LanePlan>, next: seq<LanePlan>)
    requires forall lane :: lane in previous ==> LaneForTable(next, lane.table).Some?
    ensures RoutesOnly(RetireRoutes(previous, next))
  {
    if previous != [] {
      SharedTablesRetireRoutes(previous[1..], next);
      var lane := LaneForTable(next, previous[0].table);
      assert RoutesOnly(RetireLane(previous[0], V4, lane.value) + RetireLane(previous[0], V6, lane.value));
    }
  }

  lemma SameTablesFound(plans: seq<LanePlan>, others: seq<LanePlan>, lane: LanePlan)
    requires |plans| == |others| && lane in plans
    requires forall i :: 0 <= i < |plans| ==> plans[i].table == others[i].table
    ensures LaneForTable(others, lane.table).Some?
  {
    var i :| 0 <= i < |plans| && plans[i] == lane;
    assert others[i] in others;
  }

  /** Between any two plans of one profile, whatever the topology, only routes change: no rule is added or deleted and no table is flushed. */
  lemma FailoverKeepsRules(profile: Profile, before: Topology, after: Topology)
    requires UniqueLanes(profile.lanes)
    ensures var previous := CompileLanes(SortLanes(profile.lanes), before);
            var next := CompileLanes(SortLanes(profile.lanes), after);
            RoutesOnly(TransitionSteps(Some(previous), next)) && RoutesOnly(RetireSteps(previous, next))
  {
    var previous := CompileLanes(SortLanes(profile.lanes), before);
    var next := CompileLanes(SortLanes(profile.lanes), after);
    RulesOfCompiled(previous, next);
    NothingWithout(InstallRules(next), InstallRules(previous));
    NothingWithout(InstallRules(previous), InstallRules(next));
    RouteStepsAreRoutes(Some(previous), next);
    forall lane | lane in previous
      ensures LaneForTable(next, lane.table).Some?
    {
      SameTablesFound(previous, next, lane);
    }
    SharedTablesRetireRoutes(previous, next);
    assert AddRules([]) == [] && DeleteRules([]) == [];
  }
}
