/** Exactly which compiled plans the privileged helper accepts. */
module PlannerLimits {
  import opened Wrappers
  import opened Plan
  import opened Domain
  import opened Planner
  import opened PlannerMeaning
  import opened PlannerPlans
  import Sorting
  import Fallback
  import Journal

  /** The rule is in effect for some family. */
  ghost predicate InEffect(ctx: Context, rule: ProfileRule)
    requires ctx.PrimaryUsable(V4) && ctx.PrimaryUsable(V6)
    requires rule.action.Route? ==> HasLane(ctx.lanes, rule.action.lane)
  {
    FamilyAction(ctx, rule, V4).Some? || FamilyAction(ctx, rule, V6).Some?
  }

  // ----- Which rules a profile compiles to -----

  function TargetsOf(rule: ProfileRule, resolutions: Resolutions): seq<CompiledTarget> {
    match RuleTargets(rule, resolutions) case Ok(targets) => targets case Err(_) => []
  }

  /** One of the rules that a source rule compiles to: a target, one of its families, and the action resolved for it. */
  ghost predicate CompiledFrom(ctx: Context, rule: ProfileRule, r: CompiledRule)
    requires ctx.PrimaryUsable(V4) && ctx.PrimaryUsable(V6)
    requires rule.action.Route? ==> HasLane(ctx.lanes, rule.action.lane)
  {
    && r.target in TargetsOf(rule, ctx.resolutions) && r.family in TargetFamilies(r.target)
    && r.id == rule.id && r.priority == rule.priority && FamilyAction(ctx, rule, r.family) == Some(r.action)
  }

  lemma {:induction false} FamiliesMembers(
    ctx: Context, rule: ProfileRule, target: CompiledTarget, families: seq<Family>, r: CompiledRule)
    requires ctx.PrimaryUsable(V4) && ctx.PrimaryUsable(V6)
    requires rule.action.Route? ==> HasLane(ctx.lanes, rule.action.lane)
    ensures r in CompileFamilies(ctx, rule, target, families) <==>
              && r.family in families && r.target == target
              && r.id == rule.id && r.priority == rule.priority && FamilyAction(ctx, rule, r.family) == Some(r.action)
    decreases |families|
  {
    if families != [] {
      FamiliesMembers(ctx, rule, target, families[..|families| - 1], r);
      LastOne(families, |families| - 1);
    }
  }

  lemma {:induction false} TargetsMembers(ctx: Context, rule: ProfileRule, targets: seq<CompiledTarget>, r: CompiledRule)
    requires ctx.PrimaryUsable(V4) && ctx.PrimaryUsable(V6)
    requires rule.action.Route? ==> HasLane(ctx.lanes, rule.action.lane)
    ensures r in CompileTargets(ctx, rule, targets) <==>
              && r.target in targets && r.family in TargetFamilies(r.target)
              && r.id == rule.id && r.priority == rule.priority && FamilyAction(ctx, rule, r.family) == Some(r.action)
    decreases |targets|
  {
    if targets != [] {
      var target := targets[|targets| - 1];
      TargetsMembers(ctx, rule, targets[..|targets| - 1], r);
      FamiliesMembers(ctx, rule, target, TargetFamilies(target), r);
      LastOne(targets, |targets| - 1);
    }
  }

  ghost predicate SomeCompiledFrom(ctx: Context, rules: seq<ProfileRule>, r: CompiledRule)
    requires ctx.PrimaryUsable(V4) && ctx.PrimaryUsable(V6) && ActionsKnown(ctx, rules)
  {
    exists rule :: rule in rules && CompiledFrom(ctx, rule, r)
  }

  lemma OneMoreSource(ctx: Context, rules: seq<ProfileRule>, n: nat, r: CompiledRule)
    requires ctx.PrimaryUsable(V4) && ctx.PrimaryUsable(V6) && ActionsKnown(ctx, rules) && |rules| == n + 1
    ensures ActionsKnown(ctx, rules[..n]) && (rules[n].action.Route? ==> HasLane(ctx.lanes, rules[n].action.lane))
    ensures SomeCompiledFrom(ctx, rules, r) <==> SomeCompiledFrom(ctx, rules[..n], r) || CompiledFrom(ctx, rules[n], r)
  {
    LastOne(rules, n);
    assert rules[n] in rules;
  }

  lemma {:induction false} CompiledMembers(ctx: Context, rules: seq<ProfileRule>, r: CompiledRule)
    requires ctx.PrimaryUsable(V4) && ctx.PrimaryUsable(V6) && ActionsKnown(ctx, rules)
    requires CompileRules(ctx, rules).Ok?
    ensures r in CompileRules(ctx, rules).value <==> SomeCompiledFrom(ctx, rules, r)
    decreases |rules|
  {
    if rules != [] {
      var n := |rules| - 1;
      CompileStep(ctx, rules, n);
      CompiledMembers(ctx, rules[..n], r);
      TargetsMembers(ctx, rules[n], RuleTargets(rules[n], ctx.resolutions).value, r);
      OneMoreSource(ctx, rules, n, r);
    }
  }

  /** The distinct family, destination and action of everything that the enabled rules in effect compile to. */
  ghost function ProfileKeys(ctx: Context, rules: seq<ProfileRule>): set<RoutingKey>
    requires ctx.PrimaryUsable(V4) && ctx.PrimaryUsable(V6) && ActionsKnown(ctx, rules)
  {
    set rule: ProfileRule, target, f |
      && rule in rules && rule.enabled && target in TargetsOf(rule, ctx.resolutions)
      && f in TargetFamilies(target) && FamilyAction(ctx, rule, f).Some?
      :: KeyOf(CompiledRule(f, rule.id, rule.priority, target, FamilyAction(ctx, rule, f).value))
  }

  lemma PlanMembers(
    plan: KernelPlan, profile: Profile, topology: Topology, resolutions: Resolutions, primary: PrimaryDecision, r: CompiledRule)
    requires PlanOf(plan, profile, topology, resolutions, primary)
    ensures var ctx := ContextOf(profile, topology, resolutions, primary);
            && ctx.Valid() && ActionsKnown(ctx, profile.rules)
            && (r in plan.rules ==>
                  exists rule: ProfileRule :: rule in profile.rules && rule.enabled && CompiledFrom(ctx, rule, r))
            && ((exists rule: ProfileRule :: rule in profile.rules && rule.enabled && CompiledFrom(ctx, rule, r)) ==>
                  KeyOf(r) in KeysOf(plan.rules))
  {
    var ctx, ordered := ContextOf(profile, topology, resolutions, primary), ExecutionOrder(profile.rules);
    PlanContext(plan, profile, topology, resolutions, primary);
    var compiled := CompileRules(ctx, ordered).value;
    CompiledMembers(ctx, ordered, r);
    DeduplicatedKeysAreUnique(compiled);
    forall rule: ProfileRule ensures rule in ordered <==> rule in profile.rules && rule.enabled {
      OrderedMembers(profile.rules, rule);
    }
    if r in compiled {
      assert KeyOf(r) in KeysOf(compiled);
    }
  }

  lemma {:induction false} OneKeyEach(rules: seq<CompiledRule>)
    requires UniqueKeys(rules)
    ensures |KeysOf(rules)| == |rules|
  {
    if rules != [] {
      var n := |rules| - 1;
      OneKeyEach(rules[..n]);
      KeysAppend(rules[..n], rules[n]);
      LastOne(rules, n);
    }
  }

  /** A plan has as many rules as its profile has distinct routing keys. */
  lemma RulesAreTheKeys(
    plan: KernelPlan, profile: Profile, topology: Topology, resolutions: Resolutions, primary: PrimaryDecision)
    requires PlanOf(plan, profile, topology, resolutions, primary)
    ensures var ctx := ContextOf(profile, topology, resolutions, primary);
            && ctx.Valid() && ActionsKnown(ctx, profile.rules)
            && KeysOf(plan.rules) == ProfileKeys(ctx, profile.rules)
            && |plan.rules| == |ProfileKeys(ctx, profile.rules)|
  {
    var ctx := ContextOf(profile, topology, resolutions, primary);
    PlanContext(plan, profile, topology, resolutions, primary);
    forall key ensures key in KeysOf(plan.rules) <==> key in ProfileKeys(ctx, profile.rules) {
      KeyMembers(plan, profile, topology, resolutions, primary, key);
    }
    DeduplicatedKeysAreUnique(CompileRules(ctx, ExecutionOrder(profile.rules)).value);
    OneKeyEach(plan.rules);
  }

  lemma KeyMembers(
    plan: KernelPlan, profile: Profile, topology: Topology, resolutions: Resolutions, primary: PrimaryDecision, key: RoutingKey)
    requires PlanOf(plan, profile, topology, resolutions, primary)
    ensures var ctx := ContextOf(profile, topology, resolutions, primary);
            && ctx.Valid() && ActionsKnown(ctx, profile.rules)
            && (key in KeysOf(plan.rules) <==> key in ProfileKeys(ctx, profile.rules))
  {
    var ctx := ContextOf(profile, topology, resolutions, primary);
    PlanContext(plan, profile, topology, resolutions, primary);
    if r :| r in plan.rules && KeyOf(r) == key {
      PlanMembers(plan, profile, topology, resolutions, primary, r);
      var rule: ProfileRule :| rule in profile.rules && rule.enabled && CompiledFrom(ctx, rule, r);
      assert r == CompiledRule(r.family, rule.id, rule.priority, r.target, FamilyAction(ctx, rule, r.family).value);
    }
    if key in ProfileKeys(ctx, profile.rules) {
      var rule: ProfileRule, target, f :|
        && rule in profile.rules && rule.enabled && target in TargetsOf(rule, ctx.resolutions)
        && f in TargetFamilies(target) && FamilyAction(ctx, rule, f).Some?
        && key == KeyOf(CompiledRule(f, rule.id, rule.priority, target, FamilyAction(ctx, rule, f).value));
      var r := CompiledRule(f, rule.id, rule.priority, target, FamilyAction(ctx, rule, f).value);
      assert CompiledFrom(ctx, rule, r);
      PlanMembers(plan, profile, topology, resolutions, primary, r);
    }
  }

  // ----- Application ids -----

  /** Every enabled application rule in effect has an id that a cgroup may be named after. */
  ghost predicate NamesApplications(profile: Profile, ctx: Context)
    requires ctx.PrimaryUsable(V4) && ctx.PrimaryUsable(V6) && ActionsKnown(ctx, profile.rules)
  {
    forall rule: ProfileRule :: rule in profile.rules && rule.enabled && rule.source.Application? && InEffect(ctx, rule) ==>
      IsApplicationId(rule.id)
  }

  ghost predicate CgroupsAreApplications(rules: seq<CompiledRule>) {
    forall r :: r in rules && r.target.Cgroup? ==> IsApplicationCgroup(r.target.path)
  }

  lemma PlanNamesApplications(
    plan: KernelPlan, profile: Profile, topology: Topology, resolutions: Resolutions, primary: PrimaryDecision)
    requires PlanOf(plan, profile, topology, resolutions, primary)
    ensures var ctx := ContextOf(profile, topology, resolutions, primary);
            && ctx.Valid() && ActionsKnown(ctx, profile.rules)
            && (NamesApplications(profile, ctx) <==> CgroupsAreApplications(plan.rules))
  {
    var ctx := ContextOf(profile, topology, resolutions, primary);
    PlanContext(plan, profile, topology, resolutions, primary);
    forall r | r in plan.rules && r.target.Cgroup?
      ensures exists rule: ProfileRule :: && rule in profile.rules && rule.enabled && rule.source.Application?
                                          && InEffect(ctx, rule) && r.target.path == ApplicationCgroup(rule.id)
                                          && (IsApplicationCgroup(r.target.path) <==> IsApplicationId(rule.id))
    {
      PlanMembers(plan, profile, topology, resolutions, primary, r);
      var rule: ProfileRule :| rule in profile.rules && rule.enabled && CompiledFrom(ctx, rule, r);
      OnlyApplicationsHaveCgroups(rule, ctx.resolutions, r.target);
      assert r.family == V4 || r.family == V6;
      ApplicationCgroupIsRecognised(rule.id);
    }
    forall rule: ProfileRule | rule in profile.rules && rule.enabled && rule.source.Application? && InEffect(ctx, rule)
      ensures exists r :: r in plan.rules && r.target == Cgroup(ApplicationCgroup(rule.id))
      ensures IsApplicationCgroup(ApplicationCgroup(rule.id)) <==> IsApplicationId(rule.id)
    {
      ApplicationIsInPlan(plan, profile, topology, resolutions, primary, rule);
      ApplicationCgroupIsRecognised(rule.id);
    }
  }

  lemma OnlyApplicationsHaveCgroups(rule: ProfileRule, resolutions: Resolutions, target: CompiledTarget)
    requires target in TargetsOf(rule, resolutions) && target.Cgroup?
    ensures rule.source.Application? && target.path == ApplicationCgroup(rule.id)
  {
  }

  lemma ApplicationIsInPlan(
    plan: KernelPlan, profile: Profile, topology: Topology, resolutions: Resolutions, primary: PrimaryDecision, rule: ProfileRule)
    requires PlanOf(plan, profile, topology, resolutions, primary)
    requires rule in profile.rules && rule.enabled && rule.source.Application?
    requires var ctx := ContextOf(profile, topology, resolutions, primary);
             ctx.PrimaryUsable(V4) && ctx.PrimaryUsable(V6) && ActionsKnown(ctx, profile.rules) && InEffect(ctx, rule)
    ensures exists r :: r in plan.rules && r.target == Cgroup(ApplicationCgroup(rule.id))
  {
    var ctx := ContextOf(profile, topology, resolutions, primary);
    var f := if FamilyAction(ctx, rule, V4).Some? then V4 else V6;
    var r := CompiledRule(f, rule.id, rule.priority, Cgroup(ApplicationCgroup(rule.id)), FamilyAction(ctx, rule, f).value);
    assert FAMILIES[0] == V4 && FAMILIES[1] == V6;
    assert CompiledFrom(ctx, rule, r);
    PlanMembers(plan, profile, topology, resolutions, primary, r);
    var kept :| kept in plan.rules && KeyOf(kept) == KeyOf(r);
  }

  lemma LanesAreNamed(profile: Profile, topology: Topology)
    ensures var plans := CompileLanes(SortLanes(profile.lanes), topology);
            (forall i :: 0 <= i < |plans| ==> IsKernelInterfaceName(plans[i].iface))
            <==> (forall lane: Lane :: lane in profile.lanes ==> IsKernelInterfaceName(lane.iface))
  {
    var sorted := SortLanes(profile.lanes);
    var plans := CompileLanes(sorted, topology);
    Sorting.SortKeeps(profile.lanes, LaneBefore);
    forall lane: Lane | lane in profile.lanes ensures exists i :: 0 <= i < |plans| && plans[i].iface == lane.iface {
      assert lane in sorted;
      var i :| 0 <= i < |sorted| && sorted[i] == lane;
      assert plans[i].iface == lane.iface;
    }
    forall i | 0 <= i < |plans| ensures exists lane: Lane :: lane in profile.lanes && plans[i].iface == lane.iface {
      assert sorted[i] in sorted;
    }
  }

  /**
   * A compiled plan passes the helper's validation exactly when the profile has no more distinct routing keys than
   * the helper takes rules, its lanes have kernel interface names, and its application rules have ids that a cgroup
   * may be named after.
   */
  lemma CompiledPlansAreValidIff(
    plan: KernelPlan, profile: Profile, topology: Topology, resolutions: Resolutions, primary: PrimaryDecision)
    requires PlanOf(plan, profile, topology, resolutions, primary) && plan.generation > 0
    ensures var ctx := ContextOf(profile, topology, resolutions, primary);
            && ctx.Valid() && ActionsKnown(ctx, profile.rules)
            && (Journal.ValidPlan(plan) <==>
                  && |ProfileKeys(ctx, profile.rules)| <= MAX_RULES
                  && (forall lane: Lane :: lane in profile.lanes ==> IsKernelInterfaceName(lane.iface))
                  && NamesApplications(profile, ctx))
  {
    PlanContext(plan, profile, topology, resolutions, primary);
    LanesAreValid(profile, topology);
    LanesAreNamed(profile, topology);
    RulesAreTheKeys(plan, profile, topology, resolutions, primary);
    PlanNamesApplications(plan, profile, topology, resolutions, primary);
    MarksAreKnown(plan, profile, topology, resolutions, primary);
    ValidBut(plan);
  }

  /** What the planner leaves open of the helper's validation. */
  lemma ValidBut(plan: KernelPlan)
    requires plan.generation > 0 && |plan.lanes| <= MAX_LANES && DistinctTables(plan.lanes) && DistinctMarks(plan.lanes)
    requires forall i :: 0 <= i < |plan.lanes| ==> InReservedRanges(plan.lanes[i])
    requires forall i, j :: 0 <= i < j < |plan.lanes| ==> plan.lanes[i].id != plan.lanes[j].id
    requires forall i, j :: 0 <= i < j < |plan.lanes| ==> plan.lanes[i].rulePriority != plan.lanes[j].rulePriority
    requires forall i :: 0 <= i < |plan.rules| && plan.rules[i].action.Mark? ==>
               exists n :: 0 <= n < |plan.lanes| && plan.lanes[n].mark == plan.rules[i].action.mark
    ensures Journal.ValidPlan(plan) <==>
              && |plan.rules| <= MAX_RULES
              && (forall i :: 0 <= i < |plan.lanes| ==> IsKernelInterfaceName(plan.lanes[i].iface))
              && CgroupsAreApplications(plan.rules)
  {
    assert forall i :: 0 <= i < |plan.rules| ==> plan.rules[i] in plan.rules;
  }

  // ----- Valid profiles that compile to refused plans -----

  const NO_TOPOLOGY: Topology := Topology(map[], FamilyPair(NoDefault, NoDefault), true, [], [])
  const NO_EXIT: PrimaryDecision := PrimaryDecision(FamilyPair(None, None), FamilyPair(Blocked, Blocked))

  /** Applications sent to one lane whose interface is away: blocked, so their rules are in effect. */
  function Applications(rules: seq<ProfileRule>): Profile {
    Profile("default", true, [Lane("wan", Some("wan"), "eth0", None, BlockTraffic)], rules,
            RoutingPolicy(PreserveSystem, FollowSystemDefault, [], false))
  }

  function ApplicationRule(id: RuleId): ProfileRule {
    ProfileRule(id, true, 0, Application("/opt/" + id, false, None), AnyDestination, Route("wan"))
  }

  ghost predicate AreApplications(rules: seq<ProfileRule>) {
    forall i :: 0 <= i < |rules| ==> rules[i] == ApplicationRule(rules[i].id)
  }

  lemma ApplicationsAreValid(rules: seq<ProfileRule>)
    requires AreApplications(rules) && UniqueRules(rules) && |rules| <= MAX_RULES
    ensures ValidProfile(Applications(rules))
  {
    var profile := Applications(rules);
    assert profile.lanes[0].id == "wan";
    forall id, n: nat | n > 0 ensures Fallback.Hop(profile.lanes, id, n) != Some(id) {
      assert Fallback.Hop(profile.lanes, id, n).None?;
    }
    forall i, j | 0 <= i < j < |rules| ensures ContentOf(rules[i]) != ContentOf(rules[j]) {
      assert rules[i].source.executable[5..] == rules[i].id && rules[j].source.executable[5..] == rules[j].id;
    }
  }

  lemma ApplicationsContext(rules: seq<ProfileRule>) returns (ctx: Context)
    requires AreApplications(rules) && UniqueRules(rules) && |rules| <= MAX_RULES
    ensures ctx == ContextOf(Applications(rules), NO_TOPOLOGY, map[], NO_EXIT)
    ensures ctx.PrimaryUsable(V4) && ctx.PrimaryUsable(V6) && HasLane(ctx.lanes, "wan")
    ensures forall f :: RouteAction(ctx, "wan", f) == Some(CompiledAction.Block)
  {
    ctx := ContextOf(Applications(rules), NO_TOPOLOGY, map[], NO_EXIT);
    assert ctx.lanes[0].id == "wan";
    forall plan | plan in ctx.plans ensures plan.availability == Unavailable {
    }
    forall f ensures RouteAction(ctx, "wan", f) == Some(CompiledAction.Block) {
      NoneAvailable(ctx.plans, Fallback.Chain(ctx.lanes, "wan"), f);
    }
  }

  lemma {:induction false} NoneAvailable(plans: seq<LanePlan>, chain: seq<LaneId>, f: Family)
    requires forall plan :: plan in plans ==> plan.availability == Unavailable
    ensures FirstAvailable(plans, chain, f).None?
    decreases |chain|
  {
    if chain != [] {
      NoneAvailable(plans, chain[1..], f);
    }
  }

  function BlockedKey(id: RuleId, f: Family): RoutingKey {
    RoutingKey(f, Cgroup(ApplicationCgroup(id)), CompiledAction.Block)
  }

  function BlockedKeys(rules: seq<ProfileRule>): set<RoutingKey> {
    if rules == [] then {}
    else BlockedKeys(rules[..|rules| - 1]) + {BlockedKey(rules[|rules| - 1].id, V4), BlockedKey(rules[|rules| - 1].id, V6)}
  }

  lemma {:induction false} BlockedKeysOf(rules: seq<ProfileRule>, key: RoutingKey)
    ensures key in BlockedKeys(rules) <==> exists rule :: rule in rules && (key == BlockedKey(rule.id, V4) || key == BlockedKey(rule.id, V6))
  {
    if rules != [] {
      BlockedKeysOf(rules[..|rules| - 1], key);
      assert rules == rules[..|rules| - 1] + [rules[|rules| - 1]];
    }
  }

  lemma {:induction false} TwoKeysEach(rules: seq<ProfileRule>)
    requires UniqueRules(rules)
    ensures |BlockedKeys(rules)| == 2 * |rules|
  {
    if rules != [] {
      var n := |rules| - 1;
      TwoKeysEach(rules[..n]);
      forall f ensures BlockedKey(rules[n].id, f) !in BlockedKeys(rules[..n]) {
        BlockedKeysOf(rules[..n], BlockedKey(rules[n].id, f));
        forall rule, g | rule in rules[..n] ensures BlockedKey(rule.id, g) != BlockedKey(rules[n].id, f) {
          SameCgroupSameId(rule.id, rules[n].id);
        }
      }
    }
  }

  lemma SameCgroupSameId(a: RuleId, b: RuleId)
    ensures ApplicationCgroup(a) == ApplicationCgroup(b) ==> a == b
  {
    assert ApplicationCgroup(a)[|APPLICATION_CGROUPS|..] == a && ApplicationCgroup(b)[|APPLICATION_CGROUPS|..] == b;
  }

  /** Every application rule has a blocking key for each family. */
  lemma BlockedKeysAreKeys(ctx: Context, rules: seq<ProfileRule>)
    requires ctx.PrimaryUsable(V4) && ctx.PrimaryUsable(V6) && HasLane(ctx.lanes, "wan")
    requires forall f :: RouteAction(ctx, "wan", f) == Some(CompiledAction.Block)
    requires AreApplications(rules) && UniqueRules(rules)
    ensures ActionsKnown(ctx, rules) && |ProfileKeys(ctx, rules)| >= 2 * |rules|
    ensures forall rule :: rule in rules ==> InEffect(ctx, rule)
  {
    forall key | key in BlockedKeys(rules) ensures key in ProfileKeys(ctx, rules) {
      BlockedKeysOf(rules, key);
      var rule :| rule in rules && (key == BlockedKey(rule.id, V4) || key == BlockedKey(rule.id, V6));
      var target := Cgroup(ApplicationCgroup(rule.id));
      assert target in TargetsOf(rule, ctx.resolutions) && FAMILIES[0] == V4 && FAMILIES[1] == V6;
      assert key.family in TargetFamilies(target) && FamilyAction(ctx, rule, key.family) == Some(CompiledAction.Block);
      assert key == KeyOf(CompiledRule(key.family, rule.id, rule.priority, target, CompiledAction.Block));
    }
    TwoKeysEach(rules);
    SubsetSize(BlockedKeys(rules), ProfileKeys(ctx, rules));
  }

  lemma SubsetSize(a: set<RoutingKey>, b: set<RoutingKey>)
    requires a <= b
    ensures |a| <= |b|
  {
    assert b == a + (b - a);
  }

  /** Application rules always compile. */
  lemma ApplicationsCompile(ctx: Context, rules: seq<ProfileRule>)
    requires ctx.PrimaryUsable(V4) && ctx.PrimaryUsable(V6) && HasLane(ctx.lanes, "wan") && AreApplications(rules)
    ensures ActionsKnown(ctx, ExecutionOrder(rules)) && CompileRules(ctx, ExecutionOrder(rules)).Ok?
  {
    var ordered := ExecutionOrder(rules);
    forall k | 0 <= k < |ordered| ensures RuleTargets(ordered[k], ctx.resolutions).Ok? {
      assert ordered[k] in ordered;
      OrderedMembers(rules, ordered[k]);
    }
    forall rule | rule in ordered ensures rule in rules {
      OrderedMembers(rules, rule);
    }
    var _ := FailsAtTheFirstUnsupported(ctx, ordered);
  }

  /** A valid profile of application rules compiles, and the helper refuses the plan for too many rules or for one bad id. */
  lemma ApplicationsAreRefusedIf(rules: seq<ProfileRule>, generation: nat) returns (plan: KernelPlan)
    requires AreApplications(rules) && UniqueRules(rules) && |rules| <= MAX_RULES && generation > 0
    ensures PlanOf(plan, Applications(rules), NO_TOPOLOGY, map[], NO_EXIT) && plan.generation == generation
    ensures 2 * |rules| > MAX_RULES || (exists rule :: rule in rules && !IsApplicationId(rule.id)) ==> !Journal.ValidPlan(plan)
  {
    var profile := Applications(rules);
    ApplicationsAreValid(rules);
    var ctx := ApplicationsContext(rules);
    ApplicationsCompile(ctx, rules);
    plan := CompileValid(profile, NO_TOPOLOGY, map[], NO_EXIT, generation).value;
    CompiledPlansAreValidIff(plan, profile, NO_TOPOLOGY, map[], NO_EXIT);
    BlockedKeysAreKeys(ctx, rules);
  }

  /** One rule called "a.b": the smallest refusal. */
  lemma DottedIdIsRefused() returns (plan: KernelPlan)
    ensures PlanOf(plan, Applications([ApplicationRule("a.b")]), NO_TOPOLOGY, map[], NO_EXIT) && !Journal.ValidPlan(plan)
  {
    var rule := ApplicationRule("a.b");
    assert rule.id[1] == '.' && '.' in rule.id && rule in [rule];
    plan := ApplicationsAreRefusedIf([rule], 1);
  }

  /** Rules called "a", "aa", "aaa" and so on. */
  function Named(n: nat): seq<ProfileRule> {
    seq(n, (i: nat) => ApplicationRule(Letters(i + 1)))
  }

  function Letters(n: nat): (s: string)
    ensures |s| == n && forall c :: c in s ==> c == 'a'
  {
    if n == 0 then "" else Letters(n - 1) + "a"
  }

  lemma NamedAreFine(n: nat)
    ensures AreApplications(Named(n)) && UniqueRules(Named(n))
    ensures forall rule :: rule in Named(n) ==> IsApplicationId(rule.id)
  {
  }

  /** 5,001 application rules with fine ids are too many, although a profile may hold twice as many. */
  lemma TooManyRulesAreRefused() returns (plan: KernelPlan)
    ensures PlanOf(plan, Applications(Named(5_001)), NO_TOPOLOGY, map[], NO_EXIT) && !Journal.ValidPlan(plan)
    ensures forall rule :: rule in Named(5_001) ==> IsApplicationId(rule.id)
  {
    NamedAreFine(5_001);
    plan := ApplicationsAreRefusedIf(Named(5_001), 1);
  }
}
