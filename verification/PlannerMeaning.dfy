/** What a compiled plan means for packets, lanes and the transitions between plans of one profile. */
module PlannerMeaning {
  import opened Wrappers
  import opened Plan
  import opened Domain
  import opened Fallback
  import opened Planner
  import opened NftChains
  import opened NftRender
  import opened NftPolicy
  import Sorting

  // First match over compiled rules, as a rule.

  function FirstHit(rules: seq<CompiledRule>, p: Packet): Option<CompiledRule> {
    match FirstRule(rules, p)
    case None => None
    case Some(k) => Some(rules[k])
  }

  lemma {:induction false} FirstHitAppend(a: seq<CompiledRule>, b: seq<CompiledRule>, p: Packet)
    ensures FirstHit(a + b, p) == if FirstHit(a, p).Some? then FirstHit(a, p) else FirstHit(b, p)
    decreases |a|
  {
    if a == [] {
      assert a + b == b;
    } else {
      assert (a + b)[0] == a[0] && (a + b)[1..] == a[1..] + b;
      if !TargetMatches(a[0], p) {
        FirstHitStep(a, p);
        FirstHitStep(a + b, p);
        FirstHitAppend(a[1..], b, p);
      }
    }
  }

  lemma FirstHitStep(rules: seq<CompiledRule>, p: Packet)
    requires rules != [] && !TargetMatches(rules[0], p)
    ensures FirstHit(rules, p) == FirstHit(rules[1..], p)
  {
  }

  lemma FirstHitOne(rule: CompiledRule, p: Packet)
    ensures FirstHit([rule], p) == if TargetMatches(rule, p) then Some(rule) else None
  {
    assert [rule][1..] == [];
  }

  // Deduplication.

  predicate KeyMatches(key: RoutingKey, p: Packet) {
    match key.target
    case AnyTarget => p.Family() == key.family
    case Network(n) => Contains(n, p.destination)
    case Cgroup(path) => p.Family() == key.family && p.cgroup == Some(path)
  }

  lemma KeyDecidesMatch(rule: CompiledRule, p: Packet)
    ensures TargetMatches(rule, p) == KeyMatches(KeyOf(rule), p)
  {
    if rule.target.Network? {
      TruncKeepsMembers(rule.target.net, p.destination);
    }
  }

  lemma MissMeansNoMatch(rules: seq<CompiledRule>, p: Packet, rule: CompiledRule)
    requires FirstHit(rules, p).None? && rule in rules
    ensures !TargetMatches(rule, p)
  {
  }

  /** Dropping later rules of a seen key never changes the first match. */
  lemma {:induction false} DeduplicationKeepsFirstMatch(rules: seq<CompiledRule>, p: Packet)
    ensures FirstHit(Deduplicated(rules), p) == FirstHit(rules, p)
  {
    if rules != [] {
      var last, rest := rules[|rules| - 1], rules[..|rules| - 1];
      DeduplicationKeepsFirstMatch(rest, p);
      assert rules == rest + [last];
      FirstHitAppend(rest, [last], p);
      FirstHitOne(last, p);
      if KeyOf(last) in KeysOf(rest) {
        var twin :| twin in rest && KeyOf(twin) == KeyOf(last);
        KeyDecidesMatch(twin, p);
        KeyDecidesMatch(last, p);
        if FirstHit(rest, p).None? {
          MissMeansNoMatch(rest, p, twin);
        }
        assert Deduplicated(rules) == Deduplicated(rest);
      } else {
        FirstHitAppend(Deduplicated(rest), [last], p);
      }
    }
  }

  /** No two rules of a plan share a routing key, and every key survives. */
  lemma {:induction false} DeduplicatedKeysAreUnique(rules: seq<CompiledRule>)
    ensures var kept := Deduplicated(rules);
            && KeysOf(kept) == KeysOf(rules)
            && (forall i, j :: 0 <= i < j < |kept| ==> KeyOf(kept[i]) != KeyOf(kept[j]))
            && (forall rule :: rule in kept ==> rule in rules)
  {
    if rules != [] {
      var last, rest := rules[|rules| - 1], rules[..|rules| - 1];
      DeduplicatedKeysAreUnique(rest);
      var kept := Deduplicated(rest);
      assert rules == rest + [last];
      KeysAppend(rest, last);
      if KeyOf(last) !in KeysOf(rest) {
        KeysAppend(kept, last);
        forall i | 0 <= i < |kept|
          ensures KeyOf(kept[i]) != KeyOf(last)
        {
          assert KeyOf(kept[i]) in KeysOf(kept);
        }
      } else {
        assert Deduplicated(rules) == kept;
      }
    }
  }

  // One source rule.

  /** Whether a source rule is about a packet. */
  predicate SourceMatches(rule: ProfileRule, resolutions: Resolutions, p: Packet) {
    match rule.source
    case Application(_, _, _) => p.cgroup == Some(ApplicationCgroup(rule.id))
    case AnySource =>
      match rule.target
      case AnyDestination => true
      case Ip(address) => p.destination == address
      case Cidr(net) => Contains(net, p.destination)
      case DomainName(_) => rule.id in resolutions && SomeContains(resolutions[rule.id], p.destination)
      case WildcardDomain(_) => false
      case ServicePack(_) => false
  }

  predicate TargetHas(target: CompiledTarget, p: Packet) {
    match target
    case AnyTarget => true
    case Network(n) => Contains(n, p.destination)
    case Cgroup(path) => p.cgroup == Some(path)
  }

  predicate SomeTargetHas(targets: seq<CompiledTarget>, p: Packet) {
    exists target :: target in targets && TargetHas(target, p)
  }

  lemma TruncAllContains(networks: seq<IpNet>, a: IpAddr)
    ensures SomeContains(TruncAll(networks), a) == SomeContains(networks, a)
  {
    var truncated := TruncAll(networks);
    forall i | 0 <= i < |networks|
      ensures truncated[i] == Trunc(networks[i]) && Contains(truncated[i], a) == Contains(networks[i], a)
    {
      TruncKeepsMembers(networks[i], a);
    }
    if SomeContains(networks, a) {
      var n :| n in networks && Contains(n, a);
      var i :| 0 <= i < |networks| && networks[i] == n;
      assert truncated[i] in truncated;
    }
    if SomeContains(truncated, a) {
      var n :| n in truncated && Contains(n, a);
      var i :| 0 <= i < |truncated| && truncated[i] == n;
      assert networks[i] in networks;
    }
  }

  lemma NetworkTargetsHave(networks: seq<IpNet>, p: Packet)
    ensures SomeTargetHas(NetworkTargets(networks), p) == SomeContains(networks, p.destination)
  {
    var targets := NetworkTargets(networks);
    assert forall i :: 0 <= i < |networks| ==> targets[i] == Network(networks[i]);
    if SomeContains(networks, p.destination) {
      var n :| n in networks && Contains(n, p.destination);
      var i :| 0 <= i < |networks| && networks[i] == n;
      assert targets[i] in targets;
    }
    if SomeTargetHas(targets, p) {
      var target :| target in targets && TargetHas(target, p);
      var i :| 0 <= i < |targets| && targets[i] == target;
      assert networks[i] in networks;
    }
  }

  lemma TargetsAreTheSource(rule: ProfileRule, resolutions: Resolutions, p: Packet)
    requires RuleTargets(rule, resolutions).Ok?
    ensures SomeTargetHas(RuleTargets(rule, resolutions).value, p) == SourceMatches(rule, resolutions, p)
  {
    var targets := RuleTargets(rule, resolutions).value;
    if rule.source.AnySource? && rule.target.DomainName? {
      var truncated := TruncAll(resolutions[rule.id]);
      NetworkTargetsHave(SortedOnce(truncated), p);
      TruncAllContains(resolutions[rule.id], p.destination);
    } else {
      OneTargetHas(targets, p);
      if rule.source.AnySource? {
        match rule.target {
          case Ip(address) => HostNetworkIsOneAddress(HostNetwork(address), p.destination);
          case Cidr(net) => TruncKeepsMembers(net, p.destination);
          case _ =>
        }
      }
    }
  }

  lemma OneTargetHas(targets: seq<CompiledTarget>, p: Packet)
    requires |targets| == 1
    ensures SomeTargetHas(targets, p) == TargetHas(targets[0], p)
  {
    assert targets[0] in targets;
  }

  /** What one source rule compiles to for one packet: nothing, or its action for the packet's family. */
  predicate HitOf(ctx: Context, rule: ProfileRule, p: Packet, applies: bool, hit: Option<CompiledRule>)
    requires ctx.PrimaryUsable(V4) && ctx.PrimaryUsable(V6)
    requires rule.action.Route? ==> HasLane(ctx.lanes, rule.action.lane)
  {
    var action := FamilyAction(ctx, rule, p.Family());
    if applies && action.Some? then
      hit.Some? && hit.value.id == rule.id && hit.value.priority == rule.priority
      && hit.value.family == p.Family() && hit.value.action == action.value
    else
      hit.None?
  }

  function FamilyAction(ctx: Context, rule: ProfileRule, f: Family): Option<CompiledAction>
    requires ctx.PrimaryUsable(V4) && ctx.PrimaryUsable(V6)
    requires rule.action.Route? ==> HasLane(ctx.lanes, rule.action.lane)
  {
    assert ctx.PrimaryUsable(f) by { assert f == V4 || f == V6; }
    ResolveAction(ctx, rule.action, f)
  }

  lemma OneFamily(ctx: Context, rule: ProfileRule, target: CompiledTarget, f: Family, p: Packet)
    requires ctx.PrimaryUsable(V4) && ctx.PrimaryUsable(V6)
    requires rule.action.Route? ==> HasLane(ctx.lanes, rule.action.lane)
    requires target.Network? ==> target.net.addr.family == f
    ensures CompileFamilies(ctx, rule, target, [f]) ==
            if FamilyAction(ctx, rule, f).Some? then
              [CompiledRule(f, rule.id, rule.priority, target, FamilyAction(ctx, rule, f).value)]
            else
              []
    ensures HitOf(ctx, rule, p, TargetHas(target, p) && f == p.Family(), FirstHit(CompileFamilies(ctx, rule, target, [f]), p))
  {
    assert [f][..0] == [];
    var compiled := CompileFamilies(ctx, rule, target, [f]);
    if compiled != [] {
      FirstHitOne(compiled[0], p);
    }
  }

  lemma OneTarget(ctx: Context, rule: ProfileRule, target: CompiledTarget, p: Packet)
    requires ctx.PrimaryUsable(V4) && ctx.PrimaryUsable(V6)
    requires rule.action.Route? ==> HasLane(ctx.lanes, rule.action.lane)
    ensures HitOf(ctx, rule, p, TargetHas(target, p),
                  FirstHit(CompileFamilies(ctx, rule, target, TargetFamilies(target)), p))
  {
    if target.Network? {
      OneFamily(ctx, rule, target, target.net.addr.family, p);
    } else {
      var v4, v6 := CompileFamilies(ctx, rule, target, [V4]), CompileFamilies(ctx, rule, target, [V6]);
      OneFamily(ctx, rule, target, V4, p);
      OneFamily(ctx, rule, target, V6, p);
      assert FAMILIES[..1] == [V4] && FAMILIES[1] == V6;
      assert CompileFamilies(ctx, rule, target, FAMILIES) == v4 + v6;
      FirstHitAppend(v4, v6, p);
    }
  }

  lemma {:induction false} AllTargets(ctx: Context, rule: ProfileRule, targets: seq<CompiledTarget>, p: Packet)
    requires ctx.PrimaryUsable(V4) && ctx.PrimaryUsable(V6)
    requires rule.action.Route? ==> HasLane(ctx.lanes, rule.action.lane)
    ensures HitOf(ctx, rule, p, SomeTargetHas(targets, p), FirstHit(CompileTargets(ctx, rule, targets), p))
    decreases |targets|
  {
    if targets != [] {
      var target, rest := targets[|targets| - 1], targets[..|targets| - 1];
      AllTargets(ctx, rule, rest, p);
      OneTarget(ctx, rule, target, p);
      FirstHitAppend(CompileTargets(ctx, rule, rest), CompileFamilies(ctx, rule, target, TargetFamilies(target)), p);
      assert forall x :: x in targets <==> x == target || x in rest;
      assert SomeTargetHas(targets, p) <==> SomeTargetHas(rest, p) || TargetHas(target, p);
    }
  }

  // All rules, in order.

  /** A rule takes effect on a packet when it matches and is not inactive for the packet's family. */
  predicate TakesEffect(ctx: Context, rule: ProfileRule, p: Packet)
    requires ctx.PrimaryUsable(V4) && ctx.PrimaryUsable(V6)
    requires rule.action.Route? ==> HasLane(ctx.lanes, rule.action.lane)
  {
    SourceMatches(rule, ctx.resolutions, p) && FamilyAction(ctx, rule, p.Family()).Some?
  }

  /** The first rule of a list that takes effect. */
  ghost predicate FirstEffective(ctx: Context, rules: seq<ProfileRule>, p: Packet, k: nat)
    requires ctx.PrimaryUsable(V4) && ctx.PrimaryUsable(V6) && ActionsKnown(ctx, rules)
  {
    && k < |rules|
    && TakesEffect(ctx, rules[k], p)
    && forall j :: 0 <= j < k ==> !TakesEffect(ctx, rules[j], p)
  }

  ghost predicate NoneEffective(ctx: Context, rules: seq<ProfileRule>, p: Packet)
    requires ctx.PrimaryUsable(V4) && ctx.PrimaryUsable(V6) && ActionsKnown(ctx, rules)
  {
    forall j :: 0 <= j < |rules| ==> !TakesEffect(ctx, rules[j], p)
  }

  /** What a list of compiled rules says about a packet is what its source rules say. */
  ghost predicate SameMeaning(ctx: Context, rules: seq<ProfileRule>, p: Packet, hit: Option<CompiledRule>, k: nat)
    requires ctx.PrimaryUsable(V4) && ctx.PrimaryUsable(V6) && ActionsKnown(ctx, rules)
  {
    && (hit.None? ==> NoneEffective(ctx, rules, p))
    && (hit.Some? ==> FirstEffective(ctx, rules, p, k) && HitOf(ctx, rules[k], p, true, hit))
  }

  lemma MeaningGrows(
    ctx: Context, rest: seq<ProfileRule>, rule: ProfileRule, p: Packet,
    before: Option<CompiledRule>, here: Option<CompiledRule>, k: nat)
    requires ctx.PrimaryUsable(V4) && ctx.PrimaryUsable(V6) && ActionsKnown(ctx, rest + [rule])
    requires ActionsKnown(ctx, rest) && (rule.action.Route? ==> HasLane(ctx.lanes, rule.action.lane))
    requires SameMeaning(ctx, rest, p, before, k)
    requires HitOf(ctx, rule, p, SourceMatches(rule, ctx.resolutions, p), here)
    ensures var hit := if before.Some? then before else here;
            SameMeaning(ctx, rest + [rule], p, hit, if before.Some? then k else |rest|)
  {
    var rules := rest + [rule];
    assert rules[|rest|] == rule && forall j :: 0 <= j < |rest| ==> rules[j] == rest[j];
  }

  lemma RuleMeaning(ctx: Context, rule: ProfileRule, p: Packet)
    requires ctx.PrimaryUsable(V4) && ctx.PrimaryUsable(V6)
    requires rule.action.Route? ==> HasLane(ctx.lanes, rule.action.lane)
    requires RuleTargets(rule, ctx.resolutions).Ok?
    ensures HitOf(ctx, rule, p, SourceMatches(rule, ctx.resolutions, p),
                  FirstHit(CompileTargets(ctx, rule, RuleTargets(rule, ctx.resolutions).value), p))
  {
    AllTargets(ctx, rule, RuleTargets(rule, ctx.resolutions).value, p);
    TargetsAreTheSource(rule, ctx.resolutions, p);
  }

  lemma CompileStep(ctx: Context, rules: seq<ProfileRule>, n: nat)
    requires ctx.PrimaryUsable(V4) && ctx.PrimaryUsable(V6) && ActionsKnown(ctx, rules)
    requires |rules| == n + 1 && CompileRules(ctx, rules).Ok?
    ensures ActionsKnown(ctx, rules[..n]) && (rules[n].action.Route? ==> HasLane(ctx.lanes, rules[n].action.lane))
    ensures CompileRules(ctx, rules[..n]).Ok? && RuleTargets(rules[n], ctx.resolutions).Ok?
    ensures CompileRules(ctx, rules).value ==
            CompileRules(ctx, rules[..n]).value
            + CompileTargets(ctx, rules[n], RuleTargets(rules[n], ctx.resolutions).value)
  {
    assert rules[n] in rules;
  }

  lemma HitGrows(
    ctx: Context, rules: seq<ProfileRule>, n: nat, p: Packet, before: seq<CompiledRule>, here: seq<CompiledRule>, k: nat)
    returns (next: nat)
    requires ctx.PrimaryUsable(V4) && ctx.PrimaryUsable(V6) && ActionsKnown(ctx, rules) && |rules| == n + 1
    requires ActionsKnown(ctx, rules[..n]) && (rules[n].action.Route? ==> HasLane(ctx.lanes, rules[n].action.lane))
    requires SameMeaning(ctx, rules[..n], p, FirstHit(before, p), k)
    requires HitOf(ctx, rules[n], p, SourceMatches(rules[n], ctx.resolutions, p), FirstHit(here, p))
    ensures SameMeaning(ctx, rules, p, FirstHit(before + here, p), next)
  {
    FirstHitAppend(before, here, p);
    LastOne(rules, n);
    MeaningGrows(ctx, rules[..n], rules[n], p, FirstHit(before, p), FirstHit(here, p), k);
    next := if FirstHit(before, p).Some? then k else n;
  }

  lemma LastOne<T>(s: seq<T>, n: nat)
    requires |s| == n + 1
    ensures s[..n] + [s[n]] == s
  {
  }

  lemma ListMeaning(ctx: Context, rules: seq<ProfileRule>, p: Packet) returns (k: nat)
    requires ctx.PrimaryUsable(V4) && ctx.PrimaryUsable(V6) && ActionsKnown(ctx, rules)
    requires CompileRules(ctx, rules).Ok?
    ensures SameMeaning(ctx, rules, p, FirstHit(CompileRules(ctx, rules).value, p), k)
    decreases |rules|, 1
  {
    if rules == [] {
      k := 0;
    } else {
      k := LastRuleMeaning(ctx, rules, |rules| - 1, p);
    }
  }

  lemma LastRuleMeaning(ctx: Context, rules: seq<ProfileRule>, n: nat, p: Packet) returns (k: nat)
    requires ctx.PrimaryUsable(V4) && ctx.PrimaryUsable(V6) && ActionsKnown(ctx, rules)
    requires |rules| == n + 1 && CompileRules(ctx, rules).Ok?
    ensures SameMeaning(ctx, rules, p, FirstHit(CompileRules(ctx, rules).value, p), k)
    decreases |rules|, 0
  {
    CompileStep(ctx, rules, n);
    var before := CompileRules(ctx, rules[..n]).value;
    var here := CompileTargets(ctx, rules[n], RuleTargets(rules[n], ctx.resolutions).value);
    k := ListMeaning(ctx, rules[..n], p);
    RuleMeaning(ctx, rules[n], p);
    k := HitGrows(ctx, rules, n, p, before, here, k);
  }

  // The main theorem.

  ghost predicate PlanOf(
    plan: KernelPlan, profile: Profile, topology: Topology, resolutions: Resolutions, primary: PrimaryDecision)
  {
    && profile.enabled && ValidProfile(profile)
    && CompileValid(profile, topology, resolutions, primary, plan.generation) == Ok(plan)
  }

  lemma RuleOrderIsStrict()
    ensures Sorting.StrictWeakOrder(RuleBefore)
    ensures Sorting.StrictWeakOrder(LaneBefore)
  {
    forall a: ProfileRule, b: ProfileRule | RuleBefore(a, b) ensures !RuleBefore(b, a) {
      Sorting.TextIsTotal(a.id, b.id);
    }
    forall a: ProfileRule, b: ProfileRule, c: ProfileRule | !RuleBefore(b, a) && !RuleBefore(c, b) ensures !RuleBefore(c, a) {
      if a.priority == b.priority == c.priority {
        Sorting.TextNotBefore(a.id, b.id, c.id);
      }
    }
    forall a: Lane, b: Lane | LaneBefore(a, b) ensures !LaneBefore(b, a) {
      Sorting.TextIsTotal(a.id, b.id);
    }
    forall a: Lane, b: Lane, c: Lane | !LaneBefore(b, a) && !LaneBefore(c, b) ensures !LaneBefore(c, a) {
      Sorting.TextNotBefore(a.id, b.id, c.id);
    }
  }

  /** The rule the profile means: enabled, in effect, and no enabled rule in effect is executed before it. */
  ghost predicate Decides(ctx: Context, rules: seq<ProfileRule>, p: Packet, rule: ProfileRule)
    requires ctx.PrimaryUsable(V4) && ctx.PrimaryUsable(V6) && ActionsKnown(ctx, rules)
  {
    && rule in rules && rule.enabled && TakesEffect(ctx, rule, p)
    && forall other :: other in rules && other.enabled && TakesEffect(ctx, other, p) ==> !RuleBefore(other, rule)
  }

  ghost predicate Undecided(ctx: Context, rules: seq<ProfileRule>, p: Packet)
    requires ctx.PrimaryUsable(V4) && ctx.PrimaryUsable(V6) && ActionsKnown(ctx, rules)
  {
    forall rule :: rule in rules && rule.enabled ==> !TakesEffect(ctx, rule, p)
  }

  lemma OrderedMembers(rules: seq<ProfileRule>, rule: ProfileRule)
    ensures rule in ExecutionOrder(rules) <==> rule in rules && rule.enabled
  {
    Sorting.SortKeeps(Enabled(rules), RuleBefore);
    EnabledMembers(rules, rule);
  }

  lemma FirstInOrderDecides(ctx: Context, rules: seq<ProfileRule>, p: Packet, k: nat)
    requires ctx.PrimaryUsable(V4) && ctx.PrimaryUsable(V6) && ActionsKnown(ctx, rules)
    requires ActionsKnown(ctx, ExecutionOrder(rules)) && FirstEffective(ctx, ExecutionOrder(rules), p, k)
    ensures Decides(ctx, rules, p, ExecutionOrder(rules)[k])
  {
    var ordered := ExecutionOrder(rules);
    RuleOrderIsStrict();
    Sorting.SortSorts(Enabled(rules), RuleBefore);
    OrderedMembers(rules, ordered[k]);
    forall other | other in rules && other.enabled && TakesEffect(ctx, other, p)
      ensures !RuleBefore(other, ordered[k])
    {
      OrderedMembers(rules, other);
      var j :| 0 <= j < |ordered| && ordered[j] == other;
    }
  }

  lemma NoneInOrder(ctx: Context, rules: seq<ProfileRule>, p: Packet)
    requires ctx.PrimaryUsable(V4) && ctx.PrimaryUsable(V6) && ActionsKnown(ctx, rules)
    requires ActionsKnown(ctx, ExecutionOrder(rules)) && NoneEffective(ctx, ExecutionOrder(rules), p)
    ensures Undecided(ctx, rules, p)
  {
    forall rule | rule in rules && rule.enabled
      ensures !TakesEffect(ctx, rule, p)
    {
      OrderedMembers(rules, rule);
      var j :| 0 <= j < |ExecutionOrder(rules)| && ExecutionOrder(rules)[j] == rule;
    }
  }

  lemma PlanContext(
    plan: KernelPlan, profile: Profile, topology: Topology, resolutions: Resolutions, primary: PrimaryDecision)
    requires PlanOf(plan, profile, topology, resolutions, primary)
    ensures var ctx := ContextOf(profile, topology, resolutions, primary);
            && ctx.Valid()
            && ActionsKnown(ctx, profile.rules) && ActionsKnown(ctx, ExecutionOrder(profile.rules))
            && CompileRules(ctx, ExecutionOrder(profile.rules)).Ok?
            && plan.rules == Deduplicated(CompileRules(ctx, ExecutionOrder(profile.rules)).value)
            && plan.lanes == ctx.plans && plan.primary == primary
            && plan.localNetworks == topology.localNetworks && plan.localAddresses == topology.assignedAddresses
  {
    var ctx := ContextOf(profile, topology, resolutions, primary);
    ContextIsValid(profile, topology, resolutions, primary);
    OrderKeepsActions(profile, ctx);
    forall rule: ProfileRule | rule in profile.rules && rule.action.Route?
      ensures HasLane(ctx.lanes, rule.action.lane)
    {
      var i :| 0 <= i < |profile.rules| && profile.rules[i] == rule;
    }
  }

  /** First match over the compiled, deduplicated rules is the first enabled rule in (priority, id) order that is in effect, with its resolved action. */
  lemma CompiledRulesMeanTheProfile(
    plan: KernelPlan, profile: Profile, topology: Topology, resolutions: Resolutions, primary: PrimaryDecision, p: Packet)
    returns (rule: Option<ProfileRule>)
    requires PlanOf(plan, profile, topology, resolutions, primary)
    ensures var ctx := ContextOf(profile, topology, resolutions, primary);
            && ctx.Valid() && ActionsKnown(ctx, profile.rules)
            && (rule.None? ==> FirstHit(plan.rules, p).None? && Undecided(ctx, profile.rules, p))
            && (rule.Some? ==> Decides(ctx, profile.rules, p, rule.value)
                               && HitOf(ctx, rule.value, p, true, FirstHit(plan.rules, p)))
  {
    var ctx := ContextOf(profile, topology, resolutions, primary);
    var ordered := ExecutionOrder(profile.rules);
    PlanContext(plan, profile, topology, resolutions, primary);
    var compiled := CompileRules(ctx, ordered).value;
    DeduplicationKeepsFirstMatch(compiled, p);
    var k := ListMeaning(ctx, ordered, p);
    if FirstHit(compiled, p).Some? {
      FirstInOrderDecides(ctx, profile.rules, p, k);
      rule := Some(ordered[k]);
    } else {
      NoneInOrder(ctx, profile.rules, p);
      rule := None;
    }
  }

  /** Rule k is the first of the list that cannot be compiled. */
  ghost predicate FirstUnsupported(resolutions: Resolutions, rules: seq<ProfileRule>, k: nat, e: PlanError) {
    && k < |rules|
    && RuleTargets(rules[k], resolutions) == Err(e)
    && forall j :: 0 <= j < k ==> RuleTargets(rules[j], resolutions).Ok?
  }

  ghost predicate AllSupported(resolutions: Resolutions, rules: seq<ProfileRule>) {
    forall j :: 0 <= j < |rules| ==> RuleTargets(rules[j], resolutions).Ok?
  }

  lemma SupportGrows(resolutions: Resolutions, rules: seq<ProfileRule>, n: nat)
    requires |rules| == n + 1
    ensures forall k: nat, e :: FirstUnsupported(resolutions, rules[..n], k, e) ==> FirstUnsupported(resolutions, rules, k, e)
    ensures AllSupported(resolutions, rules[..n]) && RuleTargets(rules[n], resolutions).Ok? ==> AllSupported(resolutions, rules)
    ensures AllSupported(resolutions, rules[..n]) && RuleTargets(rules[n], resolutions).Err? ==>
              FirstUnsupported(resolutions, rules, n, RuleTargets(rules[n], resolutions).error)
  {
    assert forall j :: 0 <= j < n ==> rules[..n][j] == rules[j];
  }

  /** Compilation succeeds when every rule can be compiled, and otherwise fails with the error of the first that cannot. */
  lemma {:induction false} FailsAtTheFirstUnsupported(ctx: Context, rules: seq<ProfileRule>) returns (k: nat)
    requires ctx.PrimaryUsable(V4) && ctx.PrimaryUsable(V6) && ActionsKnown(ctx, rules)
    ensures match CompileRules(ctx, rules)
            case Ok(_) => AllSupported(ctx.resolutions, rules)
            case Err(e) => FirstUnsupported(ctx.resolutions, rules, k, e)
    decreases |rules|
  {
    k := 0;
    if rules != [] {
      var n := |rules| - 1;
      k := FailsAtTheFirstUnsupported(ctx, rules[..n]);
      SupportGrows(ctx.resolutions, rules, n);
      if CompileRules(ctx, rules[..n]).Ok? {
        k := n;
      }
    }
  }

  /** With unique rule ids at most one rule decides a packet. */
  lemma DecidingRuleIsUnique(ctx: Context, rules: seq<ProfileRule>, p: Packet, a: ProfileRule, b: ProfileRule)
    requires ctx.PrimaryUsable(V4) && ctx.PrimaryUsable(V6) && ActionsKnown(ctx, rules) && UniqueRules(rules)
    requires Decides(ctx, rules, p, a) && Decides(ctx, rules, p, b)
    ensures a == b
  {
    Sorting.TextIsTotal(a.id, b.id);
    var i :| 0 <= i < |rules| && rules[i] == a;
    var j :| 0 <= j < |rules| && rules[j] == b;
  }
}
