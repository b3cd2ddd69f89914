/** The rendered document implements the declared decisions, chain by chain. */
module NftCorrect {
  import opened Wrappers
  import opened Plan
  import opened NftChains
  import opened NftRender
  import opened NftPolicy
  import opened Sequences

  // Finding a chain's rules in the flat listing.

  function NamedRules(chains: seq<Chain>, name: ChainName): seq<Rule> {
    if chains == [] then
      []
    else
      var c := chains[|chains| - 1];
      NamedRules(chains[..|chains| - 1], name) + (if c.name == name then c.rules else [])
  }

  lemma {:induction false} NamedRulesAppend(a: seq<Chain>, b: seq<Chain>, name: ChainName)
    ensures NamedRules(a + b, name) == NamedRules(a, name) + NamedRules(b, name)
  {
    if b == [] {
      assert a + b == a;
    } else {
      var n := |b| - 1;
      assert (a + b)[..|a| + n] == a + b[..n];
      NamedRulesAppend(a, b[..n], name);
    }
  }

  lemma {:induction false} ChainObjectsHoldNoRules(chains: seq<Chain>, name: ChainName)
    ensures RulesOf(ChainObjects(chains), name) == []
  {
    if chains != [] {
      var n := |chains| - 1;
      ChainObjectsHoldNoRules(chains[..n], name);
      RulesOfAppend(ChainObjects(chains[..n]), [ChainObject(chains[n].name, chains[n].base)], name);
    }
  }

  lemma {:induction false} RuleObjectsHold(chain: ChainName, rules: seq<Rule>, name: ChainName)
    ensures RulesOf(RuleObjects(chain, rules), name) == if chain == name then rules else []
    decreases |rules|
  {
    if rules != [] {
      var n := |rules| - 1;
      RuleObjectsHold(chain, rules[..n], name);
      RulesOfAppend(RuleObjects(chain, rules[..n]), [RuleObject(chain, rules[n])], name);
      assert rules[..n] + [rules[n]] == rules;
    }
  }

  lemma {:induction false} AllRuleObjectsHold(chains: seq<Chain>, name: ChainName)
    ensures RulesOf(AllRuleObjects(chains), name) == NamedRules(chains, name)
  {
    if chains != [] {
      var n := |chains| - 1;
      AllRuleObjectsHold(chains[..n], name);
      RuleObjectsHold(chains[n].name, chains[n].rules, name);
      RulesOfAppend(AllRuleObjects(chains[..n]), RuleObjects(chains[n].name, chains[n].rules), name);
    }
  }

  lemma HeadHoldsNoRules(seal: Object, name: ChainName)
    requires seal.ChainObject?
    ensures RulesOf([Table] + [seal], name) == []
  {
    RulesOfAppend([Table], [seal], name);
    assert [Table][1..] == [] && [seal][1..] == [];
  }

  lemma ListedRules(chains: seq<Chain>, name: ChainName)
    ensures RulesOf(SealedListing(chains), name) == NamedRules(chains, name)
  {
    var seal := SealChain([Table] + Listing(chains));
    RulesOfAppend([Table] + [seal], Listing(chains), name);
    RulesOfAppend(ChainObjects(chains), AllRuleObjects(chains), name);
    ChainObjectsHoldNoRules(chains, name);
    AllRuleObjectsHold(chains, name);
    HeadHoldsNoRules(seal, name);
    Nothing(NamedRules(chains, name));
  }

  lemma OneChain(c: Chain, name: ChainName)
    ensures NamedRules([c], name) == if c.name == name then c.rules else []
  {
    assert [c][..0] == [];
  }

  lemma {:induction false} NoSuchChain(chains: seq<Chain>, name: ChainName)
    requires forall i :: 0 <= i < |chains| ==> chains[i].name != name
    ensures NamedRules(chains, name) == []
  {
    if chains != [] {
      NoSuchChain(chains[..|chains| - 1], name);
    }
  }

  lemma {:induction false} TheOnlyChain(chains: seq<Chain>, k: nat, name: ChainName)
    requires k < |chains| && chains[k].name == name
    requires forall i :: 0 <= i < |chains| && i != k ==> chains[i].name != name
    ensures NamedRules(chains, name) == chains[k].rules
  {
    var n := |chains| - 1;
    if k == n {
      NoSuchChain(chains[..n], name);
      assert [] + chains[n].rules == chains[n].rules;
    } else {
      TheOnlyChain(chains[..n], k, name);
      assert chains[k].rules + [] == chains[k].rules;
    }
  }

  lemma {:induction false} SelectChainsAt(lanes: seq<LanePlan>, f: Family)
    ensures |SelectChains(lanes, f)| == |lanes|
    ensures forall i :: 0 <= i < |lanes| ==> SelectChains(lanes, f)[i] == SelectChain(lanes[i], f)
  {
    if lanes != [] {
      SelectChainsAt(lanes[..|lanes| - 1], f);
    }
  }

  /** Restore chains first, one select chain per lane after. */
  ghost predicate HasFamily(chains: seq<Chain>, lanes: seq<LanePlan>, f: Family) {
    && |chains| == |lanes| + 1
    && chains[0].name == Restore(f)
    && forall i :: 0 <= i < |lanes| ==> chains[i + 1].name == Select(f, lanes[i].mark)
  }

  lemma FamilyChainsAt(plan: KernelPlan, f: Family)
    ensures HasFamily(FamilyChains(plan, f), plan.lanes, f)
    ensures FamilyChains(plan, f)[0] == RestoreChain(plan.lanes, f)
    ensures forall i :: 0 <= i < |plan.lanes| ==> FamilyChains(plan, f)[i + 1] == SelectChain(plan.lanes[i], f)
  {
    SelectChainsAt(plan.lanes, f);
  }

  function PolicyNameAt(lanes: seq<LanePlan>, i: nat): ChainName
    requires i < 2 * |lanes| + 6
  {
    var n := |lanes| + 1;
    if i == 0 then Restore(V4)
    else if i < n then Select(V4, lanes[i - 1].mark)
    else if i == n then Restore(V6)
    else if i < 2 * n then Select(V6, lanes[i - n - 1].mark)
    else if i == 2 * n then Output
    else if i == 2 * n + 1 then Prerouting
    else if i == 2 * n + 2 then EgressGuard
    else SourceNat
  }

  lemma InPolicyOrder(all: seq<Chain>, lanes: seq<LanePlan>)
    requires DistinctMarks(lanes) && |all| == 2 * |lanes| + 6
    requires forall i :: 0 <= i < |all| ==> all[i].name == PolicyNameAt(lanes, i)
    ensures forall i, j :: 0 <= i < j < |all| ==> all[i].name != all[j].name
  {
  }

  lemma FindSelect(all: seq<Chain>, lanes: seq<LanePlan>, f: Family, m: nat)
    requires DistinctMarks(lanes) && |all| == 2 * |lanes| + 6
    requires forall i :: 0 <= i < |all| ==> all[i].name == PolicyNameAt(lanes, i)
    ensures forall i :: 0 <= i < |lanes| && lanes[i].mark == m ==>
              NamedRules(all, Select(f, m)) == all[if f == V4 then i + 1 else |lanes| + i + 2].rules
  {
    InPolicyOrder(all, lanes);
    forall i | 0 <= i < |lanes| && lanes[i].mark == m
      ensures NamedRules(all, Select(f, m)) == all[if f == V4 then i + 1 else |lanes| + i + 2].rules
    {
      TheOnlyChain(all, if f == V4 then i + 1 else |lanes| + i + 2, Select(f, m));
    }
  }

  /** Rule lookup in a policy made of two families, an output chain and three hooks. */
  lemma FindInPolicy(
    v4: seq<Chain>, v6: seq<Chain>, output: Chain, hooks: seq<Chain>, lanes: seq<LanePlan>, name: ChainName)
    requires HasFamily(v4, lanes, V4) && HasFamily(v6, lanes, V6) && DistinctMarks(lanes)
    requires output.name == Output && |hooks| == 3
    requires hooks[0].name == Prerouting && hooks[1].name == EgressGuard && hooks[2].name == SourceNat
    ensures var found := NamedRules(v4 + v6 + [output] + hooks, name);
            match name
            case Restore(f) => found == (if f == V4 then v4 else v6)[0].rules
            case Select(f, m) =>
              forall i :: 0 <= i < |lanes| && lanes[i].mark == m ==> found == (if f == V4 then v4 else v6)[i + 1].rules
            case Output => found == output.rules
            case Prerouting => found == hooks[0].rules
            case EgressGuard => found == hooks[1].rules
            case SourceNat => found == hooks[2].rules
            case _ => found == []
  {
    var all := v4 + v6 + [output] + hooks;
    var base := 2 * |lanes| + 2;
    assert forall i :: 0 <= i < |v4| ==> all[i] == v4[i];
    assert forall i :: |v4| <= i < base ==> all[i] == v6[i - |v4|];
    assert all[base] == output && all[base + 1] == hooks[0] && all[base + 2] == hooks[1] && all[base + 3] == hooks[2];
    InPolicyOrder(all, lanes);
    match name
    case Restore(f) => TheOnlyChain(all, if f == V4 then 0 else |v4|, name);
    case Select(f, m) => FindSelect(all, lanes, f, m);
    case Output => TheOnlyChain(all, base, name);
    case Prerouting => TheOnlyChain(all, base + 1, name);
    case EgressGuard => TheOnlyChain(all, base + 2, name);
    case SourceNat => TheOnlyChain(all, base + 3, name);
    case _ => NoSuchChain(all, name);
  }

  lemma PolicyRules(plan: KernelPlan, name: ChainName)
    requires DistinctMarks(plan.lanes)
    ensures var found := NamedRules(PolicyChains(plan), name);
            match name
            case Restore(f) => found == RestoreChain(plan.lanes, f).rules
            case Select(f, m) =>
              forall i :: 0 <= i < |plan.lanes| && plan.lanes[i].mark == m ==> found == SelectChain(plan.lanes[i], f).rules
            case Output => found == OutputChain(plan).rules
            case Prerouting => found == HookRules(plan, ReplyHook)
            case EgressGuard => found == EgressRules(plan)
            case SourceNat => found == HookRules(plan, NatHook)
            case _ => found == []
  {
    FamilyChainsAt(plan, V4);
    FamilyChainsAt(plan, V6);
    FindInPolicy(FamilyChains(plan, V4), FamilyChains(plan, V6), OutputChain(plan), HookChains(plan), plan.lanes, name);
  }

  lemma MarkersHoldNoRules(active: Option<KernelPlan>, pending: Option<KernelPlan>, name: ChainName)
    ensures NamedRules(MarkerChains(active, pending), name) == []
  {
    var a := match active case None => [] case Some(p) => [Chain(State(p), None, [])];
    var b := match pending case None => [] case Some(p) => [Chain(TransactionMarker(p), None, [])];
    NamedRulesAppend(a, b, name);
    if active.Some? { OneChain(a[0], name); }
    if pending.Some? { OneChain(b[0], name); }
  }

  lemma GuardChainsHold(active: Option<KernelPlan>, pending: Option<KernelPlan>, guard: bool, name: ChainName)
    ensures NamedRules(GuardChains(active, pending, guard), name) ==
            if guard && name == Guard then GuardChain(GuardNetworks(active, pending)).rules else []
  {
    if guard {
      OneChain(GuardChain(GuardNetworks(active, pending)), name);
    }
  }

  lemma ThreeGroups(a: seq<Chain>, b: seq<Chain>, c: seq<Chain>, name: ChainName)
    requires NamedRules(a, name) == []
    ensures NamedRules(a + b + c, name) == NamedRules(b, name) + NamedRules(c, name)
  {
    NamedRulesAppend(a, b, name);
    NamedRulesAppend(a + b, c, name);
  }

  /** Outside the guard a document's chains are exactly its active plan's. */
  lemma LookUp(active: Option<KernelPlan>, pending: Option<KernelPlan>, guard: bool, name: ChainName)
    ensures RulesOf(Render(active, pending, guard), name) ==
            (if active.Some? then NamedRules(PolicyChains(active.value), name) else [])
            + (if guard && name == Guard then GuardChain(GuardNetworks(active, pending)).rules else [])
  {
    var policy := match active case None => [] case Some(p) => PolicyChains(p);
    ListedRules(Chains(active, pending, guard), name);
    MarkersHoldNoRules(active, pending, name);
    GuardChainsHold(active, pending, guard, name);
    ThreeGroups(MarkerChains(active, pending), policy, GuardChains(active, pending, guard), name);
  }

  lemma LookUpPolicy(plan: KernelPlan, pending: Option<KernelPlan>, guard: bool, name: ChainName)
    requires name != Guard
    ensures RulesOf(Render(Some(plan), pending, guard), name) == NamedRules(PolicyChains(plan), name)
  {
    LookUp(Some(plan), pending, guard, name);
    Nothing(NamedRules(PolicyChains(plan), name));
  }

  // The output path.

  function RestoreFlow(plan: KernelPlan, f: Family, p: Packet): Flow {
    Done(Restored(plan, f, p))
  }

  function SelectFlow(plan: KernelPlan, f: Family, m: nat, p: Packet): Flow {
    if p.ct.Some? && p.ct.value.mark != 0 then Tail(Restore(f), p) else Done(Selected(plan, f, m, p))
  }

  /** Each chain of a listing does its part of the policy. */
  ghost predicate Implements(objects: seq<Object>, plan: KernelPlan) {
    && (forall p :: EvalRules(RulesOf(objects, Output), p) == OutputFlow(plan, p))
    && (forall f, p :: EvalRules(RulesOf(objects, Restore(f)), p) == RestoreFlow(plan, f, p))
    && (forall f, m, p :: HasMark(plan.lanes, m) ==>
          EvalRules(RulesOf(objects, Select(f, m)), p) == SelectFlow(plan, f, m, p))
  }

  lemma SelectChainFlow(plan: KernelPlan, i: nat, f: Family, p: Packet)
    requires DistinctMarks(plan.lanes) && i < |plan.lanes|
    ensures EvalRules(SelectChain(plan.lanes[i], f).rules, p) == SelectFlow(plan, f, plan.lanes[i].mark, p)
  {
    SelectEval(plan.lanes[i], f, p);
    assert ReadyMark(plan.lanes, f, plan.lanes[i].mark) <==> Ready(plan.lanes[i], f);
  }

  lemma OutputRendered(plan: KernelPlan, pending: Option<KernelPlan>, guard: bool, p: Packet)
    requires DistinctMarks(plan.lanes)
    ensures EvalRules(RulesOf(Render(Some(plan), pending, guard), Output), p) == OutputFlow(plan, p)
  {
    LookUpPolicy(plan, pending, guard, Output);
    PolicyRules(plan, Output);
    OutputEval(plan, p);
  }

  lemma RestoreRendered(plan: KernelPlan, pending: Option<KernelPlan>, guard: bool, f: Family, p: Packet)
    requires DistinctMarks(plan.lanes)
    ensures EvalRules(RulesOf(Render(Some(plan), pending, guard), Restore(f)), p) == RestoreFlow(plan, f, p)
  {
    LookUpPolicy(plan, pending, guard, Restore(f));
    PolicyRules(plan, Restore(f));
    RestoreEval(plan.lanes, f, p);
  }

  lemma SelectRendered(
    plan: KernelPlan, pending: Option<KernelPlan>, guard: bool, f: Family, m: nat, p: Packet)
    requires DistinctMarks(plan.lanes) && HasMark(plan.lanes, m)
    ensures EvalRules(RulesOf(Render(Some(plan), pending, guard), Select(f, m)), p) == SelectFlow(plan, f, m, p)
  {
    LookUpPolicy(plan, pending, guard, Select(f, m));
    PolicyRules(plan, Select(f, m));
    var i :| 0 <= i < |plan.lanes| && plan.lanes[i].mark == m;
    SelectChainFlow(plan, i, f, p);
  }

  lemma RenderImplements(plan: KernelPlan, pending: Option<KernelPlan>, guard: bool)
    requires DistinctMarks(plan.lanes)
    ensures Implements(Render(Some(plan), pending, guard), plan)
  {
    forall p ensures EvalRules(RulesOf(Render(Some(plan), pending, guard), Output), p) == OutputFlow(plan, p) {
      OutputRendered(plan, pending, guard, p);
    }
    forall f, p
      ensures EvalRules(RulesOf(Render(Some(plan), pending, guard), Restore(f)), p) == RestoreFlow(plan, f, p)
    {
      RestoreRendered(plan, pending, guard, f, p);
    }
    forall f, m, p | HasMark(plan.lanes, m)
      ensures EvalRules(RulesOf(Render(Some(plan), pending, guard), Select(f, m)), p) == SelectFlow(plan, f, m, p)
    {
      SelectRendered(plan, pending, guard, f, m, p);
    }
  }

  lemma SelectWalk(objects: seq<Object>, plan: KernelPlan, f: Family, m: nat, p: Packet, gotos: nat)
    requires Implements(objects, plan) && HasMark(plan.lanes, m) && gotos >= 1
    ensures Walk(objects, Select(f, m), p, gotos) == Some(Selected(plan, f, m, p))
  {
    assert EvalRules(RulesOf(objects, Select(f, m)), p) == SelectFlow(plan, f, m, p);
    assert Walk(objects, Restore(f), p, gotos - 1) == Some(Restored(plan, f, p));
  }

  lemma PrimaryHasMark(plan: KernelPlan, f: Family)
    ensures PrimaryMark(plan, f).Some? ==> HasMark(plan.lanes, PrimaryMark(plan, f).value)
    ensures PrimaryMark(plan, f).Some? ==> ReadyMark(plan.lanes, f, PrimaryMark(plan, f).value)
  {
  }

  /** Where a tail call ends up. */
  function Resolve(plan: KernelPlan, flow: Flow): Outcome {
    match flow
    case Next(q) => Accept(q)
    case Done(outcome) => outcome
    case Tail(Restore(f), q) => Restored(plan, f, q)
    case Tail(Select(f, m), q) => Selected(plan, f, m, q)
    case Tail(_, q) => Refuse(q)
  }

  /** A policy flow only ever calls a restore chain or the select chain of a lane. */
  predicate CallsPolicy(plan: KernelPlan, flow: Flow) {
    flow.Tail? ==> flow.target.Restore? || (flow.target.Select? && HasMark(plan.lanes, flow.target.mark))
  }

  lemma DecideResolves(plan: KernelPlan, p: Packet)
    ensures CallsPolicy(plan, OutputFlow(plan, p))
    ensures Decide(plan, p) == Resolve(plan, OutputFlow(plan, p))
  {
    PrimaryResolves(plan, p);
    var k := FirstRule(plan.rules, p);
    if k.Some? {
      ActionResolves(plan, plan.rules[k.value], p);
    }
  }

  lemma ActionResolves(plan: KernelPlan, rule: CompiledRule, p: Packet)
    ensures CallsPolicy(plan, ActionFlow(plan, rule, p))
    ensures ByAction(plan, rule, p) == Resolve(plan, ActionFlow(plan, rule, p))
  {
  }

  lemma PrimaryResolves(plan: KernelPlan, p: Packet)
    ensures CallsPolicy(plan, PrimaryFlow(plan, p))
    ensures ByPrimary(plan, p) == Resolve(plan, PrimaryFlow(plan, p))
  {
    PrimaryHasMark(plan, p.Family());
  }

  lemma WalkResolves(objects: seq<Object>, plan: KernelPlan, flow: Flow, p: Packet, gotos: nat)
    requires Implements(objects, plan) && gotos >= 2 && CallsPolicy(plan, flow)
    requires EvalRules(RulesOf(objects, Output), p) == flow
    ensures Walk(objects, Output, p, gotos) == Some(Resolve(plan, flow))
  {
    match flow
    case Tail(Restore(f), q) =>
      assert EvalRules(RulesOf(objects, Restore(f)), q) == RestoreFlow(plan, f, q);
      assert Walk(objects, Restore(f), q, gotos - 1) == Some(Restored(plan, f, q));
    case Tail(Select(f, m), q) => SelectWalk(objects, plan, f, m, q, gotos - 1);
    case _ =>
  }

  /** In every phase that has an active plan, the rendered output chain is the declared decision. */
  lemma OutputIsDecide(plan: KernelPlan, pending: Option<KernelPlan>, guard: bool, p: Packet, gotos: nat)
    requires DistinctMarks(plan.lanes) && gotos >= 2
    ensures Walk(Render(Some(plan), pending, guard), Output, p, gotos) == Some(Decide(plan, p))
  {
    RenderImplements(plan, pending, guard);
    OutputRendered(plan, pending, guard, p);
    DecideResolves(plan, p);
    WalkResolves(Render(Some(plan), pending, guard), plan, OutputFlow(plan, p), p, gotos);
  }

  // The per-lane hooks.

  predicate FromLocalSource(plan: KernelPlan, f: Family, p: Packet) {
    p.ct.Some? && p.ct.value.source.family == f && p.ct.value.source in plan.localAddresses
  }

  /** A locally opened packet leaving through the observed interface of the lane both its marks name. */
  predicate Proven(plan: KernelPlan, f: Family, lane: LanePlan, p: Packet) {
    && Ready(lane, f)
    && p.iif == 0
    && p.oif == lane.identity.value.ifindex
    && p.oifname == lane.iface
    && FromLocalSource(plan, f, p)
    && p.ct.value.direction == Original
    && p.ct.value.mark == lane.mark
    && p.mark == lane.mark
  }

  predicate ProvenBySome(plan: KernelPlan, p: Packet) {
    exists lane :: lane in plan.lanes && (Proven(plan, V4, lane, p) || Proven(plan, V6, lane, p))
  }

  /** A reply coming back in through the lane its connection left by. */
  predicate Returning(plan: KernelPlan, f: Family, lane: LanePlan, p: Packet) {
    && Ready(lane, f)
    && p.iif == lane.identity.value.ifindex
    && p.iifname == lane.iface
    && FromLocalSource(plan, f, p)
    && p.ct.value.direction == Reply
    && p.ct.value.mark == lane.mark
  }

  predicate ReturningToSome(plan: KernelPlan, p: Packet) {
    exists lane :: lane in plan.lanes && (Returning(plan, V4, lane, p) || Returning(plan, V6, lane, p))
  }

  function DecideEgress(plan: KernelPlan, p: Packet): Outcome {
    if p.iif != 0 || IsControl(p, plan.localNetworks) || ProvenBySome(plan, p) || !OwnedMark(p.mark) then
      Accept(p)
    else
      Outcome(Dropped, p)
  }

  predicate LaneHolds(plan: KernelPlan, hook: LaneHook, f: Family, lane: LanePlan, p: Packet) {
    if hook == ReplyHook then Returning(plan, f, lane, p) else Proven(plan, f, lane, p)
  }

  function LaneFlow(hook: LaneHook, p: Packet): Flow
    requires p.ct.Some?
  {
    match hook
    case ReplyHook => Done(Accept(p.(mark := p.ct.value.mark)))
    case EgressHook => Done(Accept(p))
    case NatHook => Done(Outcome(Masqueraded, p))
  }

  lemma HoldsSeven(
    a: Condition, b: Condition, c: Condition, d: Condition, e: Condition, g: Condition, h: Condition, p: Packet)
    ensures AllHold([a, b, c, d, e, g, h], p) <==>
            Holds(a, p) && Holds(b, p) && Holds(c, p) && Holds(d, p) && Holds(e, p) && Holds(g, p) && Holds(h, p)
  {
    var s := [a, b, c, d, e, g, h];
    assert s[0] == a && s[1] == b && s[2] == c && s[3] == d && s[4] == e && s[5] == g && s[6] == h;
    assert a in s && b in s && c in s && d in s && e in s && g in s && h in s;
  }

  lemma HoldsFive(a: Condition, b: Condition, c: Condition, d: Condition, e: Condition, p: Packet)
    ensures AllHold([a, b, c, d, e], p) <==> Holds(a, p) && Holds(b, p) && Holds(c, p) && Holds(d, p) && Holds(e, p)
  {
    var s := [a, b, c, d, e];
    assert s[0] == a && s[1] == b && s[2] == c && s[3] == d && s[4] == e;
    assert a in s && b in s && c in s && d in s && e in s;
  }

  lemma ScopeHolds(plan: KernelPlan, f: Family, lane: LanePlan, p: Packet)
    requires Ready(lane, f)
    ensures AllHold(EgressScope(plan, f, lane), p) <==> Proven(plan, f, lane, p)
  {
    HoldsSeven(
      Compare(InputIndex, Eq, 0), Compare(OutputIndex, Eq, lane.identity.value.ifindex), OutputName(lane.iface),
      CtDirection(Original), CtSourceIn(f, LocalSources(plan, f)), Compare(CtMark, Eq, lane.mark),
      Compare(MetaMark, Eq, lane.mark), p);
  }

  lemma ReplyHolds(plan: KernelPlan, f: Family, lane: LanePlan, p: Packet)
    requires Ready(lane, f)
    ensures AllHold(ReplyRule(plan, f, lane).conditions, p) <==> Returning(plan, f, lane, p)
  {
    HoldsFive(
      Compare(InputIndex, Eq, lane.identity.value.ifindex), InputName(lane.iface), CtDirection(Reply),
      CtSourceIn(f, LocalSources(plan, f)), Compare(CtMark, Eq, lane.mark), p);
  }

  lemma LaneRuleEval(plan: KernelPlan, hook: LaneHook, f: Family, lane: LanePlan, p: Packet)
    requires Ready(lane, f)
    ensures EvalRule(LaneRule(plan, hook, f, lane), p) ==
            if LaneHolds(plan, hook, f, lane, p) then LaneFlow(hook, p) else Next(p)
  {
    match hook
    case ReplyHook => ReplyHolds(plan, f, lane, p); MarkAndReturn(p);
    case EgressHook => ScopeHolds(plan, f, lane, p);
    case NatHook => ScopeHolds(plan, f, lane, p); CountThen(Masquerade, p);
  }

  predicate SomeLaneHolds(plan: KernelPlan, hook: LaneHook, f: Family, lanes: seq<LanePlan>, p: Packet) {
    exists lane :: lane in lanes && LaneHolds(plan, hook, f, lane, p)
  }

  lemma {:induction false} LaneRulesEval(plan: KernelPlan, hook: LaneHook, f: Family, lanes: seq<LanePlan>, p: Packet)
    ensures EvalRules(LaneRules(plan, hook, f, lanes), p) ==
            if SomeLaneHolds(plan, hook, f, lanes, p) then LaneFlow(hook, p) else Next(p)
    decreases |lanes|
  {
    if lanes != [] {
      var lane, rest := lanes[|lanes| - 1], lanes[..|lanes| - 1];
      LaneRulesEval(plan, hook, f, rest, p);
      assert forall x :: x in lanes <==> x == lane || x in rest;
      assert SomeLaneHolds(plan, hook, f, lanes, p) <==>
             SomeLaneHolds(plan, hook, f, rest, p) || LaneHolds(plan, hook, f, lane, p);
      if Ready(lane, f) {
        var r := LaneRule(plan, hook, f, lane);
        EvalAppend(LaneRules(plan, hook, f, rest), [r], p);
        EvalOne(r, p);
        LaneRuleEval(plan, hook, f, lane, p);
      } else {
        assert LaneRules(plan, hook, f, lanes) == LaneRules(plan, hook, f, rest);
      }
    }
  }

  lemma FamilyRulesEval(plan: KernelPlan, hook: LaneHook, f: Family, p: Packet)
    ensures EvalRules(FamilyRules(plan, hook, f), p) ==
            if SomeLaneHolds(plan, hook, f, plan.lanes, p) then LaneFlow(hook, p) else Next(p)
  {
    LaneRulesEval(plan, hook, f, plan.lanes, p);
    if SomeLaneHolds(plan, hook, f, plan.lanes, p) {
      var lane :| lane in plan.lanes && LaneHolds(plan, hook, f, lane, p);
      assert p.ct.value.source in LocalSources(plan, f);
    }
  }

  lemma HookRulesEval(plan: KernelPlan, hook: LaneHook, p: Packet)
    ensures EvalRules(HookRules(plan, hook), p) ==
            if SomeLaneHolds(plan, hook, V4, plan.lanes, p) || SomeLaneHolds(plan, hook, V6, plan.lanes, p) then
              LaneFlow(hook, p)
            else
              Next(p)
  {
    FamilyRulesEval(plan, hook, V4, p);
    FamilyRulesEval(plan, hook, V6, p);
    EvalAppend(FamilyRules(plan, hook, V4), FamilyRules(plan, hook, V6), p);
  }

  lemma EgressEval(plan: KernelPlan, p: Packet)
    ensures EvalRules(EgressRules(plan), p) ==
            if p.iif == 0 && !IsControl(p, plan.localNetworks) && !ProvenBySome(plan, p) && !OwnedMark(p.mark) then
              Next(p)
            else
              Done(DecideEgress(plan, p))
  {
    ForwardedEval(p);
    ControlsEval(plan.localNetworks, p);
    ProvenEval(plan, p);
    DropEval(p);
    EvalFour([FORWARDED], ControlRules(plan.localNetworks), HookRules(plan, EgressHook), [DROP_OWNED], p);
  }

  lemma ForwardedEval(p: Packet)
    ensures EvalRules([FORWARDED], p) == if p.iif != 0 then Done(Accept(p)) else Next(p)
  {
    EvalOne(FORWARDED, p);
    HoldsOne(Compare(InputIndex, Ne, 0), p);
  }

  lemma DropEval(p: Packet)
    ensures EvalRules([DROP_OWNED], p) == if OwnedMark(p.mark) then Done(Outcome(Dropped, p)) else Next(p)
  {
    EvalOne(DROP_OWNED, p);
    HoldsOne(InRange(MetaMark, MARK_BASE, MARK_MAX), p);
  }

  lemma ProvenEval(plan: KernelPlan, p: Packet)
    ensures EvalRules(HookRules(plan, EgressHook), p) == if ProvenBySome(plan, p) then Done(Accept(p)) else Next(p)
  {
    HookRulesEval(plan, EgressHook, p);
    assert ProvenBySome(plan, p) <==>
           SomeLaneHolds(plan, EgressHook, V4, plan.lanes, p) || SomeLaneHolds(plan, EgressHook, V6, plan.lanes, p);
  }

  lemma RepliesEval(plan: KernelPlan, p: Packet)
    ensures EvalRules(HookRules(plan, ReplyHook), p)
            == if ReturningToSome(plan, p) then Done(Accept(p.(mark := p.ct.value.mark))) else Next(p)
  {
    HookRulesEval(plan, ReplyHook, p);
    assert ReturningToSome(plan, p) <==>
           SomeLaneHolds(plan, ReplyHook, V4, plan.lanes, p) || SomeLaneHolds(plan, ReplyHook, V6, plan.lanes, p);
  }

  lemma SourceEval(plan: KernelPlan, p: Packet)
    ensures EvalRules(HookRules(plan, NatHook), p)
            == if ProvenBySome(plan, p) then Done(Outcome(Masqueraded, p)) else Next(p)
  {
    HookRulesEval(plan, NatHook, p);
    assert ProvenBySome(plan, p) <==>
           SomeLaneHolds(plan, NatHook, V4, plan.lanes, p) || SomeLaneHolds(plan, NatHook, V6, plan.lanes, p);
  }

  /** Four lists of which only the last runs when the others leave the packet alone. */
  lemma EvalFour(a: seq<Rule>, b: seq<Rule>, c: seq<Rule>, d: seq<Rule>, p: Packet)
    ensures !EvalRules(a, p).Next? ==> EvalRules(a + b + c + d, p) == EvalRules(a, p)
    ensures EvalRules(a, p) == Next(p) && !EvalRules(b, p).Next? ==> EvalRules(a + b + c + d, p) == EvalRules(b, p)
    ensures EvalRules(a, p) == Next(p) && EvalRules(b, p) == Next(p) && !EvalRules(c, p).Next? ==>
              EvalRules(a + b + c + d, p) == EvalRules(c, p)
    ensures EvalRules(a, p) == Next(p) && EvalRules(b, p) == Next(p) && EvalRules(c, p) == Next(p) ==>
              EvalRules(a + b + c + d, p) == EvalRules(d, p)
  {
    EvalAppend(a, b, p);
    EvalAppend(a + b, c, p);
    EvalAppend(a + b + c, d, p);
  }

  /** After routing, a local packet with an owned mark leaves through the proven lane or not at all. */
  lemma EgressIsDecided(plan: KernelPlan, pending: Option<KernelPlan>, guard: bool, p: Packet, gotos: nat)
    requires DistinctMarks(plan.lanes)
    ensures Walk(Render(Some(plan), pending, guard), EgressGuard, p, gotos) == Some(DecideEgress(plan, p))
  {
    LookUpPolicy(plan, pending, guard, EgressGuard);
    PolicyRules(plan, EgressGuard);
    EgressEval(plan, p);
  }

  /** Source translation applies to exactly the packets the egress guard proved. */
  lemma OnlyProvenIsMasqueraded(plan: KernelPlan, pending: Option<KernelPlan>, guard: bool, p: Packet, gotos: nat)
    requires DistinctMarks(plan.lanes)
    ensures Walk(Render(Some(plan), pending, guard), SourceNat, p, gotos) ==
            Some(Outcome(if ProvenBySome(plan, p) then Masqueraded else Accepted, p))
  {
    LookUpPolicy(plan, pending, guard, SourceNat);
    PolicyRules(plan, SourceNat);
    SourceEval(plan, p);
  }

  /** A packet coming in takes its connection's mark exactly when it is a reply on that connection's lane. */
  lemma RepliesTakeTheirMark(plan: KernelPlan, pending: Option<KernelPlan>, guard: bool, p: Packet, gotos: nat)
    requires DistinctMarks(plan.lanes)
    ensures Walk(Render(Some(plan), pending, guard), Prerouting, p, gotos) ==
            Some(Accept(if ReturningToSome(plan, p) then p.(mark := p.ct.value.mark) else p))
  {
    LookUpPolicy(plan, pending, guard, Prerouting);
    PolicyRules(plan, Prerouting);
    RepliesEval(plan, p);
  }

  function DecideGuard(networks: seq<IpNet>, p: Packet): Outcome {
    if IsControl(p, networks) || SomeContains(networks, p.destination) then Accept(p) else Refuse(p)
  }

  lemma GuardEval(networks: seq<IpNet>, p: Packet)
    ensures EvalRules(GuardChain(networks).rules, p) == Done(DecideGuard(networks, p))
  {
    ControlsEval(networks, p);
    LocalEval(networks, p);
    RejectAllEval(p);
    EvalAppend(ControlRules(networks), LocalRules(networks), p);
    EvalAppend(ControlRules(networks) + LocalRules(networks), [REJECT_ALL], p);
  }

  lemma NoGuardInPolicy(plan: KernelPlan)
    requires DistinctMarks(plan.lanes)
    ensures NamedRules(PolicyChains(plan), Guard) == []
  {
    PolicyRules(plan, Guard);
  }

  lemma GuardRules(active: Option<KernelPlan>, pending: Option<KernelPlan>)
    requires active.Some? ==> DistinctMarks(active.value.lanes)
    ensures RulesOf(Render(active, pending, true), Guard) == GuardChain(GuardNetworks(active, pending)).rules
  {
    LookUp(active, pending, true, Guard);
    if active.Some? {
      NoGuardInPolicy(active.value);
    }
  }

  /** The guard lets out control traffic and the local networks of both plans, and refuses everything else. */
  lemma GuardRefusesTheRest(active: Option<KernelPlan>, pending: Option<KernelPlan>, p: Packet, gotos: nat)
    requires active.Some? ==> DistinctMarks(active.value.lanes)
    ensures Walk(Render(active, pending, true), Guard, p, gotos) ==
            Some(DecideGuard(NetworksOf(active) + NetworksOf(pending), p))
  {
    var all, networks := NetworksOf(active) + NetworksOf(pending), GuardNetworks(active, pending);
    GuardRules(active, pending);
    GuardEval(networks, p);
    SameNetworksSameControls(networks, all, p);
  }

  lemma SameNetworksSameControls(a: seq<IpNet>, b: seq<IpNet>, p: Packet)
    requires forall n :: n in a <==> n in b
    ensures DecideGuard(a, p) == DecideGuard(b, p)
  {
  }
}
