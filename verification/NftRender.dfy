/** The rendered nftables document, and the loops that build it. */
module NftRender {
  import opened Wrappers
  import opened Plan
  import opened NftChains

  datatype Chain = Chain(name: ChainName, base: Option<Base>, rules: seq<Rule>)

  const ALL_MULTICAST_V4: IpNet := RawNet(IpAddr(V4, 0xe000_0000), 24)
  const LINK_LOCAL_MULTICAST_V6: IpNet := RawNet(IpAddr(V6, 0xff02 * Pow2(112)), 16)
  const LINK_LOCAL_V6: IpNet := RawNet(IpAddr(V6, 0xfe80 * Pow2(112)), 10)
  const BROADCAST_V4: IpAddr := IpAddr(V4, 0xffff_ffff)

  predicate Ready(lane: LanePlan, f: Family) {
    && lane.availability == Available
    && lane.identity.Some?
    && 0 < lane.identity.value.ifindex <= IFINDEX_MAX
    && lane.identity.value.name == lane.iface
    && lane.Route(f).Some?
    && lane.Sources(f) != []
  }

  /** The mark of the first ready lane the primary decision names for a family. */
  function PrimaryMark(plan: KernelPlan, f: Family): Option<nat> {
    match plan.primary.effective.For(f)
    case LaneExit(id) => MarkOf(plan.lanes, id, f)
    case Blocked => None
  }

  function MarkOf(lanes: seq<LanePlan>, id: LaneId, f: Family): (m: Option<nat>)
    ensures m.Some? ==> exists lane :: lane in lanes && lane.id == id && Ready(lane, f) && lane.mark == m.value
    ensures m.None? ==> forall lane :: lane in lanes && lane.id == id ==> !Ready(lane, f)
  {
    if lanes == [] then
      None
    else if lanes[0].id == id && Ready(lanes[0], f) then
      Some(lanes[0].mark)
    else
      MarkOf(lanes[1..], id, f)
  }

  predicate HasMark(lanes: seq<LanePlan>, m: nat) {
    exists lane :: lane in lanes && lane.mark == m
  }

  function Destination(n: IpNet): Condition {
    if n.len == Width(n.addr.family) then DestinationIs(n.addr) else DestinationIn(Trunc(n))
  }

  function ReturnIf(conditions: seq<Condition>): Rule {
    Rule(conditions, [Return])
  }

  function DhcpRules(networks: seq<IpNet>): seq<Rule> {
    if networks == [] then
      []
    else
      var n := networks[|networks| - 1];
      DhcpRules(networks[..|networks| - 1])
      + (if n.addr.family == V4 then [ReturnIf([SourcePort(68), DestinationPort(67), Destination(n)])] else [])
  }

  const CONTROLS_BEFORE: seq<Rule> := [
    ReturnIf([OutputName("lo")]),
    ReturnIf([DestinationIsLocalHost]),
    ReturnIf([SourcePort(68), DestinationPort(67), DestinationIs(BROADCAST_V4)])
  ]

  const CONTROLS_AFTER: seq<Rule> := [
    ReturnIf([Destination(ALL_MULTICAST_V4)]),
    ReturnIf([Destination(LINK_LOCAL_MULTICAST_V6)]),
    ReturnIf([HopLimitIs(255), IsNeighborDiscovery]),
    ReturnIf([SourcePort(546), DestinationPort(547), Destination(LINK_LOCAL_V6)])
  ]

  function ControlRules(networks: seq<IpNet>): seq<Rule> {
    CONTROLS_BEFORE + DhcpRules(networks) + CONTROLS_AFTER
  }

  const UNMANAGED_RULES: seq<Rule> := [
    ReturnIf([Compare(CtMark, Eq, 0), CtStateIn({Established, Related})]),
    ReturnIf([Compare(CtMark, Eq, 0), CtDirection(Reply)])
  ]

  function ForeignRules(key: NumericKey): seq<Rule> {
    [
      Rule([Compare(key, Ne, 0), Compare(key, Lt, MARK_BASE)], [RejectWith]),
      Rule([Compare(key, Gt, MARK_MAX)], [RejectWith])
    ]
  }

  function RestoreRule(lane: LanePlan): Rule {
    Rule([Compare(CtMark, Eq, lane.mark)], [MarkFromCt, Return])
  }

  function RestoreRules(lanes: seq<LanePlan>, f: Family): seq<Rule> {
    if lanes == [] then
      []
    else
      var lane := lanes[|lanes| - 1];
      RestoreRules(lanes[..|lanes| - 1], f) + (if Ready(lane, f) then [RestoreRule(lane)] else [])
  }

  const REJECT_ALL: Rule := Rule([], [RejectWith])

  function RestoreChain(lanes: seq<LanePlan>, f: Family): Chain {
    Chain(Restore(f), None, RestoreRules(lanes, f) + [REJECT_ALL])
  }

  function SelectChain(lane: LanePlan, f: Family): Chain {
    Chain(
      Select(f, lane.mark),
      None,
      [Rule([Compare(CtMark, Ne, 0)], [Goto(Restore(f))])]
      + UNMANAGED_RULES
      + (if Ready(lane, f) then
           [Rule([CtStateIn({New}), CtDirection(Original)], [SetMark(lane.mark), CtFromMark, Return])]
         else [])
      + [REJECT_ALL])
  }

  function SelectChains(lanes: seq<LanePlan>, f: Family): seq<Chain> {
    if lanes == [] then
      []
    else
      SelectChains(lanes[..|lanes| - 1], f) + [SelectChain(lanes[|lanes| - 1], f)]
  }

  function TargetConditions(rule: CompiledRule): seq<Condition> {
    match rule.target
    case AnyTarget => [Protocol(rule.family)]
    case Network(n) => [Destination(n)]
    case Cgroup(path) => [Protocol(rule.family), SocketCgroup(path)]
  }

  function ActionMark(plan: KernelPlan, rule: CompiledRule): Option<nat> {
    match rule.action
    case Mark(m) => Some(m)
    case Direct => PrimaryMark(plan, rule.family)
    case Block => None
  }

  function ExplicitRule(plan: KernelPlan, rule: CompiledRule): Rule {
    var mark := ActionMark(plan, rule);
    Rule(TargetConditions(rule),
         [Counter,
          if mark.Some? && HasMark(plan.lanes, mark.value) then Goto(Select(rule.family, mark.value)) else RejectWith])
  }

  function ExplicitRules(plan: KernelPlan, rules: seq<CompiledRule>): seq<Rule> {
    if rules == [] then
      []
    else
      ExplicitRules(plan, rules[..|rules| - 1]) + [ExplicitRule(plan, rules[|rules| - 1])]
  }

  function OwnedRule(f: Family): Rule {
    Rule([Protocol(f), InRange(CtMark, MARK_BASE, MARK_MAX)], [Goto(Restore(f))])
  }

  function LocalRules(networks: seq<IpNet>): seq<Rule> {
    if networks == [] then
      []
    else
      LocalRules(networks[..|networks| - 1]) + [ReturnIf([Destination(networks[|networks| - 1])])]
  }

  function PrimaryRule(plan: KernelPlan, f: Family): Rule {
    var mark := PrimaryMark(plan, f);
    Rule([Protocol(f)], [Counter, if mark.Some? then Goto(Select(f, mark.value)) else RejectWith])
  }

  function OutputChain(plan: KernelPlan): Chain {
    Chain(
      Output,
      Some(Base(RouteKind, OutputHook, -150)),
      ControlRules(plan.localNetworks)
      + (ForeignRules(MetaMark) + ForeignRules(CtMark))
      + ExplicitRules(plan, plan.rules)
      + [OwnedRule(V4), OwnedRule(V6)]
      + UNMANAGED_RULES
      + LocalRules(plan.localNetworks)
      + [PrimaryRule(plan, V4), PrimaryRule(plan, V6)])
  }

  function LocalSources(plan: KernelPlan, f: Family): set<IpAddr> {
    set a | a in plan.localAddresses && a.family == f
  }

  function ReplyRule(plan: KernelPlan, f: Family, lane: LanePlan): Rule
    requires Ready(lane, f)
  {
    Rule([Compare(InputIndex, Eq, lane.identity.value.ifindex), InputName(lane.iface), CtDirection(Reply),
          CtSourceIn(f, LocalSources(plan, f)), Compare(CtMark, Eq, lane.mark)],
         [MarkFromCt, Return])
  }

  function EgressScope(plan: KernelPlan, f: Family, lane: LanePlan): seq<Condition>
    requires Ready(lane, f)
  {
    [Compare(InputIndex, Eq, 0), Compare(OutputIndex, Eq, lane.identity.value.ifindex), OutputName(lane.iface),
     CtDirection(Original), CtSourceIn(f, LocalSources(plan, f)), Compare(CtMark, Eq, lane.mark),
     Compare(MetaMark, Eq, lane.mark)]
  }

  /** Which of the three per-lane hook chains a rule is for. */
  datatype LaneHook = ReplyHook | EgressHook | NatHook

  function LaneRule(plan: KernelPlan, hook: LaneHook, f: Family, lane: LanePlan): Rule
    requires Ready(lane, f)
  {
    match hook
    case ReplyHook => ReplyRule(plan, f, lane)
    case EgressHook => Rule(EgressScope(plan, f, lane), [Return])
    case NatHook => Rule(EgressScope(plan, f, lane), [Counter, Masquerade])
  }

  function LaneRules(plan: KernelPlan, hook: LaneHook, f: Family, lanes: seq<LanePlan>): seq<Rule>
    decreases |lanes|
  {
    if lanes == [] then
      []
    else
      var lane := lanes[|lanes| - 1];
      LaneRules(plan, hook, f, lanes[..|lanes| - 1])
      + (if Ready(lane, f) then [LaneRule(plan, hook, f, lane)] else [])
  }

  /** A family without a local address proves no source and gets no rules. */
  function FamilyRules(plan: KernelPlan, hook: LaneHook, f: Family): seq<Rule> {
    if LocalSources(plan, f) == {} then [] else LaneRules(plan, hook, f, plan.lanes)
  }

  function HookRules(plan: KernelPlan, hook: LaneHook): seq<Rule> {
    FamilyRules(plan, hook, V4) + FamilyRules(plan, hook, V6)
  }

  const FORWARDED: Rule := ReturnIf([Compare(InputIndex, Ne, 0)])
  const DROP_OWNED: Rule := Rule([InRange(MetaMark, MARK_BASE, MARK_MAX)], [Drop])

  function EgressRules(plan: KernelPlan): seq<Rule> {
    [FORWARDED] + ControlRules(plan.localNetworks) + HookRules(plan, EgressHook) + [DROP_OWNED]
  }

  function HookChains(plan: KernelPlan): seq<Chain> {
    [Chain(Prerouting, Some(Base(FilterKind, PreroutingHook, -150)), HookRules(plan, ReplyHook)),
     Chain(EgressGuard, Some(Base(FilterKind, PostroutingHook, 99)), EgressRules(plan)),
     Chain(SourceNat, Some(Base(NatKind, PostroutingHook, 100)), HookRules(plan, NatHook))]
  }

  function FamilyChains(plan: KernelPlan, f: Family): seq<Chain> {
    [RestoreChain(plan.lanes, f)] + SelectChains(plan.lanes, f)
  }

  function PolicyChains(plan: KernelPlan): seq<Chain> {
    FamilyChains(plan, V4) + FamilyChains(plan, V6) + [OutputChain(plan)] + HookChains(plan)
  }

  // The guard lists every network of both plans once, in a fixed order.

  predicate NetBefore(a: IpNet, b: IpNet) {
    if a.addr.family != b.addr.family then
      a.addr.family == V4
    else if a.addr.bits != b.addr.bits then
      a.addr.bits < b.addr.bits
    else
      a.len < b.len
  }

  /** In order, and none twice. */
  predicate InNetOrder(networks: seq<IpNet>) {
    forall i, j :: 0 <= i < j < |networks| ==> NetBefore(networks[i], networks[j])
  }

  lemma InOrderBehind(first: IpNet, rest: seq<IpNet>)
    requires InNetOrder(rest) && forall x :: x in rest ==> NetBefore(first, x)
    ensures InNetOrder([first] + rest)
  {
  }

  function InsertNet(n: IpNet, sorted: seq<IpNet>): (r: seq<IpNet>)
    requires InNetOrder(sorted)
    ensures forall x :: x in r <==> x == n || x in sorted
    ensures InNetOrder(r)
  {
    if sorted == [] || NetBefore(n, sorted[0]) then
      assert InNetOrder([n] + sorted) by { InOrderBehind(n, sorted); }
      [n] + sorted
    else if sorted[0] == n then
      sorted
    else
      var rest := InsertNet(n, sorted[1..]);
      assert InNetOrder([sorted[0]] + rest) by { InOrderBehind(sorted[0], rest); }
      [sorted[0]] + rest
  }

  function SortedOnce(networks: seq<IpNet>): (r: seq<IpNet>)
    ensures forall x :: x in r <==> x in networks
    ensures InNetOrder(r)
  {
    if networks == [] then [] else InsertNet(networks[0], SortedOnce(networks[1..]))
  }

  function NetworksOf(plan: Option<KernelPlan>): seq<IpNet> {
    match plan case None => [] case Some(p) => p.localNetworks
  }

  function GuardNetworks(active: Option<KernelPlan>, pending: Option<KernelPlan>): seq<IpNet> {
    SortedOnce(NetworksOf(active) + NetworksOf(pending))
  }

  function GuardChain(networks: seq<IpNet>): Chain {
    Chain(Guard, Some(Base(RouteKind, OutputHook, -149)), ControlRules(networks) + LocalRules(networks) + [REJECT_ALL])
  }

  function MarkerChains(active: Option<KernelPlan>, pending: Option<KernelPlan>): seq<Chain> {
    (match active case None => [] case Some(p) => [Chain(State(p), None, [])])
    + (match pending case None => [] case Some(p) => [Chain(TransactionMarker(p), None, [])])
  }

  function GuardChains(active: Option<KernelPlan>, pending: Option<KernelPlan>, guard: bool): seq<Chain> {
    if guard then [GuardChain(GuardNetworks(active, pending))] else []
  }

  function Chains(active: Option<KernelPlan>, pending: Option<KernelPlan>, guard: bool): seq<Chain> {
    MarkerChains(active, pending)
    + (match active case None => [] case Some(p) => PolicyChains(p))
    + GuardChains(active, pending, guard)
  }

  function ChainObjects(chains: seq<Chain>): seq<Object> {
    if chains == [] then
      []
    else
      var c := chains[|chains| - 1];
      ChainObjects(chains[..|chains| - 1]) + [ChainObject(c.name, c.base)]
  }

  function RuleObjects(name: ChainName, rules: seq<Rule>): seq<Object>
    decreases |rules|
  {
    if rules == [] then
      []
    else
      RuleObjects(name, rules[..|rules| - 1]) + [RuleObject(name, rules[|rules| - 1])]
  }

  function AllRuleObjects(chains: seq<Chain>): seq<Object> {
    if chains == [] then
      []
    else
      var c := chains[|chains| - 1];
      AllRuleObjects(chains[..|chains| - 1]) + RuleObjects(c.name, c.rules)
  }

  // The seal covers everything but the guard and itself.

  predicate Sealed(o: Object) {
    match o
    case Table => true
    case ChainObject(name, _) => name != Guard && !name.Seal?
    case RuleObject(chain, _) => chain != Guard
  }

  function SealedPart(objects: seq<Object>): seq<Object> {
    if objects == [] then
      []
    else
      (if Sealed(objects[0]) then [objects[0]] else []) + SealedPart(objects[1..])
  }

  // A listing may put each chain's rules right after it; the normal form puts every rule last.

  function WithoutRules(objects: seq<Object>): seq<Object> {
    if objects == [] then
      []
    else
      (if objects[0].RuleObject? then [] else [objects[0]]) + WithoutRules(objects[1..])
  }

  function OnlyRules(objects: seq<Object>): seq<Object> {
    if objects == [] then
      []
    else
      (if objects[0].RuleObject? then [objects[0]] else []) + OnlyRules(objects[1..])
  }

  function ChainsFirst(objects: seq<Object>): seq<Object> {
    WithoutRules(objects) + OnlyRules(objects)
  }

  function SealChain(objects: seq<Object>): Object {
    ChainObject(Seal(ChainsFirst(SealedPart(objects))), None)
  }

  function Listing(chains: seq<Chain>): seq<Object> {
    ChainObjects(chains) + AllRuleObjects(chains)
  }

  function SealedListing(chains: seq<Chain>): seq<Object> {
    [Table] + [SealChain([Table] + Listing(chains))] + Listing(chains)
  }

  /** The document for a phase: the table, its seal, every chain, then every rule. */
  function Render(active: Option<KernelPlan>, pending: Option<KernelPlan>, guard: bool): seq<Object> {
    SealedListing(Chains(active, pending, guard))
  }

  // The loops.

  method Controls(networks: seq<IpNet>) returns (rules: seq<Rule>)
    ensures rules == ControlRules(networks)
  {
    rules := [];
    rules := rules + [ReturnIf([OutputName("lo")])];
    rules := rules + [ReturnIf([DestinationIsLocalHost])];
    rules := rules + [ReturnIf([SourcePort(68), DestinationPort(67), DestinationIs(BROADCAST_V4)])];
    for i := 0 to |networks|
      invariant rules == CONTROLS_BEFORE + DhcpRules(networks[..i])
    {
      assert networks[..i + 1][..i] == networks[..i];
      if networks[i].addr.family == V4 {
        rules := rules + [ReturnIf([SourcePort(68), DestinationPort(67), Destination(networks[i])])];
      }
    }
    assert networks[..|networks|] == networks;
    rules := rules + CONTROLS_AFTER;
  }

  method BuildRestoreChain(lanes: seq<LanePlan>, f: Family) returns (chain: Chain)
    ensures chain == RestoreChain(lanes, f)
  {
    var rules := [];
    for i := 0 to |lanes|
      invariant rules == RestoreRules(lanes[..i], f)
    {
      assert lanes[..i + 1][..i] == lanes[..i];
      if Ready(lanes[i], f) {
        rules := rules + [RestoreRule(lanes[i])];
      }
    }
    assert lanes[..|lanes|] == lanes;
    chain := Chain(Restore(f), None, rules + [REJECT_ALL]);
  }

  method BuildFamilyChains(plan: KernelPlan, f: Family) returns (chains: seq<Chain>)
    ensures chains == FamilyChains(plan, f)
  {
    var restore := BuildRestoreChain(plan.lanes, f);
    chains := [restore];
    for i := 0 to |plan.lanes|
      invariant chains == [restore] + SelectChains(plan.lanes[..i], f)
    {
      assert plan.lanes[..i + 1][..i] == plan.lanes[..i];
      chains := chains + [SelectChain(plan.lanes[i], f)];
    }
    assert plan.lanes[..|plan.lanes|] == plan.lanes;
  }

  method BuildExplicitRules(plan: KernelPlan) returns (rules: seq<Rule>)
    ensures rules == ExplicitRules(plan, plan.rules)
  {
    rules := [];
    for i := 0 to |plan.rules|
      invariant rules == ExplicitRules(plan, plan.rules[..i])
    {
      assert plan.rules[..i + 1][..i] == plan.rules[..i];
      rules := rules + [ExplicitRule(plan, plan.rules[i])];
    }
    assert plan.rules[..|plan.rules|] == plan.rules;
  }

  method BuildLocalRules(networks: seq<IpNet>) returns (rules: seq<Rule>)
    ensures rules == LocalRules(networks)
  {
    rules := [];
    for i := 0 to |networks|
      invariant rules == LocalRules(networks[..i])
    {
      assert networks[..i + 1][..i] == networks[..i];
      rules := rules + [ReturnIf([Destination(networks[i])])];
    }
    assert networks[..|networks|] == networks;
  }

  method BuildOutputChain(plan: KernelPlan) returns (chain: Chain)
    ensures chain == OutputChain(plan)
  {
    var controls := Controls(plan.localNetworks);
    var explicit := BuildExplicitRules(plan);
    var local := BuildLocalRules(plan.localNetworks);
    chain := Chain(
      Output,
      Some(Base(RouteKind, OutputHook, -150)),
      controls + (ForeignRules(MetaMark) + ForeignRules(CtMark)) + explicit + [OwnedRule(V4), OwnedRule(V6)]
      + UNMANAGED_RULES + local + [PrimaryRule(plan, V4), PrimaryRule(plan, V6)]);
  }

  /** One pass over the families and ready lanes fills three chains at once. */
  method BuildHookChains(plan: KernelPlan) returns (chains: seq<Chain>)
    ensures chains == HookChains(plan)
  {
    var controls := Controls(plan.localNetworks);
    var egress := [FORWARDED] + controls;
    var reply4, egress4, nat4 := BuildFamilyRules(plan, V4);
    var reply6, egress6, nat6 := BuildFamilyRules(plan, V6);
    egress := egress + (egress4 + egress6) + [DROP_OWNED];
    chains := [
      Chain(Prerouting, Some(Base(FilterKind, PreroutingHook, -150)), reply4 + reply6),
      Chain(EgressGuard, Some(Base(FilterKind, PostroutingHook, 99)), egress),
      Chain(SourceNat, Some(Base(NatKind, PostroutingHook, 100)), nat4 + nat6)];
  }

  method BuildFamilyRules(plan: KernelPlan, f: Family)
    returns (reply: seq<Rule>, egress: seq<Rule>, masquerade: seq<Rule>)
    ensures reply == FamilyRules(plan, ReplyHook, f)
    ensures egress == FamilyRules(plan, EgressHook, f)
    ensures masquerade == FamilyRules(plan, NatHook, f)
  {
    reply, egress, masquerade := [], [], [];
    if LocalSources(plan, f) == {} {
      return;
    }
    var lanes := plan.lanes;
    for i := 0 to |lanes|
      invariant reply == LaneRules(plan, ReplyHook, f, lanes[..i])
      invariant egress == LaneRules(plan, EgressHook, f, lanes[..i])
      invariant masquerade == LaneRules(plan, NatHook, f, lanes[..i])
    {
      assert lanes[..i + 1][..i] == lanes[..i];
      if Ready(lanes[i], f) {
        var scope := EgressScope(plan, f, lanes[i]);
        reply := reply + [ReplyRule(plan, f, lanes[i])];
        egress := egress + [Rule(scope, [Return])];
        masquerade := masquerade + [Rule(scope, [Counter, Masquerade])];
      }
    }
    assert lanes[..|lanes|] == lanes;
  }

  method BuildGuardChain(active: Option<KernelPlan>, pending: Option<KernelPlan>) returns (chain: Chain)
    ensures chain == GuardChain(GuardNetworks(active, pending))
  {
    var networks := GuardNetworks(active, pending);
    var controls := Controls(networks);
    var local := BuildLocalRules(networks);
    chain := Chain(Guard, Some(Base(RouteKind, OutputHook, -149)), controls + local + [REJECT_ALL]);
  }

  method BuildPolicyChains(plan: KernelPlan) returns (chains: seq<Chain>)
    ensures chains == PolicyChains(plan)
  {
    var v4 := BuildFamilyChains(plan, V4);
    var v6 := BuildFamilyChains(plan, V6);
    var output := BuildOutputChain(plan);
    var hooks := BuildHookChains(plan);
    chains := v4 + v6 + [output] + hooks;
  }

  method RenderNftDocument(active: Option<KernelPlan>, pending: Option<KernelPlan>, guard: bool)
    returns (objects: seq<Object>)
    ensures objects == Render(active, pending, guard)
  {
    var chains := [];
    if active.Some? {
      chains := chains + [Chain(State(active.value), None, [])];
    }
    if pending.Some? {
      chains := chains + [Chain(TransactionMarker(pending.value), None, [])];
    }
    assert chains == MarkerChains(active, pending);
    if active.Some? {
      var policy := BuildPolicyChains(active.value);
      chains := chains + policy;
    }
    if guard {
      var guardChain := BuildGuardChain(active, pending);
      chains := chains + [guardChain];
    }
    assert chains == Chains(active, pending, guard);
    objects := ListObjects(chains);
    var seal := SealChain([Table] + objects);
    objects := [Table] + [seal] + objects;
  }

  method ListObjects(chains: seq<Chain>) returns (objects: seq<Object>)
    ensures objects == Listing(chains)
  {
    objects := [];
    for i := 0 to |chains|
      invariant objects == ChainObjects(chains[..i])
    {
      assert chains[..i + 1][..i] == chains[..i];
      objects := objects + [ChainObject(chains[i].name, chains[i].base)];
    }
    assert chains[..|chains|] == chains;
    for i := 0 to |chains|
      invariant objects == ChainObjects(chains) + AllRuleObjects(chains[..i])
    {
      assert chains[..i + 1][..i] == chains[..i];
      objects := objects + RuleObjects(chains[i].name, chains[i].rules);
    }
  }
}
