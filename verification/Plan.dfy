/** The compiled kernel plan and the address arithmetic it relies on. */
module Plan {
  import opened Wrappers

  datatype Family = V4 | V6

  const FAMILIES: seq<Family> := [V4, V6]

  // Reserved ranges of RouteLane's kernel resources.
  const TABLE_BASE: nat := 20_000
  const TABLE_MAX: nat := 20_099
  const MARK_BASE: nat := 0x524c0001
  const MARK_MAX: nat := 0x524c0064
  const RULE_PRIORITY_BASE: nat := 10_000
  const RULE_PRIORITY_MAX: nat := 10_099
  const MAX_LANES: nat := 100
  const MAX_RULES: nat := 10_000
  const INTERFACE_NAME_MAX: nat := 15
  const IFINDEX_MAX: nat := 0x7fff_ffff

  type LaneId = string
  type ProfileId = string
  type RuleId = string

  /** An address is its family and its value as an unsigned number of that family's width. */
  datatype IpAddr = IpAddr(family: Family, bits: nat)

  function Width(f: Family): nat {
    match f case V4 => 32 case V6 => 128
  }

  function Pow2(n: nat): (p: nat)
    ensures p > 0
  {
    if n == 0 then 1 else 2 * Pow2(n - 1)
  }

  datatype RawNet = RawNet(addr: IpAddr, len: nat) {
    /** Size of the host part: two addresses are in one network when they agree above it. */
    function Block(): (b: nat)
      requires len <= Width(addr.family)
      ensures b > 0
    {
      Pow2(Width(addr.family) - len)
    }
  }

  type IpNet = n: RawNet | n.len <= Width(n.addr.family) witness RawNet(IpAddr(V4, 0), 0)

  predicate Contains(n: IpNet, a: IpAddr) {
    n.addr.family == a.family && n.addr.bits / n.Block() == a.bits / n.Block()
  }

  function FloorTo(x: nat, b: nat): nat
    requires b > 0
  {
    x / b * b
  }

  /** Clears the host bits of a network. */
  function Trunc(n: IpNet): IpNet {
    RawNet(IpAddr(n.addr.family, FloorTo(n.addr.bits, n.Block())), n.len)
  }

  function HostNetwork(a: IpAddr): IpNet {
    RawNet(a, Width(a.family))
  }

  lemma TruncKeepsMembers(n: IpNet, a: IpAddr)
    ensures Contains(Trunc(n), a) == Contains(n, a)
    ensures Trunc(Trunc(n)) == Trunc(n)
  {
    FloorKeepsQuotient(n.addr.bits, n.Block());
  }

  lemma FloorKeepsQuotient(x: nat, b: nat)
    requires b > 0
    ensures FloorTo(x, b) / b == x / b
  {
    MulDivCancels(x / b, b);
  }

  lemma MulDivCancels(q: nat, b: nat)
    requires b > 0
    ensures q * b / b == q
  {
    var r := q * b / b;
    assert q * b == b * r + q * b % b;
    assert b * (q - r) == q * b - b * r;
    NoProductBelow(b, q - r);
  }

  lemma NoProductBelow(b: nat, d: int)
    requires 0 <= b * d < b
    ensures d == 0
  {
    if d != 0 {
      ProductGrows(b, if d > 0 then d - 1 else -d - 1);
      assert false;
    }
  }

  lemma ProductGrows(b: nat, d: nat)
    ensures b * (d + 1) >= b
  {
  }

  lemma HostNetworkIsOneAddress(n: IpNet, a: IpAddr)
    requires n.len == Width(n.addr.family)
    ensures Contains(n, a) <==> a == n.addr
  {
    assert n.Block() == 1;
  }

  datatype InterfaceIdentity = InterfaceIdentity(
    ifindex: nat, name: string, kind: string, hardwareAddress: Option<string>)

  datatype RouteMode = Via(gateway: IpAddr) | Device

  datatype LaneAvailability = Available | Unavailable

  datatype LaneFailurePolicy = BlockTraffic | UseDirect | Inactive

  datatype LanePlan = LanePlan(
    identity: Option<InterfaceIdentity>,
    sourceV4: seq<IpAddr>,
    sourceV6: seq<IpAddr>,
    id: LaneId,
    iface: string,
    routeV4: Option<RouteMode>,
    routeV6: Option<RouteMode>,
    availability: LaneAvailability,
    table: nat,
    mark: nat,
    rulePriority: nat,
    failurePolicy: LaneFailurePolicy)
  {
    function Route(f: Family): Option<RouteMode> {
      match f case V4 => routeV4 case V6 => routeV6
    }

    function Sources(f: Family): seq<IpAddr> {
      match f case V4 => sourceV4 case V6 => sourceV6
    }
  }

  datatype CompiledTarget = AnyTarget | Cgroup(path: string) | Network(net: IpNet)

  datatype CompiledAction = Mark(mark: nat) | Direct | Block

  datatype CompiledRule = CompiledRule(
    family: Family, id: RuleId, priority: nat, target: CompiledTarget, action: CompiledAction)

  datatype FamilyExit = LaneExit(id: LaneId) | Blocked

  datatype FamilyPair<+T> = FamilyPair(v4: T, v6: T) {
    function For(f: Family): T {
      match f case V4 => v4 case V6 => v6
    }
  }

  datatype PrimaryDecision = PrimaryDecision(
    preferred: FamilyPair<Option<LaneId>>, effective: FamilyPair<FamilyExit>)

  datatype KernelPlan = KernelPlan(
    primary: PrimaryDecision,
    localNetworks: seq<IpNet>,
    localAddresses: seq<IpAddr>,
    generation: nat,
    profileId: ProfileId,
    lanes: seq<LanePlan>,
    rules: seq<CompiledRule>)
  {
    /** The content hash covers everything except the generation. */
    function Content(): KernelPlan {
      this.(generation := 0)
    }
  }

  /** What makes two compiled rules the same verdict. */
  datatype RoutingKey = RoutingKey(family: Family, target: CompiledTarget, action: CompiledAction)

  function KeyOf(rule: CompiledRule): RoutingKey {
    RoutingKey(rule.family,
               if rule.target.Network? then Network(Trunc(rule.target.net)) else rule.target,
               rule.action)
  }

  /** One length, and the same bits above the host part. */
  predicate SameNetwork(a: IpNet, b: IpNet) {
    && a.addr.family == b.addr.family && a.len == b.len
    && a.addr.bits / Pow2(Width(a.addr.family) - a.len) == b.addr.bits / Pow2(Width(b.addr.family) - b.len)
  }

  lemma SameNetworkSameTrunc(a: IpNet, b: IpNet)
    ensures Trunc(a) == Trunc(b) <==> SameNetwork(a, b)
  {
    FloorKeepsQuotient(a.addr.bits, a.Block());
    FloorKeepsQuotient(b.addr.bits, b.Block());
  }

  /** Two rules have one key exactly if they agree in family and action and name the same addresses or the same cgroup. */
  lemma KeysAgreeIff(a: CompiledRule, b: CompiledRule)
    ensures KeyOf(a) == KeyOf(b) <==>
              && a.family == b.family && a.action == b.action
              && (if a.target.Network? && b.target.Network? then SameNetwork(a.target.net, b.target.net) else a.target == b.target)
  {
    if a.target.Network? && b.target.Network? {
      SameNetworkSameTrunc(a.target.net, b.target.net);
    }
  }

  predicate UniqueKeys(rules: seq<CompiledRule>) {
    forall i, j :: 0 <= i < j < |rules| ==> KeyOf(rules[i]) != KeyOf(rules[j])
  }

  predicate IsAlphanumeric(c: char) {
    'a' <= c <= 'z' || 'A' <= c <= 'Z' || '0' <= c <= '9'
  }

  predicate IsKernelInterfaceName(name: string) {
    && 0 < |name| <= INTERFACE_NAME_MAX
    && forall c :: c in name ==> IsAlphanumeric(c) || c == '_' || c == '-' || c == '.'
  }

  /** Application rules are recognised by a cgroup named after the rule. */
  const APPLICATION_CGROUPS: string := "routelane.apps/"

  function ApplicationCgroup(id: RuleId): string {
    APPLICATION_CGROUPS + id
  }

  predicate IsApplicationId(id: string) {
    id != "" && forall c :: c in id ==> IsAlphanumeric(c) || c == '-' || c == '_'
  }

  predicate IsApplicationCgroup(path: string) {
    && |path| >= |APPLICATION_CGROUPS|
    && path[..|APPLICATION_CGROUPS|] == APPLICATION_CGROUPS
    && IsApplicationId(path[|APPLICATION_CGROUPS|..])
  }

  lemma ApplicationCgroupIsRecognised(id: RuleId)
    ensures IsApplicationCgroup(ApplicationCgroup(id)) <==> IsApplicationId(id)
  {
    var path := ApplicationCgroup(id);
    assert path[..|APPLICATION_CGROUPS|] == APPLICATION_CGROUPS && path[|APPLICATION_CGROUPS|..] == id;
  }

  predicate DistinctTables(lanes: seq<LanePlan>) {
    forall i, j :: 0 <= i < j < |lanes| ==> lanes[i].table != lanes[j].table
  }

  predicate DistinctMarks(lanes: seq<LanePlan>) {
    forall i, j :: 0 <= i < j < |lanes| ==> lanes[i].mark != lanes[j].mark
  }

  predicate InReservedRanges(lane: LanePlan) {
    && TABLE_BASE <= lane.table <= TABLE_MAX
    && MARK_BASE <= lane.mark <= MARK_MAX
    && RULE_PRIORITY_BASE <= lane.rulePriority <= RULE_PRIORITY_MAX
  }
}
