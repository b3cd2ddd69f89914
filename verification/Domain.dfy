/** The user's profile and the observed topology it is compiled against. */
module Domain {
  import opened Wrappers
  import opened Plan

  datatype RuleSource = AnySource | Application(executable: string, includeChildren: bool, desktopId: Option<string>)

  /** Domain names are in canonical spelling. */
  datatype RuleTarget =
    | AnyDestination
    | DomainName(name: string)
    | WildcardDomain(pattern: string)
    | Ip(address: IpAddr)
    | Cidr(net: IpNet)
    | ServicePack(pack: string)

  datatype RuleAction = Route(lane: LaneId) | RouteDirect | RouteBlock

  datatype ProfileRule = ProfileRule(
    id: RuleId, enabled: bool, priority: nat, source: RuleSource, target: RuleTarget, action: RuleAction)

  /** `nameKey` is the trimmed name in lower case, or None for a blank one. */
  datatype Lane = Lane(
    id: LaneId, nameKey: Option<string>, iface: string, fallback: Option<LaneId>, failurePolicy: LaneFailurePolicy)

  datatype PrimarySelection = FollowSystemDefault | PrimaryLane(id: LaneId)

  datatype UnmatchedTraffic = PreserveSystem | UsePrimary

  datatype RoutingPolicy = RoutingPolicy(
    unmatched: UnmatchedTraffic, primary: PrimarySelection, backups: seq<LaneId>, automaticFailover: bool)

  datatype Profile = Profile(
    id: ProfileId, enabled: bool, lanes: seq<Lane>, rules: seq<ProfileRule>, routing: RoutingPolicy)

  datatype InterfaceTopology = InterfaceTopology(
    identity: Option<InterfaceIdentity>,
    linkReady: bool,
    routeV4: Option<RouteMode>,
    routeV6: Option<RouteMode>,
    sourceV4: seq<IpAddr>,
    sourceV6: seq<IpAddr>,
    connectedNetworks: seq<IpNet>)
  {
    function Route(f: Family): Option<RouteMode> {
      match f case V4 => routeV4 case V6 => routeV6
    }

    function Sources(f: Family): seq<IpAddr> {
      match f case V4 => sourceV4 case V6 => sourceV6
    }

    predicate Ready(f: Family) {
      identity.Some? && linkReady && Route(f).Some? && Sources(f) != []
    }
  }

  datatype DefaultSelection = NoDefault | DefaultInterface(name: string) | AmbiguousDefault

  datatype Topology = Topology(
    interfaces: map<string, InterfaceTopology>,
    defaults: FamilyPair<DefaultSelection>,
    observed: bool,
    localNetworks: seq<IpNet>,
    assignedAddresses: seq<IpAddr>)
  {
    function Interface(name: string): Option<InterfaceTopology> {
      if name in interfaces then Some(interfaces[name]) else None
    }
  }

  predicate HasLane(lanes: seq<Lane>, id: LaneId) {
    exists i :: 0 <= i < |lanes| && lanes[i].id == id
  }

  predicate UniqueLanes(lanes: seq<Lane>) {
    forall i, j :: 0 <= i < j < |lanes| ==> lanes[i].id != lanes[j].id
  }

  /** The first lane with an id. */
  function FindLane(lanes: seq<Lane>, id: LaneId): (r: Option<Lane>)
    ensures r.Some? <==> HasLane(lanes, id)
    ensures r.Some? ==> r.value in lanes && r.value.id == id
  {
    if lanes == [] then
      None
    else if lanes[0].id == id then
      assert HasLane(lanes, id);
      Some(lanes[0])
    else
      var r := FindLane(lanes[1..], id);
      assert HasLane(lanes[1..], id) <==> HasLane(lanes, id) by { LaneElsewhere(lanes, id); }
      r
  }

  lemma LaneElsewhere(lanes: seq<Lane>, id: LaneId)
    requires lanes != [] && lanes[0].id != id
    ensures HasLane(lanes[1..], id) <==> HasLane(lanes, id)
  {
    if HasLane(lanes, id) {
      var i :| 0 <= i < |lanes| && lanes[i].id == id;
      assert lanes[1..][i - 1].id == id;
    }
    if HasLane(lanes[1..], id) {
      var i :| 0 <= i < |lanes| - 1 && lanes[1..][i].id == id;
      assert lanes[i + 1].id == id;
    }
  }
}
