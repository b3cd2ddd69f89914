/** Compiles a profile against observed topology into a kernel plan. */
module Planner {
  import opened Wrappers
  import opened Plan
  import opened Domain
  import opened Fallback
  import opened Sequences
  import Sorting
  import NftRender

  datatype DomainError =
    | TooManyLanes
    | TooManyRules
    | DuplicateLaneId(lane: LaneId)
    | EmptyLaneName(lane: LaneId)
    | DuplicateLaneName(name: string)
    | DuplicateRuleId(rule: RuleId)
    | EmptyApplicationExecutable(rule: RuleId)
    | InvalidApplicationRule(rule: RuleId)
    | DuplicateApplicationDesktopId(desktopId: string)
    | DuplicateRule(existing: RuleId, duplicate: RuleId)
    | UnknownLane(lane: LaneId)
    | PrimaryIsBackup(lane: LaneId)
    | DuplicateBackupLane(lane: LaneId)
    | SelfReferentialFallback(lane: LaneId)
    | FallbackCycle(lane: LaneId)

  datatype Capability = NeedsWildcardDomain | NeedsServicePack

  datatype PlanError =
    | InvalidProfile(error: DomainError)
    | ProfileInactive
    | InvalidPrimaryExit(lane: LaneId, family: Family)
    | DomainResolutionUnavailable(rule: RuleId)
    | UnsupportedCapability(rule: RuleId, capability: Capability)

  type Resolutions = map<RuleId, seq<IpNet>>

  // Validation.

  ghost predicate UniqueRules(rules: seq<ProfileRule>) {
    forall i, j :: 0 <= i < j < |rules| ==> rules[i].id != rules[j].id
  }

  /** An application is a program of its own, and is only ever sent to a lane. */
  predicate WellFormedSource(rule: ProfileRule) {
    rule.source.Application? ==> rule.source.executable != "" && rule.target.AnyDestination? && rule.action.Route?
  }

  /** The desktop entry an application rule claims for itself. */
  function DesktopEntry(rule: ProfileRule): Option<string> {
    if rule.source.Application? && rule.source.desktopId != Some("") then rule.source.desktopId else None
  }

  ghost predicate ValidNames(lanes: seq<Lane>) {
    && (forall i :: 0 <= i < |lanes| ==> lanes[i].nameKey.Some?)
    && (forall i, j :: 0 <= i < j < |lanes| ==> lanes[i].nameKey != lanes[j].nameKey)
  }

  /** What two rules have in common when they say the same thing: id, priority and enabling do not count. */
  datatype RuleContent = RuleContent(application: Option<(string, bool)>, target: RuleTarget, action: RuleAction)

  function ContentOf(rule: ProfileRule): RuleContent {
    RuleContent(
      if rule.source.Application? then Some((rule.source.executable, rule.source.includeChildren)) else None,
      match rule.target
      case Ip(address) => Cidr(HostNetwork(address))
      case Cidr(net) => Cidr(Trunc(net))
      case _ => rule.target,
      rule.action)
  }

  ghost predicate DistinctContents(rules: seq<ProfileRule>) {
    forall i, j :: 0 <= i < j < |rules| ==> ContentOf(rules[i]) != ContentOf(rules[j])
  }

  ghost predicate ValidApplications(rules: seq<ProfileRule>) {
    && (forall i :: 0 <= i < |rules| ==> WellFormedSource(rules[i]))
    && (forall i, j :: 0 <= i < j < |rules| && DesktopEntry(rules[i]).Some? ==> DesktopEntry(rules[i]) != DesktopEntry(rules[j]))
  }

  ghost predicate ValidRouting(routing: RoutingPolicy, lanes: seq<Lane>) {
    && (routing.primary.PrimaryLane? ==> HasLane(lanes, routing.primary.id))
    && (forall i :: 0 <= i < |routing.backups| ==>
          HasLane(lanes, routing.backups[i]) && routing.primary != PrimaryLane(routing.backups[i]))
    && (forall i, j :: 0 <= i < j < |routing.backups| ==> routing.backups[i] != routing.backups[j])
  }

  ghost predicate RoutesKnown(profile: Profile) {
    forall i :: 0 <= i < |profile.rules| && profile.rules[i].action.Route? ==>
      HasLane(profile.lanes, profile.rules[i].action.lane)
  }

  ghost predicate ValidProfile(profile: Profile) {
    && |profile.lanes| <= MAX_LANES
    && |profile.rules| <= MAX_RULES
    && UniqueLanes(profile.lanes)
    && ValidNames(profile.lanes)
    && ValidRouting(profile.routing, profile.lanes)
    && UniqueRules(profile.rules)
    && ValidApplications(profile.rules)
    && DistinctContents(profile.rules)
    && RoutesKnown(profile)
    && FallbacksKnown(profile.lanes)
    && Acyclic(profile.lanes)
  }

  /** What an error says is wrong with the profile. */
  ghost predicate Explains(error: DomainError, profile: Profile) {
    match error
    case TooManyLanes => |profile.lanes| > MAX_LANES
    case TooManyRules => |profile.rules| > MAX_RULES
    case DuplicateLaneId(id) =>
      exists i, j :: 0 <= i < j < |profile.lanes| && profile.lanes[i].id == profile.lanes[j].id == id
    case EmptyLaneName(id) =>
      exists i :: 0 <= i < |profile.lanes| && profile.lanes[i].id == id && profile.lanes[i].nameKey.None?
    case DuplicateLaneName(name) =>
      exists i, j :: 0 <= i < j < |profile.lanes| && profile.lanes[i].nameKey == profile.lanes[j].nameKey == Some(name)
    case DuplicateRule(existing, duplicate) =>
      exists i, j :: 0 <= i < j < |profile.rules| && profile.rules[i].id == existing && profile.rules[j].id == duplicate
                     && ContentOf(profile.rules[i]) == ContentOf(profile.rules[j])
    case DuplicateRuleId(id) =>
      exists i, j :: 0 <= i < j < |profile.rules| && profile.rules[i].id == profile.rules[j].id == id
    case EmptyApplicationExecutable(id) =>
      exists i :: 0 <= i < |profile.rules| && profile.rules[i].id == id && profile.rules[i].source.Application?
                  && profile.rules[i].source.executable == ""
    case InvalidApplicationRule(id) =>
      exists i :: 0 <= i < |profile.rules| && profile.rules[i].id == id && profile.rules[i].source.Application?
                  && !(profile.rules[i].target.AnyDestination? && profile.rules[i].action.Route?)
    case DuplicateApplicationDesktopId(entry) =>
      exists i, j :: 0 <= i < j < |profile.rules| && DesktopEntry(profile.rules[i]) == DesktopEntry(profile.rules[j]) == Some(entry)
    case UnknownLane(id) => !HasLane(profile.lanes, id) && Mentions(profile, id)
    case PrimaryIsBackup(id) => profile.routing.primary == PrimaryLane(id) && id in profile.routing.backups
    case DuplicateBackupLane(id) =>
      exists i, j :: 0 <= i < j < |profile.routing.backups| && profile.routing.backups[i] == profile.routing.backups[j] == id
    case SelfReferentialFallback(id) =>
      exists i :: 0 <= i < |profile.lanes| && profile.lanes[i].id == id && profile.lanes[i].fallback == Some(id)
    case FallbackCycle(id) => HasLane(profile.lanes, id) && !Ends(profile.lanes, id)
  }

  ghost predicate Mentions(profile: Profile, id: LaneId) {
    || profile.routing.primary == PrimaryLane(id)
    || id in profile.routing.backups
    || (exists i :: 0 <= i < |profile.rules| && profile.rules[i].action == Route(id))
    || (exists i :: 0 <= i < |profile.lanes| && profile.lanes[i].fallback == Some(id))
  }

  /** The names of the first lanes. */
  ghost predicate NamesOf(names: set<string>, lanes: seq<Lane>, n: nat)
    requires n <= |lanes|
  {
    forall x :: x in names <==> exists j :: 0 <= j < n && lanes[j].nameKey == Some(x)
  }

  method ClaimName(profile: Profile, i: nat, names: set<string>) returns (error: Option<DomainError>, more: set<string>)
    requires i < |profile.lanes| && NamesOf(names, profile.lanes, i)
    ensures error == None <==> NameIsNew(profile.lanes, i)
    ensures error == None ==> NamesOf(more, profile.lanes, i + 1)
    ensures error.Some? ==> Explains(error.value, profile)
  {
    var lane := profile.lanes[i];
    error, more := None, names;
    if lane.nameKey.None? {
      return Some(EmptyLaneName(lane.id)), more;
    }
    if lane.nameKey.value in names {
      return Some(DuplicateLaneName(lane.nameKey.value)), more;
    }
    more := names + {lane.nameKey.value};
  }

  ghost predicate NameIsNew(lanes: seq<Lane>, i: nat)
    requires i < |lanes|
  {
    lanes[i].nameKey.Some? && forall j :: 0 <= j < i ==> lanes[j].nameKey != lanes[i].nameKey
  }

  ghost predicate LaneIsNew(lanes: seq<Lane>, i: nat)
    requires i < |lanes|
  {
    forall j :: 0 <= j < i ==> lanes[j].id != lanes[i].id
  }

  ghost predicate LanesChecked(lanes: seq<Lane>, n: nat)
    requires n <= |lanes|
  {
    && (forall i, j :: 0 <= i < j < n ==> lanes[i].id != lanes[j].id)
    && (forall i :: 0 <= i < n ==> lanes[i].nameKey.Some?)
    && (forall i, j :: 0 <= i < j < n ==> lanes[i].nameKey != lanes[j].nameKey)
  }

  lemma NewIffLanesChecked(lanes: seq<Lane>, i: nat)
    requires i < |lanes| && LanesChecked(lanes, i)
    ensures LanesChecked(lanes, i + 1) <==> LaneIsNew(lanes, i) && NameIsNew(lanes, i)
  {
  }

  /** The ids of the first lanes. */
  ghost predicate IdsOf(ids: set<LaneId>, lanes: seq<Lane>, n: nat)
    requires n <= |lanes|
  {
    forall x :: x in ids <==> exists j :: 0 <= j < n && lanes[j].id == x
  }

  method ClaimLane(profile: Profile, i: nat, seen: set<LaneId>) returns (error: Option<DomainError>, more: set<LaneId>)
    requires i < |profile.lanes| && IdsOf(seen, profile.lanes, i)
    ensures error == None <==> LaneIsNew(profile.lanes, i)
    ensures error == None ==> IdsOf(more, profile.lanes, i + 1)
    ensures error.Some? ==> Explains(error.value, profile)
  {
    var id := profile.lanes[i].id;
    error, more := if id in seen then Some(DuplicateLaneId(id)) else None, seen + {id};
  }

  method CheckLanes(profile: Profile) returns (error: Option<DomainError>)
    ensures error == None <==> UniqueLanes(profile.lanes) && ValidNames(profile.lanes)
    ensures error.Some? ==> Explains(error.value, profile)
  {
    var seen: set<LaneId>, names: set<string> := {}, {};
    for i := 0 to |profile.lanes|
      invariant IdsOf(seen, profile.lanes, i) && NamesOf(names, profile.lanes, i) && LanesChecked(profile.lanes, i)
    {
      NewIffLanesChecked(profile.lanes, i);
      error, seen := ClaimLane(profile, i, seen);
      if error.Some? {
        return;
      }
      error, names := ClaimName(profile, i, names);
      if error.Some? {
        return;
      }
    }
    error := None;
  }

  method CheckSource(profile: Profile, i: nat) returns (error: Option<DomainError>)
    requires i < |profile.rules|
    ensures error == None <==> WellFormedSource(profile.rules[i])
    ensures error.Some? ==> Explains(error.value, profile)
  {
    var rule := profile.rules[i];
    error := None;
    if rule.source.Application? {
      if rule.source.executable == "" {
        return Some(EmptyApplicationExecutable(rule.id));
      }
      if !rule.target.AnyDestination? || !rule.action.Route? {
        return Some(InvalidApplicationRule(rule.id));
      }
    }
  }

  /** The desktop entries of the first rules. */
  ghost predicate Claims(entries: set<string>, rules: seq<ProfileRule>, n: nat)
    requires n <= |rules|
  {
    forall x :: x in entries <==> exists j :: 0 <= j < n && DesktopEntry(rules[j]) == Some(x)
  }

  method ClaimEntry(profile: Profile, i: nat, entries: set<string>) returns (error: Option<DomainError>, more: set<string>)
    requires i < |profile.rules| && Claims(entries, profile.rules, i)
    ensures error == None <==> EntryIsNew(profile.rules, i)
    ensures error == None ==> Claims(more, profile.rules, i + 1)
    ensures error.Some? ==> Explains(error.value, profile)
  {
    error, more := None, entries;
    var entry := DesktopEntry(profile.rules[i]);
    if entry.Some? {
      if entry.value in entries {
        return Some(DuplicateApplicationDesktopId(entry.value)), more;
      }
      more := entries + {entry.value};
    }
  }

  /** The first rules have ids of their own, are well formed, claim no desktop entry twice and say nothing twice. */
  ghost predicate RulesChecked(rules: seq<ProfileRule>, n: nat)
    requires n <= |rules|
  {
    && (forall i, j :: 0 <= i < j < n ==> rules[i].id != rules[j].id)
    && (forall i :: 0 <= i < n ==> WellFormedSource(rules[i]))
    && (forall i, j :: 0 <= i < j < n && DesktopEntry(rules[i]).Some? ==> DesktopEntry(rules[i]) != DesktopEntry(rules[j]))
    && (forall i, j :: 0 <= i < j < n ==> ContentOf(rules[i]) != ContentOf(rules[j]))
  }

  /** The next rule keeps it so. */
  ghost predicate Fits(rules: seq<ProfileRule>, i: nat)
    requires i < |rules|
  {
    IdIsNew(rules, i) && WellFormedSource(rules[i]) && EntryIsNew(rules, i) && ContentIsNew(rules, i)
  }

  ghost predicate IdIsNew(rules: seq<ProfileRule>, i: nat)
    requires i < |rules|
  {
    forall j :: 0 <= j < i ==> rules[j].id != rules[i].id
  }

  ghost predicate EntryIsNew(rules: seq<ProfileRule>, i: nat)
    requires i < |rules|
  {
    forall j :: 0 <= j < i && DesktopEntry(rules[j]).Some? ==> DesktopEntry(rules[j]) != DesktopEntry(rules[i])
  }

  ghost predicate ContentIsNew(rules: seq<ProfileRule>, i: nat)
    requires i < |rules|
  {
    forall j :: 0 <= j < i ==> ContentOf(rules[j]) != ContentOf(rules[i])
  }

  lemma FitsIffChecked(rules: seq<ProfileRule>, i: nat)
    requires i < |rules| && RulesChecked(rules, i)
    ensures RulesChecked(rules, i + 1) <==> Fits(rules, i)
  {
  }

  /** The ids of the first rules. */
  ghost predicate Names(ids: set<RuleId>, rules: seq<ProfileRule>, n: nat)
    requires n <= |rules|
  {
    forall x :: x in ids <==> exists j :: 0 <= j < n && rules[j].id == x
  }

  /** What the first rules say, and which of them says it. */
  ghost predicate Says(contents: map<RuleContent, RuleId>, rules: seq<ProfileRule>, n: nat)
    requires n <= |rules|
  {
    && (forall j :: 0 <= j < n ==> ContentOf(rules[j]) in contents)
    && (forall content :: content in contents ==>
          exists j :: 0 <= j < n && ContentOf(rules[j]) == content && rules[j].id == contents[content])
  }

  method CheckRules(profile: Profile) returns (error: Option<DomainError>)
    ensures error == None <==> UniqueRules(profile.rules) && ValidApplications(profile.rules) && DistinctContents(profile.rules)
    ensures error.Some? ==> Explains(error.value, profile)
  {
    var seen: set<RuleId>, entries: set<string>, contents: map<RuleContent, RuleId> := {}, {}, map[];
    for i := 0 to |profile.rules|
      invariant Names(seen, profile.rules, i) && Claims(entries, profile.rules, i) && Says(contents, profile.rules, i)
      invariant RulesChecked(profile.rules, i)
    {
      FitsIffChecked(profile.rules, i);
      error, seen, entries, contents := CheckRule(profile, i, seen, entries, contents);
      if error.Some? {
        return;
      }
    }
    error := None;
  }

  method CheckRule(
    profile: Profile, i: nat, seen: set<RuleId>, entries: set<string>, contents: map<RuleContent, RuleId>)
    returns (error: Option<DomainError>, ids: set<RuleId>, claimed: set<string>, said: map<RuleContent, RuleId>)
    requires i < |profile.rules|
    requires Names(seen, profile.rules, i) && Claims(entries, profile.rules, i) && Says(contents, profile.rules, i)
    ensures error == None ==>
              Names(ids, profile.rules, i + 1) && Claims(claimed, profile.rules, i + 1) && Says(said, profile.rules, i + 1)
    ensures error == None <==> Fits(profile.rules, i)
    ensures error.Some? ==> Explains(error.value, profile)
  {
    claimed, said := entries, contents;
    error, ids := ClaimId(profile, i, seen);
    if error.Some? {
      return;
    }
    error := CheckSource(profile, i);
    if error.Some? {
      return;
    }
    error, claimed := ClaimEntry(profile, i, entries);
    if error.Some? {
      return;
    }
    error, said := SayOnce(profile, i, contents);
  }

  method ClaimId(profile: Profile, i: nat, seen: set<RuleId>) returns (error: Option<DomainError>, ids: set<RuleId>)
    requires i < |profile.rules| && Names(seen, profile.rules, i)
    ensures error == None <==> IdIsNew(profile.rules, i)
    ensures error == None ==> Names(ids, profile.rules, i + 1)
    ensures error.Some? ==> Explains(error.value, profile)
  {
    var id := profile.rules[i].id;
    error, ids := if id in seen then Some(DuplicateRuleId(id)) else None, seen + {id};
  }

  method SayOnce(profile: Profile, i: nat, contents: map<RuleContent, RuleId>)
    returns (error: Option<DomainError>, more: map<RuleContent, RuleId>)
    requires i < |profile.rules| && Says(contents, profile.rules, i)
    ensures error == None <==> ContentIsNew(profile.rules, i)
    ensures error == None ==> Says(more, profile.rules, i + 1)
    ensures error.Some? ==> Explains(error.value, profile)
  {
    var rule, content := profile.rules[i], ContentOf(profile.rules[i]);
    error, more := None, contents[content := rule.id];
    if content in contents {
      error := Some(DuplicateRule(contents[content], rule.id));
    }
  }

  method CheckRouting(profile: Profile) returns (error: Option<DomainError>)
    ensures error == None <==> ValidRouting(profile.routing, profile.lanes)
    ensures error.Some? ==> Explains(error.value, profile)
  {
    var routing, lanes := profile.routing, profile.lanes;
    if routing.primary.PrimaryLane? && !HasLane(lanes, routing.primary.id) {
      return Some(UnknownLane(routing.primary.id));
    }
    var backups := routing.backups;
    var seen: set<LaneId> := {};
    for i := 0 to |backups|
      invariant forall j :: 0 <= j < i ==> HasLane(lanes, backups[j]) && routing.primary != PrimaryLane(backups[j])
      invariant forall x :: x in seen <==> exists j :: 0 <= j < i && backups[j] == x
      invariant forall j, k :: 0 <= j < k < i ==> backups[j] != backups[k]
    {
      if !HasLane(lanes, backups[i]) {
        return Some(UnknownLane(backups[i]));
      }
      if routing.primary == PrimaryLane(backups[i]) {
        return Some(PrimaryIsBackup(backups[i]));
      }
      if backups[i] in seen {
        return Some(DuplicateBackupLane(backups[i]));
      }
      seen := seen + {backups[i]};
    }
    error := None;
  }

  method CheckReferences(profile: Profile) returns (error: Option<DomainError>)
    requires UniqueLanes(profile.lanes)
    ensures error == None ==> RoutesKnown(profile) && FallbacksKnown(profile.lanes)
    ensures error.Some? ==> !RoutesKnown(profile) || !FallbacksKnown(profile.lanes) || !Acyclic(profile.lanes)
    ensures error.Some? ==> Explains(error.value, profile)
  {
    for i := 0 to |profile.rules|
      invariant forall j :: 0 <= j < i && profile.rules[j].action.Route? ==>
                  HasLane(profile.lanes, profile.rules[j].action.lane)
    {
      var action := profile.rules[i].action;
      if action.Route? && !HasLane(profile.lanes, action.lane) {
        return Some(UnknownLane(action.lane));
      }
    }
    for i := 0 to |profile.lanes|
      invariant forall j :: 0 <= j < i && profile.lanes[j].fallback.Some? ==>
                  HasLane(profile.lanes, profile.lanes[j].fallback.value)
    {
      var lane := profile.lanes[i];
      if lane.fallback.Some? {
        if !HasLane(profile.lanes, lane.fallback.value) {
          return Some(UnknownLane(lane.fallback.value));
        }
        if lane.fallback.value == lane.id {
          SelfReferenceIsCycle(profile.lanes, i);
          return Some(SelfReferentialFallback(lane.id));
        }
      }
    }
    error := None;
  }

  lemma SelfReferenceIsCycle(lanes: seq<Lane>, i: nat)
    requires UniqueLanes(lanes) && i < |lanes| && lanes[i].fallback == Some(lanes[i].id)
    ensures !Acyclic(lanes)
  {
    var id := lanes[i].id;
    TheLane(lanes, i);
    assert Hop(lanes, id, 0) == Some(id);
    assert Hop(lanes, id, 1) == Some(id);
  }

  lemma TheLane(lanes: seq<Lane>, i: nat)
    requires UniqueLanes(lanes) && i < |lanes|
    ensures FindLane(lanes, lanes[i].id) == Some(lanes[i])
  {
    assert HasLane(lanes, lanes[i].id);
    var found := FindLane(lanes, lanes[i].id).value;
    var j :| 0 <= j < |lanes| && lanes[j] == found;
    assert j == i;
  }

  method ValidateProfile(profile: Profile) returns (error: Option<DomainError>)
    ensures error == None <==> ValidProfile(profile)
    ensures error.Some? ==> Explains(error.value, profile)
  {
    if |profile.lanes| > MAX_LANES {
      return Some(TooManyLanes);
    }
    if |profile.rules| > MAX_RULES {
      return Some(TooManyRules);
    }
    error := CheckLanes(profile);
    if error.Some? { return; }
    error := CheckRouting(profile);
    if error.Some? { return; }
    error := CheckRules(profile);
    if error.Some? { return; }
    error := CheckReferences(profile);
    if error.Some? { return; }
    var cycle := CheckFallbacks(profile.lanes);
    if cycle.Some? {
      return Some(FallbackCycle(cycle.value));
    }
  }

  // Lanes.

  predicate LaneBefore(a: Lane, b: Lane) {
    Sorting.TextBefore(a.id, b.id)
  }

  function SortLanes(lanes: seq<Lane>): seq<Lane> {
    Sorting.Sort(lanes, LaneBefore)
  }

  function ObservedRoute(topology: Topology, entry: Option<InterfaceTopology>, f: Family): Option<RouteMode> {
    if entry.Some? && (!topology.observed || entry.value.Ready(f)) then entry.value.Route(f) else None
  }

  function CompileLane(lane: Lane, topology: Topology, slot: nat): LanePlan {
    var entry := topology.Interface(lane.iface);
    var routeV4, routeV6 := ObservedRoute(topology, entry, V4), ObservedRoute(topology, entry, V6);
    LanePlan(
      if entry.Some? then entry.value.identity else None,
      if entry.Some? then entry.value.sourceV4 else [],
      if entry.Some? then entry.value.sourceV6 else [],
      lane.id,
      lane.iface,
      routeV4,
      routeV6,
      if routeV4.Some? || routeV6.Some? then Available else Unavailable,
      TABLE_BASE + slot,
      MARK_BASE + slot,
      RULE_PRIORITY_BASE + slot,
      lane.failurePolicy)
  }

  function CompileLanes(lanes: seq<Lane>, topology: Topology): seq<LanePlan> {
    seq(|lanes|, i requires 0 <= i < |lanes| => CompileLane(lanes[i], topology, i))
  }

  function FindPlan(plans: seq<LanePlan>, id: LaneId): (r: Option<LanePlan>)
    ensures r.Some? ==> r.value in plans && r.value.id == id
    ensures r.None? ==> forall plan :: plan in plans ==> plan.id != id
  {
    if plans == [] then None else if plans[0].id == id then Some(plans[0]) else FindPlan(plans[1..], id)
  }

  predicate FamilyAvailable(plan: LanePlan, f: Family) {
    plan.availability == Available && plan.Route(f).Some?
  }

  // Actions.

  /** Everything a rule's action is resolved against. */
  datatype Context = Context(lanes: seq<Lane>, plans: seq<LanePlan>, primary: PrimaryDecision, resolutions: Resolutions)
  {
    ghost predicate Valid() {
      && Acyclic(lanes)
      && FallbacksKnown(lanes)
      && (forall id :: HasLane(lanes, id) ==> FindPlan(plans, id).Some?)
      && PrimaryUsable(V4)
      && PrimaryUsable(V6)
    }

    predicate PrimaryUsable(f: Family) {
      match primary.effective.For(f)
      case Blocked => true
      case LaneExit(id) =>
        var plan := FindPlan(plans, id);
        plan.Some? && plan.value.identity.Some? && FamilyAvailable(plan.value, f) && plan.value.Sources(f) != []
    }
  }

  function PrimaryAction(ctx: Context, f: Family): CompiledAction
    requires ctx.PrimaryUsable(f)
  {
    match ctx.primary.effective.For(f)
    case Blocked => CompiledAction.Block
    case LaneExit(id) => Mark(FindPlan(ctx.plans, id).value.mark)
  }

  /** The first lane of a chain that can carry a family. */
  function FirstAvailable(plans: seq<LanePlan>, chain: seq<LaneId>, f: Family): (r: Option<LanePlan>)
    decreases |chain|
  {
    if chain == [] then
      None
    else
      var plan := FindPlan(plans, chain[0]);
      if plan.Some? && FamilyAvailable(plan.value, f) then plan else FirstAvailable(plans, chain[1..], f)
  }

  function RouteAction(ctx: Context, id: LaneId, f: Family): Option<CompiledAction>
    requires ctx.PrimaryUsable(f) && HasLane(ctx.lanes, id)
  {
    match FirstAvailable(ctx.plans, Chain(ctx.lanes, id), f)
    case Some(plan) => Some(Mark(plan.mark))
    case None =>
      match FindLane(ctx.lanes, id).value.failurePolicy
      case BlockTraffic => Some(CompiledAction.Block)
      case UseDirect => Some(PrimaryAction(ctx, f))
      case Inactive => None
  }

  /** What a rule's action means for a family; None when it is inactive there. */
  function ResolveAction(ctx: Context, action: RuleAction, f: Family): Option<CompiledAction>
    requires ctx.PrimaryUsable(f) && (action.Route? ==> HasLane(ctx.lanes, action.lane))
  {
    match action
    case Route(id) => RouteAction(ctx, id, f)
    case RouteDirect => Some(PrimaryAction(ctx, f))
    case RouteBlock => Some(CompiledAction.Block)
  }

  /** The fallback walk. It ends because the graph was checked, at the first lane of the chain that can carry the family. */
  method CompileRouteAction(ctx: Context, id: LaneId, f: Family) returns (action: Option<CompiledAction>)
    requires ctx.Valid() && HasLane(ctx.lanes, id)
    ensures ctx.PrimaryUsable(f) && action == RouteAction(ctx, id, f)
  {
    assert ctx.PrimaryUsable(f) by { assert f == V4 || f == V6; }
    var original := FindLane(ctx.lanes, id).value;
    var carrier := WalkFallbacks(ctx, id, f);
    if carrier.Some? {
      return Some(Mark(carrier.value.mark));
    }
    match original.failurePolicy {
      case BlockTraffic => action := Some(CompiledAction.Block);
      case UseDirect => action := Some(PrimaryAction(ctx, f));
      case Inactive => action := None;
    }
  }

  method WalkFallbacks(ctx: Context, id: LaneId, f: Family) returns (carrier: Option<LanePlan>)
    requires ctx.Valid() && HasLane(ctx.lanes, id)
    ensures carrier == FirstAvailable(ctx.plans, Chain(ctx.lanes, id), f)
  {
    ghost var chain := Chain(ctx.lanes, id);
    ChainIsTheHops(ctx.lanes, id);
    assert Hop(ctx.lanes, id, 0) == Some(chain[0]);
    var original := FindPlan(ctx.plans, id);
    if FamilyAvailable(original.value, f) {
      return original;
    }
    var fallback := FindLane(ctx.lanes, id).value.fallback;
    ghost var k: nat := 1;
    HopAt(ctx.lanes, id, chain, 1);
    while fallback.Some?
      invariant 1 <= k <= |chain|
      invariant fallback == if k < |chain| then Some(chain[k]) else None
      invariant FirstAvailable(ctx.plans, chain, f) == FirstAvailable(ctx.plans, chain[k..], f)
      decreases |chain| - k
    {
      ChainLanesExist(ctx.lanes, id, chain, k);
      var plan := FindPlan(ctx.plans, fallback.value);
      if FamilyAvailable(plan.value, f) {
        return plan;
      }
      HopAt(ctx.lanes, id, chain, k + 1);
      fallback := FindLane(ctx.lanes, fallback.value).value.fallback;
      assert chain[k..][1..] == chain[k + 1..];
      k := k + 1;
    }
    carrier := None;
  }

  lemma HopAt(lanes: seq<Lane>, id: LaneId, chain: seq<LaneId>, k: nat)
    requires WholeChain(lanes, id, 0, chain) && 1 <= k <= |chain|
    ensures NextLane(lanes, chain[k - 1]) == if k < |chain| then Some(chain[k]) else None
  {
    assert Hop(lanes, id, 0 + (k - 1)) == Some(chain[k - 1]);
    if k < |chain| {
      assert Hop(lanes, id, 0 + k) == Some(chain[k]);
    }
  }

  lemma ChainLanesExist(lanes: seq<Lane>, id: LaneId, chain: seq<LaneId>, k: nat)
    requires WholeChain(lanes, id, 0, chain) && FallbacksKnown(lanes) && 1 <= k < |chain|
    ensures HasLane(lanes, chain[k])
  {
    HopAt(lanes, id, chain, k);
    NextHasLane(lanes, chain[k - 1]);
  }

  // Rules.

  function TruncAll(networks: seq<IpNet>): seq<IpNet> {
    seq(|networks|, i requires 0 <= i < |networks| => Trunc(networks[i]))
  }

  function NetworkTargets(networks: seq<IpNet>): seq<CompiledTarget> {
    seq(|networks|, i requires 0 <= i < |networks| => Network(networks[i]))
  }

  function RuleTargets(rule: ProfileRule, resolutions: Resolutions): Result<seq<CompiledTarget>, PlanError> {
    match rule.source
    case Application(_, _, _) => Ok([Cgroup(ApplicationCgroup(rule.id))])
    case AnySource =>
      match rule.target
      case AnyDestination => Ok([AnyTarget])
      case Ip(address) => Ok([Network(HostNetwork(address))])
      case Cidr(net) => Ok([Network(Trunc(net))])
      case DomainName(_) =>
        if rule.id in resolutions then
          Ok(NetworkTargets(NftRender.SortedOnce(TruncAll(resolutions[rule.id]))))
        else
          Err(DomainResolutionUnavailable(rule.id))
      case WildcardDomain(_) => Err(UnsupportedCapability(rule.id, NeedsWildcardDomain))
      case ServicePack(_) => Err(UnsupportedCapability(rule.id, NeedsServicePack))
  }

  function TargetFamilies(target: CompiledTarget): seq<Family> {
    match target
    case Network(net) => [net.addr.family]
    case _ => FAMILIES
  }

  /** The compiled rules of one target, in family order. */
  function CompileFamilies(ctx: Context, rule: ProfileRule, target: CompiledTarget, families: seq<Family>): seq<CompiledRule>
    requires ctx.PrimaryUsable(V4) && ctx.PrimaryUsable(V6)
    requires rule.action.Route? ==> HasLane(ctx.lanes, rule.action.lane)
    decreases |families|
  {
    if families == [] then
      []
    else
      var f := families[|families| - 1];
      assert ctx.PrimaryUsable(f) by { assert f == V4 || f == V6; }
      var action := ResolveAction(ctx, rule.action, f);
      CompileFamilies(ctx, rule, target, families[..|families| - 1])
      + (if action.Some? then [CompiledRule(f, rule.id, rule.priority, target, action.value)] else [])
  }

  function CompileTargets(ctx: Context, rule: ProfileRule, targets: seq<CompiledTarget>): seq<CompiledRule>
    requires ctx.PrimaryUsable(V4) && ctx.PrimaryUsable(V6)
    requires rule.action.Route? ==> HasLane(ctx.lanes, rule.action.lane)
    decreases |targets|
  {
    if targets == [] then
      []
    else
      var target := targets[|targets| - 1];
      CompileTargets(ctx, rule, targets[..|targets| - 1]) + CompileFamilies(ctx, rule, target, TargetFamilies(target))
  }

  method CompileRule(ctx: Context, rule: ProfileRule, before: seq<CompiledRule>)
    returns (r: Result<seq<CompiledRule>, PlanError>)
    requires ctx.Valid() && (rule.action.Route? ==> HasLane(ctx.lanes, rule.action.lane))
    ensures RuleTargets(rule, ctx.resolutions).Err? ==> r == Err(RuleTargets(rule, ctx.resolutions).error)
    ensures RuleTargets(rule, ctx.resolutions).Ok? ==>
              r == Ok(before + CompileTargets(ctx, rule, RuleTargets(rule, ctx.resolutions).value))
  {
    var found := RuleTargets(rule, ctx.resolutions);
    if found.Err? {
      return Err(found.error);
    }
    var targets, compiled := found.value, before;
    Nothing(before);
    for i := 0 to |targets|
      invariant compiled == before + CompileTargets(ctx, rule, targets[..i])
    {
      Taken(targets, i);
      var more := CompileTarget(ctx, rule, targets[i]);
      Regroup(before, CompileTargets(ctx, rule, targets[..i]), more);
      compiled := compiled + more;
    }
    All(targets);
    r := Ok(compiled);
  }

  method CompileTarget(ctx: Context, rule: ProfileRule, target: CompiledTarget) returns (compiled: seq<CompiledRule>)
    requires ctx.Valid() && (rule.action.Route? ==> HasLane(ctx.lanes, rule.action.lane))
    ensures compiled == CompileFamilies(ctx, rule, target, TargetFamilies(target))
  {
    var families := TargetFamilies(target);
    compiled := [];
    for j := 0 to |families|
      invariant compiled == CompileFamilies(ctx, rule, target, families[..j])
    {
      Taken(families, j);
      var action := CompileAction(ctx, rule.action, families[j]);
      if action.Some? {
        compiled := compiled + [CompiledRule(families[j], rule.id, rule.priority, target, action.value)];
      }
    }
    All(families);
  }

  method CompileAction(ctx: Context, action: RuleAction, f: Family) returns (compiled: Option<CompiledAction>)
    requires ctx.Valid() && (action.Route? ==> HasLane(ctx.lanes, action.lane))
    ensures ctx.PrimaryUsable(f) && compiled == ResolveAction(ctx, action, f)
  {
    assert ctx.PrimaryUsable(f) by { assert f == V4 || f == V6; }
    match action {
      case Route(id) => compiled := CompileRouteAction(ctx, id, f);
      case RouteDirect => compiled := Some(PrimaryAction(ctx, f));
      case RouteBlock => compiled := Some(CompiledAction.Block);
    }
  }

  ghost predicate ActionsKnown(ctx: Context, rules: seq<ProfileRule>) {
    forall rule: ProfileRule :: rule in rules && rule.action.Route? ==> HasLane(ctx.lanes, rule.action.lane)
  }

  /** Every rule's compiled rules in order, or the first rule's error. */
  ghost function CompileRules(ctx: Context, rules: seq<ProfileRule>): Result<seq<CompiledRule>, PlanError>
    requires ctx.PrimaryUsable(V4) && ctx.PrimaryUsable(V6) && ActionsKnown(ctx, rules)
    decreases |rules|
  {
    if rules == [] then
      Ok([])
    else
      var rule := rules[|rules| - 1];
      match CompileRules(ctx, rules[..|rules| - 1])
      case Err(e) => Err(e)
      case Ok(before) =>
        match RuleTargets(rule, ctx.resolutions)
        case Err(e) => Err(e)
        case Ok(targets) => Ok(before + CompileTargets(ctx, rule, targets))
  }

  predicate RuleBefore(a: ProfileRule, b: ProfileRule) {
    a.priority < b.priority || (a.priority == b.priority && Sorting.TextBefore(a.id, b.id))
  }

  function Enabled(rules: seq<ProfileRule>): seq<ProfileRule> {
    if rules == [] then [] else (if rules[0].enabled then [rules[0]] else []) + Enabled(rules[1..])
  }

  function ExecutionOrder(rules: seq<ProfileRule>): seq<ProfileRule> {
    Sorting.Sort(Enabled(rules), RuleBefore)
  }

  // One verdict per routing key.

  function KeysOf(rules: seq<CompiledRule>): set<RoutingKey> {
    set rule | rule in rules :: KeyOf(rule)
  }

  /** Keeps the first rule of every key. */
  function Deduplicated(rules: seq<CompiledRule>): seq<CompiledRule> {
    if rules == [] then
      []
    else
      var last, rest := rules[|rules| - 1], rules[..|rules| - 1];
      Deduplicated(rest) + (if KeyOf(last) in KeysOf(rest) then [] else [last])
  }

  lemma KeysAppend(rules: seq<CompiledRule>, last: CompiledRule)
    ensures KeysOf(rules + [last]) == KeysOf(rules) + {KeyOf(last)}
  {
    var all := rules + [last];
    assert last in all;
    forall key | key in KeysOf(rules)
      ensures key in KeysOf(all)
    {
      var rule :| rule in rules && KeyOf(rule) == key;
      assert rule in all;
    }
  }

  method Deduplicate(rules: seq<CompiledRule>) returns (kept: seq<CompiledRule>)
    ensures kept == Deduplicated(rules)
  {
    kept := [];
    var verdicts: set<RoutingKey> := {};
    for i := 0 to |rules|
      invariant kept == Deduplicated(rules[..i]) && verdicts == KeysOf(rules[..i])
    {
      Taken(rules, i);
      KeysAppend(rules[..i], rules[i]);
      if KeyOf(rules[i]) !in verdicts {
        kept := kept + [rules[i]];
      }
      verdicts := verdicts + {KeyOf(rules[i])};
    }
    assert rules[..|rules|] == rules;
  }

  // The whole compilation.

  function ContextOf(profile: Profile, topology: Topology, resolutions: Resolutions, primary: PrimaryDecision): Context {
    Context(profile.lanes, CompileLanes(SortLanes(profile.lanes), topology), primary, resolutions)
  }

  lemma OrderKeepsActions(profile: Profile, ctx: Context)
    requires RoutesKnown(profile) && ctx.lanes == profile.lanes
    ensures ActionsKnown(ctx, ExecutionOrder(profile.rules))
  {
    Sorting.SortKeeps(Enabled(profile.rules), RuleBefore);
    forall rule: ProfileRule | rule in ExecutionOrder(profile.rules) && rule.action.Route?
      ensures HasLane(ctx.lanes, rule.action.lane)
    {
      EnabledMembers(profile.rules, rule);
      var i :| 0 <= i < |profile.rules| && profile.rules[i] == rule;
    }
  }

  lemma {:induction false} EnabledMembers(rules: seq<ProfileRule>, rule: ProfileRule)
    ensures rule in Enabled(rules) <==> rule in rules && rule.enabled
  {
    if rules != [] {
      EnabledMembers(rules[1..], rule);
    }
  }

  ghost function CompileValid(
    profile: Profile, topology: Topology, resolutions: Resolutions, primary: PrimaryDecision, generation: nat):
    Result<KernelPlan, PlanError>
    requires ValidProfile(profile)
  {
    var ctx := ContextOf(profile, topology, resolutions, primary);
    if !ctx.PrimaryUsable(V4) then
      Err(InvalidPrimaryExit(primary.effective.v4.id, V4))
    else if !ctx.PrimaryUsable(V6) then
      Err(InvalidPrimaryExit(primary.effective.v6.id, V6))
    else
      assert ActionsKnown(ctx, ExecutionOrder(profile.rules)) by { OrderKeepsActions(profile, ctx); }
      match CompileRules(ctx, ExecutionOrder(profile.rules))
      case Err(e) => Err(e)
      case Ok(rules) =>
        Ok(KernelPlan(primary, topology.localNetworks, topology.assignedAddresses, generation, profile.id,
                      ctx.plans, Deduplicated(rules)))
  }

  lemma EveryLaneHasAPlan(lanes: seq<Lane>, topology: Topology, id: LaneId)
    requires HasLane(lanes, id)
    ensures FindPlan(CompileLanes(SortLanes(lanes), topology), id).Some?
  {
    var sorted := SortLanes(lanes);
    var i :| 0 <= i < |lanes| && lanes[i].id == id;
    Sorting.SortKeeps(lanes, LaneBefore);
    assert lanes[i] in sorted;
    var j :| 0 <= j < |sorted| && sorted[j] == lanes[i];
    assert CompileLanes(sorted, topology)[j].id == id;
  }

  lemma ContextIsValid(
    profile: Profile, topology: Topology, resolutions: Resolutions, primary: PrimaryDecision)
    requires ValidProfile(profile)
    requires var ctx := ContextOf(profile, topology, resolutions, primary); ctx.PrimaryUsable(V4) && ctx.PrimaryUsable(V6)
    ensures ContextOf(profile, topology, resolutions, primary).Valid()
  {
    forall id | HasLane(profile.lanes, id)
      ensures FindPlan(CompileLanes(SortLanes(profile.lanes), topology), id).Some?
    {
      EveryLaneHasAPlan(profile.lanes, topology, id);
    }
  }

  method CompileAllRules(ctx: Context, rules: seq<ProfileRule>) returns (r: Result<seq<CompiledRule>, PlanError>)
    requires ctx.Valid() && ActionsKnown(ctx, rules)
    ensures r == CompileRules(ctx, rules)
    ensures r.Err? ==> r.error.DomainResolutionUnavailable? || r.error.UnsupportedCapability?
  {
    var compiled: seq<CompiledRule> := [];
    for i := 0 to |rules|
      invariant CompileRules(ctx, rules[..i]) == Ok(compiled)
    {
      assert rules[..i + 1][..i] == rules[..i];
      var next := CompileRule(ctx, rules[i], compiled);
      if next.Err? {
        ErrorsStick(ctx, rules, i + 1);
        return next;
      }
      compiled := next.value;
    }
    assert rules[..|rules|] == rules;
    r := Ok(compiled);
  }

  lemma {:induction false} ErrorsStick(ctx: Context, rules: seq<ProfileRule>, i: nat)
    requires ctx.Valid() && ActionsKnown(ctx, rules) && i <= |rules|
    requires CompileRules(ctx, rules[..i]).Err?
    ensures CompileRules(ctx, rules) == CompileRules(ctx, rules[..i])
    decreases |rules|
  {
    if i == |rules| {
      assert rules[..i] == rules;
    } else {
      var n := |rules| - 1;
      assert rules[..n][..i] == rules[..i];
      ErrorsStick(ctx, rules[..n], i);
    }
  }

  method CompileProfile(
    profile: Profile, topology: Topology, resolutions: Resolutions, primary: PrimaryDecision, generation: nat)
    returns (r: Result<KernelPlan, PlanError>)
    ensures !profile.enabled ==> r == Err(ProfileInactive)
    ensures profile.enabled && !ValidProfile(profile) ==>
              r.Err? && r.error.InvalidProfile? && Explains(r.error.error, profile)
    ensures profile.enabled && ValidProfile(profile) ==>
              r == CompileValid(profile, topology, resolutions, primary, generation)
    ensures r.Ok? ==>
              && r.value.generation == generation && r.value.profileId == profile.id && r.value.primary == primary
              && r.value.localNetworks == topology.localNetworks && r.value.localAddresses == topology.assignedAddresses
    ensures r.Err? && r.error.InvalidPrimaryExit? ==>
              && primary.effective.For(r.error.family) == LaneExit(r.error.lane)
              && !ContextOf(profile, topology, resolutions, primary).PrimaryUsable(r.error.family)
              && (r.error.family == V6 ==> ContextOf(profile, topology, resolutions, primary).PrimaryUsable(V4))
  {
    if !profile.enabled {
      return Err(ProfileInactive);
    }
    var error := ValidateProfile(profile);
    if error.Some? {
      return Err(InvalidProfile(error.value));
    }
    var plans := CompileLanes(SortLanes(profile.lanes), topology);
    var ctx := Context(profile.lanes, plans, primary, resolutions);
    for i := 0 to |FAMILIES|
      invariant forall j :: 0 <= j < i ==> ctx.PrimaryUsable(FAMILIES[j])
    {
      if !ctx.PrimaryUsable(FAMILIES[i]) {
        assert i == 0 || ctx.PrimaryUsable(FAMILIES[0]);
        return Err(InvalidPrimaryExit(primary.effective.For(FAMILIES[i]).id, FAMILIES[i]));
      }
    }
    assert ctx.PrimaryUsable(FAMILIES[0]) && ctx.PrimaryUsable(FAMILIES[1]);
    ContextIsValid(profile, topology, resolutions, primary);
    OrderKeepsActions(profile, ctx);
    var compiled := CompileAllRules(ctx, ExecutionOrder(profile.rules));
    if compiled.Err? {
      return Err(compiled.error);
    }
    var rules := Deduplicate(compiled.value);
    r := Ok(KernelPlan(primary, topology.localNetworks, topology.assignedAddresses, generation, profile.id, plans, rules));
  }
}
