/** What the rendered chains decide about a packet, stated without chains. */
module NftPolicy {
  import opened Wrappers
  import opened Plan
  import opened NftChains
  import opened NftRender

  predicate SomeContains(networks: seq<IpNet>, a: IpAddr) {
    exists n :: n in networks && Contains(n, a)
  }

  predicate UdpBetween(p: Packet, sport: nat, dport: nat) {
    p.transport.Udp? && p.transport.sport == sport && p.transport.dport == dport
  }

  /** Host-local and on-link control traffic is exempt from policy. */
  predicate IsControl(p: Packet, networks: seq<IpNet>) {
    || p.oifname == "lo"
    || p.toLocalHost
    || (UdpBetween(p, 68, 67)
        && (p.destination == BROADCAST_V4
            || exists n :: n in networks && n.addr.family == V4 && Contains(n, p.destination)))
    || Contains(ALL_MULTICAST_V4, p.destination)
    || Contains(LINK_LOCAL_MULTICAST_V6, p.destination)
    || (p.Family() == V6 && p.hopLimit == 255 && p.transport.NeighborDiscovery?)
    || (UdpBetween(p, 546, 547) && Contains(LINK_LOCAL_V6, p.destination))
  }

  /** A lane takes traffic of a family while it is available with a route and a source, on the device it was planned for. */
  lemma ReadyIs(lane: LanePlan, f: Family)
    ensures Ready(lane, f) <==>
              && lane.availability != Unavailable
              && (exists device :: lane.identity == Some(device) && 1 <= device.ifindex <= 2_147_483_647 && device.name == lane.iface)
              && (if f == V4 then lane.routeV4 != None && lane.sourceV4 != [] else lane.routeV6 != None && lane.sourceV6 != [])
  {
  }

  lemma InBlock(n: IpNet, q: nat, a: IpAddr)
    requires n.addr.bits == q * n.Block()
    ensures Contains(n, a) <==> a.family == n.addr.family && a.bits / n.Block() == q
  {
    MulDivCancels(q, n.Block());
  }

  /** The control networks: 224.0.0.0/24, ff02::/16 and fe80::/10; and 255.255.255.255. */
  lemma ControlNetworksAre(a: IpAddr)
    ensures Contains(ALL_MULTICAST_V4, a) <==> a.family == V4 && a.bits / Pow2(8) == 0xe0_0000
    ensures Contains(LINK_LOCAL_MULTICAST_V6, a) <==> a.family == V6 && a.bits / Pow2(112) == 0xff02
    ensures Contains(LINK_LOCAL_V6, a) <==> a.family == V6 && a.bits / Pow2(118) == 0x3fa
    ensures a == BROADCAST_V4 <==> a == IpAddr(V4, 0xffff_ffff)
  {
    assert Pow2(118) == 64 * Pow2(112) by {
      assert Pow2(118) == 2 * Pow2(117) && Pow2(117) == 2 * Pow2(116) && Pow2(116) == 2 * Pow2(115);
      assert Pow2(115) == 2 * Pow2(114) && Pow2(114) == 2 * Pow2(113) && Pow2(113) == 2 * Pow2(112);
    }
    InBlock(ALL_MULTICAST_V4, 0xe0_0000, a);
    InBlock(LINK_LOCAL_MULTICAST_V6, 0xff02, a);
    InBlock(LINK_LOCAL_V6, 0x3fa, a);
  }

  predicate OwnedMark(m: nat) {
    MARK_BASE <= m <= MARK_MAX
  }

  predicate ForeignMark(m: nat) {
    m != 0 && !OwnedMark(m)
  }

  predicate CarriesForeignMark(p: Packet) {
    ForeignMark(p.mark) || (p.ct.Some? && ForeignMark(p.ct.value.mark))
  }

  /** A session RouteLane did not start: unmarked, and already under way or answered from here. */
  predicate Unmanaged(p: Packet) {
    && p.ct.Some?
    && p.ct.value.mark == 0
    && (p.ct.value.state == Established || p.ct.value.state == Related || p.ct.value.direction == Reply)
  }

  predicate TargetMatches(rule: CompiledRule, p: Packet) {
    match rule.target
    case AnyTarget => p.Family() == rule.family
    case Network(n) => Contains(n, p.destination)
    case Cgroup(path) => p.Family() == rule.family && p.cgroup == Some(path)
  }

  function FirstRule(rules: seq<CompiledRule>, p: Packet): (k: Option<nat>)
    ensures k.Some? ==> k.value < |rules| && TargetMatches(rules[k.value], p)
    ensures k.Some? ==> forall j :: 0 <= j < k.value ==> !TargetMatches(rules[j], p)
    ensures k.None? ==> forall j :: 0 <= j < |rules| ==> !TargetMatches(rules[j], p)
  {
    if rules == [] then
      None
    else if TargetMatches(rules[0], p) then
      Some(0)
    else
      match FirstRule(rules[1..], p)
      case None => None
      case Some(k) => Some(k + 1)
  }

  function Accept(p: Packet): Outcome {
    Outcome(Accepted, p)
  }

  function Refuse(p: Packet): Outcome {
    Outcome(Rejected, p)
  }

  predicate ReadyMark(lanes: seq<LanePlan>, f: Family, m: nat) {
    exists lane :: lane in lanes && Ready(lane, f) && lane.mark == m
  }

  /** A managed session keeps its lane while that lane is ready, and is refused otherwise. */
  function Restored(plan: KernelPlan, f: Family, p: Packet): Outcome {
    if p.ct.Some? && ReadyMark(plan.lanes, f, p.ct.value.mark) then
      Accept(p.(mark := p.ct.value.mark))
    else
      Refuse(p)
  }

  /** Only the first packet of a locally opened session is given a lane. */
  function Selected(plan: KernelPlan, f: Family, m: nat, p: Packet): Outcome {
    if p.ct.Some? && p.ct.value.mark != 0 then
      Restored(plan, f, p)
    else if Unmanaged(p) then
      Accept(p)
    else if p.ct.Some? && p.ct.value.state == New && p.ct.value.direction == Original && ReadyMark(plan.lanes, f, m) then
      Accept(p.(mark := m, ct := Some(p.ct.value.(mark := m))))
    else
      Refuse(p)
  }

  function ByAction(plan: KernelPlan, rule: CompiledRule, p: Packet): Outcome {
    var mark := ActionMark(plan, rule);
    if mark.Some? && HasMark(plan.lanes, mark.value) then Selected(plan, rule.family, mark.value, p) else Refuse(p)
  }

  function ByPrimary(plan: KernelPlan, p: Packet): Outcome {
    var mark := PrimaryMark(plan, p.Family());
    if mark.Some? then Selected(plan, p.Family(), mark.value, p) else Refuse(p)
  }

  /** The output policy: controls, foreign marks, the first matching rule, then sessions, local networks and the primary exit. */
  function Decide(plan: KernelPlan, p: Packet): Outcome {
    if IsControl(p, plan.localNetworks) then
      Accept(p)
    else if CarriesForeignMark(p) then
      Refuse(p)
    else
      var k := FirstRule(plan.rules, p);
      if k.Some? then
        ByAction(plan, plan.rules[k.value], p)
      else if p.ct.Some? && OwnedMark(p.ct.value.mark) then
        Restored(plan, p.Family(), p)
      else if Unmanaged(p) || SomeContains(plan.localNetworks, p.destination) then
        Accept(p)
      else
        ByPrimary(plan, p)
  }

  // Conditions.

  lemma HoldsPair(a: Condition, b: Condition, p: Packet)
    ensures AllHold([a, b], p) <==> Holds(a, p) && Holds(b, p)
  {
    assert a in [a, b] && b in [a, b];
  }

  lemma HoldsOne(a: Condition, p: Packet)
    ensures AllHold([a], p) <==> Holds(a, p)
  {
    assert a in [a];
  }

  lemma HoldsThree(a: Condition, b: Condition, c: Condition, p: Packet)
    ensures AllHold([a, b, c], p) <==> Holds(a, p) && Holds(b, p) && Holds(c, p)
  {
    var s := [a, b, c];
    assert s[0] == a && s[1] == b && s[2] == c;
    assert a in s && b in s && c in s;
  }

  lemma DestinationHolds(n: IpNet, p: Packet)
    ensures Holds(Destination(n), p) <==> Contains(n, p.destination)
  {
    if n.len == Width(n.addr.family) {
      HostNetworkIsOneAddress(n, p.destination);
    } else {
      TruncKeepsMembers(n, p.destination);
    }
  }

  // Exemptions.

  ghost predicate OnlyExempts(rules: seq<Rule>) {
    forall r :: r in rules ==> Exempts(r)
  }

  lemma {:induction false} DhcpExempts(networks: seq<IpNet>, p: Packet)
    ensures OnlyExempts(DhcpRules(networks))
    ensures AnyHolds(DhcpRules(networks), p) <==>
            UdpBetween(p, 68, 67) && exists n :: n in networks && n.addr.family == V4 && Contains(n, p.destination)
  {
    if networks != [] {
      var n, rest := networks[|networks| - 1], networks[..|networks| - 1];
      DhcpExempts(rest, p);
      assert forall x :: x in networks <==> x == n || x in rest;
      if n.addr.family == V4 {
        var r := ReturnIf([SourcePort(68), DestinationPort(67), Destination(n)]);
        AnyHoldsAppend(DhcpRules(rest), [r], p);
        HoldsThree(SourcePort(68), DestinationPort(67), Destination(n), p);
        DestinationHolds(n, p);
        AnyHoldsOne(r, p);
      }
    }
  }

  lemma AnyHoldsOne(r: Rule, p: Packet)
    ensures AnyHolds([r], p) <==> AllHold(r.conditions, p)
  {
    assert r in [r];
  }

  lemma AnyHoldsFour(a: Rule, b: Rule, c: Rule, d: Rule, p: Packet)
    ensures AnyHolds([a, b, c, d], p) <==>
            AllHold(a.conditions, p) || AllHold(b.conditions, p) || AllHold(c.conditions, p) || AllHold(d.conditions, p)
  {
    var s := [a, b, c, d];
    assert s[0] == a && s[1] == b && s[2] == c && s[3] == d;
    assert a in s && b in s && c in s && d in s;
  }

  lemma AnyHoldsThree(a: Rule, b: Rule, c: Rule, p: Packet)
    ensures AnyHolds([a, b, c], p) <==>
            AllHold(a.conditions, p) || AllHold(b.conditions, p) || AllHold(c.conditions, p)
  {
    var s := [a, b, c];
    assert s[0] == a && s[1] == b && s[2] == c;
    assert a in s && b in s && c in s;
  }

  lemma ControlsBefore(p: Packet)
    ensures OnlyExempts(CONTROLS_BEFORE)
    ensures AnyHolds(CONTROLS_BEFORE, p) <==>
            p.oifname == "lo" || p.toLocalHost || (UdpBetween(p, 68, 67) && p.destination == BROADCAST_V4)
  {
    AnyHoldsThree(CONTROLS_BEFORE[0], CONTROLS_BEFORE[1], CONTROLS_BEFORE[2], p);
    HoldsOne(OutputName("lo"), p);
    HoldsOne(DestinationIsLocalHost, p);
    HoldsThree(SourcePort(68), DestinationPort(67), DestinationIs(BROADCAST_V4), p);
  }

  lemma ControlsAfter(p: Packet)
    ensures OnlyExempts(CONTROLS_AFTER)
    ensures AnyHolds(CONTROLS_AFTER, p) <==>
            || Contains(ALL_MULTICAST_V4, p.destination)
            || Contains(LINK_LOCAL_MULTICAST_V6, p.destination)
            || (p.Family() == V6 && p.hopLimit == 255 && p.transport.NeighborDiscovery?)
            || (UdpBetween(p, 546, 547) && Contains(LINK_LOCAL_V6, p.destination))
  {
    NetworkControls(ALL_MULTICAST_V4, LINK_LOCAL_MULTICAST_V6, LINK_LOCAL_V6, p);
  }

  lemma NetworkControls(a: IpNet, b: IpNet, c: IpNet, p: Packet)
    ensures AnyHolds([ReturnIf([Destination(a)]),
                      ReturnIf([Destination(b)]),
                      ReturnIf([HopLimitIs(255), IsNeighborDiscovery]),
                      ReturnIf([SourcePort(546), DestinationPort(547), Destination(c)])], p) <==>
            || Contains(a, p.destination)
            || Contains(b, p.destination)
            || (p.Family() == V6 && p.hopLimit == 255 && p.transport.NeighborDiscovery?)
            || (UdpBetween(p, 546, 547) && Contains(c, p.destination))
  {
    AnyHoldsFour(ReturnIf([Destination(a)]),
                 ReturnIf([Destination(b)]),
                 ReturnIf([HopLimitIs(255), IsNeighborDiscovery]),
                 ReturnIf([SourcePort(546), DestinationPort(547), Destination(c)]), p);
    HoldsOne(Destination(a), p);
    HoldsOne(Destination(b), p);
    HoldsPair(HopLimitIs(255), IsNeighborDiscovery, p);
    HoldsThree(SourcePort(546), DestinationPort(547), Destination(c), p);
    DestinationHolds(a, p);
    DestinationHolds(b, p);
    DestinationHolds(c, p);
  }

  lemma ControlsEval(networks: seq<IpNet>, p: Packet)
    ensures EvalRules(ControlRules(networks), p) == if IsControl(p, networks) then Done(Accept(p)) else Next(p)
  {
    ControlsBefore(p);
    DhcpExempts(networks, p);
    ControlsAfter(p);
    AnyHoldsAppend(CONTROLS_BEFORE, DhcpRules(networks), p);
    AnyHoldsAppend(CONTROLS_BEFORE + DhcpRules(networks), CONTROLS_AFTER, p);
    ExemptionsEval(ControlRules(networks), p);
  }

  lemma LocalEval(networks: seq<IpNet>, p: Packet)
    ensures EvalRules(LocalRules(networks), p) ==
            if SomeContains(networks, p.destination) then Done(Accept(p)) else Next(p)
  {
    LocalExempts(networks, p);
    ExemptionsEval(LocalRules(networks), p);
  }

  lemma {:induction false} LocalExempts(networks: seq<IpNet>, p: Packet)
    ensures OnlyExempts(LocalRules(networks))
    ensures AnyHolds(LocalRules(networks), p) <==> SomeContains(networks, p.destination)
  {
    if networks != [] {
      var n, rest := networks[|networks| - 1], networks[..|networks| - 1];
      LocalExempts(rest, p);
      assert forall x :: x in networks <==> x == n || x in rest;
      AnyHoldsAppend(LocalRules(rest), [ReturnIf([Destination(n)])], p);
      AnyHoldsOne(ReturnIf([Destination(n)]), p);
      HoldsOne(Destination(n), p);
      DestinationHolds(n, p);
    }
  }

  lemma UnmanagedEval(p: Packet)
    ensures EvalRules(UNMANAGED_RULES, p) == if Unmanaged(p) then Done(Accept(p)) else Next(p)
  {
    var a, b := UNMANAGED_RULES[0], UNMANAGED_RULES[1];
    HoldsPair(Compare(CtMark, Eq, 0), CtStateIn({Established, Related}), p);
    HoldsPair(Compare(CtMark, Eq, 0), CtDirection(Reply), p);
    assert UNMANAGED_RULES == [a] + [b];
    EvalAppend([a], [b], p);
    EvalOne(a, p);
    EvalOne(b, p);
  }

  lemma ForeignEval(key: NumericKey, p: Packet)
    ensures EvalRules(ForeignRules(key), p) ==
            if Load(key, p).Some? && ForeignMark(Load(key, p).value) then Done(Refuse(p)) else Next(p)
  {
    var a, b := ForeignRules(key)[0], ForeignRules(key)[1];
    HoldsPair(Compare(key, Ne, 0), Compare(key, Lt, MARK_BASE), p);
    HoldsOne(Compare(key, Gt, MARK_MAX), p);
    assert ForeignRules(key) == [a] + [b];
    EvalAppend([a], [b], p);
    EvalOne(a, p);
    EvalOne(b, p);
  }

  lemma RejectAllEval(p: Packet)
    ensures EvalRules([REJECT_ALL], p) == Done(Refuse(p))
  {
    EvalOne(REJECT_ALL, p);
  }

  // Sessions.

  lemma {:induction false} RestoreRulesEval(lanes: seq<LanePlan>, f: Family, p: Packet)
    ensures EvalRules(RestoreRules(lanes, f), p) ==
            if p.ct.Some? && ReadyMark(lanes, f, p.ct.value.mark) then Done(Accept(p.(mark := p.ct.value.mark))) else Next(p)
  {
    if lanes != [] {
      var lane, rest := lanes[|lanes| - 1], lanes[..|lanes| - 1];
      RestoreRulesEval(rest, f, p);
      assert forall x :: x in lanes <==> x == lane || x in rest;
      if Ready(lane, f) {
        EvalAppend(RestoreRules(rest, f), [RestoreRule(lane)], p);
        EvalOne(RestoreRule(lane), p);
        HoldsOne(Compare(CtMark, Eq, lane.mark), p);
        MarkAndReturn(p);
        assert EvalRule(RestoreRule(lane), p) ==
               if p.ct.Some? && p.ct.value.mark == lane.mark then Done(Accept(p.(mark := p.ct.value.mark))) else Next(p);
      } else {
        assert RestoreRules(lanes, f) == RestoreRules(rest, f);
      }
      if p.ct.Some? {
        assert ReadyMark(lanes, f, p.ct.value.mark) <==>
               ReadyMark(rest, f, p.ct.value.mark) || (Ready(lane, f) && lane.mark == p.ct.value.mark);
      }
    }
  }

  lemma MarkAndReturn(p: Packet)
    ensures Execute([MarkFromCt, Return], p) ==
            if p.ct.Some? then Done(Accept(p.(mark := p.ct.value.mark))) else Next(p)
  {
    assert [MarkFromCt, Return][1..] == [Return];
  }

  lemma TakeLaneExecutes(m: nat, p: Packet)
    requires p.ct.Some?
    ensures Execute([SetMark(m), CtFromMark, Return], p) ==
            Done(Accept(p.(mark := m, ct := Some(p.ct.value.(mark := m)))))
  {
    var q := p.(mark := m);
    var r := q.(ct := Some(q.ct.value.(mark := q.mark)));
    assert [SetMark(m), CtFromMark, Return][1..] == [CtFromMark, Return];
    assert [CtFromMark, Return][1..] == [Return];
    assert Execute([CtFromMark, Return], q) == Execute([Return], r);
    assert Execute([Return], r) == Done(Accept(r));
    assert r == p.(mark := m, ct := Some(p.ct.value.(mark := m)));
  }

  lemma CountThen(s: Statement, p: Packet)
    requires s == RejectWith || s.Goto? || s == Masquerade
    ensures Execute([Counter, s], p) == Execute([s], p)
  {
    assert [Counter, s][1..] == [s];
  }

  lemma RestoreEval(lanes: seq<LanePlan>, f: Family, p: Packet)
    ensures EvalRules(RestoreChain(lanes, f).rules, p) ==
            if p.ct.Some? && ReadyMark(lanes, f, p.ct.value.mark) then
              Done(Accept(p.(mark := p.ct.value.mark)))
            else
              Done(Refuse(p))
  {
    RestoreRulesEval(lanes, f, p);
    EvalAppend(RestoreRules(lanes, f), [REJECT_ALL], p);
    RejectAllEval(p);
  }

  function TakeLane(lane: LanePlan, f: Family): seq<Rule> {
    if Ready(lane, f) then
      [Rule([CtStateIn({New}), CtDirection(Original)], [SetMark(lane.mark), CtFromMark, Return])]
    else
      []
  }

  lemma TakeLaneEval(lane: LanePlan, f: Family, p: Packet)
    ensures EvalRules(TakeLane(lane, f), p) ==
            if Ready(lane, f) && p.ct.Some? && p.ct.value.state == New && p.ct.value.direction == Original then
              Done(Accept(p.(mark := lane.mark, ct := Some(p.ct.value.(mark := lane.mark)))))
            else
              Next(p)
  {
    if Ready(lane, f) {
      EvalOne(TakeLane(lane, f)[0], p);
      HoldsPair(CtStateIn({New}), CtDirection(Original), p);
      if p.ct.Some? {
        TakeLaneExecutes(lane.mark, p);
      }
    }
  }

  lemma SelectEval(lane: LanePlan, f: Family, p: Packet)
    ensures EvalRules(SelectChain(lane, f).rules, p) ==
            if p.ct.Some? && p.ct.value.mark != 0 then
              Tail(Restore(f), p)
            else if Unmanaged(p) then
              Done(Accept(p))
            else if Ready(lane, f) && p.ct.Some? && p.ct.value.state == New && p.ct.value.direction == Original then
              Done(Accept(p.(mark := lane.mark, ct := Some(p.ct.value.(mark := lane.mark)))))
            else
              Done(Refuse(p))
  {
    var first := [Rule([Compare(CtMark, Ne, 0)], [Goto(Restore(f))])];
    var take := TakeLane(lane, f);
    EvalOne(first[0], p);
    HoldsOne(Compare(CtMark, Ne, 0), p);
    UnmanagedEval(p);
    TakeLaneEval(lane, f, p);
    RejectAllEval(p);
    assert SelectChain(lane, f).rules == first + UNMANAGED_RULES + take + [REJECT_ALL];
    EvalAppend(first, UNMANAGED_RULES, p);
    EvalAppend(first + UNMANAGED_RULES, take, p);
    EvalAppend(first + UNMANAGED_RULES + take, [REJECT_ALL], p);
  }

  // The output chain.

  lemma TargetHolds(rule: CompiledRule, p: Packet)
    ensures AllHold(TargetConditions(rule), p) <==> TargetMatches(rule, p)
  {
    match rule.target
    case AnyTarget => HoldsOne(Protocol(rule.family), p);
    case Network(n) => HoldsOne(Destination(n), p); DestinationHolds(n, p);
    case Cgroup(path) => HoldsPair(Protocol(rule.family), SocketCgroup(path), p);
  }

  function ActionFlow(plan: KernelPlan, rule: CompiledRule, p: Packet): Flow {
    var mark := ActionMark(plan, rule);
    if mark.Some? && HasMark(plan.lanes, mark.value) then Tail(Select(rule.family, mark.value), p) else Done(Refuse(p))
  }

  lemma ExplicitRuleEval(plan: KernelPlan, rule: CompiledRule, p: Packet)
    ensures EvalRules([ExplicitRule(plan, rule)], p) ==
            if TargetMatches(rule, p) then ActionFlow(plan, rule, p) else Next(p)
  {
    EvalOne(ExplicitRule(plan, rule), p);
    TargetHolds(rule, p);
    CountThen(ExplicitRule(plan, rule).statements[1], p);
  }

  lemma {:induction false} ExplicitEval(plan: KernelPlan, rules: seq<CompiledRule>, p: Packet)
    ensures EvalRules(ExplicitRules(plan, rules), p) ==
            match FirstRule(rules, p)
            case None => Next(p)
            case Some(k) => ActionFlow(plan, rules[k], p)
  {
    if rules != [] {
      var last, rest := rules[|rules| - 1], rules[..|rules| - 1];
      ExplicitEval(plan, rest, p);
      EvalAppend(ExplicitRules(plan, rest), [ExplicitRule(plan, last)], p);
      ExplicitRuleEval(plan, last, p);
      FirstRuleSnoc(rest, last, p);
      assert rest + [last] == rules;
    }
  }

  lemma FirstRuleSnoc(rules: seq<CompiledRule>, last: CompiledRule, p: Packet)
    ensures FirstRule(rules + [last], p) ==
            if FirstRule(rules, p).Some? then
              FirstRule(rules, p)
            else if TargetMatches(last, p) then
              Some(|rules|)
            else
              None
  {
    var all := rules + [last];
    assert all[|rules|] == last;
    assert forall j :: 0 <= j < |rules| ==> all[j] == rules[j];
    assert FirstRule(rules, p).None? ==> forall j :: 0 <= j < |rules| ==> !TargetMatches(all[j], p);
    assert FirstRule(rules, p).Some? ==> TargetMatches(all[FirstRule(rules, p).value], p);
    assert TargetMatches(last, p) ==> TargetMatches(all[|rules|], p);
  }

  lemma OwnedEval(p: Packet)
    ensures EvalRules([OwnedRule(V4), OwnedRule(V6)], p) ==
            if p.ct.Some? && OwnedMark(p.ct.value.mark) then Tail(Restore(p.Family()), p) else Next(p)
  {
    assert [OwnedRule(V4), OwnedRule(V6)] == [OwnedRule(V4)] + [OwnedRule(V6)];
    EvalAppend([OwnedRule(V4)], [OwnedRule(V6)], p);
    EvalOne(OwnedRule(V4), p);
    EvalOne(OwnedRule(V6), p);
    HoldsPair(Protocol(V4), InRange(CtMark, MARK_BASE, MARK_MAX), p);
    HoldsPair(Protocol(V6), InRange(CtMark, MARK_BASE, MARK_MAX), p);
  }

  function PrimaryFlow(plan: KernelPlan, p: Packet): Flow {
    var mark := PrimaryMark(plan, p.Family());
    if mark.Some? then Tail(Select(p.Family(), mark.value), p) else Done(Refuse(p))
  }

  lemma PrimaryEval(plan: KernelPlan, p: Packet)
    ensures EvalRules([PrimaryRule(plan, V4), PrimaryRule(plan, V6)], p) == PrimaryFlow(plan, p)
  {
    var a, b := PrimaryRule(plan, V4), PrimaryRule(plan, V6);
    assert [a, b] == [a] + [b];
    EvalAppend([a], [b], p);
    EvalOne(a, p);
    EvalOne(b, p);
    HoldsOne(Protocol(V4), p);
    HoldsOne(Protocol(V6), p);
    CountThen(a.statements[1], p);
    CountThen(b.statements[1], p);
  }

  /** What the output chain itself does, up to its tail calls. */
  function OutputFlow(plan: KernelPlan, p: Packet): Flow {
    if IsControl(p, plan.localNetworks) then
      Done(Accept(p))
    else if CarriesForeignMark(p) then
      Done(Refuse(p))
    else
      var k := FirstRule(plan.rules, p);
      if k.Some? then
        ActionFlow(plan, plan.rules[k.value], p)
      else if p.ct.Some? && OwnedMark(p.ct.value.mark) then
        Tail(Restore(p.Family()), p)
      else if Unmanaged(p) || SomeContains(plan.localNetworks, p.destination) then
        Done(Accept(p))
      else
        PrimaryFlow(plan, p)
  }

  lemma ForeignMarksEval(p: Packet)
    ensures EvalRules(ForeignRules(MetaMark) + ForeignRules(CtMark), p) ==
            if CarriesForeignMark(p) then Done(Refuse(p)) else Next(p)
  {
    ForeignEval(MetaMark, p);
    ForeignEval(CtMark, p);
    EvalAppend(ForeignRules(MetaMark), ForeignRules(CtMark), p);
  }

  lemma OutputEval(plan: KernelPlan, p: Packet)
    ensures EvalRules(OutputChain(plan).rules, p) == OutputFlow(plan, p)
  {
    var a := ControlRules(plan.localNetworks);
    var b := ForeignRules(MetaMark) + ForeignRules(CtMark);
    var c := ExplicitRules(plan, plan.rules);
    var d := [OwnedRule(V4), OwnedRule(V6)];
    var e := UNMANAGED_RULES;
    var g := LocalRules(plan.localNetworks);
    var h := [PrimaryRule(plan, V4), PrimaryRule(plan, V6)];
    ControlsEval(plan.localNetworks, p);
    ForeignMarksEval(p);
    ExplicitEval(plan, plan.rules, p);
    OwnedEval(p);
    UnmanagedEval(p);
    LocalEval(plan.localNetworks, p);
    PrimaryEval(plan, p);
    EvalAppend(a, b, p);
    EvalAppend(a + b, c, p);
    EvalAppend(a + b + c, d, p);
    EvalAppend(a + b + c + d, e, p);
    EvalAppend(a + b + c + d + e, g, p);
    EvalAppend(a + b + c + d + e + g, h, p);
  }
}
