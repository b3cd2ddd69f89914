/** Connections keep their lane over packets, plan replacements and guarded phases. */
module Sticky {
  import opened Wrappers
  import opened Plan
  import opened NftChains
  import opened NftRender
  import opened NftPolicy
  import opened NftCorrect
  import opened NftHooks
  import opened Journal

  /** The document in force; without an active plan its output chain is missing. */
  datatype Ruleset = Ruleset(active: Option<KernelPlan>, pending: Option<KernelPlan>, guard: bool) {
    function Document(): seq<Object> {
      Render(active, pending, guard)
    }

    ghost predicate Valid() {
      active.Some? ==> ValidPlan(active.value)
    }
  }

  /** What becomes of a packet this host sends, over all the base chains of the output hook. */
  function LocalOutput(rules: Ruleset, p: Packet): Outcome {
    AtHook(rules.Document(), OutputHook, p).outcome
  }

  lemma LocalOutputIs(rules: Ruleset, p: Packet)
    requires rules.Valid()
    ensures var first := if rules.active.Some? then Decide(rules.active.value, p) else Accept(p);
            LocalOutput(rules, p) ==
            if first.verdict.Accepted? && rules.guard then
              DecideGuard(NetworksOf(rules.active) + NetworksOf(rules.pending), first.packet)
            else
              first
  {
    OutputHookDecides(rules.active, rules.pending, rules.guard, p);
  }

  // One packet.

  /**
   * The family whose lanes decide: that of the first matching rule, else the packet's own. They differ only where
   * a rule on a network is written for the other family, which a load accepts.
   */
  function DecidingFamily(plan: KernelPlan, p: Packet): Family {
    var k := FirstRule(plan.rules, p);
    if k.Some? then plan.rules[k.value].family else p.Family()
  }

  /** Every rule on a network is written for that network's family. */
  predicate ConsistentFamilies(plan: KernelPlan) {
    forall r: CompiledRule :: r in plan.rules && r.target.Network? ==> r.target.net.addr.family == r.family
  }

  lemma ConsistentMeansOwnFamily(plan: KernelPlan, p: Packet)
    requires ConsistentFamilies(plan)
    ensures DecidingFamily(plan, p) == p.Family()
  {
  }

  /** The two ways the output chain may change a packet. */
  predicate TakesLane(plan: KernelPlan, p: Packet, q: Packet, f: Family) {
    && p.ct.Some? && p.ct.value.mark == 0 && p.ct.value.state == New && p.ct.value.direction == Original
    && q == p.(mark := q.mark, ct := Some(p.ct.value.(mark := q.mark)))
    && ReadyMark(plan.lanes, f, q.mark)
  }

  predicate KeepsLane(plan: KernelPlan, p: Packet, q: Packet, f: Family) {
    p.ct.Some? && q == p.(mark := p.ct.value.mark) && ReadyMark(plan.lanes, f, q.mark)
  }

  lemma SelectedChanges(plan: KernelPlan, f: Family, m: nat, p: Packet)
    ensures var o := Selected(plan, f, m, p);
            || o == Refuse(p)
            || (o == Accept(p) && Unmanaged(p))
            || (o.verdict.Accepted? && (TakesLane(plan, p, o.packet, f) || KeepsLane(plan, p, o.packet, f)))
  {
  }

  /** The chains only ever assign the mark of a lane ready for the deciding family. */
  lemma OnlyReadyLanesAreMarked(plan: KernelPlan, p: Packet)
    ensures var o := Decide(plan, p);
            var f := DecidingFamily(plan, p);
            || o == Refuse(p)
            || o == Accept(p)
            || (o.verdict.Accepted? && (TakesLane(plan, p, o.packet, f) || KeepsLane(plan, p, o.packet, f)))
  {
    var k := FirstRule(plan.rules, p);
    if k.Some? {
      var mark := ActionMark(plan, plan.rules[k.value]);
      if mark.Some? {
        SelectedChanges(plan, plan.rules[k.value].family, mark.value, p);
      }
    }
    var primary := PrimaryMark(plan, p.Family());
    if primary.Some? {
      SelectedChanges(plan, p.Family(), primary.value, p);
    }
  }

  // The packet's own family.

  /** Whatever packet comes, a mark it is given belongs to a lane ready for the packet's own family. */
  ghost predicate MarksForOwnFamily(plan: KernelPlan) {
    forall p :: MarkedForOwnFamily(plan, p)
  }

  predicate MarkedForOwnFamily(plan: KernelPlan, p: Packet) {
    var o := Decide(plan, p);
    o == Refuse(p) || o == Accept(p) || ReadyMark(plan.lanes, p.Family(), o.packet.mark)
  }

  /** Some packet that is no control traffic is decided by this rule. */
  ghost predicate Decides(plan: KernelPlan, k: nat) {
    exists p :: !IsControl(p, plan.localNetworks) && FirstRule(plan.rules, p) == Some(k)
  }

  /** A rule on a network of the other family that gives lanes. */
  predicate Crosses(plan: KernelPlan, rule: CompiledRule) {
    var mark := ActionMark(plan, rule);
    rule.target.Network? && rule.target.net.addr.family != rule.family && mark.Some? && HasMark(plan.lanes, mark.value)
  }

  /** Lanes such a rule may use are ready for the network's family too, unless earlier rules keep every packet from it. */
  ghost predicate CrossesHarmlessly(plan: KernelPlan) {
    forall k :: 0 <= k < |plan.rules| && Crosses(plan, plan.rules[k]) && Decides(plan, k) ==>
      forall lane :: lane in plan.lanes && Ready(lane, plan.rules[k].family) ==>
        ReadyMark(plan.lanes, plan.rules[k].target.net.addr.family, lane.mark)
  }

  lemma MarksForOwnFamilyIff(plan: KernelPlan)
    requires ValidPlan(plan)
    ensures MarksForOwnFamily(plan) <==> CrossesHarmlessly(plan)
  {
    if CrossesHarmlessly(plan) {
      forall p ensures MarkedForOwnFamily(plan, p) {
        HarmlessMarks(plan, p);
      }
    } else {
      var k :| 0 <= k < |plan.rules| && Crosses(plan, plan.rules[k]) && Decides(plan, k)
        && !forall lane :: lane in plan.lanes && Ready(lane, plan.rules[k].family) ==>
             ReadyMark(plan.lanes, plan.rules[k].target.net.addr.family, lane.mark);
      var lane :| lane in plan.lanes && Ready(lane, plan.rules[k].family)
        && !ReadyMark(plan.lanes, plan.rules[k].target.net.addr.family, lane.mark);
      var p := CrossedPacket(plan, k, lane);
    }
  }

  /** Enough for it, and read off the plan alone: a rule on a network is a rule of the network's family. */
  lemma ConsistentFamiliesSuffice(plan: KernelPlan)
    requires ConsistentFamilies(plan)
    ensures MarksForOwnFamily(plan)
  {
    forall p ensures MarkedForOwnFamily(plan, p) {
      HarmlessMarks(plan, p);
    }
  }

  lemma HarmlessMarks(plan: KernelPlan, p: Packet)
    requires CrossesHarmlessly(plan)
    ensures MarkedForOwnFamily(plan, p)
  {
    OnlyReadyLanesAreMarked(plan, p);
    var o := Decide(plan, p);
    var k := FirstRule(plan.rules, p);
    if o != Refuse(p) && o != Accept(p) && k.Some? && plan.rules[k.value].family != p.Family() {
      assert Crosses(plan, plan.rules[k.value]) && Decides(plan, k.value);
      var lane :| lane in plan.lanes && Ready(lane, plan.rules[k.value].family) && lane.mark == o.packet.mark;
    }
  }

  /** A packet of a session on that lane keeps a lane that its own family cannot use. */
  lemma CrossedPacket(plan: KernelPlan, k: nat, lane: LanePlan) returns (p: Packet)
    requires ValidPlan(plan) && k < |plan.rules| && Crosses(plan, plan.rules[k]) && Decides(plan, k)
    requires lane in plan.lanes && Ready(lane, plan.rules[k].family)
    requires !ReadyMark(plan.lanes, plan.rules[k].target.net.addr.family, lane.mark)
    ensures !MarkedForOwnFamily(plan, p)
  {
    var q :| !IsControl(q, plan.localNetworks) && FirstRule(plan.rules, q) == Some(k);
    p := q.(mark := 0, ct := Some(Conntrack(lane.mark, Established, Original, q.destination)));
    FirstRuleIgnoresMarks(plan.rules, p, q);
    ControlIgnoresMarks(plan.localNetworks, p, q);
    KeptBySession(plan, k, lane, p);
  }

  lemma ControlIgnoresMarks(networks: seq<IpNet>, p: Packet, q: Packet)
    requires p == q.(mark := p.mark, ct := p.ct)
    ensures IsControl(p, networks) == IsControl(q, networks)
  {
  }

  lemma KeptBySession(plan: KernelPlan, k: nat, lane: LanePlan, p: Packet)
    requires ValidPlan(plan) && !IsControl(p, plan.localNetworks) && FirstRule(plan.rules, p) == Some(k)
    requires ActionMark(plan, plan.rules[k]).Some? && HasMark(plan.lanes, ActionMark(plan, plan.rules[k]).value)
    requires lane in plan.lanes && Ready(lane, plan.rules[k].family)
    requires p.mark == 0 && p.ct.Some? && p.ct.value.mark == lane.mark
    ensures Decide(plan, p) == Accept(p.(mark := lane.mark)) && lane.mark != 0
  {
    assert ReadyMark(plan.lanes, plan.rules[k].family, lane.mark);
    ReadyMarkIsOwned(plan, plan.rules[k].family, lane.mark);
  }

  lemma {:induction false} FirstRuleIgnoresMarks(rules: seq<CompiledRule>, p: Packet, q: Packet)
    requires p == q.(mark := p.mark, ct := p.ct)
    ensures FirstRule(rules, p) == FirstRule(rules, q)
  {
    if rules != [] {
      FirstRuleIgnoresMarks(rules[1..], p, q);
    }
  }

  /** A plan that a load accepts and an apply takes: an IPv6 rule on an IPv4 network, over a lane without IPv4. */
  function CrossedPlan(): KernelPlan {
    var lane := LanePlan(
      Some(InterfaceIdentity(2, "eth0", "ether", None)), [], [IpAddr(V6, 1)], "wan", "eth0", None, Some(Device), Available,
      TABLE_BASE, MARK_BASE, RULE_PRIORITY_BASE, BlockTraffic);
    KernelPlan(
      PrimaryDecision(FamilyPair(None, None), FamilyPair(Blocked, Blocked)), [], [], 1, "default", [lane],
      [CompiledRule(V6, "rule", 0, Network(RawNet(IpAddr(V4, 1), 32)), Mark(MARK_BASE))])
  }

  /** The first packet of a connection to that network. */
  function CrossedOpening(): Packet {
    Packet(IpAddr(V4, 1), OtherTransport, 64, false, None, 0, "", 2, "eth0", 0, Some(Conntrack(0, New, Original, IpAddr(V4, 2))))
  }

  /** It is accepted with the mark of a lane that no IPv4 packet can use. */
  lemma CrossedPlanMarksTheOtherFamily()
    ensures ValidPlan(CrossedPlan()) && UniqueKeys(CrossedPlan().rules)
    ensures var o := Decide(CrossedPlan(), CrossedOpening());
            o.verdict.Accepted? && o.packet.mark == MARK_BASE && !ReadyMark(CrossedPlan().lanes, V4, MARK_BASE)
    ensures !MarksForOwnFamily(CrossedPlan())
  {
    CrossedPlanLoads();
    CrossedDecision();
    assert !MarkedForOwnFamily(CrossedPlan(), CrossedOpening());
  }

  lemma CrossedPlanLoads()
    ensures ValidPlan(CrossedPlan()) && UniqueKeys(CrossedPlan().rules)
  {
    assert IsKernelInterfaceName("eth0");
    assert CrossedPlan().lanes[0].mark == MARK_BASE;
  }

  lemma CrossedDecision()
    ensures var o := Decide(CrossedPlan(), CrossedOpening());
            o.verdict.Accepted? && o.packet.mark == MARK_BASE && !ReadyMark(CrossedPlan().lanes, V4, MARK_BASE)
  {
    var plan, p := CrossedPlan(), CrossedOpening();
    var lane, rule := plan.lanes[0], plan.rules[0];
    assert lane in plan.lanes && Ready(lane, V6) && lane.mark == MARK_BASE;
    HostNetworkIsOneAddress(rule.target.net, p.destination);
    NotControl(p);
    assert FirstRule(plan.rules, p) == Some(0);
  }

  lemma NotControl(p: Packet)
    requires p == CrossedOpening()
    ensures !IsControl(p, [])
  {
    assert !Contains(ALL_MULTICAST_V4, p.destination);
  }

  lemma ReadyMarkIsOwned(plan: KernelPlan, f: Family, m: nat)
    requires ValidPlan(plan) && ReadyMark(plan.lanes, f, m)
    ensures OwnedMark(m) && m != 0
  {
    var lane :| lane in plan.lanes && Ready(lane, f) && lane.mark == m;
    var i :| 0 <= i < |plan.lanes| && plan.lanes[i] == lane;
    assert InReservedRanges(plan.lanes[i]);
  }

  /** A packet of a marked connection is exempt, refused, or carries exactly that mark, of a lane still ready for the deciding family. */
  lemma MarkedConnectionsKeepTheirLane(rules: Ruleset, p: Packet)
    requires rules.Valid() && rules.active.Some?
    requires p.ct.Some? && p.ct.value.mark != 0
    ensures var o := LocalOutput(rules, p);
            && o.packet.ct == p.ct
            && (o.verdict == Accepted || o.verdict == Rejected)
            && (o.verdict == Accepted && !IsControl(p, rules.active.value.localNetworks) ==>
                  && o.packet == p.(mark := p.ct.value.mark)
                  && ReadyMark(rules.active.value.lanes, DecidingFamily(rules.active.value, p), p.ct.value.mark))
  {
    LocalOutputIs(rules, p);
    MarkedDecision(rules.active.value, p);
  }

  lemma MarkedDecision(plan: KernelPlan, p: Packet)
    requires p.ct.Some? && p.ct.value.mark != 0
    ensures var o := Decide(plan, p);
            || o == Refuse(p)
            || (o == Accept(p) && IsControl(p, plan.localNetworks))
            || (o == Accept(p.(mark := p.ct.value.mark)) && ReadyMark(plan.lanes, DecidingFamily(plan, p), p.ct.value.mark))
  {
  }

  // Whole runs.

  datatype Event = Send(packet: Packet) | Replace(rules: Ruleset)

  /** The packet as the kernel sees it: its connection's mark is what earlier packets left. */
  function OnConnection(p: Packet, mark: nat): Packet {
    if p.ct.Some? then p.(ct := Some(p.ct.value.(mark := mark))) else p
  }

  /** Even a packet the guard refuses afterwards may have marked its connection. */
  function MarkAfter(rules: Ruleset, mark: nat, p: Packet): nat {
    var q := LocalOutput(rules, OnConnection(p, mark)).packet;
    if q.ct.Some? then q.ct.value.mark else mark
  }

  function RulesetAfter(rules: Ruleset, events: seq<Event>): Ruleset {
    if events == [] then
      rules
    else
      match events[|events| - 1]
      case Send(_) => RulesetAfter(rules, events[..|events| - 1])
      case Replace(next) => next
  }

  /** The connection's mark after a run of packets and replacements. */
  function ConnectionMark(rules: Ruleset, events: seq<Event>): nat
    decreases |events|
  {
    if events == [] then
      0
    else
      var before := events[..|events| - 1];
      var mark := ConnectionMark(rules, before);
      match events[|events| - 1]
      case Send(p) => MarkAfter(RulesetAfter(rules, before), mark, p)
      case Replace(_) => mark
  }

  ghost predicate ValidRun(rules: Ruleset, events: seq<Event>) {
    && rules.Valid()
    && forall i :: 0 <= i < |events| && events[i].Replace? ==> events[i].rules.Valid()
  }

  lemma {:induction false} RulesetsStayValid(rules: Ruleset, events: seq<Event>)
    requires ValidRun(rules, events)
    ensures RulesetAfter(rules, events).Valid()
    decreases |events|
  {
    if events != [] {
      RulesetsStayValid(rules, events[..|events| - 1]);
    }
  }

  lemma OutputMarks(rules: Ruleset, p: Packet)
    requires rules.Valid()
    ensures var q := LocalOutput(rules, p).packet;
            && q.ct.Some? == p.ct.Some?
            && (q.ct == p.ct
                || (rules.active.Some? && p.ct.value.mark == 0
                    && ReadyMark(rules.active.value.lanes, DecidingFamily(rules.active.value, p), q.ct.value.mark)))
  {
    LocalOutputIs(rules, p);
    if rules.active.Some? {
      if p.ct.Some? {
        DecisionMarks(rules.active.value, p);
      } else {
        UntrackedStaysUntracked(rules.active.value, p);
      }
    }
  }

  lemma UntrackedStaysUntracked(plan: KernelPlan, p: Packet)
    requires p.ct.None?
    ensures Decide(plan, p).packet == p
  {
  }

  lemma MarkAfterPacket(rules: Ruleset, mark: nat, p: Packet)
    requires rules.Valid()
    ensures mark != 0 ==> MarkAfter(rules, mark, p) == mark
    ensures MarkAfter(rules, mark, p) != mark ==>
              rules.active.Some?
              && ReadyMark(rules.active.value.lanes, DecidingFamily(rules.active.value, p), MarkAfter(rules, mark, p))
  {
    OutputMarks(rules, OnConnection(p, mark));
    if rules.active.Some? {
      FirstRuleIgnoresMarks(rules.active.value.rules, OnConnection(p, mark), p);
    }
  }

  lemma DecisionMarks(plan: KernelPlan, p: Packet)
    requires p.ct.Some?
    ensures var q := Decide(plan, p).packet;
            && q.ct.Some?
            && (q.ct == p.ct || (p.ct.value.mark == 0 && ReadyMark(plan.lanes, DecidingFamily(plan, p), q.ct.value.mark)))
  {
    var k := FirstRule(plan.rules, p);
    if k.Some? {
      var mark := ActionMark(plan, plan.rules[k.value]);
      if mark.Some? {
        SelectedChanges(plan, plan.rules[k.value].family, mark.value, p);
      }
    }
    var primary := PrimaryMark(plan, p.Family());
    if primary.Some? {
      SelectedChanges(plan, p.Family(), primary.value, p);
    }
  }

  /** Over any run a connection's mark is written at most once, from zero, and never changes again. */
  lemma {:induction false} MarkWrittenAtMostOnce(rules: Ruleset, events: seq<Event>, i: nat)
    requires ValidRun(rules, events) && i <= |events|
    ensures ConnectionMark(rules, events[..i]) != 0 ==>
              ConnectionMark(rules, events) == ConnectionMark(rules, events[..i])
    decreases |events|
  {
    var n := |events| - 1;
    if i == |events| {
      assert events[..i] == events;
    } else {
      MarkWrittenAtMostOnce(rules, events[..n], i);
      assert events[..n][..i] == events[..i];
      RulesetsStayValid(rules, events[..n]);
      if events[n].Send? {
        MarkAfterPacket(RulesetAfter(rules, events[..n]), ConnectionMark(rules, events[..n]), events[n].packet);
      }
    }
  }

  /** Whatever mark a connection carries names a lane that was ready, for the family that decided, in the plan in force when it was written. */
  lemma {:induction false} MarkNamesTheLaneThatWasReady(rules: Ruleset, events: seq<Event>) returns (i: nat)
    requires ValidRun(rules, events) && ConnectionMark(rules, events) != 0
    ensures i < |events| && events[i].Send? && ConnectionMark(rules, events[..i]) == 0
    ensures var at := RulesetAfter(rules, events[..i]);
            && at.active.Some?
            && ReadyMark(at.active.value.lanes, DecidingFamily(at.active.value, events[i].packet), ConnectionMark(rules, events))
    decreases |events|
  {
    var n := |events| - 1;
    var before := events[..n];
    RulesetsStayValid(rules, before);
    if ConnectionMark(rules, before) != 0 {
      i := MarkNamesTheLaneThatWasReady(rules, before);
      assert before[..i] == events[..i];
      MarkWrittenAtMostOnce(rules, events, n);
    } else {
      i := n;
      MarkAfterPacket(RulesetAfter(rules, before), 0, events[n].packet);
    }
  }

  // Leaving the host.

  /** The packet after the routing decision its mark led to. */
  function Routed(p: Packet, oif: nat, oifname: string): Packet {
    p.(oif := oif, oifname := oifname)
  }

  /** A managed local packet leaves only by the interface observed for its connection's lane, even if the plan was replaced on the way. */
  lemma LeavesOnlyByItsLane(
    rules: Ruleset, later: Ruleset, p: Packet, oif: nat, oifname: string)
    requires rules.Valid() && later.Valid() && rules.active.Some? && later.active.Some?
    requires p.iif == 0 && !IsControl(p, rules.active.value.localNetworks)
    requires var o := LocalOutput(rules, p); o.verdict == Accepted && o.packet.ct.Some? && o.packet.ct.value.mark != 0
    requires !IsControl(Routed(LocalOutput(rules, p).packet, oif, oifname), later.active.value.localNetworks)
    ensures var plan := later.active.value;
            var q := Routed(LocalOutput(rules, p).packet, oif, oifname);
            var out := AtHook(later.Document(), PostroutingHook, q).outcome;
            && q.mark == q.ct.value.mark
            && out == Outcome(if ProvenBySome(plan, q) then Masqueraded else Dropped, q)
            && (ProvenBySome(plan, q) ==> LeavesByLane(plan, q.ct.value.mark, oif, oifname))
  {
    var q := Routed(LocalOutput(rules, p).packet, oif, oifname);
    AcceptedByOutput(rules, p);
    MarkedEgress(later, q);
    if ProvenBySome(later.active.value, q) {
      ProvenLeavesByLane(later.active.value, q);
    }
  }

  /** Some lane of this mark was observed on this interface. */
  predicate LeavesByLane(plan: KernelPlan, mark: nat, oif: nat, oifname: string) {
    exists lane :: lane in plan.lanes && lane.mark == mark && lane.identity.Some?
                   && oif == lane.identity.value.ifindex && oifname == lane.iface
  }

  lemma MarkedEgress(rules: Ruleset, q: Packet)
    requires rules.Valid() && rules.active.Some? && q.iif == 0 && q.ct.Some?
    requires !IsControl(q, rules.active.value.localNetworks) && OwnedMark(q.mark)
    ensures AtHook(rules.Document(), PostroutingHook, q).outcome
            == Outcome(if ProvenBySome(rules.active.value, q) then Masqueraded else Dropped, q)
  {
    PostroutingHookDecides(rules.active, rules.pending, rules.guard, q);
  }

  lemma ProvenLeavesByLane(plan: KernelPlan, q: Packet)
    requires ProvenBySome(plan, q) && q.ct.Some?
    ensures LeavesByLane(plan, q.ct.value.mark, q.oif, q.oifname)
  {
  }

  lemma AcceptedByOutput(rules: Ruleset, p: Packet)
    requires rules.Valid() && rules.active.Some? && !IsControl(p, rules.active.value.localNetworks)
    requires var o := LocalOutput(rules, p); o.verdict == Accepted && o.packet.ct.Some? && o.packet.ct.value.mark != 0
    ensures var q := LocalOutput(rules, p).packet;
            q.mark == q.ct.value.mark && OwnedMark(q.mark) && q.iif == p.iif
  {
    LocalOutputIs(rules, p);
    AcceptedMarks(rules.active.value, p);
  }

  lemma AcceptedMarks(plan: KernelPlan, p: Packet)
    requires ValidPlan(plan) && !IsControl(p, plan.localNetworks)
    ensures var o := Decide(plan, p);
            o.verdict == Accepted && o.packet.ct.Some? && o.packet.ct.value.mark != 0 ==>
              o.packet.mark == o.packet.ct.value.mark && OwnedMark(o.packet.mark) && o.packet.iif == p.iif
  {
    var o := Decide(plan, p);
    if p.ct.Some? && p.ct.value.mark != 0 {
      MarkedDecision(plan, p);
    } else if o.packet != p {
      var k := FirstRule(plan.rules, p);
      if k.Some? {
        SelectedChanges(plan, plan.rules[k.value].family, ActionMark(plan, plan.rules[k.value]).value, p);
      } else {
        SelectedChanges(plan, p.Family(), PrimaryMark(plan, p.Family()).value, p);
      }
    }
    if ReadyMark(plan.lanes, V4, o.packet.mark) { ReadyMarkIsOwned(plan, V4, o.packet.mark); }
    if ReadyMark(plan.lanes, V6, o.packet.mark) { ReadyMarkIsOwned(plan, V6, o.packet.mark); }
  }
}
