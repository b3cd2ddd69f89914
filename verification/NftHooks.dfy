/** Which chains of a listing the kernel runs for a packet, and what the rendered document does at every hook. */
module NftHooks {
  import opened Wrappers
  import opened Plan
  import opened NftChains
  import opened NftRender
  import opened NftPolicy
  import opened NftCorrect
  import opened Sequences

  /** Enough for a base chain that tail-calls a select chain that tail-calls a restore chain. */
  const GOTOS: nat := 2

  /** Connection tracking runs at this priority where packets enter: chains before it see no entry. */
  const CONNTRACK_PRIORITY: int := -200

  /** A base chain. */
  datatype Hooked = Hooked(name: ChainName, base: Base)

  /** What becomes of a packet at one hook, and whether the kernel looks up its route again. */
  datatype Passage = Passage(outcome: Outcome, rerouted: bool)

  function ListedAt(objects: seq<Object>, hook: Hook): seq<Hooked> {
    if objects == [] then
      []
    else
      (match objects[0]
       case ChainObject(name, Some(base)) => if base.hook == hook then [Hooked(name, base)] else []
       case _ => []) + ListedAt(objects[1..], hook)
  }

  function ByPriority(hooked: seq<Hooked>): seq<Hooked> {
    if hooked == [] then [] else Place(hooked[0], ByPriority(hooked[1..]))
  }

  function Place(h: Hooked, sorted: seq<Hooked>): seq<Hooked> {
    if sorted == [] || h.base.priority <= sorted[0].base.priority then [h] + sorted
    else [sorted[0]] + Place(h, sorted[1..])
  }

  /** The base chains of a hook in the order in which the kernel runs them. */
  function HookedAt(objects: seq<Object>, hook: Hook): seq<Hooked> {
    ByPriority(ListedAt(objects, hook))
  }

  predicate SeesConnections(base: Base) {
    base.hook == PostroutingHook || base.priority > CONNTRACK_PRIORITY
  }

  /** One base chain; only one of the nat kind may translate. */
  function RunChain(objects: seq<Object>, h: Hooked, p: Packet): Outcome {
    var o := match Walk(objects, h.name, if SeesConnections(h.base) then p else p.(ct := None), GOTOS)
      case Some(outcome) => outcome
      case None => Refuse(p);
    var seen := if SeesConnections(h.base) then o else o.(packet := o.packet.(ct := p.ct));
    if seen.verdict.Masqueraded? && h.base.kind != NatKind then Refuse(p) else seen
  }

  /** Accepted packets go on to the next chain; a chain of the route kind that changes a mark has the route looked up again. */
  function Pass(objects: seq<Object>, hooked: seq<Hooked>, p: Packet): Passage {
    if hooked == [] then
      Passage(Accept(p), false)
    else
      var o := RunChain(objects, hooked[0], p);
      if o.verdict.Accepted? then
        var rest := Pass(objects, hooked[1..], o.packet);
        rest.(rerouted := rest.rerouted || (hooked[0].base.kind == RouteKind && o.packet.mark != p.mark))
      else
        Passage(o, false)
  }

  function AtHook(objects: seq<Object>, hook: Hook, p: Packet): Passage {
    Pass(objects, HookedAt(objects, hook), p)
  }

  // ----- The base chains of a rendered document -----

  lemma {:induction false} ListedAppend(a: seq<Object>, b: seq<Object>, hook: Hook)
    ensures ListedAt(a + b, hook) == ListedAt(a, hook) + ListedAt(b, hook)
  {
    if a == [] {
      Nothing(b);
      Nothing(ListedAt(b, hook));
    } else {
      TailOfAppend(a, b);
      ListedAppend(a[1..], b, hook);
      var head := match a[0]
        case ChainObject(name, Some(base)) => if base.hook == hook then [Hooked(name, base)] else []
        case _ => [];
      Regroup(head, ListedAt(a[1..], hook), ListedAt(b, hook));
    }
  }

  function BaseOf(c: Chain, hook: Hook): seq<Hooked> {
    if c.base.Some? && c.base.value.hook == hook then [Hooked(c.name, c.base.value)] else []
  }

  function BasesOf(chains: seq<Chain>, hook: Hook): seq<Hooked> {
    if chains == [] then
      []
    else
      BasesOf(chains[..|chains| - 1], hook) + BaseOf(chains[|chains| - 1], hook)
  }

  lemma {:induction false} BasesAppend(a: seq<Chain>, b: seq<Chain>, hook: Hook)
    ensures BasesOf(a + b, hook) == BasesOf(a, hook) + BasesOf(b, hook)
  {
    if b == [] {
      Nothing(a);
      Nothing(BasesOf(a, hook));
    } else {
      var n := |b| - 1;
      InitOfAppend(a, b);
      BasesAppend(a, b[..n], hook);
      Regroup(BasesOf(a, hook), BasesOf(b[..n], hook), BaseOf(b[n], hook));
    }
  }

  lemma {:induction false} ListedChains(chains: seq<Chain>, hook: Hook)
    ensures ListedAt(ChainObjects(chains), hook) == BasesOf(chains, hook)
  {
    if chains != [] {
      var n := |chains| - 1;
      var last := [ChainObject(chains[n].name, chains[n].base)];
      ListedChains(chains[..n], hook);
      ListedAppend(ChainObjects(chains[..n]), last, hook);
      assert last[1..] == [];
    }
  }

  lemma {:induction false} NoneListed(objects: seq<Object>, hook: Hook)
    requires forall o :: o in objects ==> o.ChainObject? ==> o.base.None?
    ensures ListedAt(objects, hook) == []
  {
    if objects != [] {
      NoneListed(objects[1..], hook);
    }
  }

  lemma {:induction false} RulesAreNotChains(chains: seq<Chain>)
    ensures forall o :: o in AllRuleObjects(chains) ==> o.RuleObject?
  {
    if chains != [] {
      var n := |chains| - 1;
      RulesAreNotChains(chains[..n]);
      RuleObjectsAreNotChains(chains[n].name, chains[n].rules);
    }
  }

  lemma {:induction false} RuleObjectsAreNotChains(name: ChainName, rules: seq<Rule>)
    ensures forall o :: o in RuleObjects(name, rules) ==> o.RuleObject?
    decreases |rules|
  {
    if rules != [] {
      RuleObjectsAreNotChains(name, rules[..|rules| - 1]);
    }
  }

  lemma ListedBases(chains: seq<Chain>, hook: Hook)
    ensures ListedAt(SealedListing(chains), hook) == BasesOf(chains, hook)
  {
    var head := [Table] + [SealChain([Table] + Listing(chains))];
    ListedAppend(head, Listing(chains), hook);
    ListedAppend(ChainObjects(chains), AllRuleObjects(chains), hook);
    ListedChains(chains, hook);
    RulesAreNotChains(chains);
    NoneListed(AllRuleObjects(chains), hook);
    NoneListed(head, hook);
    Nothing(BasesOf(chains, hook));
  }

  lemma {:induction false} RegularChains(chains: seq<Chain>, hook: Hook)
    requires forall c :: c in chains ==> c.base.None?
    ensures BasesOf(chains, hook) == []
  {
    if chains != [] {
      RegularChains(chains[..|chains| - 1], hook);
    }
  }

  lemma FamiliesAreRegular(plan: KernelPlan, f: Family, hook: Hook)
    ensures BasesOf(FamilyChains(plan, f), hook) == []
  {
    FamilyChainsAt(plan, f);
    forall c | c in FamilyChains(plan, f) ensures c.base.None? {
      var i :| 0 <= i < |FamilyChains(plan, f)| && FamilyChains(plan, f)[i] == c;
      if i > 0 {
        assert FamilyChains(plan, f)[i - 1 + 1] == SelectChain(plan.lanes[i - 1], f);
      }
    }
    RegularChains(FamilyChains(plan, f), hook);
  }

  lemma OneBase(c: Chain, hook: Hook)
    ensures BasesOf([c], hook) == BaseOf(c, hook)
  {
    assert [c][..0] == [];
  }

  /** The base chains of a policy, with the kind, hook and priority of each. */
  function PolicyHooks(hook: Hook): seq<Hooked> {
    match hook
    case OutputHook => [Hooked(Output, Base(RouteKind, OutputHook, -150))]
    case PreroutingHook => [Hooked(Prerouting, Base(FilterKind, PreroutingHook, -150))]
    case PostroutingHook => [Hooked(EgressGuard, Base(FilterKind, PostroutingHook, 99)),
                             Hooked(SourceNat, Base(NatKind, PostroutingHook, 100))]
  }

  function GuardHooks(hook: Hook): seq<Hooked> {
    if hook == OutputHook then [Hooked(Guard, Base(RouteKind, OutputHook, -149))] else []
  }

  lemma ThreeBases(a: Chain, b: Chain, c: Chain, hook: Hook)
    ensures BasesOf([a, b, c], hook) == BaseOf(a, hook) + BaseOf(b, hook) + BaseOf(c, hook)
  {
    assert [a, b, c] == [a] + [b] + [c];
    BasesAppend([a] + [b], [c], hook);
    BasesAppend([a], [b], hook);
    OneBase(a, hook);
    OneBase(b, hook);
    OneBase(c, hook);
  }

  lemma HookBases(plan: KernelPlan, hook: Hook)
    ensures BasesOf(HookChains(plan), hook) == if hook == OutputHook then [] else PolicyHooks(hook)
  {
    var c := HookChains(plan);
    ThreeBases(c[0], c[1], c[2], hook);
  }

  lemma BasesOfFour(a: seq<Chain>, b: seq<Chain>, c: seq<Chain>, d: seq<Chain>, hook: Hook)
    requires BasesOf(a, hook) == [] && BasesOf(b, hook) == []
    ensures BasesOf(a + b + c + d, hook) == BasesOf(c, hook) + BasesOf(d, hook)
  {
    BasesAppend(a + b + c, d, hook);
    BasesAppend(a + b, c, hook);
    BasesAppend(a, b, hook);
  }

  lemma OutputBase(plan: KernelPlan, hook: Hook)
    ensures BasesOf([OutputChain(plan)], hook) == if hook == OutputHook then PolicyHooks(hook) else []
  {
    OneBase(OutputChain(plan), hook);
  }

  lemma PolicyBases(plan: KernelPlan, hook: Hook)
    ensures BasesOf(PolicyChains(plan), hook) == PolicyHooks(hook)
  {
    FamiliesAreRegular(plan, V4, hook);
    FamiliesAreRegular(plan, V6, hook);
    OutputBase(plan, hook);
    HookBases(plan, hook);
    BasesOfFour(FamilyChains(plan, V4), FamilyChains(plan, V6), [OutputChain(plan)], HookChains(plan), hook);
    Nothing(PolicyHooks(hook));
  }

  lemma MarkersAreRegular(active: Option<KernelPlan>, pending: Option<KernelPlan>, hook: Hook)
    ensures BasesOf(MarkerChains(active, pending), hook) == []
  {
    RegularChains(MarkerChains(active, pending), hook);
  }

  lemma GuardBases(active: Option<KernelPlan>, pending: Option<KernelPlan>, guard: bool, hook: Hook)
    ensures BasesOf(GuardChains(active, pending, guard), hook) == if guard then GuardHooks(hook) else []
  {
    if guard {
      OneBase(GuardChain(GuardNetworks(active, pending)), hook);
    }
  }

  function ChainsHooked(active: bool, guard: bool, hook: Hook): seq<Hooked> {
    (if active then PolicyHooks(hook) else []) + (if guard then GuardHooks(hook) else [])
  }

  lemma HookedInOrder(active: bool, guard: bool, hook: Hook)
    ensures ByPriority(ChainsHooked(active, guard, hook)) == ChainsHooked(active, guard, hook)
  {
    TwoByPriority(if active then PolicyHooks(hook) else [], if guard then GuardHooks(hook) else []);
  }

  /** Three groups of chains of which the first has no base chain. */
  lemma HooksOfThree(a: seq<Chain>, b: seq<Chain>, c: seq<Chain>, hooked: seq<Hooked>, hook: Hook)
    requires BasesOf(a, hook) == [] && BasesOf(b, hook) + BasesOf(c, hook) == hooked && ByPriority(hooked) == hooked
    ensures HookedAt(SealedListing(a + b + c), hook) == hooked
  {
    ListedBases(a + b + c, hook);
    BasesOfThree(a, b, c, hook);
  }

  lemma ActiveBases(active: Option<KernelPlan>, hook: Hook)
    ensures BasesOf(match active case None => [] case Some(p) => PolicyChains(p), hook)
            == if active.Some? then PolicyHooks(hook) else []
  {
    if active.Some? {
      PolicyBases(active.value, hook);
    }
  }

  /** The base chains of a rendered document are those of its active plan, and the guard after the output chain. */
  lemma HooksOfDocument(active: Option<KernelPlan>, pending: Option<KernelPlan>, guard: bool, hook: Hook)
    ensures HookedAt(Render(active, pending, guard), hook) == ChainsHooked(active.Some?, guard, hook)
  {
    var policy := match active case None => [] case Some(p) => PolicyChains(p);
    MarkersAreRegular(active, pending, hook);
    ActiveBases(active, hook);
    GuardBases(active, pending, guard, hook);
    HookedInOrder(active.Some?, guard, hook);
    HooksOfThree(MarkerChains(active, pending), policy, GuardChains(active, pending, guard),
                 ChainsHooked(active.Some?, guard, hook), hook);
  }

  lemma BasesOfThree(a: seq<Chain>, b: seq<Chain>, c: seq<Chain>, hook: Hook)
    requires BasesOf(a, hook) == []
    ensures BasesOf(a + b + c, hook) == BasesOf(b, hook) + BasesOf(c, hook)
  {
    BasesAppend(a + b, c, hook);
    BasesAppend(a, b, hook);
  }

  /** Two lists of which no chain has to move. */
  lemma TwoByPriority(a: seq<Hooked>, b: seq<Hooked>)
    requires |a + b| <= 2 && (|a + b| == 2 ==> (a + b)[0].base.priority <= (a + b)[1].base.priority)
    ensures ByPriority(a + b) == a + b
  {
    var s := a + b;
    if |s| == 1 {
      assert ByPriority(s[1..]) == [];
    } else if |s| == 2 {
      assert s[1..][1..] == [] && ByPriority(s[1..]) == [s[1]];
    }
  }

  // ----- What happens at each hook -----

  lemma RunOne(objects: seq<Object>, h: Hooked, p: Packet, o: Outcome)
    requires SeesConnections(h.base) && Walk(objects, h.name, p, GOTOS) == Some(o)
    requires o.verdict.Masqueraded? ==> h.base.kind == NatKind
    ensures RunChain(objects, h, p) == o
  {
  }

  lemma PassOne(objects: seq<Object>, h: Hooked, p: Packet)
    ensures var o := RunChain(objects, h, p);
            Pass(objects, [h], p) ==
            Passage(o, o.verdict.Accepted? && h.base.kind == RouteKind && o.packet.mark != p.mark)
  {
    assert [h][1..] == [];
  }

  lemma PassTwo(objects: seq<Object>, a: Hooked, b: Hooked, p: Packet)
    ensures var o := RunChain(objects, a, p);
            Pass(objects, [a, b], p) ==
            if !o.verdict.Accepted? then Passage(o, false)
            else
              var rest := Pass(objects, [b], o.packet);
              rest.(rerouted := rest.rerouted || (a.base.kind == RouteKind && o.packet.mark != p.mark))
  {
    assert [a, b][1..] == [b];
  }

  function Decided(active: Option<KernelPlan>, p: Packet): Outcome {
    match active case None => Accept(p) case Some(plan) => Decide(plan, p)
  }

  lemma OutputRuns(active: Option<KernelPlan>, pending: Option<KernelPlan>, guard: bool, p: Packet)
    requires active.Some? && DistinctMarks(active.value.lanes)
    ensures RunChain(Render(active, pending, guard), PolicyHooks(OutputHook)[0], p) == Decide(active.value, p)
  {
    OutputIsDecide(active.value, pending, guard, p, GOTOS);
    DecideIsPlain(active.value, p);
    RunOne(Render(active, pending, guard), PolicyHooks(OutputHook)[0], p, Decide(active.value, p));
  }

  lemma GuardIsPlain(networks: seq<IpNet>, p: Packet)
    ensures !DecideGuard(networks, p).verdict.Masqueraded? && DecideGuard(networks, p).packet == p
  {
  }

  lemma GuardRuns(active: Option<KernelPlan>, pending: Option<KernelPlan>, p: Packet)
    requires active.Some? ==> DistinctMarks(active.value.lanes)
    ensures RunChain(Render(active, pending, true), GuardHooks(OutputHook)[0], p)
            == GuardDecided(active, pending, p)
    ensures GuardDecided(active, pending, p).packet == p
  {
    GuardRefusesTheRest(active, pending, p, GOTOS);
    GuardIsPlain(NetworksOf(active) + NetworksOf(pending), p);
    RunOne(Render(active, pending, true), GuardHooks(OutputHook)[0], p, GuardDecided(active, pending, p));
  }

  lemma OneStage(objects: seq<Object>, hook: Hook, h: Hooked, p: Packet)
    requires HookedAt(objects, hook) == [h] && h.base.kind != RouteKind
    ensures AtHook(objects, hook, p) == Passage(RunChain(objects, h, p), false)
  {
    PassOne(objects, h, p);
  }

  lemma TwoStages(objects: seq<Object>, hook: Hook, a: Hooked, b: Hooked, p: Packet)
    requires HookedAt(objects, hook) == [a] + [b] && a.base.kind != RouteKind && b.base.kind != RouteKind
    ensures var first := RunChain(objects, a, p);
            AtHook(objects, hook, p)
            == Passage(if first.verdict.Accepted? then RunChain(objects, b, first.packet) else first, false)
  {
    assert [a] + [b] == [a, b];
    PassOne(objects, b, RunChain(objects, a, p).packet);
    PassTwo(objects, a, b, p);
  }

  function GuardDecided(active: Option<KernelPlan>, pending: Option<KernelPlan>, p: Packet): Outcome {
    DecideGuard(NetworksOf(active) + NetworksOf(pending), p)
  }

  lemma FirstRuns(active: Option<KernelPlan>, pending: Option<KernelPlan>, guard: bool, p: Packet)
    requires active.Some? ==> DistinctMarks(active.value.lanes)
    ensures if active.Some?
            then RunChain(Render(active, pending, guard), PolicyHooks(OutputHook)[0], p) == Decided(active, p)
            else Decided(active, p) == Accept(p)
  {
    if active.Some? {
      OutputRuns(active, pending, guard, p);
    }
  }

  /** A locally sent packet: the plan decides, then the guard if there is one, and a mark the plan gave is routed by. */
  lemma OutputHookDecides(active: Option<KernelPlan>, pending: Option<KernelPlan>, guard: bool, p: Packet)
    requires active.Some? ==> DistinctMarks(active.value.lanes)
    ensures var first := Decided(active, p);
            AtHook(Render(active, pending, guard), OutputHook, p) == Passage(
              if first.verdict.Accepted? && guard then GuardDecided(active, pending, first.packet) else first,
              first.verdict.Accepted? && first.packet.mark != p.mark)
  {
    HooksOfDocument(active, pending, guard, OutputHook);
    FirstRuns(active, pending, guard, p);
    if guard {
      GuardRuns(active, pending, Decided(active, p).packet);
    }
    OutputStages(Render(active, pending, guard), active.Some?, guard, p, Decided(active, p),
                 GuardDecided(active, pending, Decided(active, p).packet));
  }

  /** A plan of the phase has the destination among its local networks, or sends control traffic there. */
  predicate LetOutBy(plan: Option<KernelPlan>, p: Packet) {
    plan.Some? && (IsControl(p, plan.value.localNetworks) || SomeContains(plan.value.localNetworks, p.destination))
  }

  /** The guard lets out what either plan calls local, and control traffic that needs no network. */
  lemma GuardLetsOut(active: Option<KernelPlan>, pending: Option<KernelPlan>, p: Packet)
    ensures GuardDecided(active, pending, p)
            == if LetOutBy(active, p) || LetOutBy(pending, p) || IsControl(p, []) then Accept(p) else Refuse(p)
  {
    var networks := NetworksOf(active) + NetworksOf(pending);
    assert forall n :: n in networks <==>
      (active.Some? && n in active.value.localNetworks) || (pending.Some? && n in pending.value.localNetworks);
  }

  /** The two base chains of the output hook, as far as they are there. */
  lemma OutputStages(objects: seq<Object>, active: bool, guard: bool, p: Packet, first: Outcome, second: Outcome)
    requires HookedAt(objects, OutputHook) == ChainsHooked(active, guard, OutputHook)
    requires if active then RunChain(objects, PolicyHooks(OutputHook)[0], p) == first else first == Accept(p)
    requires guard ==> RunChain(objects, GuardHooks(OutputHook)[0], first.packet) == second && second.packet == first.packet
    ensures AtHook(objects, OutputHook, p) == Passage(
              if first.verdict.Accepted? && guard then second else first,
              first.verdict.Accepted? && first.packet.mark != p.mark)
  {
    var a, b := PolicyHooks(OutputHook)[0], GuardHooks(OutputHook)[0];
    PassOne(objects, a, p);
    PassOne(objects, b, first.packet);
    PassTwo(objects, a, b, p);
    if active && guard {
      assert HookedAt(objects, OutputHook) == [a, b];
    } else if active {
      assert HookedAt(objects, OutputHook) == [a];
    } else if guard {
      assert HookedAt(objects, OutputHook) == [b];
    } else {
      assert HookedAt(objects, OutputHook) == [];
    }
  }

  lemma DecideIsPlain(plan: KernelPlan, p: Packet)
    ensures Decide(plan, p).verdict.Accepted? || Decide(plan, p).verdict.Rejected?
  {
  }

  /** A packet on its way out: dropped by the egress guard, translated as proven, or passed on. */
  function Leaving(plan: KernelPlan, p: Packet): Outcome {
    if DecideEgress(plan, p).verdict.Dropped? then Outcome(Dropped, p)
    else if ProvenBySome(plan, p) then Outcome(Masqueraded, p)
    else Accept(p)
  }

  lemma PostroutingHookDecides(active: Option<KernelPlan>, pending: Option<KernelPlan>, guard: bool, p: Packet)
    requires active.Some? ==> DistinctMarks(active.value.lanes)
    ensures AtHook(Render(active, pending, guard), PostroutingHook, p)
            == Passage(if active.None? then Accept(p) else Leaving(active.value, p), false)
  {
    HooksOfDocument(active, pending, guard, PostroutingHook);
    if active.Some? {
      EgressRuns(active.value, pending, guard, p);
      EgressThenSource(Render(active, pending, guard), active.value, p);
    }
  }

  lemma EgressThenSource(objects: seq<Object>, plan: KernelPlan, p: Packet)
    requires HookedAt(objects, PostroutingHook) == PolicyHooks(PostroutingHook) + []
    requires RunChain(objects, PolicyHooks(PostroutingHook)[0], p) == DecideEgress(plan, p)
    requires RunChain(objects, PolicyHooks(PostroutingHook)[1], p)
             == Outcome(if ProvenBySome(plan, p) then Masqueraded else Accepted, p)
    ensures AtHook(objects, PostroutingHook, p) == Passage(Leaving(plan, p), false)
  {
    var hooks := PolicyHooks(PostroutingHook);
    assert hooks + [] == [hooks[0]] + [hooks[1]];
    TwoStages(objects, PostroutingHook, hooks[0], hooks[1], p);
  }

  lemma EgressRuns(plan: KernelPlan, pending: Option<KernelPlan>, guard: bool, p: Packet)
    requires DistinctMarks(plan.lanes)
    ensures RunChain(Render(Some(plan), pending, guard), PolicyHooks(PostroutingHook)[0], p) == DecideEgress(plan, p)
    ensures RunChain(Render(Some(plan), pending, guard), PolicyHooks(PostroutingHook)[1], p)
            == Outcome(if ProvenBySome(plan, p) then Masqueraded else Accepted, p)
  {
    EgressIsDecided(plan, pending, guard, p, GOTOS);
    OnlyProvenIsMasqueraded(plan, pending, guard, p, GOTOS);
    RunOne(Render(Some(plan), pending, guard), PolicyHooks(PostroutingHook)[0], p, DecideEgress(plan, p));
    RunOne(Render(Some(plan), pending, guard), PolicyHooks(PostroutingHook)[1], p,
           Outcome(if ProvenBySome(plan, p) then Masqueraded else Accepted, p));
  }

  /** A packet coming in takes its connection's mark exactly when it is a reply on that connection's lane. */
  lemma PreroutingHookDecides(active: Option<KernelPlan>, pending: Option<KernelPlan>, guard: bool, p: Packet)
    requires active.Some? ==> DistinctMarks(active.value.lanes)
    ensures AtHook(Render(active, pending, guard), PreroutingHook, p) == Passage(
              Accept(if active.Some? && ReturningToSome(active.value, p) then p.(mark := p.ct.value.mark) else p), false)
  {
    HooksOfDocument(active, pending, guard, PreroutingHook);
    if active.Some? {
      var objects := Render(active, pending, guard);
      var reply := PolicyHooks(PreroutingHook)[0];
      RepliesTakeTheirMark(active.value, pending, guard, p, GOTOS);
      RunOne(objects, reply, p, Accept(if ReturningToSome(active.value, p) then p.(mark := p.ct.value.mark) else p));
      OneStage(objects, PreroutingHook, reply, p);
    }
  }
}
