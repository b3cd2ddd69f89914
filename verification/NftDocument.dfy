/** What the seal and the normal form of a document guarantee about the listing the kernel returns. */
module NftDocument {
  import opened Wrappers
  import opened Plan
  import opened NftChains
  import opened NftRender
  import opened NftPolicy
  import opened NftCorrect
  import opened NftHooks
  import opened Sequences

  // Normal form.

  lemma {:induction false} WithoutRulesAppend(a: seq<Object>, b: seq<Object>)
    ensures WithoutRules(a + b) == WithoutRules(a) + WithoutRules(b)
  {
    if a == [] {
      Nothing(b);
      Nothing(WithoutRules(b));
    } else {
      TailOfAppend(a, b);
      WithoutRulesAppend(a[1..], b);
      Regroup(if a[0].RuleObject? then [] else [a[0]], WithoutRules(a[1..]), WithoutRules(b));
    }
  }

  lemma {:induction false} OnlyRulesAppend(a: seq<Object>, b: seq<Object>)
    ensures OnlyRules(a + b) == OnlyRules(a) + OnlyRules(b)
  {
    if a == [] {
      Nothing(b);
      Nothing(OnlyRules(b));
    } else {
      TailOfAppend(a, b);
      OnlyRulesAppend(a[1..], b);
      Regroup(if a[0].RuleObject? then [a[0]] else [], OnlyRules(a[1..]), OnlyRules(b));
    }
  }

  lemma {:induction false} SealedPartAppend(a: seq<Object>, b: seq<Object>)
    ensures SealedPart(a + b) == SealedPart(a) + SealedPart(b)
  {
    if a == [] {
      Nothing(b);
      Nothing(SealedPart(b));
    } else {
      TailOfAppend(a, b);
      SealedPartAppend(a[1..], b);
      Regroup(if Sealed(a[0]) then [a[0]] else [], SealedPart(a[1..]), SealedPart(b));
    }
  }

  lemma SplitAppend(a: seq<Object>, b: seq<Object>)
    ensures WithoutRules(a + b) == WithoutRules(a) + WithoutRules(b)
    ensures OnlyRules(a + b) == OnlyRules(a) + OnlyRules(b)
    ensures SealedPart(a + b) == SealedPart(a) + SealedPart(b)
  {
    WithoutRulesAppend(a, b);
    OnlyRulesAppend(a, b);
    SealedPartAppend(a, b);
  }

  lemma {:induction false} SplitTwice(objects: seq<Object>)
    ensures WithoutRules(WithoutRules(objects)) == WithoutRules(objects) && OnlyRules(WithoutRules(objects)) == []
    ensures OnlyRules(OnlyRules(objects)) == OnlyRules(objects) && WithoutRules(OnlyRules(objects)) == []
  {
    if objects != [] {
      SplitTwice(objects[1..]);
      var o := objects[0];
      if o.RuleObject? {
        assert OnlyRules(objects)[0] == o && OnlyRules(objects)[1..] == OnlyRules(objects[1..]);
        assert WithoutRules(objects) == WithoutRules(objects[1..]);
      } else {
        assert WithoutRules(objects)[0] == o && WithoutRules(objects)[1..] == WithoutRules(objects[1..]);
        assert OnlyRules(objects) == OnlyRules(objects[1..]);
      }
    }
  }

  /** Two listings have one normal form exactly when they list the same chains and the same rules in the same orders. */
  lemma SameNormalForm(a: seq<Object>, b: seq<Object>)
    ensures ChainsFirst(ChainsFirst(a)) == ChainsFirst(a)
    ensures ChainsFirst(a) == ChainsFirst(b) <==> WithoutRules(a) == WithoutRules(b) && OnlyRules(a) == OnlyRules(b)
  {
    SplitTwice(a);
    SplitTwice(b);
    SplitAppend(WithoutRules(a), OnlyRules(a));
    SplitAppend(WithoutRules(b), OnlyRules(b));
    assert WithoutRules(ChainsFirst(a)) == WithoutRules(a) && OnlyRules(ChainsFirst(a)) == OnlyRules(a);
    assert WithoutRules(ChainsFirst(b)) == WithoutRules(b) && OnlyRules(ChainsFirst(b)) == OnlyRules(b);
  }

  lemma ChainsFirstKeepsRuleOrder(objects: seq<Object>, name: ChainName)
    ensures RulesOf(ChainsFirst(objects), name) == RulesOf(objects, name)
  {
    RulesOfAppend(WithoutRules(objects), OnlyRules(objects), name);
    RulesComeFromRules(objects, name);
  }

  lemma {:induction false} RulesComeFromRules(objects: seq<Object>, name: ChainName)
    ensures RulesOf(WithoutRules(objects), name) == []
    ensures RulesOf(OnlyRules(objects), name) == RulesOf(objects, name)
  {
    if objects != [] {
      RulesComeFromRules(objects[1..], name);
      var o := objects[0];
      if o.RuleObject? {
        assert OnlyRules(objects)[0] == o && OnlyRules(objects)[1..] == OnlyRules(objects[1..]);
        assert WithoutRules(objects) == WithoutRules(objects[1..]);
      } else {
        assert WithoutRules(objects)[0] == o && WithoutRules(objects)[1..] == WithoutRules(objects[1..]);
        assert OnlyRules(objects) == OnlyRules(objects[1..]);
      }
    }
  }

  /** A listing that puts each chain's rules right after the chain. */
  function Interleaved(chains: seq<Chain>): seq<Object> {
    if chains == [] then
      []
    else
      var c := chains[|chains| - 1];
      Interleaved(chains[..|chains| - 1]) + ([ChainObject(c.name, c.base)] + RuleObjects(c.name, c.rules))
  }

  lemma {:induction false} RuleObjectsAreRules(name: ChainName, rules: seq<Rule>)
    ensures WithoutRules(RuleObjects(name, rules)) == [] && OnlyRules(RuleObjects(name, rules)) == RuleObjects(name, rules)
    decreases |rules|
  {
    if rules != [] {
      var n := |rules| - 1;
      var last := [RuleObject(name, rules[n])];
      RuleObjectsAreRules(name, rules[..n]);
      SplitAppend(RuleObjects(name, rules[..n]), last);
      assert last[1..] == [];
    }
  }

  lemma OneChainSplits(c: Chain)
    ensures var block := [ChainObject(c.name, c.base)] + RuleObjects(c.name, c.rules);
            && WithoutRules(block) == [ChainObject(c.name, c.base)]
            && OnlyRules(block) == RuleObjects(c.name, c.rules)
  {
    var head := [ChainObject(c.name, c.base)];
    assert head[1..] == [];
    SplitAppend(head, RuleObjects(c.name, c.rules));
    RuleObjectsAreRules(c.name, c.rules);
  }

  lemma {:induction false} ListingsSplitAlike(chains: seq<Chain>)
    ensures WithoutRules(Interleaved(chains)) == ChainObjects(chains)
    ensures OnlyRules(Interleaved(chains)) == AllRuleObjects(chains)
    ensures WithoutRules(ChainObjects(chains)) == ChainObjects(chains) && OnlyRules(ChainObjects(chains)) == []
    ensures WithoutRules(AllRuleObjects(chains)) == [] && OnlyRules(AllRuleObjects(chains)) == AllRuleObjects(chains)
  {
    if chains != [] {
      var n := |chains| - 1;
      var c, rest := chains[n], chains[..n];
      var head := [ChainObject(c.name, c.base)];
      ListingsSplitAlike(rest);
      OneChainSplits(c);
      RuleObjectsAreRules(c.name, c.rules);
      assert head[1..] == [];
      SplitAppend(Interleaved(rest), head + RuleObjects(c.name, c.rules));
      SplitAppend(ChainObjects(rest), head);
      SplitAppend(AllRuleObjects(rest), RuleObjects(c.name, c.rules));
    }
  }

  /** Both listing orders of the same chains have the same normal form, which is the chains-first one. */
  lemma ListingOrderIsIrrelevant(chains: seq<Chain>)
    ensures ChainsFirst(Interleaved(chains)) == ChainObjects(chains) + AllRuleObjects(chains)
    ensures ChainsFirst(ChainObjects(chains) + AllRuleObjects(chains)) == ChainObjects(chains) + AllRuleObjects(chains)
  {
    ListingsSplitAlike(chains);
    SplitAppend(ChainObjects(chains), AllRuleObjects(chains));
    Nothing(ChainObjects(chains));
    Nothing(AllRuleObjects(chains));
  }

  // The guard.

  predicate OfGuard(o: Object) {
    match o
    case Table => false
    case ChainObject(name, _) => name == Guard
    case RuleObject(chain, _) => chain == Guard
  }

  /** Flushing and deleting the guard chain removes its rules and itself. */
  function WithoutGuard(objects: seq<Object>): seq<Object> {
    if objects == [] then
      []
    else
      (if OfGuard(objects[0]) then [] else [objects[0]]) + WithoutGuard(objects[1..])
  }

  lemma {:induction false} WithoutGuardAppend(a: seq<Object>, b: seq<Object>)
    ensures WithoutGuard(a + b) == WithoutGuard(a) + WithoutGuard(b)
  {
    if a == [] {
      Nothing(b);
      Nothing(WithoutGuard(b));
    } else {
      TailOfAppend(a, b);
      WithoutGuardAppend(a[1..], b);
      Regroup(if OfGuard(a[0]) then [] else [a[0]], WithoutGuard(a[1..]), WithoutGuard(b));
    }
  }

  ghost predicate NoneOfGuard(objects: seq<Object>) {
    forall o :: o in objects ==> !OfGuard(o)
  }

  ghost predicate AllOfGuard(objects: seq<Object>) {
    forall o :: o in objects ==> OfGuard(o)
  }

  lemma {:induction false} GuardFiltered(objects: seq<Object>)
    ensures NoneOfGuard(objects) ==> WithoutGuard(objects) == objects
    ensures AllOfGuard(objects) ==> WithoutGuard(objects) == [] && SealedPart(objects) == []
  {
    if objects != [] {
      GuardFiltered(objects[1..]);
    }
  }

  lemma {:induction false} RuleObjectsName(name: ChainName, rules: seq<Rule>, o: Object)
    requires o in RuleObjects(name, rules)
    ensures o.RuleObject? && o.chain == name
    decreases |rules|
  {
    var n := |rules| - 1;
    if o in RuleObjects(name, rules[..n]) {
      RuleObjectsName(name, rules[..n], o);
    }
  }

  /** Every object of a listing belongs to one of its chains. */
  lemma {:induction false} ObjectsBelong(chains: seq<Chain>, o: Object) returns (c: Chain)
    requires o in ChainObjects(chains) || o in AllRuleObjects(chains)
    ensures c in chains
    ensures (o.ChainObject? && o.name == c.name) || (o.RuleObject? && o.chain == c.name)
    ensures o in ChainObjects(chains) && o !in AllRuleObjects(chains) ==> o.ChainObject?
  {
    var n := |chains| - 1;
    var rest := chains[..n];
    if o in ChainObjects(rest) || o in AllRuleObjects(rest) {
      c := ObjectsBelong(rest, o);
    } else {
      c := chains[n];
      if o in RuleObjects(c.name, c.rules) {
        RuleObjectsName(c.name, c.rules, o);
      }
    }
  }

  lemma PlainChains(chains: seq<Chain>)
    requires forall c :: c in chains ==> c.name != Guard
    ensures NoneOfGuard(ChainObjects(chains)) && NoneOfGuard(AllRuleObjects(chains))
  {
    forall o | o in ChainObjects(chains) || o in AllRuleObjects(chains)
      ensures !OfGuard(o)
    {
      var c := ObjectsBelong(chains, o);
    }
  }

  lemma {:induction false} ChainObjectsAppend(a: seq<Chain>, b: seq<Chain>)
    ensures ChainObjects(a + b) == ChainObjects(a) + ChainObjects(b)
  {
    if b == [] {
      Nothing(a);
      Nothing(ChainObjects(a));
    } else {
      var n := |b| - 1;
      InitOfAppend(a, b);
      ChainObjectsAppend(a, b[..n]);
      Regroup(ChainObjects(a), ChainObjects(b[..n]), [ChainObject(b[n].name, b[n].base)]);
    }
  }

  lemma {:induction false} RuleObjectsAppend(a: seq<Chain>, b: seq<Chain>)
    ensures AllRuleObjects(a + b) == AllRuleObjects(a) + AllRuleObjects(b)
  {
    if b == [] {
      Nothing(a);
      Nothing(AllRuleObjects(a));
    } else {
      var n := |b| - 1;
      InitOfAppend(a, b);
      RuleObjectsAppend(a, b[..n]);
      Regroup(AllRuleObjects(a), AllRuleObjects(b[..n]), RuleObjects(b[n].name, b[n].rules));
    }
  }

  lemma GuardPairVanishes(a: seq<Object>, b: seq<Object>)
    requires NoneOfGuard(a) && AllOfGuard(b)
    ensures WithoutGuard(a + b) == a && SealedPart(a + b) == SealedPart(a)
  {
    GuardFiltered(a);
    GuardFiltered(b);
    WithoutGuardAppend(a, b);
    SplitAppend(a, b);
    Nothing(a);
    Nothing(SealedPart(a));
  }

  /** Objects of a plain listing with guard objects after each part. */
  lemma GuardPartsVanish(a: seq<Object>, b: seq<Object>, c: seq<Object>, d: seq<Object>)
    requires NoneOfGuard(a) && AllOfGuard(b) && NoneOfGuard(c) && AllOfGuard(d)
    ensures WithoutGuard(a + b + (c + d)) == a + c
    ensures SealedPart(a + b + (c + d)) == SealedPart(a + c)
  {
    GuardPairVanishes(a, b);
    GuardPairVanishes(c, d);
    WithoutGuardAppend(a + b, c + d);
    SplitAppend(a + b, c + d);
    SplitAppend(a, c);
  }

  lemma GuardAlone(guard: Chain)
    requires guard.name == Guard
    ensures AllOfGuard(ChainObjects([guard])) && AllOfGuard(AllRuleObjects([guard]))
  {
    forall o | o in ChainObjects([guard]) || o in AllRuleObjects([guard])
      ensures OfGuard(o)
    {
      var c := ObjectsBelong([guard], o);
    }
  }

  lemma GuardOnTop(plain: seq<Chain>, guard: Chain)
    requires forall c :: c in plain ==> c.name != Guard
    requires guard.name == Guard
    ensures WithoutGuard(Listing(plain + [guard])) == Listing(plain)
    ensures SealedPart(Listing(plain + [guard])) == SealedPart(Listing(plain))
  {
    ChainObjectsAppend(plain, [guard]);
    RuleObjectsAppend(plain, [guard]);
    PlainChains(plain);
    GuardAlone(guard);
    GuardPartsVanish(ChainObjects(plain), ChainObjects([guard]), AllRuleObjects(plain), AllRuleObjects([guard]));
  }

  lemma HeadSurvives(chains: seq<Chain>, body: seq<Object>)
    ensures var head := [Table] + [SealChain([Table] + Listing(chains))];
            WithoutGuard(head + body) == head + WithoutGuard(body)
  {
    var head := [Table] + [SealChain([Table] + Listing(chains))];
    assert NoneOfGuard(head);
    GuardFiltered(head);
    WithoutGuardAppend(head, body);
  }

  lemma GuardComesOff(plain: seq<Chain>, guard: Chain)
    requires forall c :: c in plain ==> c.name != Guard
    requires guard.name == Guard
    ensures WithoutGuard(SealedListing(plain + [guard])) == SealedListing(plain)
  {
    GuardOnTop(plain, guard);
    SplitAppend([Table], Listing(plain + [guard]));
    SplitAppend([Table], Listing(plain));
    assert SealChain([Table] + Listing(plain + [guard])) == SealChain([Table] + Listing(plain));
    HeadSurvives(plain + [guard], Listing(plain + [guard]));
  }

  function PlainPart(active: Option<KernelPlan>, pending: Option<KernelPlan>): seq<Chain> {
    MarkerChains(active, pending) + (match active case None => [] case Some(p) => PolicyChains(p))
  }

  /** The names only the guard and the seal may have. */
  predicate Special(name: ChainName) {
    name == Guard || name.Seal?
  }

  /** The names of a plan's own chains. */
  predicate PolicyName(name: ChainName) {
    name.Restore? || name.Select? || name.Output? || name.Prerouting? || name.EgressGuard? || name.SourceNat?
  }

  lemma FamilyNames(chains: seq<Chain>, lanes: seq<LanePlan>, f: Family)
    requires HasFamily(chains, lanes, f)
    ensures forall c :: c in chains ==> PolicyName(c.name)
  {
    forall c | c in chains
      ensures PolicyName(c.name)
    {
      var i :| 0 <= i < |chains| && chains[i] == c;
      if i > 0 {
        assert chains[i - 1 + 1].name == Select(f, lanes[i - 1].mark);
      }
    }
  }

  lemma AssembledNames(v4: seq<Chain>, v6: seq<Chain>, output: Chain, hooks: seq<Chain>, lanes: seq<LanePlan>)
    requires HasFamily(v4, lanes, V4) && HasFamily(v6, lanes, V6)
    requires output.name == Output && |hooks| == 3
    requires hooks[0].name == Prerouting && hooks[1].name == EgressGuard && hooks[2].name == SourceNat
    ensures forall c :: c in v4 + v6 + [output] + hooks ==> PolicyName(c.name)
  {
    FamilyNames(v4, lanes, V4);
    FamilyNames(v6, lanes, V6);
    assert hooks == [hooks[0], hooks[1], hooks[2]];
  }

  lemma PolicyNames(plan: KernelPlan)
    ensures forall c :: c in PolicyChains(plan) ==> PolicyName(c.name)
  {
    FamilyChainsAt(plan, V4);
    FamilyChainsAt(plan, V6);
    AssembledNames(FamilyChains(plan, V4), FamilyChains(plan, V6), OutputChain(plan), HookChains(plan), plan.lanes);
  }

  lemma MarkerNames(active: Option<KernelPlan>, pending: Option<KernelPlan>)
    ensures forall c :: c in MarkerChains(active, pending) ==>
              c.base.None?
              && ((active.Some? && c.name == State(active.value)) || (pending.Some? && c.name == TransactionMarker(pending.value)))
  {
  }

  lemma PlainChainName(active: Option<KernelPlan>, pending: Option<KernelPlan>, c: Chain)
    requires c in PlainPart(active, pending)
    ensures !Special(c.name)
  {
    if c in MarkerChains(active, pending) {
      MarkerNames(active, pending);
    } else if active.Some? {
      InEither(MarkerChains(active, pending), PolicyChains(active.value), c);
      PolicyChainName(active.value, c);
    }
  }

  lemma PolicyChainName(plan: KernelPlan, c: Chain)
    requires c in PolicyChains(plan)
    ensures PolicyName(c.name)
  {
    PolicyNames(plan);
  }

  lemma InEither(a: seq<Chain>, b: seq<Chain>, c: Chain)
    requires c in a + b
    ensures c in a || c in b
  {
  }

  lemma PlainPartIsPlain(active: Option<KernelPlan>, pending: Option<KernelPlan>)
    ensures forall c :: c in PlainPart(active, pending) ==> !Special(c.name)
  {
    forall c | c in PlainPart(active, pending)
      ensures !Special(c.name)
    {
      PlainChainName(active, pending, c);
    }
  }

  lemma RenderIsSealedListing(active: Option<KernelPlan>, pending: Option<KernelPlan>, guard: bool)
    ensures Render(active, pending, guard) == SealedListing(PlainPart(active, pending) + GuardChains(active, pending, guard))
  {
  }

  /** Taking the guard off a rendered document gives exactly the document rendered without it. */
  lemma RemovingTheGuardIsRenderingWithoutIt(active: Option<KernelPlan>, pending: Option<KernelPlan>)
    ensures WithoutGuard(Render(active, pending, true)) == Render(active, pending, false)
  {
    var plain := PlainPart(active, pending);
    PlainPartIsPlain(active, pending);
    RenderIsSealedListing(active, pending, true);
    RenderIsSealedListing(active, pending, false);
    assert plain + [] == plain;
    GuardComesOff(plain, GuardChain(GuardNetworks(active, pending)));
  }

  // Phases.

  lemma {:induction false} ListedChain(chains: seq<Chain>, c: Chain)
    requires c in chains
    ensures ChainObject(c.name, c.base) in ChainObjects(chains)
  {
    var n := |chains| - 1;
    if c in chains[..n] {
      ListedChain(chains[..n], c);
    } else {
      assert c == chains[n];
    }
  }

  predicate NamesChain(objects: seq<Object>, name: ChainName) {
    exists o :: o in objects && o.ChainObject? && o.name == name
  }

  ghost predicate HasChain(chains: seq<Chain>, name: ChainName) {
    exists c :: c in chains && c.name == name
  }

  lemma ListedNames(chains: seq<Chain>, name: ChainName)
    requires !name.Seal?
    ensures NamesChain(SealedListing(chains), name) <==> HasChain(chains, name)
  {
    if NamesChain(SealedListing(chains), name) {
      var o :| o in SealedListing(chains) && o.ChainObject? && o.name == name;
      var c := ObjectsBelong(chains, o);
    }
    if HasChain(chains, name) {
      var c :| c in chains && c.name == name;
      ListedChain(chains, c);
    }
  }

  lemma NamesOfParts(a: seq<Chain>, b: seq<Chain>, c: seq<Chain>, name: ChainName)
    ensures HasChain(a + b + c, name) <==> HasChain(a, name) || HasChain(b, name) || HasChain(c, name)
  {
    forall x | x in a || x in b || x in c ensures x in a + b + c {
    }
  }

  lemma PolicyHas(active: Option<KernelPlan>, name: ChainName)
    requires !PolicyName(name)
    ensures !HasChain(match active case None => [] case Some(p) => PolicyChains(p), name)
  {
    if active.Some? {
      PolicyNames(active.value);
    }
  }

  lemma MarkersHave(active: Option<KernelPlan>, pending: Option<KernelPlan>, plan: KernelPlan)
    ensures HasChain(MarkerChains(active, pending), State(plan)) <==> active == Some(plan)
    ensures HasChain(MarkerChains(active, pending), TransactionMarker(plan)) <==> pending == Some(plan)
    ensures !HasChain(MarkerChains(active, pending), Guard)
  {
    MarkerNames(active, pending);
    if active.Some? {
      assert Chain(State(active.value), None, []) in MarkerChains(active, pending);
    }
    if pending.Some? {
      assert Chain(TransactionMarker(pending.value), None, []) in MarkerChains(active, pending);
    }
  }

  lemma GuardsHave(active: Option<KernelPlan>, pending: Option<KernelPlan>, guard: bool, name: ChainName)
    ensures HasChain(GuardChains(active, pending, guard), name) <==> guard && name == Guard
  {
    if guard {
      var c := GuardChain(GuardNetworks(active, pending));
      assert c in GuardChains(active, pending, guard);
    }
  }

  lemma RenderedNames(active: Option<KernelPlan>, pending: Option<KernelPlan>, guard: bool, name: ChainName)
    requires !name.Seal? && !PolicyName(name)
    ensures NamesChain(Render(active, pending, guard), name) <==>
            HasChain(MarkerChains(active, pending), name) || (guard && name == Guard)
  {
    var policy := match active case None => [] case Some(p) => PolicyChains(p);
    RenderIsSealedListing(active, pending, guard);
    ListedNames(PlainPart(active, pending) + GuardChains(active, pending, guard), name);
    NamesOfParts(MarkerChains(active, pending), policy, GuardChains(active, pending, guard), name);
    PolicyHas(active, name);
    GuardsHave(active, pending, guard, name);
  }

  /** The three things a phase is made of can be read off the listing. */
  lemma ListingShowsThePhase(active: Option<KernelPlan>, pending: Option<KernelPlan>, guard: bool, plan: KernelPlan)
    ensures NamesChain(Render(active, pending, guard), State(plan)) <==> active == Some(plan)
    ensures NamesChain(Render(active, pending, guard), TransactionMarker(plan)) <==> pending == Some(plan)
    ensures NamesChain(Render(active, pending, guard), Guard) <==> guard
  {
    MarkersHave(active, pending, plan);
    MarkerShows(active, pending, guard, State(plan));
    MarkerShows(active, pending, guard, TransactionMarker(plan));
    RenderedNames(active, pending, guard, Guard);
  }

  lemma MarkerShows(active: Option<KernelPlan>, pending: Option<KernelPlan>, guard: bool, name: ChainName)
    requires name.State? || name.TransactionMarker?
    ensures NamesChain(Render(active, pending, guard), name) <==> HasChain(MarkerChains(active, pending), name)
  {
    RenderedNames(active, pending, guard, name);
  }

  /** No two phases render the same document, so the fingerprint of a document stands for its phase. */
  lemma PhasesRenderApart(
    active: Option<KernelPlan>, pending: Option<KernelPlan>, guard: bool,
    active': Option<KernelPlan>, pending': Option<KernelPlan>, guard': bool)
    requires Render(active, pending, guard) == Render(active', pending', guard')
    ensures active == active' && pending == pending' && guard == guard'
  {
    forall plan ensures (active == Some(plan) <==> active' == Some(plan)) && (pending == Some(plan) <==> pending' == Some(plan)) {
      ShownAlike(active, pending, guard, active', pending', guard', plan);
    }
    SameOption(active, active');
    SameOption(pending, pending');
    var plan: KernelPlan :| true;
    ShownAlike(active, pending, guard, active', pending', guard', plan);
  }

  lemma ShownAlike(
    active: Option<KernelPlan>, pending: Option<KernelPlan>, guard: bool,
    active': Option<KernelPlan>, pending': Option<KernelPlan>, guard': bool, plan: KernelPlan)
    requires Render(active, pending, guard) == Render(active', pending', guard')
    ensures (active == Some(plan) <==> active' == Some(plan)) && (pending == Some(plan) <==> pending' == Some(plan))
    ensures guard == guard'
  {
    ListingShowsThePhase(active, pending, guard, plan);
    ListingShowsThePhase(active', pending', guard', plan);
  }

  lemma SameOption(a: Option<KernelPlan>, b: Option<KernelPlan>)
    requires forall plan :: a == Some(plan) <==> b == Some(plan)
    ensures a == b
  {
    if a.Some? {
      assert a == Some(a.value);
    }
    if b.Some? {
      assert b == Some(b.value);
    }
  }

  // The seal.

  function SealsOf(objects: seq<Object>): seq<seq<Object>> {
    if objects == [] then
      []
    else
      (if objects[0].ChainObject? && objects[0].name.Seal? then [objects[0].name.payload] else []) + SealsOf(objects[1..])
  }

  predicate HasValidSeal(objects: seq<Object>) {
    SealsOf(objects) == [ChainsFirst(SealedPart(objects))]
  }

  lemma {:induction false} SealsAppend(a: seq<Object>, b: seq<Object>)
    ensures SealsOf(a + b) == SealsOf(a) + SealsOf(b)
  {
    if a == [] {
      Nothing(b);
      Nothing(SealsOf(b));
    } else {
      TailOfAppend(a, b);
      SealsAppend(a[1..], b);
      Regroup(if a[0].ChainObject? && a[0].name.Seal? then [a[0].name.payload] else [], SealsOf(a[1..]), SealsOf(b));
    }
  }

  lemma {:induction false} NoSeals(objects: seq<Object>)
    requires forall o :: o in objects && o.ChainObject? ==> !o.name.Seal?
    ensures SealsOf(objects) == []
  {
    if objects != [] {
      NoSeals(objects[1..]);
    }
  }

  lemma SealedHead(seal: Object, body: seq<Object>)
    requires seal.ChainObject? && seal.name.Seal?
    ensures SealedPart([Table] + [seal] + body) == SealedPart([Table] + body)
    ensures SealsOf([Table] + [seal] + body) == [seal.name.payload] + SealsOf(body)
  {
    SealedPartAppend([Table] + [seal], body);
    SealedPartAppend([Table], body);
    SealsAppend([Table] + [seal], body);
    HeadAlone(seal);
  }

  lemma HeadAlone(seal: Object)
    requires seal.ChainObject? && seal.name.Seal?
    ensures SealedPart([Table] + [seal]) == SealedPart([Table]) == [Table]
    ensures SealsOf([Table] + [seal]) == [seal.name.payload]
  {
    SealedPartAppend([Table], [seal]);
    SealsAppend([Table], [seal]);
    assert [seal][1..] == [] && [Table][1..] == [];
    assert SealedPart([seal]) == [] && SealsOf([Table]) == [];
  }

  lemma NoSealChains(chains: seq<Chain>)
    requires forall c :: c in chains ==> !c.name.Seal?
    ensures SealsOf(Listing(chains)) == []
  {
    forall o | o in Listing(chains) && o.ChainObject?
      ensures !o.name.Seal?
    {
      var c := ObjectsBelong(chains, o);
    }
    NoSeals(Listing(chains));
  }

  lemma ListingsAreSealed(chains: seq<Chain>)
    requires forall c :: c in chains ==> !c.name.Seal?
    ensures HasValidSeal(SealedListing(chains))
  {
    var body := Listing(chains);
    var seal := SealChain([Table] + body);
    SealedHead(seal, body);
    NoSealChains(chains);
  }

  lemma NoChainIsASeal(active: Option<KernelPlan>, pending: Option<KernelPlan>, guard: bool)
    ensures forall c :: c in PlainPart(active, pending) + GuardChains(active, pending, guard) ==> !c.name.Seal?
  {
    PlainPartIsPlain(active, pending);
  }

  /** Every rendered document carries a valid seal, and keeps it when the guard comes off. */
  lemma RenderedSealIsValid(active: Option<KernelPlan>, pending: Option<KernelPlan>, guard: bool)
    ensures HasValidSeal(Render(active, pending, guard))
    ensures HasValidSeal(WithoutGuard(Render(active, pending, true)))
  {
    RenderIsSealedListing(active, pending, guard);
    NoChainIsASeal(active, pending, guard);
    ListingsAreSealed(PlainPart(active, pending) + GuardChains(active, pending, guard));
    RemovingTheGuardIsRenderingWithoutIt(active, pending);
    RenderIsSealedListing(active, pending, false);
    NoChainIsASeal(active, pending, false);
    ListingsAreSealed(PlainPart(active, pending) + GuardChains(active, pending, false));
  }

  lemma ChainsFirstSealed(objects: seq<Object>, name: ChainName)
    requires name != Guard
    ensures RulesOf(ChainsFirst(SealedPart(objects)), name) == RulesOf(objects, name)
  {
    ChainsFirstKeepsRuleOrder(SealedPart(objects), name);
    SealedKeepsRules(objects, name);
  }

  lemma {:induction false} SealedKeepsRules(objects: seq<Object>, name: ChainName)
    requires name != Guard
    ensures RulesOf(SealedPart(objects), name) == RulesOf(objects, name)
  {
    if objects != [] {
      SealedKeepsRules(objects[1..], name);
      if Sealed(objects[0]) {
        assert SealedPart(objects)[0] == objects[0] && SealedPart(objects)[1..] == SealedPart(objects[1..]);
      } else {
        assert SealedPart(objects) == SealedPart(objects[1..]);
      }
    }
  }

  lemma SameSealSameRules(a: seq<Object>, b: seq<Object>, name: ChainName)
    requires HasValidSeal(a) && HasValidSeal(b) && SealsOf(a) == SealsOf(b) && name != Guard
    ensures RulesOf(a, name) == RulesOf(b, name)
  {
    assert SealsOf(a)[0] == SealsOf(b)[0];
    ChainsFirstSealed(a, name);
    ChainsFirstSealed(b, name);
  }

  /** A listing in any order that validly carries the seal of a phase enforces that phase's output policy. */
  lemma SealProvesThePolicy(objects: seq<Object>, plan: KernelPlan, pending: Option<KernelPlan>, guard: bool, p: Packet)
    requires DistinctMarks(plan.lanes) && HasValidSeal(objects)
    requires SealsOf(objects) == SealsOf(Render(Some(plan), pending, guard))
    ensures Walk(objects, Output, p, 2) == Some(Decide(plan, p))
  {
    var rendered := Render(Some(plan), pending, guard);
    RenderedSealIsValid(Some(plan), pending, guard);
    RenderImplements(plan, pending, guard);
    forall name: ChainName | name != Guard
      ensures RulesOf(objects, name) == RulesOf(rendered, name)
    {
      SameSealSameRules(objects, rendered, name);
    }
    SameRulesImplement(objects, rendered, plan);
    DecideResolves(plan, p);
    assert RulesOf(objects, Output) == RulesOf(rendered, Output);
    OutputRendered(plan, pending, guard, p);
    WalkResolves(objects, plan, OutputFlow(plan, p), p, 2);
  }

  lemma SameRulesImplement(a: seq<Object>, b: seq<Object>, plan: KernelPlan)
    requires forall name: ChainName :: name != Guard ==> RulesOf(a, name) == RulesOf(b, name)
    requires Implements(b, plan)
    ensures Implements(a, plan)
  {
    assert RulesOf(a, Output) == RulesOf(b, Output);
    forall f: Family ensures RulesOf(a, Restore(f)) == RulesOf(b, Restore(f)) {
    }
    forall f: Family, m: nat ensures RulesOf(a, Select(f, m)) == RulesOf(b, Select(f, m)) {
    }
  }

  // Every hook.

  lemma {:induction false} SplitKeepsHooks(objects: seq<Object>, hook: Hook)
    ensures ListedAt(WithoutRules(objects), hook) == ListedAt(objects, hook)
    ensures ListedAt(OnlyRules(objects), hook) == []
  {
    if objects != [] {
      SplitKeepsHooks(objects[1..], hook);
      if objects[0].RuleObject? {
        assert WithoutRules(objects) == WithoutRules(objects[1..]);
        assert OnlyRules(objects)[0] == objects[0] && OnlyRules(objects)[1..] == OnlyRules(objects[1..]);
      } else {
        assert OnlyRules(objects) == OnlyRules(objects[1..]);
        assert WithoutRules(objects)[0] == objects[0] && WithoutRules(objects)[1..] == WithoutRules(objects[1..]);
      }
    }
  }

  /** No guard, and a seal that is no base chain. */
  ghost predicate Plain(objects: seq<Object>) {
    forall o :: o in objects ==> !OfGuard(o) && (o.ChainObject? && o.name.Seal? ==> o.base.None?)
  }

  lemma {:induction false} SealedKeepsHooks(objects: seq<Object>, hook: Hook)
    requires Plain(objects)
    ensures ListedAt(SealedPart(objects), hook) == ListedAt(objects, hook)
    ensures RulesOf(objects, Guard) == []
  {
    if objects != [] {
      SealedKeepsHooks(objects[1..], hook);
      assert !OfGuard(objects[0]);
      if Sealed(objects[0]) {
        assert SealedPart(objects)[0] == objects[0] && SealedPart(objects)[1..] == SealedPart(objects[1..]);
      } else {
        assert SealedPart(objects) == SealedPart(objects[1..]);
      }
    }
  }

  lemma SealKeepsHooks(objects: seq<Object>, hook: Hook)
    requires Plain(objects)
    ensures ListedAt(ChainsFirst(SealedPart(objects)), hook) == ListedAt(objects, hook)
  {
    SealedKeepsHooks(objects, hook);
    SplitKeepsHooks(SealedPart(objects), hook);
    ListedAppend(WithoutRules(SealedPart(objects)), OnlyRules(SealedPart(objects)), hook);
    Nothing(ListedAt(objects, hook));
  }

  lemma {:induction false} SameRulesSameWalk(a: seq<Object>, b: seq<Object>, name: ChainName, p: Packet, gotos: nat)
    requires forall n: ChainName :: RulesOf(a, n) == RulesOf(b, n)
    ensures Walk(a, name, p, gotos) == Walk(b, name, p, gotos)
    decreases gotos
  {
    assert RulesOf(a, name) == RulesOf(b, name);
    match EvalRules(RulesOf(a, name), p)
    case Tail(target, q) =>
      if gotos > 0 {
        SameRulesSameWalk(a, b, target, q, gotos - 1);
      }
    case _ =>
  }

  lemma {:induction false} SameRulesSamePass(a: seq<Object>, b: seq<Object>, hooked: seq<Hooked>, p: Packet)
    requires forall n: ChainName :: RulesOf(a, n) == RulesOf(b, n)
    ensures Pass(a, hooked, p) == Pass(b, hooked, p)
    decreases |hooked|
  {
    if hooked != [] {
      var h := hooked[0];
      SameRulesSameWalk(a, b, h.name, if SeesConnections(h.base) then p else p.(ct := None), GOTOS);
      SameRulesSamePass(a, b, hooked[1..], RunChain(a, h, p).packet);
    }
  }

  lemma ListingIsPlain(chains: seq<Chain>)
    requires forall c :: c in chains ==> !Special(c.name)
    ensures Plain(SealedListing(chains))
  {
    forall o | o in SealedListing(chains) ensures !OfGuard(o) && (o.ChainObject? && o.name.Seal? ==> o.base.None?) {
      if o in Listing(chains) {
        var c := ObjectsBelong(chains, o);
      }
    }
  }

  lemma RenderedIsPlain(active: Option<KernelPlan>, pending: Option<KernelPlan>)
    ensures Plain(Render(active, pending, false))
  {
    RenderIsSealedListing(active, pending, false);
    Nothing(PlainPart(active, pending));
    PlainPartIsPlain(active, pending);
    ListingIsPlain(PlainPart(active, pending));
  }

  /** An unguarded listing in any order that validly carries the seal of a phase does at every hook what the rendered document does. */
  lemma SealProvesEveryHook(objects: seq<Object>, active: Option<KernelPlan>, pending: Option<KernelPlan>, hook: Hook, p: Packet)
    requires HasValidSeal(objects) && Plain(objects)
    requires SealsOf(objects) == SealsOf(Render(active, pending, false))
    ensures AtHook(objects, hook, p) == AtHook(Render(active, pending, false), hook, p)
  {
    var rendered := Render(active, pending, false);
    RenderedSealIsValid(active, pending, false);
    RenderedIsPlain(active, pending);
    assert SealsOf(objects)[0] == SealsOf(rendered)[0];
    SealKeepsHooks(objects, hook);
    SealKeepsHooks(rendered, hook);
    SealedKeepsHooks(objects, hook);
    SealedKeepsHooks(rendered, hook);
    forall n: ChainName ensures RulesOf(objects, n) == RulesOf(rendered, n) {
      if n != Guard {
        SameSealSameRules(objects, rendered, n);
      }
    }
    SameRulesSamePass(objects, rendered, HookedAt(objects, hook), p);
  }
}
