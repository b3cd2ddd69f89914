/** The nftables language RouteLane's policy is written in, and what a chain does to a packet. */
module NftChains {
  import opened Wrappers
  import opened Plan
  import opened Sequences

  datatype Direction = Original | Reply

  datatype CtState = New | Established | Related | Invalid

  /** The conntrack entry of a packet; source is the sender of the connection's first packet. */
  datatype Conntrack = Conntrack(mark: nat, state: CtState, direction: Direction, source: IpAddr)

  datatype Transport = Udp(sport: nat, dport: nat) | NeighborDiscovery | OtherTransport

  /** What the chains can see. Untracked packets have no conntrack entry. */
  datatype Packet = Packet(
    destination: IpAddr,
    transport: Transport,
    hopLimit: nat,
    toLocalHost: bool,
    cgroup: Option<string>,
    iif: nat,
    iifname: string,
    oif: nat,
    oifname: string,
    mark: nat,
    ct: Option<Conntrack>)
  {
    function Family(): Family {
      destination.family
    }
  }

  /** Names are injective encodings of their arguments; policy hashes are the policies themselves. */
  datatype ChainName =
    | State(plan: KernelPlan)
    | TransactionMarker(plan: KernelPlan)
    | Restore(family: Family)
    | Select(family: Family, mark: nat)
    | Output
    | Prerouting
    | EgressGuard
    | SourceNat
    | Guard
    | Seal(payload: seq<Object>)

  datatype NumericKey = MetaMark | CtMark | InputIndex | OutputIndex

  datatype Comparison = Eq | Ne | Lt | Gt

  datatype Condition =
    | Compare(key: NumericKey, op: Comparison, value: nat)
    | InRange(key: NumericKey, low: nat, high: nat)
    | Protocol(family: Family)
    | InputName(name: string)
    | OutputName(name: string)
    | DestinationIsLocalHost
    | DestinationIs(address: IpAddr)
    | DestinationIn(net: IpNet)
    | SourcePort(port: nat)
    | DestinationPort(port: nat)
    | HopLimitIs(limit: nat)
    | IsNeighborDiscovery
    | SocketCgroup(path: string)
    | CtStateIn(states: set<CtState>)
    | CtDirection(direction: Direction)
    | CtSourceIn(family: Family, addresses: set<IpAddr>)

  datatype Statement =
    | SetMark(value: nat)
    | MarkFromCt
    | CtFromMark
    | Counter
    | Return
    | Goto(target: ChainName)
    | RejectWith
    | Drop
    | Masquerade

  /** Every rule tests first and acts second. */
  datatype Rule = Rule(conditions: seq<Condition>, statements: seq<Statement>)

  datatype Hook = OutputHook | PreroutingHook | PostroutingHook

  datatype Kind = RouteKind | FilterKind | NatKind

  datatype Base = Base(kind: Kind, hook: Hook, priority: int)

  datatype Object =
    | Table
    | ChainObject(name: ChainName, base: Option<Base>)
    | RuleObject(chain: ChainName, rule: Rule)

  datatype Verdict = Accepted | Rejected | Dropped | Masqueraded

  datatype Outcome = Outcome(verdict: Verdict, packet: Packet)

  /** A rule falls through, ends the walk or tail-calls a chain. */
  datatype Flow = Next(packet: Packet) | Done(outcome: Outcome) | Tail(target: ChainName, packet: Packet)

  function Load(key: NumericKey, p: Packet): Option<nat> {
    match key
    case MetaMark => Some(p.mark)
    case CtMark => if p.ct.Some? then Some(p.ct.value.mark) else None
    case InputIndex => Some(p.iif)
    case OutputIndex => Some(p.oif)
  }

  predicate Compares(x: nat, op: Comparison, y: nat) {
    match op
    case Eq => x == y
    case Ne => x != y
    case Lt => x < y
    case Gt => x > y
  }

  /** A condition on a conntrack entry fails for an untracked packet. */
  predicate Holds(c: Condition, p: Packet) {
    match c
    case Compare(key, op, value) => Load(key, p).Some? && Compares(Load(key, p).value, op, value)
    case InRange(key, low, high) => Load(key, p).Some? && low <= Load(key, p).value <= high
    case Protocol(f) => p.Family() == f
    case InputName(name) => p.iifname == name
    case OutputName(name) => p.oifname == name
    case DestinationIsLocalHost => p.toLocalHost
    case DestinationIs(a) => p.destination == a
    case DestinationIn(n) => Contains(n, p.destination)
    case SourcePort(port) => p.transport.Udp? && p.transport.sport == port
    case DestinationPort(port) => p.transport.Udp? && p.transport.dport == port
    case HopLimitIs(limit) => p.Family() == V6 && p.hopLimit == limit
    case IsNeighborDiscovery => p.Family() == V6 && p.transport.NeighborDiscovery?
    case SocketCgroup(path) => p.cgroup == Some(path)
    case CtStateIn(states) => p.ct.Some? && p.ct.value.state in states
    case CtDirection(d) => p.ct.Some? && p.ct.value.direction == d
    case CtSourceIn(f, addresses) => p.ct.Some? && p.ct.value.source.family == f && p.ct.value.source in addresses
  }

  predicate AllHold(conditions: seq<Condition>, p: Packet) {
    forall c :: c in conditions ==> Holds(c, p)
  }

  function Execute(statements: seq<Statement>, p: Packet): Flow {
    if statements == [] then
      Next(p)
    else
      match statements[0]
      case SetMark(m) => Execute(statements[1..], p.(mark := m))
      case MarkFromCt =>
        if p.ct.Some? then Execute(statements[1..], p.(mark := p.ct.value.mark)) else Next(p)
      case CtFromMark =>
        if p.ct.Some? then Execute(statements[1..], p.(ct := Some(p.ct.value.(mark := p.mark)))) else Next(p)
      case Counter => Execute(statements[1..], p)
      case Return => Done(Outcome(Accepted, p))
      case Goto(target) => Tail(target, p)
      case RejectWith => Done(Outcome(Rejected, p))
      case Drop => Done(Outcome(Dropped, p))
      case Masquerade => Done(Outcome(Masqueraded, p))
  }

  function EvalRule(r: Rule, p: Packet): Flow {
    if AllHold(r.conditions, p) then Execute(r.statements, p) else Next(p)
  }

  function EvalRules(rules: seq<Rule>, p: Packet): Flow {
    if rules == [] then
      Next(p)
    else
      match EvalRule(rules[0], p)
      case Next(q) => EvalRules(rules[1..], q)
      case flow => flow
  }

  /** The rules of one chain, in the order the listing gives them. */
  function RulesOf(objects: seq<Object>, name: ChainName): seq<Rule> {
    if objects == [] then
      []
    else
      (match objects[0]
       case RuleObject(chain, rule) => if chain == name then [rule] else []
       case _ => []) + RulesOf(objects[1..], name)
  }

  /** The end of a chain entered by goto is the end of the walk, under the base chain's accept policy. */
  function Walk(objects: seq<Object>, name: ChainName, p: Packet, gotos: nat): Option<Outcome>
    decreases gotos
  {
    match EvalRules(RulesOf(objects, name), p)
    case Next(q) => Some(Outcome(Accepted, q))
    case Done(outcome) => Some(outcome)
    case Tail(target, q) => if gotos == 0 then None else Walk(objects, target, q, gotos - 1)
  }

  lemma {:induction false} EvalAppend(a: seq<Rule>, b: seq<Rule>, p: Packet)
    ensures EvalRules(a + b, p) ==
            match EvalRules(a, p)
            case Next(q) => EvalRules(b, q)
            case flow => flow
  {
    if a == [] {
      assert a + b == b;
    } else {
      assert (a + b)[0] == a[0] && (a + b)[1..] == a[1..] + b;
      match EvalRule(a[0], p)
      case Next(q) => EvalAppend(a[1..], b, q);
      case _ =>
    }
  }

  lemma {:induction false} RulesOfAppend(a: seq<Object>, b: seq<Object>, name: ChainName)
    ensures RulesOf(a + b, name) == RulesOf(a, name) + RulesOf(b, name)
  {
    if a == [] {
      Nothing(b);
      Nothing(RulesOf(b, name));
    } else {
      TailOfAppend(a, b);
      RulesOfAppend(a[1..], b, name);
      var head := match a[0]
        case RuleObject(chain, rule) => if chain == name then [rule] else []
        case _ => [];
      Regroup(head, RulesOf(a[1..], name), RulesOf(b, name));
    }
  }

  /** A rule of this shape either ends the walk at this packet or leaves it alone. */
  predicate Exempts(r: Rule) {
    r.statements == [Return]
  }

  predicate AnyHolds(rules: seq<Rule>, p: Packet) {
    exists r :: r in rules && AllHold(r.conditions, p)
  }

  lemma {:induction false} ExemptionsEval(rules: seq<Rule>, p: Packet)
    requires forall r :: r in rules ==> Exempts(r)
    ensures EvalRules(rules, p) == if AnyHolds(rules, p) then Done(Outcome(Accepted, p)) else Next(p)
  {
    if rules != [] {
      assert Exempts(rules[0]);
      ExemptionsEval(rules[1..], p);
      if AnyHolds(rules, p) && !AllHold(rules[0].conditions, p) {
        var r :| r in rules && AllHold(r.conditions, p);
        assert r in rules[1..];
      }
      if AnyHolds(rules[1..], p) {
        var r :| r in rules[1..] && AllHold(r.conditions, p);
        assert r in rules;
      }
    }
  }

  lemma AnyHoldsAppend(a: seq<Rule>, b: seq<Rule>, p: Packet)
    ensures AnyHolds(a + b, p) <==> AnyHolds(a, p) || AnyHolds(b, p)
  {
    if AnyHolds(a, p) {
      var r :| r in a && AllHold(r.conditions, p);
      assert r in a + b;
    }
    if AnyHolds(b, p) {
      var r :| r in b && AllHold(r.conditions, p);
      assert r in a + b;
    }
  }

  lemma EvalOne(r: Rule, p: Packet)
    ensures EvalRules([r], p) == EvalRule(r, p)
  {
    assert [r][1..] == [];
  }
}
