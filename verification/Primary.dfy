/** The primary exit selector: two independent per-family automata with a failback clock. */
module Primary {
  import opened Wrappers
  import opened Plan
  import opened Domain

  // Monotonic time in nanoseconds; the largest representable duration bounds sums.
  const FAILBACK_DELAY: nat := 5_000_000_000
  const DURATION_MAX: nat := 0xffff_ffff_ffff_ffff * 1_000_000_000 + 999_999_999

  datatype FamilyState = FamilyState(preferred: Option<LaneId>, effective: FamilyExit, readySince: Option<nat>)

  const INITIAL: FamilyState := FamilyState(None, Blocked, None)

  type Bindings = map<LaneId, InterfaceIdentity>

  /** A lane is usable while the interface it was bound to is present, unchanged and ready. */
  predicate LaneReady(bindings: Bindings, topology: Topology, f: Family, id: LaneId) {
    && topology.observed
    && id in bindings
    && var entry := topology.Interface(bindings[id].name);
       entry.Some? && entry.value.identity == Some(bindings[id]) && entry.value.Ready(f)
  }

  function LanesOn(bindings: Bindings, name: string): set<LaneId> {
    set id | id in bindings && bindings[id].name == name
  }

  lemma Singleton(s: set<LaneId>, x: LaneId, y: LaneId)
    requires |s| == 1 && x in s && y in s
    ensures x == y
  {
    assert |s - {x}| == 0;
    assert s - {x} == {};
    assert s == {x};
  }

  function TheOnly(s: set<LaneId>): (id: LaneId)
    requires |s| == 1
    ensures s == {id}
  {
    assert s != {};
    assert forall x, y :: x in s && y in s ==> x == y by {
      forall x, y | x in s && y in s ensures x == y { Singleton(s, x, y); }
    }
    var id :| id in s;
    id
  }

  /** The preferred lane, or that the system default does not determine one. */
  datatype Preference = Preferred(lane: Option<LaneId>) | Ambiguous

  function Prefer(bindings: Bindings, policy: RoutingPolicy, topology: Topology, f: Family): Preference {
    match policy.primary
    case PrimaryLane(id) => Preferred(Some(id))
    case FollowSystemDefault =>
      match topology.defaults.For(f)
      case NoDefault => Preferred(None)
      case AmbiguousDefault => Ambiguous
      case DefaultInterface(name) =>
        var lanes := LanesOn(bindings, name);
        if |lanes| > 1 then Ambiguous
        else if |lanes| == 1 then Preferred(Some(TheOnly(lanes)))
        else Preferred(None)
  }

  function PreferredLane(preference: Preference): Option<LaneId> {
    match preference case Preferred(lane) => lane case Ambiguous => None
  }

  /** The first backup that is ready and is not the preferred lane. */
  function FirstBackup(
    bindings: Bindings, topology: Topology, f: Family, backups: seq<LaneId>, preferred: Option<LaneId>): (r: Option<LaneId>)
    ensures r.Some? ==> r.value in backups && LaneReady(bindings, topology, f, r.value) && preferred != r
    ensures r.None? ==> forall id :: id in backups && LaneReady(bindings, topology, f, id) ==> preferred == Some(id)
    decreases |backups|
  {
    if backups == [] then
      None
    else if preferred != Some(backups[0]) && LaneReady(bindings, topology, f, backups[0]) then
      Some(backups[0])
    else
      FirstBackup(bindings, topology, f, backups[1..], preferred)
  }

  function Choose(bindings: Bindings, policy: RoutingPolicy, topology: Topology, f: Family, preferred: Option<LaneId>): FamilyExit {
    if preferred.Some? && LaneReady(bindings, topology, f, preferred.value) then
      LaneExit(preferred.value)
    else if policy.automaticFailover then
      match FirstBackup(bindings, topology, f, policy.backups, preferred)
      case Some(id) => LaneExit(id)
      case None => Blocked
    else
      Blocked
  }

  /** Whether the present exit may stay: ready, and either failover is on or it is the preferred lane. */
  predicate OldReady(
    bindings: Bindings, policy: RoutingPolicy, topology: Topology, f: Family, preferred: Option<LaneId>, exit: FamilyExit)
  {
    match exit
    case LaneExit(id) => LaneReady(bindings, topology, f, id) && (policy.automaticFailover || preferred == Some(id))
    case Blocked => false
  }

  /** One family's update. */
  function Step(
    bindings: Bindings, policy: RoutingPolicy, topology: Topology, f: Family, now: nat, s: FamilyState): FamilyState
  {
    var preference := Prefer(bindings, policy, topology, f);
    var preferred := PreferredLane(preference);
    var since := if s.preferred != preferred then None else s.readySince;
    if preference.Ambiguous? then
      FamilyState(preferred, Blocked, None)
    else if !OldReady(bindings, policy, topology, f, preferred, s.effective) then
      FamilyState(preferred, Choose(bindings, policy, topology, f, preferred), None)
    else if preferred.Some? && LaneReady(bindings, topology, f, preferred.value) && s.effective != LaneExit(preferred.value) then
      var started := if since.Some? then since.value else now;
      if now < started then
        FamilyState(preferred, s.effective, Some(now))
      else if now - started >= FAILBACK_DELAY then
        FamilyState(preferred, LaneExit(preferred.value), None)
      else
        FamilyState(preferred, s.effective, Some(started))
    else
      FamilyState(preferred, s.effective, None)
  }

  function Deadline(s: FamilyState): Option<nat> {
    if s.readySince.Some? && s.readySince.value + FAILBACK_DELAY <= DURATION_MAX then
      Some(s.readySince.value + FAILBACK_DELAY)
    else
      None
  }

  function Earlier(a: Option<nat>, b: Option<nat>): Option<nat> {
    if a.None? then b else if b.None? then a else if b.value < a.value then b else a
  }

  class PrimarySelector {
    const bindings: Bindings
    var states: FamilyPair<FamilyState>
    var policy: Option<RoutingPolicy>

    constructor (bindings: Bindings)
      ensures this.bindings == bindings && policy == None && states == FamilyPair(INITIAL, INITIAL)
    {
      this.bindings := bindings;
      states, policy := FamilyPair(INITIAL, INITIAL), None;
    }

    constructor Resume(bindings: Bindings, routing: RoutingPolicy, previous: PrimaryDecision)
      ensures this.bindings == bindings && policy == Some(routing)
      ensures states == FamilyPair(
        FamilyState(previous.preferred.v4, previous.effective.v4, None),
        FamilyState(previous.preferred.v6, previous.effective.v6, None))
    {
      this.bindings := bindings;
      policy := Some(routing);
      states := FamilyPair(
        FamilyState(previous.preferred.v4, previous.effective.v4, None),
        FamilyState(previous.preferred.v6, previous.effective.v6, None));
    }

    method Update(routing: RoutingPolicy, topology: Topology, now: nat) returns (decision: PrimaryDecision)
      modifies this
      ensures policy == Some(routing)
      ensures var before := if old(policy) == Some(routing) then old(states) else FamilyPair(INITIAL, INITIAL);
              forall f :: states.For(f) == Step(bindings, routing, topology, f, now, before.For(f))
      ensures forall f :: decision.preferred.For(f) == states.For(f).preferred && decision.effective.For(f) == states.For(f).effective
    {
      if policy != Some(routing) {
        states := FamilyPair(INITIAL, INITIAL);
        policy := Some(routing);
      }
      UpdateStates(routing, topology, now);
      decision := DecisionOf(states);
    }

    method UpdateStates(routing: RoutingPolicy, topology: Topology, now: nat)
      modifies this`states
      ensures forall f :: states.For(f) == Step(bindings, routing, topology, f, now, old(states).For(f))
    {
      for i := 0 to |FAMILIES|
        invariant states.v4 == if i > 0 then Step(bindings, routing, topology, V4, now, old(states).v4) else old(states).v4
        invariant states.v6 == if i > 1 then Step(bindings, routing, topology, V6, now, old(states).v6) else old(states).v6
      {
        var f := FAMILIES[i];
        var state := UpdateFamily(routing, topology, f, now, states.For(f));
        states := if f == V4 then states.(v4 := state) else states.(v6 := state);
      }
    }

    /** One turn of the update loop, field by field. */
    method UpdateFamily(routing: RoutingPolicy, topology: Topology, f: Family, now: nat, before: FamilyState)
      returns (state: FamilyState)
      ensures state == Step(bindings, routing, topology, f, now, before)
    {
      state := before;
      var preference := Prefer(bindings, routing, topology, f);
      var preferred := PreferredLane(preference);
      if state.preferred != preferred {
        state := state.(readySince := None);
      }
      state := state.(preferred := preferred);
      if preference.Ambiguous? {
        return state.(effective := Blocked, readySince := None);
      }
      if !OldReady(bindings, routing, topology, f, preferred, state.effective) {
        return state.(effective := Choose(bindings, routing, topology, f, preferred), readySince := None);
      }
      if preferred.Some? && LaneReady(bindings, topology, f, preferred.value)
         && state.effective != LaneExit(preferred.value)
      {
        if state.readySince.None? {
          state := state.(readySince := Some(now));
        }
        var started := state.readySince.value;
        if now >= started {
          if now - started >= FAILBACK_DELAY {
            state := state.(effective := LaneExit(preferred.value), readySince := None);
          }
        } else {
          state := state.(readySince := Some(now));
        }
      } else {
        state := state.(readySince := None);
      }
    }

    /** The next time at which an update may fail back. */
    function NextDeadline(): Option<nat>
      reads this
    {
      Earlier(Deadline(states.v4), Deadline(states.v6))
    }
  }

  function DecisionOf(states: FamilyPair<FamilyState>): PrimaryDecision {
    PrimaryDecision(
      FamilyPair(states.v4.preferred, states.v6.preferred),
      FamilyPair(states.v4.effective, states.v6.effective))
  }

  // Safety of one update, from any state.

  /** A lane the policy allows as an exit now: the preferred one, and with failover the backups and the present exit. */
  predicate Permitted(policy: RoutingPolicy, preferred: Option<LaneId>, exit: FamilyExit, id: LaneId) {
    || preferred == Some(id)
    || (policy.automaticFailover && (id in policy.backups || exit == LaneExit(id)))
  }

  /** The exit is a permitted ready lane with its bound identity, and blocked exactly when there is none. */
  lemma ExitIsReadyOrBlocked(
    bindings: Bindings, policy: RoutingPolicy, topology: Topology, f: Family, now: nat, s: FamilyState)
    ensures var preference := Prefer(bindings, policy, topology, f);
            var exit := Step(bindings, policy, topology, f, now, s).effective;
            && (exit.LaneExit? ==>
                  LaneReady(bindings, topology, f, exit.id)
                  && Permitted(policy, PreferredLane(preference), s.effective, exit.id))
            && (exit.Blocked? <==>
                  preference.Ambiguous?
                  || forall id :: Permitted(policy, PreferredLane(preference), s.effective, id) ==>
                                  !LaneReady(bindings, topology, f, id))
            && (!policy.automaticFailover && exit.LaneExit? ==> PreferredLane(preference) == Some(exit.id))
  {
    var preference := Prefer(bindings, policy, topology, f);
    var preferred := PreferredLane(preference);
    var exit := Step(bindings, policy, topology, f, now, s).effective;
    if exit.LaneExit? {
      assert Permitted(policy, preferred, s.effective, exit.id);
    }
    if preference.Preferred? && OldReady(bindings, policy, topology, f, preferred, s.effective) {
      assert Permitted(policy, preferred, s.effective, s.effective.id);
    }
  }

  // What the choice means, in terms of the policy, the bindings and the topology.

  /** The lane's interface is there as it was bound, up, and has a route and a source address for the family. */
  predicate Usable(bindings: Bindings, topology: Topology, f: Family, id: LaneId) {
    && topology.observed && id in bindings && bindings[id].name in topology.interfaces
    && var entry := topology.interfaces[bindings[id].name];
       && entry.identity == Some(bindings[id]) && entry.linkReady
       && (if f == V4 then entry.routeV4.Some? && entry.sourceV4 != [] else entry.routeV6.Some? && entry.sourceV6 != [])
  }

  lemma ReadyMeansUsable(bindings: Bindings, topology: Topology, f: Family, id: LaneId)
    ensures LaneReady(bindings, topology, f, id) <==> Usable(bindings, topology, f, id)
  {
  }

  predicate BoundTo(bindings: Bindings, id: LaneId, name: string) {
    id in bindings && bindings[id].name == name
  }

  /**
   * The preferred lane is the one the policy names; with the system default it is the only lane bound to the
   * family's default interface, and undetermined when that default is ambiguous or two lanes are bound to it.
   */
  lemma PreferenceMeans(bindings: Bindings, policy: RoutingPolicy, topology: Topology, f: Family)
    ensures var preference := Prefer(bindings, policy, topology, f);
            match policy.primary
            case PrimaryLane(id) => preference == Preferred(Some(id))
            case FollowSystemDefault =>
              match if f == V4 then topology.defaults.v4 else topology.defaults.v6
              case NoDefault => preference == Preferred(None)
              case AmbiguousDefault => preference == Ambiguous
              case DefaultInterface(name) =>
                && (preference == Ambiguous <==>
                      exists a, b :: a != b && BoundTo(bindings, a, name) && BoundTo(bindings, b, name))
                && (preference == Preferred(None) <==> forall id :: !BoundTo(bindings, id, name))
                && forall id :: preference == Preferred(Some(id)) <==>
                     BoundTo(bindings, id, name) && forall other :: BoundTo(bindings, other, name) ==> other == id
  {
    if policy.primary.FollowSystemDefault? && topology.defaults.For(f).DefaultInterface? {
      var name := topology.defaults.For(f).name;
      var lanes := LanesOn(bindings, name);
      forall id ensures id in lanes <==> BoundTo(bindings, id, name) {
      }
      CountMeans(lanes);
    }
  }

  lemma CountMeans(lanes: set<LaneId>)
    ensures |lanes| == 0 <==> forall id :: id !in lanes
    ensures |lanes| > 1 <==> exists a, b :: a != b && a in lanes && b in lanes
    ensures |lanes| == 1 <==> exists id :: lanes == {id}
  {
    if |lanes| == 1 {
      assert lanes == {TheOnly(lanes)};
    }
    if |lanes| > 1 {
      var a :| a in lanes;
      assert |lanes - {a}| > 0;
      var b :| b in lanes - {a};
    }
    if a, b :| a != b && a in lanes && b in lanes {
      assert lanes == {a, b} + (lanes - {a, b});
    }
  }

  /** The first of the backups that is usable and not the preferred lane. */
  predicate FirstUsable(
    bindings: Bindings, topology: Topology, f: Family, backups: seq<LaneId>, preferred: Option<LaneId>, k: nat)
  {
    && k < |backups| && Usable(bindings, topology, f, backups[k]) && preferred != Some(backups[k])
    && forall j :: 0 <= j < k ==> !Usable(bindings, topology, f, backups[j]) || preferred == Some(backups[j])
  }

  lemma {:induction false} FirstBackupIsFirst(
    bindings: Bindings, topology: Topology, f: Family, backups: seq<LaneId>, preferred: Option<LaneId>)
    ensures var r := FirstBackup(bindings, topology, f, backups, preferred);
            && (forall k: nat :: FirstUsable(bindings, topology, f, backups, preferred, k) ==> r == Some(backups[k]))
            && (r.None? ==> forall k :: 0 <= k < |backups| ==>
                              !Usable(bindings, topology, f, backups[k]) || preferred == Some(backups[k]))
    decreases |backups|
  {
    if backups != [] {
      ReadyMeansUsable(bindings, topology, f, backups[0]);
      FirstBackupIsFirst(bindings, topology, f, backups[1..], preferred);
      forall k: nat | k > 0 && FirstUsable(bindings, topology, f, backups, preferred, k)
        ensures FirstUsable(bindings, topology, f, backups[1..], preferred, k - 1)
      {
      }
    }
  }

  /** The present exit may stay: it is usable, and failover is on or it is the preferred lane. */
  predicate MayStay(
    bindings: Bindings, policy: RoutingPolicy, topology: Topology, f: Family, preferred: Option<LaneId>, exit: FamilyExit)
  {
    exit.LaneExit? && Usable(bindings, topology, f, exit.id) && (policy.automaticFailover || preferred == Some(exit.id))
  }

  /**
   * When the present exit may not stay, the preferred lane takes over at once; if it is not usable and failover is
   * on, the first usable backup does; and otherwise the family is blocked. No wait is left running.
   */
  lemma FailoverIsImmediateAndInOrder(
    bindings: Bindings, policy: RoutingPolicy, topology: Topology, f: Family, now: nat, s: FamilyState, preferred: Option<LaneId>)
    requires Prefer(bindings, policy, topology, f) == Preferred(preferred)
    requires !MayStay(bindings, policy, topology, f, preferred, s.effective)
    ensures var next := Step(bindings, policy, topology, f, now, s);
            && next.preferred == preferred && next.readySince == None
            && (if preferred.Some? && Usable(bindings, topology, f, preferred.value) then
                  next.effective == LaneExit(preferred.value)
                else if policy.automaticFailover then
                  && (forall k: nat :: FirstUsable(bindings, topology, f, policy.backups, preferred, k) ==>
                        next.effective == LaneExit(policy.backups[k]))
                  && ((forall k :: 0 <= k < |policy.backups| ==>
                         !Usable(bindings, topology, f, policy.backups[k]) || preferred == Some(policy.backups[k])) ==>
                        next.effective == Blocked)
                else
                  next.effective == Blocked)
  {
    if preferred.Some? {
      ReadyMeansUsable(bindings, topology, f, preferred.value);
    }
    if s.effective.LaneExit? {
      ReadyMeansUsable(bindings, topology, f, s.effective.id);
    }
    FirstBackupIsFirst(bindings, topology, f, policy.backups, preferred);
    var backup := FirstBackup(bindings, topology, f, policy.backups, preferred);
    if backup.Some? {
      ReadyMeansUsable(bindings, topology, f, backup.value);
      var k :| 0 <= k < |policy.backups| && policy.backups[k] == backup.value;
    }
  }

  /**
   * An exit that may stay does. While another lane is preferred and usable a clock runs, restarted when the
   * preference changes or time runs back, and after five seconds the preferred lane takes over.
   */
  lemma StayingIsTimed(
    bindings: Bindings, policy: RoutingPolicy, topology: Topology, f: Family, now: nat, s: FamilyState, preferred: Option<LaneId>)
    requires Prefer(bindings, policy, topology, f) == Preferred(preferred)
    requires MayStay(bindings, policy, topology, f, preferred, s.effective)
    ensures var running := s.preferred == preferred && s.readySince.Some? && s.readySince.value <= now;
            Step(bindings, policy, topology, f, now, s) ==
            if preferred.None? || !Usable(bindings, topology, f, preferred.value) || s.effective == LaneExit(preferred.value) then
              FamilyState(preferred, s.effective, None)
            else if running && now >= s.readySince.value + 5_000_000_000 then
              FamilyState(preferred, LaneExit(preferred.value), None)
            else
              FamilyState(preferred, s.effective, Some(if running then s.readySince.value else now))
  {
    if preferred.Some? {
      ReadyMeansUsable(bindings, topology, f, preferred.value);
    }
    ReadyMeansUsable(bindings, topology, f, s.effective.id);
  }

  /** An undetermined preference blocks the family. */
  lemma AmbiguityBlocks(bindings: Bindings, policy: RoutingPolicy, topology: Topology, f: Family, now: nat, s: FamilyState)
    requires Prefer(bindings, policy, topology, f) == Ambiguous
    ensures Step(bindings, policy, topology, f, now, s) == FamilyState(None, Blocked, None)
  {
  }

  /** The next deadline is five seconds after the earlier of the clocks that run, as far as time can be represented. */
  lemma NextDeadlineIsEarliest(states: FamilyPair<FamilyState>)
    ensures var d := Earlier(Deadline(states.v4), Deadline(states.v6));
            && (d.Some? ==> d.value <= DURATION_MAX
                            && exists f :: states.For(f).readySince.Some? && d.value == states.For(f).readySince.value + 5_000_000_000)
            && forall f :: states.For(f).readySince.Some? && states.For(f).readySince.value + 5_000_000_000 <= DURATION_MAX ==>
                             d.Some? && d.value <= states.For(f).readySince.value + 5_000_000_000
  {
    var v4, v6 := Deadline(states.v4), Deadline(states.v6);
    assert states.For(V4) == states.v4 && states.For(V6) == states.v6;
    assert v4.Some? ==> v4.value == states.For(V4).readySince.value + 5_000_000_000;
    assert v6.Some? ==> v6.value == states.For(V6).readySince.value + 5_000_000_000;
  }

  // Traces.

  datatype Input = Input(policy: RoutingPolicy, topology: Topology, now: nat)

  /** One family together with the policy its state belongs to. */
  datatype Automaton = Automaton(policy: Option<RoutingPolicy>, state: FamilyState)

  function StepOn(bindings: Bindings, f: Family, a: Automaton, x: Input): Automaton {
    var s := if a.policy == Some(x.policy) then a.state else INITIAL;
    Automaton(Some(x.policy), Step(bindings, x.policy, x.topology, f, x.now, s))
  }

  function After(bindings: Bindings, f: Family, start: Automaton, inputs: seq<Input>): Automaton
    decreases |inputs|
  {
    if inputs == [] then
      start
    else
      StepOn(bindings, f, After(bindings, f, start, inputs[..|inputs| - 1]), inputs[|inputs| - 1])
  }

  /** An update that saw this lane preferred and ready while another exit stayed in use. */
  predicate SawReturning(bindings: Bindings, f: Family, x: Input, preferred: LaneId, after: Automaton, exit: FamilyExit) {
    && Prefer(bindings, x.policy, x.topology, f) == Preferred(Some(preferred))
    && LaneReady(bindings, x.topology, f, preferred)
    && after.state.effective == exit
    && after.policy == Some(x.policy)
  }

  /** From input k on, every update saw the same preferred lane ready and kept the same other exit. */
  ghost predicate WaitingFrom(
    bindings: Bindings, f: Family, start: Automaton, inputs: seq<Input>, k: nat, preferred: LaneId, exit: FamilyExit)
  {
    && k < |inputs|
    && exit != LaneExit(preferred)
    && forall j :: k <= j < |inputs| ==> WaitsAt(bindings, f, start, inputs, k, j, preferred, exit)
  }

  ghost predicate WaitsAt(
    bindings: Bindings, f: Family, start: Automaton, inputs: seq<Input>, k: nat, j: nat, preferred: LaneId, exit: FamilyExit)
    requires k <= j < |inputs|
  {
    && inputs[j].policy == inputs[k].policy
    && inputs[j].now >= inputs[k].now
    && SawReturning(bindings, f, inputs[j], preferred, After(bindings, f, start, inputs[..j + 1]), exit)
  }

  lemma WaitedInPrefix(
    bindings: Bindings, f: Family, start: Automaton, inputs: seq<Input>, n: nat, k: nat, j: nat, preferred: LaneId, exit: FamilyExit)
    requires k <= j < n <= |inputs| && WaitsAt(bindings, f, start, inputs[..n], k, j, preferred, exit)
    ensures WaitsAt(bindings, f, start, inputs, k, j, preferred, exit)
  {
    assert inputs[..n][..j + 1] == inputs[..j + 1];
  }

  /** One update either starts the failback clock now or lets it run on unchanged. */
  lemma ClockStep(bindings: Bindings, f: Family, a: Automaton, x: Input)
    requires StepOn(bindings, f, a, x).state.readySince.Some?
    ensures var after := StepOn(bindings, f, a, x);
            && after.state.preferred.Some?
            && after.state.effective != LaneExit(after.state.preferred.value)
            && SawReturning(bindings, f, x, after.state.preferred.value, after, after.state.effective)
            && (after.state.readySince == Some(x.now)
                || (a == after && x.now >= after.state.readySince.value))
  {
  }

  lemma {:induction false} WaitExtends(
    bindings: Bindings, f: Family, start: Automaton, inputs: seq<Input>, k: nat, preferred: LaneId, exit: FamilyExit)
    requires |inputs| > 1
    requires WaitingFrom(bindings, f, start, inputs[..|inputs| - 1], k, preferred, exit)
    requires var x, after := inputs[|inputs| - 1], After(bindings, f, start, inputs);
             && x.now >= inputs[k].now && SawReturning(bindings, f, x, preferred, after, exit)
             && After(bindings, f, start, inputs[..|inputs| - 1]).policy == Some(x.policy)
    ensures WaitingFrom(bindings, f, start, inputs, k, preferred, exit)
  {
    var n := |inputs| - 1;
    assert inputs[..n + 1] == inputs;
    assert WaitsAt(bindings, f, start, inputs[..n], k, n - 1, preferred, exit);
    assert inputs[..n][..n - 1 + 1] == inputs[..n];
    forall j | k <= j < |inputs| ensures WaitsAt(bindings, f, start, inputs, k, j, preferred, exit) {
      if j < n {
        WaitedInPrefix(bindings, f, start, inputs, n, k, j, preferred, exit);
      }
    }
  }

  /** A running failback clock was started by an update from which the wait has been unbroken. */
  lemma {:induction false} ClockMeansWaiting(bindings: Bindings, f: Family, start: Automaton, inputs: seq<Input>)
    returns (k: nat)
    requires start.state.readySince == None
    requires After(bindings, f, start, inputs).state.readySince.Some?
    ensures var s := After(bindings, f, start, inputs).state;
            && s.preferred.Some?
            && WaitingFrom(bindings, f, start, inputs, k, s.preferred.value, s.effective)
            && inputs[k].now == s.readySince.value
    decreases |inputs|
  {
    var n := |inputs| - 1;
    var before, x := After(bindings, f, start, inputs[..n]), inputs[n];
    var s := After(bindings, f, start, inputs).state;
    ClockStep(bindings, f, before, x);
    if s.readySince == Some(x.now) {
      k := n;
      assert inputs[..n + 1] == inputs;
    } else {
      k := ClockMeansWaiting(bindings, f, start, inputs[..n]);
      WaitExtends(bindings, f, start, inputs, k, s.preferred.value, s.effective);
    }
  }

  /** An exit that is still ready is left only for the preferred lane, after an unbroken wait of five seconds. */
  lemma FailbackNeedsAnUnbrokenWait(bindings: Bindings, f: Family, start: Automaton, inputs: seq<Input>)
    returns (k: nat)
    requires start.state.readySince == None && |inputs| > 0
    requires var before := After(bindings, f, start, inputs[..|inputs| - 1]);
             var x := inputs[|inputs| - 1];
             && before.policy == Some(x.policy) && x.policy.automaticFailover
             && !Prefer(bindings, x.policy, x.topology, f).Ambiguous?
             && before.state.effective.LaneExit?
             && LaneReady(bindings, x.topology, f, before.state.effective.id)
             && After(bindings, f, start, inputs).state.effective != before.state.effective
    ensures var n := |inputs| - 1;
            var before := After(bindings, f, start, inputs[..n]);
            var after := After(bindings, f, start, inputs);
            && after.state.preferred.Some?
            && after.state.effective == LaneExit(after.state.preferred.value)
            && Prefer(bindings, inputs[n].policy, inputs[n].topology, f) == Preferred(after.state.preferred)
            && WaitingFrom(bindings, f, start, inputs[..n], k, after.state.preferred.value, before.state.effective)
            && inputs[n].now >= inputs[k].now + 5_000_000_000
  {
    k := ClockMeansWaiting(bindings, f, start, inputs[..|inputs| - 1]);
  }

  // Constant inputs.

  function RunTimes(
    bindings: Bindings, policy: RoutingPolicy, topology: Topology, f: Family, s: FamilyState, times: seq<nat>): FamilyState
    decreases |times|
  {
    if times == [] then
      s
    else
      RunTimes(bindings, policy, topology, f, Step(bindings, policy, topology, f, times[0], s), times[1..])
  }

  ghost predicate NondecreasingFrom(t: nat, times: seq<nat>) {
    && (forall i :: 0 <= i < |times| ==> t <= times[i])
    && forall i, j :: 0 <= i < j < |times| ==> times[i] <= times[j]
  }

  /** A state an update with these inputs leaves at a time. */
  ghost predicate Left(bindings: Bindings, policy: RoutingPolicy, topology: Topology, f: Family, t: nat, s: FamilyState) {
    exists before: FamilyState ::
      (before.readySince.Some? ==> before.readySince.value <= t) && Step(bindings, policy, topology, f, t, before) == s
  }

  lemma NextStep(
    bindings: Bindings, policy: RoutingPolicy, topology: Topology, f: Family, t: nat, s: FamilyState, now: nat)
    requires Left(bindings, policy, topology, f, t, s) && t <= now
    ensures s.readySince.Some? ==> s.readySince.value <= t && s.preferred.Some?
    ensures var next := Step(bindings, policy, topology, f, now, s);
            if s.readySince.None? || now < s.readySince.value + FAILBACK_DELAY then
              next == s
            else
              next == FamilyState(s.preferred, LaneExit(s.preferred.value), None)
    ensures Left(bindings, policy, topology, f, now, Step(bindings, policy, topology, f, now, s))
  {
    var before: FamilyState :| (before.readySince.Some? ==> before.readySince.value <= t)
                  && Step(bindings, policy, topology, f, t, before) == s;
  }

  /** With constant inputs and time not running back, nothing changes before the deadline, and a waiting family is on its preferred lane from the deadline on. */
  lemma {:induction false} DeadlineIsExact(
    bindings: Bindings, policy: RoutingPolicy, topology: Topology, f: Family, t: nat, s: FamilyState, times: seq<nat>)
    requires Left(bindings, policy, topology, f, t, s) && NondecreasingFrom(t, times)
    ensures var end := RunTimes(bindings, policy, topology, f, s, times);
            if times == [] || s.readySince.None? || times[|times| - 1] < s.readySince.value + 5_000_000_000 then
              end == s
            else
              s.preferred.Some? && end == FamilyState(s.preferred, LaneExit(s.preferred.value), None)
    decreases |times|
  {
    if times != [] {
      var next := Step(bindings, policy, topology, f, times[0], s);
      NextStep(bindings, policy, topology, f, t, s, times[0]);
      assert NondecreasingFrom(times[0], times[1..]);
      DeadlineIsExact(bindings, policy, topology, f, times[0], next, times[1..]);
      if |times| > 1 {
        assert times[1..][|times| - 2] == times[|times| - 1];
      }
    }
  }

  /** Until the selector's own deadline, repeating the last update at later times leaves its whole decision as it is. */
  lemma QuietUntilNextDeadline(
    bindings: Bindings, policy: RoutingPolicy, topology: Topology, t: nat, states: FamilyPair<FamilyState>, times: seq<nat>)
    requires forall f :: Left(bindings, policy, topology, f, t, states.For(f))
    requires NondecreasingFrom(t, times)
    requires times != [] ==> times[|times| - 1] <= DURATION_MAX
    requires var deadline := Earlier(Deadline(states.v4), Deadline(states.v6));
             times == [] || deadline.None? || times[|times| - 1] < deadline.value
    ensures forall f :: RunTimes(bindings, policy, topology, f, states.For(f), times) == states.For(f)
  {
    forall f
      ensures RunTimes(bindings, policy, topology, f, states.For(f), times) == states.For(f)
    {
      DeadlineIsExact(bindings, policy, topology, f, t, states.For(f), times);
    }
  }
}
