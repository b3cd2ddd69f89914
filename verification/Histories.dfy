/** Any sequence of operations, crashes and lost defaults. */
module Histories {
  import opened Wrappers
  import opened Plan
  import opened Routing
  import opened FailClosed
  import opened CrashModel
  import opened Journal
  import opened World
  import opened Accounting
  import opened Situations
  import opened Backend
  import opened CrashSafety

  datatype Event =
    | ApplyPlan(plan: KernelPlan)
    | RestoreTo(failed: KernelPlan, previous: Option<KernelPlan>)
    | CleanUp
    | Crash(left: Snapshot)
    | Loss(route: RouteOwnership)

  /** A helper between two events, and every state that a crash could have left since it started. */
  datatype Moment = Moment(here: Situation, seen: set<Snapshot>) {
    /** The journal accounts for every such state, and the helper knows what its journal says. */
    ghost predicate Coherent() {
      && here.now in seen && AllAccounted(seen)
      && (if here.memory.initialized then MidOperation(here.now.record) || here.Aligned() else here.memory == BLANK)
      && (here.RuntimeAgrees() || (here.memory.runtime == None && here.memory.runtimeRestore == None))
    }
  }

  function Started(s: Snapshot): Moment {
    Moment(Situation(BLANK, s), {s})
  }

  /** One event: what was asked, what it changed, whether it succeeded, and what failed meanwhile. */
  datatype Entry = Entry(event: Event, before: Moment, after: Moment, ok: bool, faults: nat) {
    predicate Refused() {
      !ok && faults == 0 && after == before
    }

    /** No more failed than can fail in this world. */
    predicate Possible(reliability: Reliability) {
      (reliability.Sound? ==> faults == 0) && (reliability.FirstFails? ==> faults <= 1)
    }
  }

  // ----- What each event does -----

  /** Journal and kernel are as they were, or where a start leads from there. */
  ghost predicate Untouched(e: Entry) {
    var was := e.before.here;
    e.after.here.now == was.now || (was.Recoverable() && e.after.here.now == was.Reconciled().now)
  }

  ghost predicate Applied(e: Entry, plan: KernelPlan, unmarked: set<InterfaceIdentity>) {
    var was, here := e.before.here, e.after.here;
    && (e.ok ==> here.Exactly(Some(plan)) && was.Recoverable() && was.Reconciled().Ready(plan))
    && (e.ok && was.Reconciled().Newer(plan) ==>
          here.memory.settings == was.Reconciled().Grown(plan, unmarked) && RuntimeOf(here.now.record) == (None, None))
    && (e.ok ==> here.memory.restoreReceipt == None)
    && (e.ok && !was.Reconciled().Newer(plan) ==> here.memory.settings == was.Reconciled().memory.settings)
    && (was.Recoverable() && was.Reconciled().Ready(plan) && e.faults == 0 ==> e.ok)
    && (!e.ok && e.faults == 0 ==> Untouched(e))
    && (was.Idle() && was.memory.current.Some? && !e.ok && e.faults == 1 ==> here.now.sys == was.now.sys)
    && (was.RuntimeAgrees() ==> here.RuntimeAgrees())
  }

  ghost predicate Restored(e: Entry, failed: KernelPlan, previous: Option<KernelPlan>) {
    var was, here := e.before.here, e.after.here;
    && (e.ok ==> here.Exactly(previous) && was.Recoverable() && was.Reconciled().Restorable(failed, previous))
    && (e.ok ==> here.Repeated(failed, previous))
    && (was.Recoverable() && was.Reconciled().Restorable(failed, previous) && e.faults == 0 ==> e.ok)
    && (!e.ok && e.faults == 0 ==> Untouched(e))
  }

  ghost predicate CleanedUp(e: Entry) {
    && (e.ok ==> e.after.here.Exactly(None) && e.after.here.now == NOTHING)
    && (e.ok ==> e.before.here.Cleanable())
    && (e.before.here.Cleanable() && e.faults == 0 ==> e.ok)
    && (!e.ok && e.faults == 0 ==> e.after.here.now == e.before.here.now)
  }

  /** A crash may leave any state seen since the start, and a new helper takes over there. */
  predicate Crashed(e: Entry, left: Snapshot) {
    if left in e.before.seen then e.ok && e.faults == 0 && e.after == Started(left) else e.Refused()
  }

  /** The kernel drops one unicast default, between operations. */
  predicate Lost(e: Entry, route: RouteOwnership) {
    var was := e.before.here;
    if MidOperation(was.now.record) || route.terminal then
      e.Refused()
    else
      var routing := was.now.sys.routing;
      && e.ok && e.faults == 0
      && e.after.here == was.(now := Snapshot(
           was.now.record, Sys(was.now.sys.nft, routing.(routes := routing.routes - {route}))))
  }

  ghost predicate Happened(e: Entry, unmarked: set<InterfaceIdentity>) {
    && (e.event.Crash? || e.before.seen <= e.after.seen)
    && match e.event
       case ApplyPlan(plan) => if ValidPlan(plan) then Applied(e, plan, unmarked) else e.Refused()
       case RestoreTo(failed, previous) =>
         if previous.Some? && !ValidPlan(previous.value) then e.Refused() else Restored(e, failed, previous)
       case CleanUp => CleanedUp(e)
       case Crash(left) => Crashed(e, left)
       case Loss(route) => Lost(e, route)
  }

  function Before(history: seq<Entry>, i: nat): Moment
    requires i <= |history|
  {
    if i == 0 then Started(NOTHING) else history[i - 1].after
  }

  /** Entry by entry the events, each beginning where the one before ended and the first where nothing is. */
  ghost predicate IsHistory(history: seq<Entry>, events: seq<Event>, unmarked: set<InterfaceIdentity>) {
    |history| <= |events| && forall i :: 0 <= i < |history| ==> Follows(history[i], Before(history, i), events[i], unmarked)
  }

  ghost predicate Follows(e: Entry, before: Moment, event: Event, unmarked: set<InterfaceIdentity>) {
    e.event == event && e.before == before && Happened(e, unmarked)
  }

  lemma OneMoreEntry(history: seq<Entry>, e: Entry, events: seq<Event>, unmarked: set<InterfaceIdentity>)
    requires IsHistory(history, events, unmarked) && |history| < |events|
    requires Follows(e, Before(history, |history|), events[|history|], unmarked)
    ensures IsHistory(history + [e], events, unmarked)
  {
    BeforeOneMore(history, e);
  }

  lemma BeforeOneMore(history: seq<Entry>, e: Entry)
    ensures forall i :: 0 <= i < |history| ==> (history + [e])[i] == history[i]
    ensures forall i :: 0 <= i <= |history| ==> Before(history + [e], i) == Before(history, i)
  {
  }

  /** Applying takes no rule twice, and moves on to a later generation or repeats the live one; only a restore of the live candidate goes back. */
  lemma OnlyRestoresGoBack(e: Entry, unmarked: set<InterfaceIdentity>)
    requires Happened(e, unmarked) && e.ok
    ensures e.event.ApplyPlan? ==>
              && e.before.here.Recoverable()
              && (forall i, j :: 0 <= i < j < |e.event.plan.rules| ==> KeyOf(e.event.plan.rules[i]) != KeyOf(e.event.plan.rules[j]))
              && var current := e.before.here.Reconciled().memory.current;
                 current.Some? ==> e.event.plan.generation > current.value.generation || e.event.plan == current.value
    ensures e.event.RestoreTo? && e.event.previous.Some? ==> e.event.previous.value.generation < e.event.failed.generation
    ensures e.event.RestoreTo? ==>
              && e.before.here.Recoverable()
              && var was := e.before.here.Reconciled().memory;
                 was.current == Some(e.event.failed)
                 || (was.current == e.event.previous && was.restoreReceipt == Some(NewReceipt(e.event.failed, e.event.previous)))
  {
    if e.event.RestoreTo? {
      var was := e.before.here.Reconciled().memory;
      if was.current.Some? && e.event.previous.Some? {
        ContentAndGeneration(was.current.value, e.event.previous.value);
      }
    }
  }

  // ----- Every history -----

  /**
   * Any sequence of operations, of crashes that may leave any state seen since the last start, and of unicast
   * defaults lost between operations. Whatever fails, every event does what it promises from where the one before
   * ended, and every state that a crash could leave is accounted for.
   */
  method Live(events: seq<Event>, unmarked: set<InterfaceIdentity>, reliability: Reliability) returns (history: seq<Entry>)
    ensures |history| == |events| && IsHistory(history, events, unmarked)
    ensures forall e :: e in history ==> e.before.Coherent() && e.after.Coherent()
    ensures forall e :: e in history ==> e.Possible(reliability)
  {
    history := [];
    var world := new Durable(NOTHING, reliability, unmarked);
    var backend := new PrivilegedBackend(world);
    for i := 0 to |events|
      invariant fresh(backend) && fresh(backend.world) && backend.Coherent()
      invariant backend.world.unmarked == unmarked && backend.world.reliability == reliability
      invariant |history| == i && IsHistory(history, events, unmarked)
      invariant Now(backend) == Before(history, i)
      invariant forall e :: e in history ==> e.before.Coherent() && e.after.Coherent()
      invariant forall e :: e in history ==> e.Possible(reliability)
    {
      var entry;
      backend, entry := Happen(backend, events[i]);
      OneMoreEntry(history, entry, events, unmarked);
      history := history + [entry];
    }
  }

  function Now(backend: PrivilegedBackend): (m: Moment)
    reads backend, backend.world
    ensures backend.Coherent() ==> m.Coherent()
  {
    Moment(backend.Here(), backend.world.seen)
  }

  /** One event; after a crash another helper takes over. */
  method Happen(backend: PrivilegedBackend, event: Event) returns (next: PrivilegedBackend, e: Entry)
    requires backend.Coherent()
    modifies backend, backend.world
    ensures next.Coherent() && (next == backend || (fresh(next) && fresh(next.world)))
    ensures next.world.unmarked == backend.world.unmarked && next.world.reliability == backend.world.reliability
    ensures e.event == event && e.before == old(Now(backend)) && e.after == Now(next)
    ensures Happened(e, backend.world.unmarked)
    ensures e.Possible(backend.world.reliability)
  {
    if event.Crash? {
      next, e := HappenCrash(backend, event.left);
    } else {
      next := backend;
      match event {
        case ApplyPlan(plan) => e := HappenApply(backend, plan);
        case RestoreTo(failed, previous) => e := HappenRestore(backend, failed, previous);
        case CleanUp => e := HappenCleanup(backend);
        case Loss(route) => e := HappenLoss(backend, route);
      }
    }
  }

  method HappenApply(backend: PrivilegedBackend, plan: KernelPlan) returns (e: Entry)
    requires backend.Coherent()
    modifies backend, backend.world
    ensures backend.Coherent() && e.event == ApplyPlan(plan) && e.before == old(Now(backend)) && e.after == Now(backend)
    ensures Happened(e, backend.world.unmarked)
    ensures e.Possible(backend.world.reliability)
  {
    var before, faults, ok := Now(backend), backend.world.faults, false;
    if ValidPlan(plan) {
      ok := backend.Apply(plan);
    }
    e := Entry(ApplyPlan(plan), before, Now(backend), ok, backend.world.faults - faults);
  }

  method HappenRestore(backend: PrivilegedBackend, failed: KernelPlan, previous: Option<KernelPlan>) returns (e: Entry)
    requires backend.Coherent()
    modifies backend, backend.world
    ensures backend.Coherent() && e.event == RestoreTo(failed, previous)
    ensures e.before == old(Now(backend)) && e.after == Now(backend)
    ensures Happened(e, backend.world.unmarked)
    ensures e.Possible(backend.world.reliability)
  {
    var before, faults, ok := Now(backend), backend.world.faults, false;
    if previous.None? || ValidPlan(previous.value) {
      ok := backend.RestorePlan(failed, previous);
    }
    e := Entry(RestoreTo(failed, previous), before, Now(backend), ok, backend.world.faults - faults);
  }

  method HappenCleanup(backend: PrivilegedBackend) returns (e: Entry)
    requires backend.Coherent()
    modifies backend, backend.world
    ensures backend.Coherent() && e.event == CleanUp && e.before == old(Now(backend)) && e.after == Now(backend)
    ensures Happened(e, backend.world.unmarked)
    ensures e.Possible(backend.world.reliability)
  {
    var before, faults := Now(backend), backend.world.faults;
    var ok, _ := backend.Cleanup();
    e := Entry(CleanUp, before, Now(backend), ok, backend.world.faults - faults);
  }

  method HappenLoss(backend: PrivilegedBackend, route: RouteOwnership) returns (e: Entry)
    requires backend.Coherent()
    modifies backend.world`routing, backend.world`seen
    ensures backend.Coherent() && e.event == Loss(route) && e.before == old(Now(backend)) && e.after == Now(backend)
    ensures Happened(e, backend.world.unmarked)
    ensures e.faults == 0
  {
    var before := Now(backend);
    var ok := !MidOperation(backend.world.record) && !route.terminal;
    if ok {
      LinkLoss(backend, route);
    }
    e := Entry(Loss(route), before, Now(backend), ok, 0);
  }

  method HappenCrash(backend: PrivilegedBackend, left: Snapshot) returns (next: PrivilegedBackend, e: Entry)
    requires backend.Coherent()
    ensures next.Coherent() && (next == backend || (fresh(next) && fresh(next.world)))
    ensures next.world.unmarked == backend.world.unmarked && next.world.reliability == backend.world.reliability
    ensures e.event == Crash(left) && e.before == Now(backend) && e.after == Now(next)
    ensures Happened(e, backend.world.unmarked)
    ensures e.faults == 0
  {
    next := backend;
    var ok := left in backend.world.seen;
    if ok {
      next := Restart(backend.world, left, backend.world.reliability);
    }
    e := Entry(Crash(left), Now(backend), Now(next), ok, 0);
  }
}
