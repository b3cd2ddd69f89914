/** The staged transition between two plans, with rollback on failure. */
module Runner {
  import opened Wrappers
  import opened Plan
  import opened Routing
  import opened Composition
  import opened FailClosed
  import opened Rollback
  import opened StepBuilders
  import opened CrashModel
  import opened CrashCheck
  import opened Journal
  import opened World

  datatype Stage = TakeSnapshot | CheckConflicts | InstallGuard | PrepareRoutes | ActivateNft | Verify | RemoveOldGeneration | RemoveGuard

  datatype Failure = Failure(stage: Stage, rollbackFailed: bool, cleanupFailed: bool)

  /** New crash states all belong to this transaction. */
  ghost predicate OnlyAccepted(t: Transaction, record: Option<Record>, before: set<Snapshot>, after: set<Snapshot>) {
    forall s :: s in after && s !in before ==> s.record == record && Accepts(t, s.sys)
  }

  /** What a rollback may leave: accepted states, or stranded ones if it did not begin interruptible. */
  ghost predicate Leaves(t: Transaction, strict: bool, sys: Sys) {
    Accepts(t, sys) || (!strict && Stranded(t, sys))
  }

  ghost predicate OnlyLeaves(
    t: Transaction, strict: bool, record: Option<Record>, before: set<Snapshot>, after: set<Snapshot>)
  {
    forall s :: s in after && s !in before ==> s.record == record && Leaves(t, strict, s.sys)
  }

  class KernelRunner {
    const world: Durable
    ghost const t: Transaction
    const previous: Option<KernelPlan>
    const previousRouting: Option<seq<LanePlan>>
    var next: Option<KernelPlan>
    var tablePresent: bool
    var guardInstalled: bool

    /** Only an unreported guard of a first activation can be present without the runner knowing. */
    ghost predicate Tracks()
      reads this, world
    {
      tablePresent || world.nft.Absent? || (t.active.None? && world.nft == Doc(None, Some(t.pending), true))
    }

    ghost predicate Bound()
      reads this
    {
      && t.Valid()
      && previous == t.active && previousRouting == t.Active()
      && (next.None? || next == Some(t.pending))
    }

    ghost predicate Valid()
      reads this, world
    {
      Bound() && world.Sane() && world.Now() in world.seen && Accepts(t, world.Now().sys)
    }

    constructor (world: Durable, previous: Option<KernelPlan>, lost: LostUnicast, ghost t: Transaction)
      requires t.Valid() && t.active == previous && t.lost == lost
      ensures this.world == world && this.t == t && Bound()
      ensures next == None && !tablePresent && !guardInstalled
    {
      this.world := world;
      this.t := t;
      this.previous := previous;
      previousRouting := match previous case None => None case Some(plan) => Some(RoutingBasis(plan.lanes, lost));
      next := None;
      tablePresent, guardInstalled := false, false;
    }

    /** Reads the kernel; a failed read changes nothing. */
    method TakeSnapshot() returns (ok: bool)
      requires world.Sane()
      modifies this`tablePresent, world`faults
      ensures world.Sane() && world.faults == old(world.faults) + if ok then 0 else 1
      ensures ok ==> tablePresent == world.nft.Doc?
      ensures !ok ==> tablePresent == old(tablePresent)
    {
      ok := world.Attempt();
      if ok {
        tablePresent := world.nft.Doc?;
      }
    }

    method InstallGuard(plan: KernelPlan) returns (ok: bool)
      requires Valid() && plan == t.pending && world.Now().sys == t.Target()
      requires tablePresent == world.nft.Doc? && !guardInstalled
      modifies this, world
      ensures world.faults == old(world.faults) + if ok then 0 else 1
      ensures Valid() && Tracks() && next == Some(plan)
      ensures world.record == old(world.record) && world.routing == old(world.routing)
      ensures ok ==> world.nft == Doc(t.active, Some(t.pending), true) && tablePresent && guardInstalled
      ensures !ok ==> !guardInstalled && tablePresent == old(tablePresent)
      ensures world.nft.Doc? || t.active.None?
      ensures old(world.seen) <= world.seen && OnlyAccepted(t, world.record, old(world.seen), world.seen)
    {
      next := Some(plan);
      PrepareAccepted(t, 0);
      assert StateAt(Basis(t.Active()), TransitionSteps(t.Active(), t.Next()), 0) == Basis(t.Active());
      ok := world.RunNft(Doc(previous, Some(plan), true));
      if ok {
        tablePresent, guardInstalled := true, true;
      }
    }

    method PrepareRoutes(plan: KernelPlan) returns (ok: bool)
      requires Valid() && plan == t.pending
      requires world.nft == Doc(t.active, Some(t.pending), true) && world.routing == Basis(t.Active())
      modifies world
      ensures world.faults == old(world.faults) + if ok then 0 else 1
      ensures Valid()
      ensures world.record == old(world.record) && world.nft == old(world.nft)
      ensures ok ==> world.routing == RetireStage(t.Active(), t.Next()).start
      ensures old(world.seen) <= world.seen && OnlyAccepted(t, world.record, old(world.seen), world.seen)
    {
      var steps := BuildTransitionSteps(previousRouting, plan.lanes);
      ghost var start := world.routing;
      forall live | Reaches(start, steps, live) ensures Accepts(t, Sys(world.nft, live)) {
        var k :| 0 <= k <= |steps| && StateAt(start, steps, k) == live;
        PrepareAccepted(t, k);
      }
      ok := world.RunSteps(steps);
    }

    method ActivateNft(plan: KernelPlan) returns (ok: bool)
      requires Valid() && plan == t.pending && Tracks() && tablePresent && guardInstalled
      requires world.nft == Doc(t.active, Some(t.pending), true)
      requires world.routing == RetireStage(t.Active(), t.Next()).start
      modifies this, world
      ensures world.faults == old(world.faults) + if ok then 0 else 1
      ensures Valid() && tablePresent && guardInstalled && next == old(next)
      ensures world.record == old(world.record) && world.routing == old(world.routing)
      ensures world.nft.Doc? && (ok ==> world.nft == Doc(Some(t.pending), None, true))
      ensures old(world.seen) <= world.seen && OnlyAccepted(t, world.record, old(world.seen), world.seen)
    {
      RetireAccepted(t, true, 0);
      var stage := RetireStage(t.Active(), t.Next());
      assert StateAt(stage.start, stage.steps, 0) == stage.start;
      ok := world.RunNft(Doc(Some(plan), None, true));
      if ok {
        tablePresent, guardInstalled := true, true;
      }
    }

    /** Are the plan's routes, rules and ownership marker live? */
    ghost predicate Installed(plan: KernelPlan, routing: seq<LanePlan>)
      reads world
    {
      && world.nft.Doc? && world.nft.active == Some(plan)
      && PlanOwnership(routing).routes <= world.routing.routes && PlanOwnership(routing).rules <= world.routing.rules
    }

    method VerifyPlan(plan: KernelPlan, routing: seq<LanePlan>) returns (ok: bool)
      requires world.Sane()
      modifies world`faults
      ensures world.Sane() && (ok ==> Installed(plan, routing) && world.faults == old(world.faults))
      ensures Installed(plan, routing) ==> world.faults == old(world.faults) + if ok then 0 else 1
    {
      var readable := world.Attempt();
      ok := readable
        && world.nft.Doc? && world.nft.active == Some(plan)
        && PlanOwnership(routing).routes <= world.routing.routes && PlanOwnership(routing).rules <= world.routing.rules;
    }

    method RemoveGeneration() returns (ok: bool)
      requires Valid() && t.active.Some? && next == Some(t.pending)
      requires world.nft == Doc(Some(t.pending), None, true)
      requires world.routing == RetireStage(t.Active(), t.Next()).start
      modifies world
      ensures world.faults == old(world.faults) + if ok then 0 else 1
      ensures Valid()
      ensures world.record == old(world.record) && world.nft == old(world.nft)
      ensures ok ==> world.routing == PlanOwnership(t.Next())
      ensures old(world.seen) <= world.seen && OnlyAccepted(t, world.record, old(world.seen), world.seen)
    {
      var steps := BuildRetireSteps(previousRouting.value, next.value.lanes);
      ghost var start := world.routing;
      forall live | Reaches(start, steps, live) ensures Accepts(t, Sys(world.nft, live)) {
        var k :| 0 <= k <= |steps| && StateAt(start, steps, k) == live;
        RetireAccepted(t, true, k);
      }
      ok := world.RunSteps(steps);
      BasisIsDistinct(t);
      TransitionThenRetire(t.Active().value, t.Next());
    }

    method RemoveGuard() returns (ok: bool)
      requires Valid()
      modifies this, world
      ensures old(world.faults) <= world.faults <= old(world.faults) + 1
      ensures (old(guardInstalled) ==> old(world.nft).Doc? && old(world.nft).guard) ==>
                world.faults == old(world.faults) + if ok then 0 else 1
      ensures Valid() && next == old(next) && tablePresent == old(tablePresent)
      ensures world.record == old(world.record) && world.routing == old(world.routing)
      ensures world.nft == old(world.nft) || (old(guardInstalled) && world.nft == Guardless(old(world.nft)))
      ensures ok ==> !guardInstalled && (old(guardInstalled) ==> world.nft == Guardless(old(world.nft)))
      ensures old(Tracks()) ==> Tracks() || (!old(tablePresent) && old(guardInstalled))
      ensures old(world.seen) <= world.seen && OnlyAccepted(t, world.record, old(world.seen), world.seen)
    {
      if !guardInstalled {
        return true;
      }
      GuardRemovalAccepted(t, world.Now().sys);
      ok := world.RemoveGuardChain();
      if ok {
        guardInstalled := false;
      }
    }

    /** Removes what either plan may own, deletes the table, then reinstalls the previous generation. */
    method Restore(state: Option<KernelPlan>, ghost strict: bool) returns (ok: bool)
      requires Valid() && Tracks() && state == t.active && next == Some(t.pending)
      requires strict ==> Interruptible(t, world.Now().sys)
      modifies this, world
      ensures world.faults == old(world.faults) + if ok then 0 else 1
      ensures Bound() && world.Sane() && world.Now() in world.seen && Leaves(t, strict, world.Now().sys) && next == old(next)
      ensures world.record == old(world.record)
      ensures world.reliability.FirstFails? && old(world.faults) == 0 && RollbackRuleOrder(Plans(t.Active(), t.Next())) != [] ==>
                !ok && OneRemoval(old(world.routing)) && world.nft == old(world.nft) && guardInstalled == old(guardInstalled)
      ensures ok ==> !guardInstalled && Valid()
      ensures ok ==> world.routing == t.Target().routing
      ensures ok ==> world.nft == t.Target().nft
                     || (!old(tablePresent) && t.active.None? && world.nft == old(world.nft) == Doc(None, Some(t.pending), true))
      ensures old(world.seen) <= world.seen && OnlyLeaves(t, strict, world.record, old(world.seen), world.seen)
    {
      ok := RemoveResources(strict);
      if !ok {
        return;
      }
      if tablePresent {
        ok := DeleteTable();
        if !ok {
          return;
        }
        tablePresent := false;
      }
      guardInstalled := false;
      if state.Some? {
        ok := Reinstall(state.value);
      }
    }

    /** At most the first removal has taken effect. */
    ghost predicate OneRemoval(was: Ownership)
      reads world
    {
      world.routing == was || (t.Rollback() != [] && world.routing == Apply(was, t.Rollback()[0]))
    }

    method RemoveResources(ghost strict: bool) returns (ok: bool)
      requires Valid() && Tracks() && next == Some(t.pending)
      requires strict ==> Interruptible(t, world.Now().sys)
      modifies world
      ensures world.faults == old(world.faults) + if ok then 0 else 1
      ensures Bound() && world.Sane() && world.Now() in world.seen && Leaves(t, strict, world.Now().sys)
      ensures world.record == old(world.record) && world.nft == old(world.nft)
      ensures world.reliability.FirstFails? && old(world.faults) == 0 && RollbackRuleOrder(Plans(t.Active(), t.Next())) != [] ==>
                !ok && OneRemoval(old(world.routing))
      ensures ok ==> world.routing == EMPTY && Valid()
      ensures old(world.seen) <= world.seen && OnlyLeaves(t, strict, world.record, old(world.seen), world.seen)
    {
      ghost var start := world.routing;
      RunnerOrderIsRollback(t);
      RollbackFromAccepted(t, world.Now().sys);
      var plans := Plans(match previous case None => None case Some(plan) => Some(plan.lanes), next.value.lanes);
      var rules := BuildRollbackRuleOrder(plans);
      var tables := BuildRollbackTableOrder(plans);
      PartsAreLeft(t, strict, world.Now().sys, DeleteRules(rules), tables);
      RunAppend(start, DeleteRules(rules), tables);
      ok := world.RunSteps(DeleteRules(rules));
      if !ok {
        return;
      }
      ok := world.RunSteps(tables);
      if ok {
        EmptiedIsAccepted(t, Sys(world.nft, start));
      }
    }

    method DeleteTable() returns (ok: bool)
      requires Valid() && world.routing == EMPTY
      modifies world
      ensures world.faults == old(world.faults) + if ok then 0 else 1
      ensures Valid()
      ensures world.record == old(world.record) && world.routing == EMPTY
      ensures world.nft == Absent || (!ok && world.nft == old(world.nft))
      ensures old(world.seen) <= world.seen && OnlyAccepted(t, world.record, old(world.seen), world.seen)
    {
      EmptyAbsentAccepted(t);
      ok := world.RunNft(Absent);
    }

    method Reinstall(plan: KernelPlan) returns (ok: bool)
      requires Valid() && t.active == Some(plan) && world.nft.Absent? && world.routing == EMPTY
      requires !guardInstalled
      modifies this, world
      ensures world.faults == old(world.faults) + if ok then 0 else 1
      ensures Valid() && next == old(next) && !guardInstalled
      ensures world.record == old(world.record)
      ensures ok ==> world.Now().sys == t.Target()
      ensures old(world.seen) <= world.seen && OnlyAccepted(t, world.record, old(world.seen), world.seen)
    {
      var steps := BuildTransitionSteps(None, previousRouting.value);
      forall live | Reaches(EMPTY, steps, live) ensures Accepts(t, Sys(Absent, live)) {
        var k :| 0 <= k <= |steps| && StateAt(EMPTY, steps, k) == live;
        ReinstallAccepted(t, k);
      }
      ok := world.RunSteps(steps);
      if !ok {
        return;
      }
      TargetAccepted(t);
      ok := world.RunNft(Committed(plan));
      if !ok {
        return;
      }
      tablePresent := true;
      ok := VerifyPlan(plan, previousRouting.value);
    }

    /** What the runner does when a stage fails. */
    method FailStage(stage: Stage) returns (failure: Failure)
      requires Valid() && Tracks() && next == Some(t.pending)
      requires world.nft.Doc? || t.active.None?
      modifies this, world
      ensures Valid()
      ensures world.record == old(world.record)
      ensures old(world.faults) <= world.faults
      ensures world.faults == old(world.faults) ==> !failure.rollbackFailed && !failure.cleanupFailed
      ensures failure.stage == stage
      ensures !failure.rollbackFailed ==> RolledBack()
      ensures world.reliability.FirstFails? && old(world.faults) == 0 && old(guardInstalled && world.nft.Doc? && world.nft.guard)
              && RollbackRuleOrder(Plans(t.Active(), t.Next())) != [] ==>
                && failure.rollbackFailed && !failure.cleanupFailed
                && OneRemoval(old(world.routing)) && world.nft == Guardless(old(world.nft))
      ensures old(world.seen) <= world.seen && OnlyAccepted(t, world.record, old(world.seen), world.seen)
    {
      InterruptibleIf(t, world.Now().sys);
      var restored := Restore(previous, true);
      var cleaned := RemoveGuard();
      return Failure(stage, !restored, !cleaned);
    }

    /** Where a failed transition that could be rolled back ends. */
    ghost predicate RolledBack()
      reads this, world
    {
      && world.routing == t.Target().routing
      && (t.active.Some? || world.nft.Absent? ==> world.Now().sys == t.Target())
    }

    /** The candidate's document is live under the guard, and its routing beside the old one. */
    ghost predicate Activated()
      reads this, world
    {
      && tablePresent && guardInstalled && next == Some(t.pending)
      && world.nft == Doc(Some(t.pending), None, true) && world.routing == RetireStage(t.Active(), t.Next()).start
    }

    /** The whole staged transition. Every crash state on the way is one the recovery check accepts. */
    method Transition(plan: KernelPlan) returns (r: Result<(), Failure>)
      requires Valid() && plan == t.pending && next == None
      requires world.Now().sys == t.Target() && !guardInstalled && !tablePresent
      modifies this, world
      ensures Valid()
      ensures world.record == old(world.record)
      ensures old(world.faults) <= world.faults && (r.Ok? <==> world.faults == old(world.faults))
      ensures r.Err? && world.faults == old(world.faults) + 1 ==> !r.error.rollbackFailed && !r.error.cleanupFailed
      ensures r.Ok? ==> world.Now().sys == Sys(Committed(t.pending), PlanOwnership(t.Next())) && tablePresent && next == Some(plan)
      ensures r.Err? && !r.error.rollbackFailed ==> RolledBack()
      ensures old(world.seen) <= world.seen && OnlyAccepted(t, world.record, old(world.seen), world.seen)
      ensures world.reliability.Contested? ==> r.Err? && world.Now() == old(world.Now()) && world.seen == old(world.seen)
    {
      var ok := TakeSnapshot();
      if !ok {
        return Err(Failure(Stage.TakeSnapshot, false, false));
      }
      ok := world.Survey();
      if !ok {
        return Err(Failure(CheckConflicts, false, false));
      }
      r := Activate(plan);
      if r.Ok? {
        r := Retire(plan);
      }
    }

    /** The stages up to the candidate's document. */
    method Activate(plan: KernelPlan) returns (r: Result<(), Failure>)
      requires Valid() && plan == t.pending && next == None
      requires world.Now().sys == t.Target() && tablePresent == world.nft.Doc? && !guardInstalled
      modifies this, world
      ensures Valid()
      ensures world.record == old(world.record)
      ensures old(world.faults) <= world.faults && (r.Ok? <==> world.faults == old(world.faults))
      ensures r.Err? && world.faults == old(world.faults) + 1 ==> !r.error.rollbackFailed && !r.error.cleanupFailed
      ensures r.Ok? ==> Activated()
      ensures r.Err? && !r.error.rollbackFailed ==> RolledBack()
      ensures old(world.seen) <= world.seen && OnlyAccepted(t, world.record, old(world.seen), world.seen)
    {
      var ok := InstallGuard(plan);
      if !ok {
        var failure := FailStage(Stage.InstallGuard);
        return Err(failure);
      }
      ok := PrepareRoutes(plan);
      if !ok {
        var failure := FailStage(Stage.PrepareRoutes);
        return Err(failure);
      }
      ok := ActivateNft(plan);
      if !ok {
        var failure := FailStage(Stage.ActivateNft);
        return Err(failure);
      }
      r := Ok(());
    }

    /** The stages from the candidate's document on. */
    method Retire(plan: KernelPlan) returns (r: Result<(), Failure>)
      requires Valid() && plan == t.pending && Activated()
      modifies this, world
      ensures Valid()
      ensures world.record == old(world.record)
      ensures old(world.faults) <= world.faults && (r.Ok? <==> world.faults == old(world.faults))
      ensures r.Err? && world.faults == old(world.faults) + 1 ==> !r.error.rollbackFailed && !r.error.cleanupFailed
      ensures r.Ok? ==> world.Now().sys == Sys(Committed(t.pending), PlanOwnership(t.Next())) && tablePresent && next == Some(plan)
      ensures r.Err? && !r.error.rollbackFailed ==> RolledBack()
      ensures old(world.seen) <= world.seen && OnlyAccepted(t, world.record, old(world.seen), world.seen)
    {
      PreparedIsInstalled(t);
      var ok := VerifyPlan(plan, plan.lanes);
      if !ok {
        var failure := FailStage(Stage.Verify);
        return Err(failure);
      }
      if previous.Some? {
        ok := RemoveGeneration();
        if !ok {
          var failure := FailStage(RemoveOldGeneration);
          return Err(failure);
        }
      } else {
        FirstTransition(t.Next());
      }
      ok := RemoveGuard();
      if !ok {
        var failure := FailStage(Stage.RemoveGuard);
        return Err(failure);
      }
      r := Ok(());
    }
  }

  /** Before anything is retired the candidate is already complete. */
  lemma PreparedIsInstalled(t: Transaction)
    requires t.Valid()
    ensures PlanOwnership(t.Next()).routes <= RetireStage(t.Active(), t.Next()).start.routes
    ensures PlanOwnership(t.Next()).rules <= RetireStage(t.Active(), t.Next()).start.rules
  {
    BasisIsDistinct(t);
    PlanOwnsExactly(t.Next());
    if t.Active().Some? {
      PlanOwnsExactly(t.Active().value);
    }
    TransitionEffect(t.Active(), t.Next(), Basis(t.Active()));
  }

  lemma BasisIsDistinct(t: Transaction)
    requires t.Valid()
    ensures t.Active().Some? ==> DistinctTables(t.Active().value)
  {
  }

  /** The runner rolls back the plan itself, the crash model its basis: the same steps. */
  lemma RunnerOrderIsRollback(t: Transaction)
    ensures t.Rollback()
            == RollbackSteps(Plans(match t.active case None => None case Some(plan) => Some(plan.lanes), t.Next()))
  {
    if t.active.Some? {
      BasisRollsBackAlike(t.active.value.lanes, t.lost, t.Next());
    }
  }

  lemma EmptiedIsAccepted(t: Transaction, sys: Sys)
    requires t.Valid() && Accepts(t, sys)
    ensures Accepts(t, Sys(sys.nft, EMPTY))
  {
    if Classify(t, sys.nft) == Some(RollbackAbsent) {
      EmptyAbsentAccepted(t);
    } else {
      RollbackFromAccepted(t, sys);
      RollbackClosure(t, sys, |t.Rollback()|);
      assert t.Rollback()[..|t.Rollback()|] == t.Rollback();
    }
  }

  lemma PartsAreLeft(
    t: Transaction, strict: bool, sys: Sys, a: seq<RoutingStep>, b: seq<RoutingStep>)
    requires t.Valid() && Accepts(t, sys) && t.Rollback() == a + b
    requires strict ==> Interruptible(t, sys)
    ensures forall live :: Reaches(sys.routing, a, live) || Reaches(Run(sys.routing, a), b, live) ==>
      Leaves(t, strict, Sys(sys.nft, live))
  {
    PrefixReaches(sys.routing, a, b);
    forall live | Reaches(sys.routing, a + b, live) ensures Leaves(t, strict, Sys(sys.nft, live)) {
      var k :| 0 <= k <= |t.Rollback()| && StateAt(sys.routing, t.Rollback(), k) == live;
      if !strict {
        if Classify(t, sys.nft) == Some(RollbackAbsent) {
          AbsentInterruptionIsStranded(t, sys, k);
        } else {
          RollbackClosure(t, sys, k);
        }
      }
    }
  }

  lemma PrefixReaches(s: Ownership, a: seq<RoutingStep>, b: seq<RoutingStep>)
    ensures forall live :: Reaches(s, a, live) ==> Reaches(s, a + b, live)
    ensures forall live :: Reaches(Run(s, a), b, live) ==> Reaches(s, a + b, live)
  {
    forall live | Reaches(s, a, live) ensures Reaches(s, a + b, live) {
      var k :| 0 <= k <= |a| && StateAt(s, a, k) == live;
      assert (a + b)[..k] == a[..k];
      assert StateAt(s, a + b, k) == live;
    }
    forall live | Reaches(Run(s, a), b, live) ensures Reaches(s, a + b, live) {
      var k :| 0 <= k <= |b| && StateAt(Run(s, a), b, k) == live;
      assert (a + b)[..|a| + k] == a + b[..k];
      RunAppend(s, a, b[..k]);
      assert StateAt(s, a + b, |a| + k) == live;
    }
  }
}
