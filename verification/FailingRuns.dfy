/** Runs on which the helper does not keep what its journal promises, and when it does. */
module FailingRuns {
  import opened Wrappers
  import opened Plan
  import opened Routing
  import opened FailClosed
  import opened CrashModel
  import opened Journal
  import opened Rollback
  import opened Runner
  import opened World
  import opened Accounting
  import opened Situations
  import opened Backend
  import opened CrashSafety

  // ----- The guard can go while the window is open -----

  /**
   * The preparation has just failed inside the window. The first removal of the rollback fails too, the guard is
   * taken away all the same, and marked IPv6 traffic falls through an open table: the runner reports the failed
   * rollback, and the state it leaves is one that a restarted helper accepts and recovers from.
   */
  method GuardTakenInTheWindow(t: Transaction, i: nat, record: Option<Record>) returns (world: Durable, failure: Failure)
    requires t.Valid() && i <= |TransitionSteps(t.Active(), t.Next())| && LeftOpen(t, GuardPhase, i, 0)
    ensures world.origin.sys == Sys(Doc(t.active, Some(t.pending), true),
                                    StateAt(Basis(t.Active()), TransitionSteps(t.Active(), t.Next()), i))
    ensures world.faults == 1 && failure.rollbackFailed && !failure.cleanupFailed
    ensures world.nft == Doc(t.active, Some(t.pending), false) && !Closed(world.routing)
    ensures Accepts(t, world.Now().sys)
  {
    var routing := StateAt(Basis(t.Active()), TransitionSteps(t.Active(), t.Next()), i);
    OpenWithoutTheGuard(t, true, i, 0);
    FirstRemovalLeavesOpen(t, i);
    OpenWithoutTheGuard(t, false, i, 0);
    OpenWithoutTheGuard(t, false, i, 1);
    OneRemovalOf(t, routing);
    world := new Durable(Snapshot(record, Sys(Doc(t.active, Some(t.pending), true), routing)), FirstFails, {});
    var runner := new KernelRunner(world, t.active, t.lost, t);
    runner.next, runner.tablePresent, runner.guardInstalled := Some(t.pending), true, true;
    failure := runner.FailStage(PrepareRoutes);
  }

  lemma OneRemovalOf(t: Transaction, s: Ownership)
    requires |t.Rollback()| > 0
    ensures StateAt(s, t.Rollback(), 0) == s && StateAt(s, t.Rollback(), 1) == Apply(s, t.Rollback()[0])
  {
    RunSnoc(s, t.Rollback(), 0);
    assert t.Rollback()[..0] == [];
  }

  // ----- A cleanup that fails has already forgotten the runtime authority -----

  /**
   * The first kernel read of a cleanup fails. The helper then applies the next plan, dropping the journaled
   * authority, although a helper that reads the same journal afresh refuses that plan.
   */
  method ForgottenAuthority(plan: KernelPlan, next: KernelPlan, authority: RuntimeRecord)
    returns (cleaned: bool, applied: bool, restarted: bool, helper: PrivilegedBackend)
    requires ValidPlan(plan) && ValidPlan(next) && UniqueKeys(next.rules) && plan.generation < next.generation
    ensures helper.world.origin == Armed(plan, authority)
    ensures !cleaned && applied && !restarted
    ensures helper.Exactly(Some(next)) && helper.JournaledRuntime().0 == None
  {
    helper, cleaned := FailedCleanup(plan, authority);
    applied := ApplyForgotten(helper, plan, next);
    restarted := ApplyAfresh(plan, next, authority);
  }

  method FailedCleanup(plan: KernelPlan, authority: RuntimeRecord) returns (helper: PrivilegedBackend, cleaned: bool)
    requires ValidPlan(plan)
    ensures fresh(helper) && fresh(helper.world) && helper.Coherent() && helper.world.origin == Armed(plan, authority)
    ensures helper.world.reliability.FirstFails? && helper.world.faults == 1
    ensures !cleaned && helper.world.Now() == Armed(plan, authority)
    ensures helper.Exactly(Some(plan)) && helper.runtimeLoaded && helper.NoRuntime()
  {
    ArmedIsAccounted(plan, authority);
    var world := new Durable(Armed(plan, authority), FirstFails, {});
    helper := new PrivilegedBackend(world);
    var revoked;
    cleaned, revoked := helper.Cleanup();
  }

  method ApplyAfresh(plan: KernelPlan, next: KernelPlan, authority: RuntimeRecord) returns (applied: bool)
    requires ValidPlan(plan) && ValidPlan(next)
    ensures !applied
  {
    ArmedIsAccounted(plan, authority);
    var world := new Durable(Armed(plan, authority), Sound, {});
    var helper := new PrivilegedBackend(world);
    applied := helper.Apply(next);
  }

  /** A generation is committed and live, and its journal carries runtime authority. */
  function Armed(plan: KernelPlan, authority: RuntimeRecord): Snapshot {
    Snapshot(Some(CommittedRecord(Some(plan), None, Extras([], Some(authority), None))),
             Sys(Committed(plan), PlanOwnership(plan.lanes)))
  }

  lemma ArmedIsAccounted(plan: KernelPlan, authority: RuntimeRecord)
    requires ValidPlan(plan)
    ensures Accounted(Armed(plan, authority))
  {
    NothingLost(plan);
  }

  /** After the failed cleanup nothing in memory holds the next plan back. */
  method ApplyForgotten(helper: PrivilegedBackend, plan: KernelPlan, next: KernelPlan) returns (applied: bool)
    requires helper.Coherent() && helper.world.reliability.FirstFails? && helper.world.faults == 1
    requires helper.Exactly(Some(plan)) && helper.runtimeLoaded && helper.NoRuntime()
    requires ValidPlan(next) && UniqueKeys(next.rules) && plan.generation < next.generation
    modifies helper, helper.world
    ensures applied && helper.Exactly(Some(next)) && helper.JournaledRuntime().0 == None
  {
    applied := helper.Apply(next);
  }

  // ----- The receipts outgrow what a load accepts -----

  /** After an apply a helper can start again exactly if the receipts it ended with are within the bound. */
  method ApplyThenRestart(backend: PrivilegedBackend, plan: KernelPlan) returns (restarted: bool)
    requires backend.Coherent() && backend.world.reliability.Sound?
    requires ValidPlan(plan) && backend.Ready(plan) && backend.Newer(plan)
    modifies backend, backend.world
    ensures restarted <==> |old(backend.Grown(plan))| <= 2 * MAX_LANES
  {
    var ok := backend.Apply(plan);
    backend.Here().ExactRestartsIff(plan);
    var again := Restart(backend.world, backend.world.Now(), Sound);
    restarted := again.EnsureReconciled();
  }

  /** A tunnel that is created anew has its old name and a new identity. */
  function Recreated(i: nat): InterfaceIdentity {
    InterfaceIdentity(i + 1, "wg0", "wireguard", None)
  }

  function RecreatedPlan(i: nat): KernelPlan {
    var lane := LanePlan(
      Some(Recreated(i)), [], [], "tunnel", "wg0", Some(Device), None, Available,
      TABLE_BASE, MARK_BASE, RULE_PRIORITY_BASE, BlockTraffic);
    EMPTY_PLAN.(generation := i + 1, lanes := [lane])
  }

  /** One receipt for each time the tunnel was created. */
  function Receipts(n: nat): (r: seq<SettingReceipt>)
    ensures |r| == n
    ensures forall k :: 0 <= k < n ==> r[k].identity == Recreated(k)
  {
    if n == 0 then [] else Receipts(n - 1) + [SettingReceipt(Recreated(n - 1), 0, 1)]
  }

  lemma RecreatedPlanIsValid(i: nat)
    ensures ValidPlan(RecreatedPlan(i)) && UniqueKeys(RecreatedPlan(i).rules)
    ensures MarkAware(RecreatedPlan(i).lanes) == [Recreated(i)]
  {
    var lanes := RecreatedPlan(i).lanes;
    assert lanes[..|lanes| - 1] == [];
    assert IsKernelInterfaceName("wg0");
  }

  lemma OneMoreTunnel(i: nat, unmarked: set<InterfaceIdentity>)
    requires Recreated(i) in unmarked
    ensures Receipts(i) + NeededReceipts(Receipts(i), MarkAware(RecreatedPlan(i).lanes), unmarked) == Receipts(i + 1)
  {
    RecreatedPlanIsValid(i);
    assert NeededUpTo(Receipts(i), [Recreated(i)], 0, unmarked) == [];
  }

  /**
   * Nothing fails, and each plan is applied over the last: once the tunnel has been created anew often enough,
   * the journal holds more receipts than any load accepts and the next helper refuses to start.
   */
  method BeyondTheBound() returns (backend: PrivilegedBackend, restarted: bool)
    ensures backend.world.origin == NOTHING && backend.world.reliability.Sound?
    ensures backend.Coherent() && backend.world.faults == 0
    ensures backend.Exactly(Some(RecreatedPlan(2 * MAX_LANES)))
    ensures backend.settings == Receipts(2 * MAX_LANES + 1)
    ensures backend.world.record.Some? && !ValidRecord(backend.world.record.value)
    ensures !restarted
  {
    backend := Recreations(2 * MAX_LANES + 1);
    backend.Here().ExactRestartsIff(RecreatedPlan(2 * MAX_LANES));
    var again := Restart(backend.world, backend.world.Now(), Sound);
    restarted := again.EnsureReconciled();
  }

  method Recreations(n: nat) returns (backend: PrivilegedBackend)
    ensures backend.world.origin == NOTHING
    ensures backend.Coherent() && backend.world.reliability.Sound?
    ensures backend.Exactly(if n == 0 then None else Some(RecreatedPlan(n - 1)))
    ensures backend.settings == Receipts(n)
  {
    var unmarked := set i: nat | 0 <= i < n :: Recreated(i);
    var world := new Durable(NOTHING, Sound, unmarked);
    backend := new PrivilegedBackend(world);
    var _ := backend.EnsureReconciled();
    for i := 0 to n
      invariant backend.world == world && fresh(backend) && fresh(world) && backend.Coherent()
      invariant backend.Exactly(if i == 0 then None else Some(RecreatedPlan(i - 1))) && backend.Unarmed()
      invariant backend.settings == Receipts(i)
    {
      assert Recreated(i) in unmarked;
      Recreate(backend, i);
    }
  }

  method Recreate(backend: PrivilegedBackend, i: nat)
    requires backend.Coherent() && backend.world.reliability.Sound? && Recreated(i) in backend.world.unmarked
    requires backend.Exactly(if i == 0 then None else Some(RecreatedPlan(i - 1))) && backend.Unarmed()
    requires backend.settings == Receipts(i)
    modifies backend, backend.world
    ensures backend.Coherent()
    ensures backend.Exactly(Some(RecreatedPlan(i))) && backend.Unarmed()
    ensures backend.settings == Receipts(i + 1)
  {
    RecreatedPlanIsValid(i);
    OneMoreTunnel(i, backend.world.unmarked);
    ApplyNewer(backend, RecreatedPlan(i));
  }

  method ApplyNewer(backend: PrivilegedBackend, plan: KernelPlan)
    requires backend.Coherent() && backend.world.reliability.Sound? && ValidPlan(plan) && UniqueKeys(plan.rules)
    requires backend.Exactly(backend.current) && backend.Unarmed() && backend.Newer(plan)
    modifies backend, backend.world
    ensures backend.Coherent() && backend.Exactly(Some(plan)) && backend.Unarmed()
    ensures backend.settings == old(backend.Grown(plan))
  {
    backend.Here().ExactIsReady(plan);
    var _ := backend.Apply(plan);
  }
}
