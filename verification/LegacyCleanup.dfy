/** Cleanup of a schema-2 journal: it revalidates ownership before every step and never trips over itself. */
module LegacyCleanup {
  import opened Wrappers
  import opened Plan
  import opened Routing
  import opened Composition
  import opened FailClosed
  import opened Rollback
  import opened StepBuilders
  import opened CrashModel
  import opened CrashCheck
  import opened Journal
  import opened World
  import opened Runner
  import opened Accounting

  /** The phase a live document belongs to; where several descriptions fit, this order decides. */
  function LegacyPhase(r: LegacyRecord, nft: Nft): Option<Phase> {
    if r.pending.Some? && nft.Absent? then Some(RollbackAbsent)
    else if r.pending.Some? && nft == Committed(r.pending.value) then Some(CommittedPhase)
    else if r.pending.Some? && nft == Doc(r.pending, None, true) then Some(Activated)
    else if r.pending.Some? && nft == Doc(r.active, r.pending, false) then Some(GuardlessTransaction)
    else if r.pending.Some? && nft == Doc(r.active, r.pending, true) then Some(GuardPhase)
    else if r.active.Some? && nft == Committed(r.active.value) then Some(Untouched)
    else None
  }

  ghost predicate LegacyReachable(r: LegacyRecord, phase: Phase, live: Ownership) {
    if r.pending.Some? then
      if phase.RollbackAbsent? && r.cleanupPending then
        ReachesThroughRollback(PhaseStage(r.Active(), r.pending.value.lanes, RollbackAbsent),
          RollbackSteps(Plans(r.Active(), r.pending.value.lanes)), live)
      else Reachable(r.Active(), r.pending.value.lanes, phase, live)
    else if r.active.Some? then
      || live == PlanOwnership(r.active.value.lanes)
      || (r.cleanupPending && Reaches(PlanOwnership(r.active.value.lanes), RollbackSteps([r.active.value.lanes]), live))
    else live == EMPTY
  }

  ghost predicate LegacyOwned(r: LegacyRecord, sys: Sys) {
    || (sys.nft.Absent? && r.cleanupPending && sys.routing == EMPTY)
    || (LegacyPhase(r, sys.nft).Some? && LegacyReachable(r, LegacyPhase(r, sys.nft).value, sys.routing))
  }

  /** The transaction that a schema-2 journal left pending. */
  function LegacyTransaction(r: LegacyRecord): Transaction
    requires r.pending.Some?
  {
    Transaction(r.active, r.lost, r.pending.value)
  }

  /**
   * With a transaction pending the proof accepts what a restarted helper accepts of that transaction. Once the
   * cleanup has begun it also accepts, without a table, any reinstallation of the previous plan rolled back again.
   */
  lemma LegacyProofIsTheRecoveryCheck(r: LegacyRecord, sys: Sys)
    requires r.pending.Some? && LegacyTransaction(r).Valid()
    ensures !r.cleanupPending || sys.nft.Doc? ==> (LegacyOwned(r, sys) <==> Accepts(LegacyTransaction(r), sys))
    ensures r.cleanupPending && sys.nft.Absent? ==>
              (LegacyOwned(r, sys) <==> ReachesThroughRollback(
                 CrashModel.Stage(EMPTY, if r.active.None? then [] else InstallSteps(r.Active().value)),
                 LegacyTransaction(r).Rollback(), sys.routing))
  {
    var t := LegacyTransaction(r);
    if sys.nft.Absent? {
      AbsentIsAlike(r, sys.routing);
    } else {
      PhasesAlike(r, sys.nft);
    }
  }

  /** Without a transaction only the active generation counts, whole, or partly removed once the cleanup has begun. */
  lemma LegacyProofWithoutTransaction(r: LegacyRecord, sys: Sys)
    requires r.pending.None?
    ensures LegacyOwned(r, sys) <==>
              || (r.cleanupPending && sys == Sys(Absent, EMPTY))
              || (r.active.Some? && sys.nft == Doc(r.active, None, false)
                  && (sys.routing == PlanOwnership(r.active.value.lanes)
                      || (r.cleanupPending
                          && Reaches(PlanOwnership(r.active.value.lanes), RollbackSteps([r.active.value.lanes]), sys.routing))))
  {
  }

  lemma PhasesAlike(r: LegacyRecord, nft: Nft)
    requires r.pending.Some? && LegacyTransaction(r).Valid() && nft.Doc?
    ensures LegacyPhase(r, nft) == Classify(LegacyTransaction(r), nft)
    ensures LegacyPhase(r, nft) != Some(RollbackAbsent)
  {
  }

  lemma NothingStaysNothing(active: Option<seq<LanePlan>>, pending: seq<LanePlan>, live: Ownership)
    ensures Reaches(EMPTY, RollbackSteps(Plans(active, pending)), live) <==> live == EMPTY
  {
    var rollback := RollbackSteps(Plans(active, pending));
    RollbackShape(active, pending);
    ReachesHere(EMPTY, rollback);
    if Reaches(EMPTY, rollback, live) {
      var k :| 0 <= k <= |rollback| && StateAt(EMPTY, rollback, k) == live;
      RemovalRun(EMPTY, rollback[..k]);
    }
  }

  lemma AbsentIsAlike(r: LegacyRecord, live: Ownership)
    requires r.pending.Some? && LegacyTransaction(r).Valid()
    ensures !r.cleanupPending ==>
              (LegacyOwned(r, Sys(Absent, live)) <==> Accepts(LegacyTransaction(r), Sys(Absent, live)))
    ensures r.cleanupPending ==>
              (LegacyOwned(r, Sys(Absent, live)) <==> ReachesThroughRollback(
                 CrashModel.Stage(EMPTY, if r.active.None? then [] else InstallSteps(r.Active().value)),
                 LegacyTransaction(r).Rollback(), live))
  {
    var t := LegacyTransaction(r);
    var stage := PhaseStage(r.Active(), r.pending.value.lanes, RollbackAbsent);
    NothingStaysNothing(r.Active(), r.pending.value.lanes, live);
    assert StateAt(EMPTY, stage.steps, 0) == EMPTY;
    if live == EMPTY {
      assert Reaches(StateAt(stage.start, stage.steps, 0), t.Rollback(), live);
      assert ReachesThroughRollback(stage, t.Rollback(), live);
    }
    if r.active.None? {
      assert stage.steps == [];
      assert StateAt(EMPTY, [], 0) == EMPTY;
    }
  }

  /** The ownership proof; it also tells whether the table is present. */
  method VerifyLegacyLive(r: LegacyRecord, sys: Sys) returns (present: Option<bool>)
    requires r.Valid()
    ensures present.Some? <==> LegacyOwned(r, sys)
    ensures present.Some? ==> present.value == sys.nft.Doc?
  {
    if sys.nft.Absent? && r.cleanupPending && sys.routing == EMPTY {
      return Some(false);
    }
    var phase := LegacyPhase(r, sys.nft);
    if phase.None? {
      return None;
    }
    var valid: bool;
    if r.pending.Some? {
      var active, pending := r.Active(), r.pending.value.lanes;
      if phase.value.RollbackAbsent? && r.cleanupPending {
        var steps := [];
        if active.Some? {
          steps := BuildTransitionSteps(None, active.value);
        }
        var states := StatesOf(EMPTY, steps);
        PassesCovers(states, PhaseStage(active, pending, RollbackAbsent), RollbackSteps(Plans(active, pending)), sys.routing);
        valid := AnyReaches(states, active, pending, sys.routing);
      } else {
        var reachable := RoutingStateReachable(sys.routing, active, pending, phase.value);
        valid := reachable.value;
      }
    } else if r.active.Some? {
      var initial := PlanOwnership(r.active.value.lanes);
      assert Plans(None, r.active.value.lanes) == [r.active.value.lanes];
      ChangesCoverPrefixes(initial, RollbackSteps([r.active.value.lanes]), sys.routing);
      var reached := RollbackPrefixReaches(initial, None, r.active.value.lanes, sys.routing);
      valid := sys.routing == initial || (r.cleanupPending && reached);
    } else {
      valid := sys.routing == EMPTY;
    }
    return if valid then Some(sys.nft.Doc?) else None;
  }

  function CleanupSteps(r: LegacyRecord): seq<RoutingStep> {
    RollbackSteps(r.OwnedPlans())
  }

  lemma CleanupStepsAreTheRollback(r: LegacyRecord)
    ensures AllRemovals(CleanupSteps(r))
    ensures r.pending.Some? ==> CleanupSteps(r) == RollbackSteps(Plans(r.Active(), r.pending.value.lanes))
    ensures r.pending.None? && r.active.Some? ==> CleanupSteps(r) == RollbackSteps([r.active.value.lanes])
    ensures r.pending.None? && r.active.None? ==> CleanupSteps(r) == []
  {
    if r.pending.Some? {
      assert r.OwnedPlans() == Plans(match r.active case None => None case Some(p) => Some(p.lanes), r.pending.value.lanes);
      RollbackShape(r.Active(), r.pending.value.lanes);
      if r.active.Some? {
        BasisRollsBackAlike(r.active.value.lanes, r.lost, r.pending.value.lanes);
      }
    } else if r.active.Some? {
      assert r.OwnedPlans() == [r.active.value.lanes] == Plans(None, r.active.value.lanes);
      RollbackShape(None, r.active.value.lanes);
    }
  }

  /** Recording the cleanup intent loses nothing. */
  lemma IntentKeepsOwnership(r: LegacyRecord, sys: Sys)
    requires r.Valid() && LegacyOwned(r, sys)
    ensures LegacyOwned(r.(cleanupPending := true), sys)
  {
    var phase := LegacyPhase(r, sys.nft);
    IntentKeepsPhase(r, sys.nft);
    if phase.Some? && LegacyReachable(r, phase.value, sys.routing) {
      IntentKeepsReach(r, phase.value, sys.routing);
    }
  }

  lemma IntentKeepsPhase(r: LegacyRecord, nft: Nft)
    ensures LegacyPhase(r.(cleanupPending := true), nft) == LegacyPhase(r, nft)
  {
  }

  lemma IntentKeepsReach(r: LegacyRecord, phase: Phase, live: Ownership)
    requires LegacyReachable(r, phase, live)
    ensures LegacyReachable(r.(cleanupPending := true), phase, live)
  {
    if r.pending.Some? && phase.RollbackAbsent? && !r.cleanupPending {
      StageExtendsToRollback(
        PhaseStage(r.Active(), r.pending.value.lanes, RollbackAbsent),
        RollbackSteps(Plans(r.Active(), r.pending.value.lanes)),
        live);
    }
  }

  lemma StageExtendsToRollback(stage: CrashModel.Stage, rollback: seq<RoutingStep>, live: Ownership)
    requires Reaches(stage.start, stage.steps, live)
    ensures ReachesThroughRollback(stage, rollback, live)
  {
    var k :| 0 <= k <= |stage.steps| && StateAt(stage.start, stage.steps, k) == live;
    ReachesHere(live, rollback);
  }

  lemma RollbackExtends(s: Ownership, steps: seq<RoutingStep>, live: Ownership, j: nat)
    requires AllRemovals(steps) && Reaches(s, steps, live) && j <= |steps|
    ensures Reaches(s, steps, StateAt(live, steps, j))
  {
    var k :| 0 <= k <= |steps| && StateAt(s, steps, k) == live;
    InterruptedRollback(s, steps, k, j);
    assert StateAt(s, steps, if k < j then j else k) == StateAt(live, steps, j);
  }

  /** Every prefix of the cleanup is itself owned, in the absent phase too. */
  lemma CleanupKeepsOwnership(r: LegacyRecord, sys: Sys, j: nat)
    requires r.Valid() && r.cleanupPending && LegacyOwned(r, sys) && j <= |CleanupSteps(r)|
    ensures LegacyOwned(r, Sys(sys.nft, StateAt(sys.routing, CleanupSteps(r), j)))
  {
    var steps := CleanupSteps(r);
    var after := StateAt(sys.routing, steps, j);
    CleanupStepsAreTheRollback(r);
    if sys.nft.Absent? && sys.routing == EMPTY {
      RemovalRun(EMPTY, steps[..j]);
      assert after == EMPTY;
    } else if r.pending.Some? {
      var phase := LegacyPhase(r, sys.nft).value;
      var stage := PhaseStage(r.Active(), r.pending.value.lanes, phase);
      var i :| 0 <= i <= |stage.steps| && Reaches(StateAt(stage.start, stage.steps, i), steps, sys.routing);
      RollbackExtends(StateAt(stage.start, stage.steps, i), steps, sys.routing, j);
      assert ReachesThroughRollback(stage, steps, after);
    } else if r.active.Some? {
      var initial := PlanOwnership(r.active.value.lanes);
      if sys.routing == initial { ReachesHere(initial, steps); }
      RollbackExtends(initial, steps, sys.routing, j);
    }
  }

  lemma PendingCleanupEmpties(r: LegacyRecord, sys: Sys)
    requires r.Valid() && r.cleanupPending && LegacyOwned(r, sys) && r.pending.Some? && sys.routing != EMPTY
    ensures Run(sys.routing, RollbackSteps(Plans(r.Active(), r.pending.value.lanes))) == EMPTY
  {
    var active, pending := r.Active(), r.pending.value.lanes;
    var steps := RollbackSteps(Plans(active, pending));
    var phase := LegacyPhase(r, sys.nft).value;
    var stage := PhaseStage(active, pending, phase);
    RollbackShape(active, pending);
    var i :| 0 <= i <= |stage.steps| && Reaches(StateAt(stage.start, stage.steps, i), steps, sys.routing);
    var from := StateAt(stage.start, stage.steps, i);
    var k :| 0 <= k <= |steps| && StateAt(from, steps, k) == sys.routing;
    StageIsWithin(active, pending, phase, i);
    RemovalsStayWithin(active, pending, from, steps[..k]);
    RollbackEmpties(active, pending, sys.routing);
  }

  lemma ActiveCleanupEmpties(plan: KernelPlan, live: Ownership)
    requires DistinctTables(plan.lanes)
    requires live == PlanOwnership(plan.lanes) || Reaches(PlanOwnership(plan.lanes), RollbackSteps([plan.lanes]), live)
    ensures Run(live, RollbackSteps([plan.lanes])) == EMPTY
  {
    assert Plans(None, plan.lanes) == [plan.lanes];
    RollbackShape(None, plan.lanes);
    if live != PlanOwnership(plan.lanes) {
      CleanupShrinks(plan, PlanOwnership(plan.lanes), RollbackSteps([plan.lanes]), live);
    }
    CleanupEmpties(plan, live);
  }

  /** The full cleanup leaves nothing. */
  lemma CleanupEmptiesOwned(r: LegacyRecord, sys: Sys)
    requires r.Valid() && r.cleanupPending && LegacyOwned(r, sys)
    ensures Run(sys.routing, CleanupSteps(r)) == EMPTY
  {
    CleanupStepsAreTheRollback(r);
    if sys.routing == EMPTY {
      RemovalRun(EMPTY, CleanupSteps(r));
    } else if r.pending.Some? {
      PendingCleanupEmpties(r, sys);
    } else if r.active.Some? {
      ActiveCleanupEmpties(r.active.value, sys.routing);
    }
  }

  datatype Outcome = Refused | Failed | Cleaned

  /** A journal that holds only a schema-2 record. */
  function Held(r: LegacyRecord): Record {
    EMPTY_RECORD.(legacy := Some(r))
  }

  /** The journal and the kernel a cleanup may start from. */
  ghost predicate Removable(s: Snapshot) {
    && s.record.Some? && s.record.value.legacy.Some? && s.record == Some(Held(s.record.value.legacy.value))
    && s.record.value.legacy.value.Valid() && LegacyOwned(s.record.value.legacy.value, s.sys)
  }

  ghost predicate NewlyRemovable(before: set<Snapshot>, after: set<Snapshot>) {
    forall s :: s in after && s !in before ==> Removable(s) || s == Snapshot(None, Sys(Absent, EMPTY))
  }

  /** The ownership proof against the live kernel. */
  method CheckOwned(world: Durable, r: LegacyRecord) returns (read: bool, present: Option<bool>)
    requires world.Sane() && r.Valid()
    modifies world`faults
    ensures world.Sane() && world.faults == old(world.faults) + if read then 0 else 1
    ensures read ==> (present.Some? <==> LegacyOwned(r, world.Now().sys))
    ensures read && present.Some? ==> present.value == world.nft.Doc?
  {
    present := None;
    read := world.Attempt();
    if read {
      present := VerifyLegacyLive(r, world.Now().sys);
    }
  }

  /**
   * A cleanup whose ownership is proven removes everything unless something fails; one that is stopped leaves
   * a journal and a kernel that the next cleanup can start from. Without the proof nothing is touched.
   */
  method CleanUp(world: Durable, record: LegacyRecord) returns (outcome: Outcome)
    requires world.Sane() && world.Now() in world.seen && world.record == Some(Held(record))
    modifies world
    ensures world.Sane() && old(world.seen) <= world.seen && world.Now() in world.seen
    ensures old(world.faults) <= world.faults && (outcome == Failed <==> world.faults > old(world.faults))
    ensures outcome == Refused ==> !old(Removable(world.Now()))
    ensures !old(Removable(world.Now())) ==> outcome != Cleaned && world.Now() == old(world.Now())
    ensures outcome == Cleaned ==> world.Now() == Snapshot(None, Sys(Absent, EMPTY))
    ensures NewlyRemovable(old(world.seen), world.seen)
    ensures old(Removable(world.Now())) && outcome == Failed ==> Removable(world.Now())
  {
    if !record.Valid() {
      return Refused;
    }
    var read, present := CheckOwned(world, record);
    if !read {
      return Failed;
    }
    if present.None? {
      return Refused;
    }
    IntentKeepsOwnership(record, world.Now().sys);
    var intent := record.(cleanupPending := true);
    var ok := world.Save(Held(intent));
    if ok {
      ok := RemoveResources(world, intent);
    }
    if ok {
      ok := Forget(world, intent);
    }
    return if ok then Cleaned else Failed;
  }

  /** Removes rules, then tables; every step is preceded by the ownership proof and none of them breaks it. */
  method RemoveResources(world: Durable, intent: LegacyRecord) returns (ok: bool)
    requires world.Sane() && world.record == Some(Held(intent)) && Removable(world.Now()) && intent.cleanupPending
    modifies world
    ensures world.Sane() && old(world.seen) <= world.seen && world.faults == old(world.faults) + if ok then 0 else 1
    ensures world.record == old(world.record) && Removable(world.Now())
    ensures ok ==> world.routing == EMPTY
    ensures NewlyRemovable(old(world.seen), world.seen)
    ensures old(world.Now() in world.seen) ==> world.Now() in world.seen
  {
    ghost var start := world.Now().sys;
    var rules := BuildRollbackRuleOrder(intent.OwnedPlans());
    var tables := BuildRollbackTableOrder(intent.OwnedPlans());
    var steps := DeleteRules(rules) + tables;
    for i := 0 to |steps|
      invariant world.Sane() && old(world.seen) <= world.seen && world.faults == old(world.faults)
      invariant world.record == old(world.record) && world.nft == start.nft && world.routing == StateAt(start.routing, steps, i)
      invariant Removable(world.Now()) && NewlyRemovable(old(world.seen), world.seen)
      invariant old(world.Now() in world.seen) ==> world.Now() in world.seen
    {
      CleanupKeepsOwnership(intent, start, i + 1);
      RunSnoc(start.routing, steps, i);
      ok := RemoveOne(world, intent, steps[i]);
      if !ok {
        return;
      }
    }
    CleanupEmptiesOwned(intent, start);
    assert steps[..|steps|] == steps;
    ok := true;
  }

  method RemoveOne(world: Durable, intent: LegacyRecord, step: RoutingStep) returns (ok: bool)
    requires world.Sane() && world.record == Some(Held(intent)) && Removable(world.Now())
    requires LegacyOwned(intent, Sys(world.nft, Apply(world.routing, step)))
    modifies world
    ensures world.Sane() && old(world.seen) <= world.seen && world.faults == old(world.faults) + if ok then 0 else 1
    ensures world.record == old(world.record) && world.nft == old(world.nft)
    ensures ok ==> world.routing == Apply(old(world.routing), step)
    ensures Removable(world.Now()) && NewlyRemovable(old(world.seen), world.seen)
    ensures old(world.Now() in world.seen) ==> world.Now() in world.seen
  {
    var present;
    ok, present := CheckOwned(world, intent);
    if !ok || present.None? {
      return false;
    }
    ok := world.RunStep(step);
  }

  /** Deletes the table if it is there, proves that nothing is left and clears the journal. */
  method Forget(world: Durable, intent: LegacyRecord) returns (ok: bool)
    requires world.Sane() && world.record == Some(Held(intent)) && Removable(world.Now()) && intent.cleanupPending
    requires world.routing == EMPTY && world.Now() in world.seen
    modifies world
    ensures world.Sane() && old(world.seen) <= world.seen && world.faults == old(world.faults) + if ok then 0 else 1
    ensures world.Now() in world.seen && NewlyRemovable(old(world.seen), world.seen)
    ensures if ok then world.Now() == Snapshot(None, Sys(Absent, EMPTY)) else Removable(world.Now())
  {
    var present;
    ok, present := CheckOwned(world, intent);
    if !ok || present.None? {
      return false;
    }
    if present == Some(true) {
      ok := world.RunNft(Absent);
      if !ok {
        return;
      }
    }
    ok := world.Attempt();
    if !ok || world.nft.Doc? || world.routing != EMPTY {
      return false;
    }
    ok := world.Clear();
  }

  /** Whatever state a stopped cleanup left, a cleanup on which nothing fails finishes it. */
  method Resume(stopped: Durable, before: set<Snapshot>, s: Snapshot) returns (world: Durable, outcome: Outcome)
    requires NewlyRemovable(before, stopped.seen) && s in stopped.seen && s !in before && s.record.Some?
    ensures outcome == Cleaned && world.Now() == Snapshot(None, Sys(Absent, EMPTY))
  {
    world := new Durable(s, Sound, {});
    outcome := CleanUp(world, s.record.value.legacy.value);
  }
}
