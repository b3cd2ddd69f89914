/** A helper between operations: what it remembers, and what the journal and the kernel hold. */
module Situations {
  import opened Wrappers
  import opened Plan
  import opened Routing
  import opened Composition
  import opened FailClosed
  import opened CrashModel
  import opened Journal
  import opened World
  import opened Accounting

  datatype Memory = Memory(
    current: Option<KernelPlan>,
    settings: seq<SettingReceipt>,
    restoreReceipt: Option<RestoreReceipt>,
    runtime: Option<RuntimeRecord>,
    runtimeRestore: Option<RuntimeRecord>,
    runtimeLoaded: bool,
    initialized: bool)

  /** What a helper remembers when it starts. */
  const BLANK: Memory := Memory(None, [], None, None, None, false, false)

  /** No journal, and nothing of RouteLane in the kernel. */
  const NOTHING: Snapshot := Snapshot(None, Sys(Absent, EMPTY))

  /** The runtime authority a journal carries. */
  function RuntimeOf(record: Option<Record>): (Option<RuntimeRecord>, Option<RuntimeRecord>) {
    if record.None? then (None, None) else (record.value.runtime, record.value.runtimeRestore)
  }

  predicate MidOperation(record: Option<Record>) {
    record.Some? && (record.value.pending.Some? || record.value.cleanupPending)
  }

  /** Where the recovery of an interrupted transition ends. */
  function Recovered(r: Record): Snapshot
    requires r.pending.Some? && r.expectations.Some?
  {
    Snapshot(if r.active.None? then None else Some(CommittedRecord(r.active, None, ExtrasOf(r))), TransactionOf(r).Target())
  }

  /** A record written ahead names what it will write, and recovered it is the committed one that it replaced. */
  lemma WritingAheadLosesNothing(
    active: Option<KernelPlan>, lost: LostUnicast, pending: KernelPlan, receipt: Option<RestoreReceipt>,
    extras: Extras, pendingRuntime: Option<RuntimeRecord>, intents: seq<SettingReceipt>)
    ensures var r := PendingRecord(active, lost, pending, receipt, extras, pendingRuntime, intents);
            && r.pending.Some? && r.expectations.Some?
            && Recovered(r) == Snapshot(if active.None? then None else Some(CommittedRecord(active, None, extras)),
                                        Transaction(active, lost, pending).Target())
            && r.pendingInterfaceSettings == intents && r.pendingRuntime == pendingRuntime && r.restoreReceipt == receipt
            && !r.cleanupPending && r.legacy.None?
  {
  }

  /** A committed record tells its plan, its restore receipt, its setting receipts and its runtime authority. */
  lemma CommittedRecordsDiffer(
    plan: Option<KernelPlan>, receipt: Option<RestoreReceipt>, extras: Extras,
    plan': Option<KernelPlan>, receipt': Option<RestoreReceipt>, extras': Extras)
    ensures CommittedRecord(plan, receipt, extras) == CommittedRecord(plan', receipt', extras')
            <==> plan == plan' && receipt == receipt' && extras == extras'
  {
  }

  /** What a completed removal leaves in the journal. */
  function Forgotten(receipt: Option<RestoreReceipt>): Option<Record> {
    if receipt.None? then None else Some(CommittedRecord(None, receipt, NO_EXTRAS))
  }

  datatype Situation = Situation(memory: Memory, now: Snapshot) {
    /** No operation is pending, and memory and journal name the same generation and receipts. */
    predicate Aligned() {
      match now.record
      case None => memory.current == None && memory.settings == [] && memory.restoreReceipt == None
      case Some(r) =>
        r == CommittedRecord(memory.current, memory.restoreReceipt, Extras(memory.settings, r.runtime, r.runtimeRestore))
    }

    predicate RuntimeAgrees() {
      memory.runtimeLoaded ==> RuntimeOf(now.record) == (memory.runtime, memory.runtimeRestore)
    }

    /** Between operations of a helper that has finished reconciling. */
    predicate Idle() {
      memory.initialized && !MidOperation(now.record) && Aligned()
    }

    /** No runtime authority is armed, in memory or in the journal that has not been read yet. */
    predicate Unarmed() {
      if memory.runtimeLoaded then memory.runtime.None? else RuntimeOf(now.record).0.None?
    }

    /** Live, journaled and remembered: exactly this generation. */
    predicate Exactly(plan: Option<KernelPlan>) {
      && Idle() && memory.current == plan
      && now.sys == match plan case None => Sys(Absent, EMPTY) case Some(p) => Sys(Committed(p), PlanOwnership(p.lanes))
    }

    // ----- What operations need apart from commands that work -----

    /** A start. */
    ghost predicate Recoverable() {
      match now.record
      case None => true
      case Some(r) =>
        if r.pending.Some? then WithinReceiptBound(r) && r.expectations.Some? && Accepts(TransactionOf(r), now.sys)
        else if r.cleanupPending then WithinReceiptBound(r)
        else memory.initialized || (WithinReceiptBound(r) && now.sys == Transaction(r.active, {}, EMPTY_PLAN).Target())
    }

    /** After the recovery of an interrupted transition; runtime authority is read from the journal again. */
    function RolledBack(r: Record): Situation
      requires r.pending.Some? && r.expectations.Some?
    {
      Situation(
        memory.(current := r.active, settings := r.interfaceSettings, restoreReceipt := None,
                runtimeLoaded := false, initialized := true),
        Recovered(r))
    }

    /** Where a start ends on which nothing fails. */
    ghost function Reconciled(): Situation
      requires Recoverable()
    {
      match now.record
      case None => this.(memory := memory.(initialized := true))
      case Some(r) =>
        if r.pending.Some? then
          RolledBack(r)
        else if r.cleanupPending then
          Situation(
            memory.(current := None, settings := [], restoreReceipt := r.restoreReceipt, initialized := true),
            Snapshot(Forgotten(r.restoreReceipt), Sys(Absent, EMPTY)))
        else if memory.initialized then
          this
        else
          Situation(
            memory.(current := r.active, settings := r.interfaceSettings, restoreReceipt := r.restoreReceipt, initialized := true),
            now.(record := if r.active.None? && r.restoreReceipt.None? then None else now.record))
    }

    predicate Newer(plan: KernelPlan) {
      memory.current.Some? ==> plan.generation > memory.current.value.generation
    }

    predicate Supersedes(plan: KernelPlan) {
      memory.current.Some? && plan.generation <= memory.current.value.generation ==> plan == memory.current.value
    }

    /** Nothing live is missing but unicast defaults that this plan gives up anyway. */
    ghost predicate LossesTolerable(plan: KernelPlan) {
      memory.current.Some? ==> Tolerable(memory.current.value, plan, now.sys)
    }

    /** An apply. */
    ghost predicate Ready(plan: KernelPlan) {
      UniqueKeys(plan.rules) && Idle() && Unarmed() && Supersedes(plan) && LossesTolerable(plan)
    }

    /** The receipts in force once `plan` is: what was owned, and one for every interface that needs it. */
    function Grown(plan: KernelPlan, unmarked: set<InterfaceIdentity>): seq<SettingReceipt> {
      memory.settings + NeededReceipts(memory.settings, MarkAware(plan.lanes), unmarked)
    }

    /** The restore this receipt stands for has already been done. */
    predicate Repeated(failed: KernelPlan, previous: Option<KernelPlan>) {
      && memory.restoreReceipt == Some(NewReceipt(failed, previous))
      && NewReceipt(failed, previous).PreviousMatches(memory.current)
    }

    /** A restore. */
    predicate Restorable(failed: KernelPlan, previous: Option<KernelPlan>) {
      && Unarmed() && Exactly(memory.current)
      && (previous.Some? ==> previous.value.generation < failed.generation)
      && (Repeated(failed, previous)
          || (memory.current == Some(failed) && (previous.None? ==> WithinReceiptBound(now.record.value))))
    }

    /** A cleanup. */
    ghost predicate Cleanable() {
      (now.record.Some? ==> WithinReceiptBound(now.record.value)) && (MidOperation(now.record) ==> Recoverable())
    }

    // ----- Situations that meet them -----

    lemma ExactIsReady(plan: KernelPlan)
      requires Exactly(memory.current) && Unarmed() && UniqueKeys(plan.rules) && Newer(plan)
      ensures Recoverable() && Reconciled() == this && Ready(plan)
    {
    }

    /** A new helper can start where this one is exactly if the receipts are within the bound of a load. */
    lemma ExactRestartsIff(plan: KernelPlan)
      requires Exactly(Some(plan))
      ensures Situation(BLANK, now).Recoverable() <==> |memory.settings| <= 2 * MAX_LANES
    {
      NothingLost(plan);
    }
  }

  const EMPTY_PLAN: KernelPlan :=
    KernelPlan(PrimaryDecision(FamilyPair(None, None), FamilyPair(Blocked, Blocked)), [], [], 0, "", [], [])
}
