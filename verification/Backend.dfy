/** The helper's operations over the journal and the kernel, and what survives a crash in any of them. */
module Backend {
  import opened Sequences
  import opened Wrappers
  import opened Plan
  import opened Routing
  import opened Composition
  import opened FailClosed
  import opened Rollback
  import opened StepBuilders
  import opened CrashModel
  import opened CrashCheck
  import opened Journal
  import opened World
  import opened Runner
  import opened Accounting
  import opened Situations

  class PrivilegedBackend {
    const world: Durable
    var current: Option<KernelPlan>
    var settings: seq<SettingReceipt>
    var restoreReceipt: Option<RestoreReceipt>
    var runtime: Option<RuntimeRecord>
    var runtimeRestore: Option<RuntimeRecord>
    var runtimeLoaded: bool
    var initialized: bool

    constructor (world: Durable)
      ensures this.world == world && Fresh()
    {
      this.world := world;
      current, settings, restoreReceipt := None, [], None;
      runtime, runtimeRestore, runtimeLoaded, initialized := None, None, false, false;
    }

    predicate Fresh()
      reads this
    {
      && !initialized && !runtimeLoaded && NoRuntime()
      && current == None && settings == [] && restoreReceipt == None
    }

    function Here(): Situation
      reads this, world
    {
      Situation(Memory(current, settings, restoreReceipt, runtime, runtimeRestore, runtimeLoaded, initialized), world.Now())
    }

    ghost predicate Durably()
      reads world
    {
      world.Sane() && world.Now() in world.seen && AllAccounted(world.seen)
    }

    function CommittedExtras(): Extras
      reads this
    {
      Extras(settings, runtime, runtimeRestore)
    }

    predicate NoRuntime()
      reads this
    {
      runtime == None && runtimeRestore == None
    }

    /** The runtime authority the journal carries. */
    function JournaledRuntime(): (Option<RuntimeRecord>, Option<RuntimeRecord>)
      reads world
    {
      RuntimeOf(world.record)
    }

    /** No operation is pending, and memory and journal name the same generation and receipts. */
    predicate Aligned()
      reads this, world
    {
      Here().Aligned()
    }

    predicate RuntimeAgrees()
      reads this, world
    {
      Here().RuntimeAgrees()
    }

    /** Memory and journal agree in everything. */
    predicate Settled()
      reads this, world
    {
      Aligned() && RuntimeAgrees()
    }

    predicate Interrupted()
      reads world
    {
      MidOperation(world.record)
    }

    /** What holds between operations, whatever failed before. A helper may have forgotten runtime authority, never invented it. */
    ghost predicate Coherent()
      reads this, world
    {
      && Durably()
      && (if initialized then Interrupted() || Aligned() else Fresh())
      && (RuntimeAgrees() || NoRuntime())
    }

    /** Between operations of a helper that has read its journal. */
    ghost predicate Steady()
      reads this, world
    {
      Durably() && initialized && Aligned() && (RuntimeAgrees() || NoRuntime())
    }

    ghost predicate ValidMemory()
      reads this
    {
      (current.Some? ==> ValidPlan(current.value)) && ValidExtras(CommittedExtras(), current)
    }

    lemma SteadyMemoryIsValid()
      requires Steady()
      ensures runtimeLoaded ==> ValidMemory()
      ensures WellFormedReceipts(settings) && (current.Some? ==> ValidPlan(current.value)) && (current.None? ==> settings == [])
      ensures CommittedState(current, world.Now().sys)
      ensures restoreReceipt.Some? ==> restoreReceipt.value.PreviousMatches(current)
    {
      assert Accounted(world.Now());
    }

    // ----- Persisting -----

    method PersistCommitted(plan: Option<KernelPlan>, receipt: Option<RestoreReceipt>, extras: Extras) returns (ok: bool)
      requires Durably() && CommittedState(plan, world.Now().sys)
      requires plan.Some? ==> ValidPlan(plan.value)
      requires receipt.Some? ==> receipt.value.PreviousMatches(plan)
      requires WellFormedReceipts(extras.settings)
      modifies world
      ensures Durably() && old(world.seen) <= world.seen
      ensures world.nft == old(world.nft) && world.routing == old(world.routing)
      ensures world.record == if !ok then old(world.record)
                              else if plan.None? && receipt.None? then None
                              else Some(CommittedRecord(plan, receipt, extras))
      ensures ValidExtras(extras, plan) ==> world.faults == old(world.faults) + if ok then 0 else 1
      ensures !ValidExtras(extras, plan) ==> !ok && world.faults == old(world.faults)
    {
      if plan.None? && extras != NO_EXTRAS {
        return false;
      }
      CommittedRecordLoadsIff(plan, receipt, extras);
      if plan.None? && receipt.None? {
        ok := world.Clear();
      } else {
        ok := world.Save(CommittedRecord(plan, receipt, extras));
      }
    }

    /** Makes the journal of a running transition durable. */
    method SavePending(
      ghost t: Transaction, record: Record, ghost receipt: Option<RestoreReceipt>,
      ghost pendingRuntime: Option<RuntimeRecord>, ghost intents: seq<SettingReceipt>)
      returns (ok: bool)
      requires Durably() && t.active == current && t.Valid() && Accepts(t, world.Now().sys)
      requires record == PendingRecord(current, t.lost, t.pending, receipt, CommittedExtras(), pendingRuntime, intents)
      requires ValidMemory() && ValidPlan(t.pending) && ReceiptFits(receipt, current, t.pending)
      requires WellFormedReceipts(intents)
      modifies world
      ensures Durably() && old(world.seen) <= world.seen
      ensures world.faults == old(world.faults) + if ok then 0 else 1
      ensures world.nft == old(world.nft) && world.routing == old(world.routing)
      ensures world.record == if ok then Some(record) else old(world.record)
      ensures ok ==> PendingOf(world.record, t)
    {
      PendingRecordLoadsIff(current, t.lost, t.pending, receipt, CommittedExtras(), pendingRuntime, intents);
      ok := world.Save(record);
    }

    // ----- Interface settings -----

    method MarkAwareIdentities(plan: KernelPlan) returns (identities: seq<InterfaceIdentity>)
      ensures identities == MarkAware(plan.lanes)
    {
      identities := [];
      for i := 0 to |plan.lanes|
        invariant identities == MarkAware(plan.lanes[..i])
      {
        assert plan.lanes[..i + 1][..i] == plan.lanes[..i];
        var lane := plan.lanes[i];
        if lane.availability != Available || lane.routeV4.None? || lane.identity.None? {
          continue;
        }
        if lane.identity.value !in identities {
          identities := identities + [lane.identity.value];
        }
      }
      assert plan.lanes[..|plan.lanes|] == plan.lanes;
    }

    /** The journal of the running transaction with these setting intents, loadable and naming the authority in memory. */
    ghost predicate Intends(
      t: Transaction, record: Record, receipt: Option<RestoreReceipt>, pendingRuntime: Option<RuntimeRecord>,
      intents: seq<SettingReceipt>)
      reads this, world
    {
      && record == PendingRecord(current, t.lost, t.pending, receipt, CommittedExtras(), pendingRuntime, intents)
      && WellFormedReceipts(intents) && Journaled(t) && world.record.value.pendingInterfaceSettings == intents
    }

    /** The pending journal of this transaction carries the runtime authority and the setting receipts in memory. */
    ghost predicate Journaled(t: Transaction)
      reads this, world
    {
      PendingOf(world.record, t) && JournaledRuntime() == (runtime, runtimeRestore)
      && world.record.value.interfaceSettings == settings
    }

    ghost predicate InTransition(t: Transaction, receipt: Option<RestoreReceipt>)
      reads this, world
    {
      && Durably() && t.active == current && t.Valid() && Accepts(t, world.Now().sys)
      && ValidMemory() && ValidPlan(t.pending) && ReceiptFits(receipt, current, t.pending)
    }

    /** Journals the intent for one interface RouteLane does not own yet, and only then writes to it. */
    method EnsureSetting(
      ghost t: Transaction, record: Record, ghost receipt: Option<RestoreReceipt>,
      ghost pendingRuntime: Option<RuntimeRecord>, applied: seq<SettingReceipt>, identity: InterfaceIdentity)
      returns (ok: bool, next: Record, all: seq<SettingReceipt>)
      requires InTransition(t, receipt) && Intends(t, record, receipt, pendingRuntime, applied)
      modifies world
      ensures InTransition(t, receipt) && old(world.seen) <= world.seen
      ensures world.faults == old(world.faults) + if ok then 0 else 1
      ensures world.nft == old(world.nft) && world.routing == old(world.routing)
      ensures Journaled(t) && WellFormedReceipts(all)
      ensures ok ==> Intends(t, next, receipt, pendingRuntime, all)
      ensures ok ==> all == if Owns(settings, identity) || identity !in world.unmarked then applied
                            else applied + [SettingReceipt(identity, 0, 1)]
    {
      next, all := record, applied;
      if Owns(settings, identity) {
        return true, next, all;
      }
      ok := world.Attempt();
      if !ok || identity !in world.unmarked {
        return;
      }
      var intent := SettingReceipt(identity, 0, 1);
      OneMoreReceipt(applied, intent);
      next := record.(pendingInterfaceSettings := applied + [intent]);
      ok := SavePending(t, next, receipt, pendingRuntime, applied + [intent]);
      if !ok {
        return;
      }
      ok := world.Attempt();
      if ok {
        all := applied + [intent];
      }
    }

    /** Every intent is in the journal before its write; the writes themselves are the subject of the settings module. */
    method EnsureSettings(
      ghost t: Transaction, journal: Record, ghost receipt: Option<RestoreReceipt>,
      ghost pendingRuntime: Option<RuntimeRecord>, plan: KernelPlan)
      returns (ok: bool, applied: seq<SettingReceipt>)
      requires plan == t.pending && InTransition(t, receipt) && Intends(t, journal, receipt, pendingRuntime, [])
      modifies world
      ensures InTransition(t, receipt) && old(world.seen) <= world.seen
      ensures world.faults == old(world.faults) + if ok then 0 else 1
      ensures world.nft == old(world.nft) && world.routing == old(world.routing)
      ensures Journaled(t) && WellFormedReceipts(applied)
      ensures ok ==> applied == NeededReceipts(settings, MarkAware(plan.lanes), world.unmarked)
      ensures ok ==> world.record.value.pendingInterfaceSettings == applied
    {
      var identities := MarkAwareIdentities(plan);
      ok, applied := EnsureEach(t, journal, receipt, pendingRuntime, identities);
    }

    method EnsureEach(
      ghost t: Transaction, journal: Record, ghost receipt: Option<RestoreReceipt>,
      ghost pendingRuntime: Option<RuntimeRecord>, identities: seq<InterfaceIdentity>)
      returns (ok: bool, applied: seq<SettingReceipt>)
      requires InTransition(t, receipt) && Intends(t, journal, receipt, pendingRuntime, [])
      modifies world
      ensures InTransition(t, receipt) && old(world.seen) <= world.seen
      ensures world.faults == old(world.faults) + if ok then 0 else 1
      ensures world.nft == old(world.nft) && world.routing == old(world.routing)
      ensures Journaled(t) && WellFormedReceipts(applied)
      ensures ok ==> applied == NeededReceipts(settings, identities, world.unmarked)
      ensures ok ==> world.record.value.pendingInterfaceSettings == applied
    {
      var record := journal;
      applied := [];
      for i := 0 to |identities|
        invariant InTransition(t, receipt) && Intends(t, record, receipt, pendingRuntime, applied)
        invariant old(world.seen) <= world.seen && world.faults == old(world.faults)
        invariant world.nft == old(world.nft) && world.routing == old(world.routing)
        invariant applied == NeededUpTo(settings, identities, i, world.unmarked)
      {
        ok, record, applied := EnsureNext(t, record, receipt, pendingRuntime, applied, identities, i);
        if !ok {
          return;
        }
      }
      ok := true;
    }

    method EnsureNext(
      ghost t: Transaction, record: Record, ghost receipt: Option<RestoreReceipt>,
      ghost pendingRuntime: Option<RuntimeRecord>, applied: seq<SettingReceipt>, identities: seq<InterfaceIdentity>, i: nat)
      returns (ok: bool, next: Record, all: seq<SettingReceipt>)
      requires InTransition(t, receipt) && Intends(t, record, receipt, pendingRuntime, applied)
      requires i < |identities| && applied == NeededUpTo(settings, identities, i, world.unmarked)
      modifies world
      ensures InTransition(t, receipt) && old(world.seen) <= world.seen
      ensures world.faults == old(world.faults) + if ok then 0 else 1
      ensures world.nft == old(world.nft) && world.routing == old(world.routing)
      ensures Journaled(t) && WellFormedReceipts(all)
      ensures ok ==> Intends(t, next, receipt, pendingRuntime, all)
      ensures ok ==> all == NeededUpTo(settings, identities, i + 1, world.unmarked)
    {
      ok, next, all := EnsureSetting(t, record, receipt, pendingRuntime, applied, identities[i]);
    }

    // ----- Exact checks -----

    /** Is the live kernel exactly this rollback target? */
    method VerifyExact(plan: Option<KernelPlan>, lost: LostUnicast) returns (ok: bool)
      requires world.Sane()
      modifies world`faults
      ensures world.Sane() && old(world.faults) <= world.faults
      ensures ok ==> world.Now().sys == Transaction(plan, lost, EMPTY_PLAN).Target()
      ensures world.Now().sys == Transaction(plan, lost, EMPTY_PLAN).Target() ==>
                world.faults == old(world.faults) + if ok then 0 else 1
    {
      var readable;
      if plan.Some? {
        readable := world.Survey();
      } else {
        readable := world.Attempt();
      }
      ok := readable && world.Now().sys == Transaction(plan, lost, EMPTY_PLAN).Target();
    }

    /** After a rollback the journal returns to the previous generation only if the kernel proves it. */
    method Undo(ghost t: Transaction, rollbackSucceeded: bool, lost: LostUnicast) returns (ok: bool)
      requires Durably() && t.Valid() && t.active == current && lost == t.lost && ValidMemory()
      modifies world
      ensures Durably() && old(world.seen) <= world.seen && old(world.faults) <= world.faults
      ensures world.nft == old(world.nft) && world.routing == old(world.routing)
      ensures ok ==> rollbackSucceeded && world.Now().sys == t.Target()
      ensures world.record == if ok then Previous() else old(world.record)
      ensures rollbackSucceeded && world.Now().sys == t.Target() ==>
                world.faults == old(world.faults) + if ok then 0 else 1
    {
      if !rollbackSucceeded {
        return false;
      }
      ok := VerifyExact(current, lost);
      if !ok {
        return false;
      }
      TargetIsCommitted(t);
      ok := PersistCommitted(current, None, CommittedExtras());
    }

    /** The journal that goes with memory and no restore receipt. */
    function Previous(): Option<Record>
      reads this
    {
      if current.None? then None else Some(CommittedRecord(current, None, CommittedExtras()))
    }

    /** The kernel is where it was and the journal is back on what memory holds. */
    ghost predicate Undone(t: Transaction)
      reads this, world
    {
      world.Now().sys == t.Target() && world.record == Previous()
    }

    // ----- The transition -----

    /** Runs the stages; a failed transition undoes itself as far as the kernel lets it. */
    method RunTransition(runner: KernelRunner, ghost t: Transaction, plan: KernelPlan, lost: LostUnicast) returns (ok: bool)
      requires Durably() && runner.world == world && runner.t == t && runner.Valid() && ValidMemory()
      requires plan == t.pending && t.active == current && lost == t.lost && runner.next == None
      requires world.Now().sys == t.Target() && !runner.guardInstalled && !runner.tablePresent
      requires PendingOf(world.record, t)
      modifies runner, world
      ensures Durably() && old(world.seen) <= world.seen && old(world.faults) <= world.faults
      ensures ok <==> world.faults == old(world.faults)
      ensures ok ==> runner.Valid() && runner.tablePresent && runner.next == Some(plan)
      ensures ok ==> world.record == old(world.record)
      ensures ok ==> world.Now().sys == Sys(Committed(plan), PlanOwnership(plan.lanes))
      ensures !ok ==> world.record == old(world.record) || Undone(t)
      ensures !ok && world.faults == old(world.faults) + 1 && t.active.Some? ==> Undone(t)
    {
      ghost var before := world.seen;
      var transition := runner.Transition(plan);
      AcceptedIsAccounted(t, world.record, before, world.seen, true);
      if transition.Ok? {
        return true;
      }
      var _ := Undo(t, !transition.error.rollbackFailed && !transition.error.cleanupFailed, lost);
      return false;
    }

    /** The kernel is where it was, and so is the journal, up to a receipt that went out of force with the attempt. */
    ghost predicate Back(t: Transaction, wasRecord: Option<Record>, wasReceipt: Option<RestoreReceipt>)
      reads this, world
    {
      && world.Now().sys == t.Target()
      && (if restoreReceipt.None? then world.record == Previous() || (wasReceipt.None? && world.record == wasRecord)
          else world.record == wasRecord && restoreReceipt == wasReceipt)
    }

    /** What an aborted transition leaves: its pending journal, or everything as before. */
    ghost predicate Aborted(t: Transaction, wasRecord: Option<Record>, wasReceipt: Option<RestoreReceipt>)
      reads this, world
    {
      (Journaled(t) && restoreReceipt == None) || Back(t, wasRecord, wasReceipt)
    }

    /** The old restore receipt is out of force as soon as the transition is in the journal. */
    method Begin(
      ghost t: Transaction, record: Record, ghost receipt: Option<RestoreReceipt>, ghost nextRuntime: Option<RuntimeRecord>)
      returns (ok: bool)
      requires InTransition(t, receipt)
      requires record == PendingRecord(current, t.lost, t.pending, receipt, CommittedExtras(), nextRuntime, [])
      modifies this`restoreReceipt, world
      ensures InTransition(t, receipt) && old(world.seen) <= world.seen
      ensures world.faults == old(world.faults) + if ok then 0 else 1
      ensures world.nft == old(world.nft) && world.routing == old(world.routing)
      ensures ok ==> restoreReceipt == None && Intends(t, record, receipt, nextRuntime, [])
      ensures !ok ==> restoreReceipt == old(restoreReceipt) && world.record == old(world.record)
    {
      ok := SavePending(t, record, receipt, nextRuntime, []);
      assert InTransition(t, receipt);
      if ok {
        restoreReceipt := None;
      }
    }

    /** Journals the transition and its setting intents before anything in the kernel changes. */
    method WriteAhead(
      ghost t: Transaction, plan: KernelPlan, receipt: Option<RestoreReceipt>, lost: LostUnicast,
      nextRuntime: Option<RuntimeRecord>)
      returns (ok: bool, applied: seq<SettingReceipt>)
      requires t == Transaction(current, lost, plan) && InTransition(t, receipt) && world.Now().sys == t.Target()
      modifies this`restoreReceipt, world
      ensures Durably() && old(world.seen) <= world.seen && old(world.faults) <= world.faults
      ensures ok <==> world.faults == old(world.faults)
      ensures ok ==> Journaled(t) && restoreReceipt == None && world.Now().sys == t.Target()
      ensures !ok ==> Aborted(t, old(world.record), old(restoreReceipt))
      ensures !ok && world.faults == old(world.faults) + 1 ==> Back(t, old(world.record), old(restoreReceipt))
      ensures WellFormedReceipts(applied)
      ensures ok ==> applied == NeededReceipts(settings, MarkAware(plan.lanes), world.unmarked)
      ensures ok ==> world.record.value.pendingInterfaceSettings == applied
    {
      applied := [];
      var record := PendingRecord(current, lost, plan, receipt, CommittedExtras(), nextRuntime, []);
      ok := Begin(t, record, receipt, nextRuntime);
      if !ok {
        return;
      }
      ok, applied := EnsureSettings(t, record, receipt, nextRuntime, plan);
      if !ok {
        Abandon(t);
      }
    }

    /** Nothing in the kernel has changed yet, so the journal can go straight back. */
    method Abandon(ghost t: Transaction)
      requires Durably() && ValidMemory() && t.Valid() && t.active == current && world.Now().sys == t.Target()
      modifies world
      ensures Durably() && old(world.seen) <= world.seen && old(world.faults) <= world.faults
      ensures world.Now().sys == old(world.Now().sys)
      ensures world.record == old(world.record) || world.record == Previous()
      ensures world.faults == old(world.faults) ==> world.record == Previous()
    {
      TargetIsCommitted(t);
      var _ := PersistCommitted(current, None, CommittedExtras());
    }

    /** Runs the journaled transaction and commits it, or goes back. */
    method Execute(
      ghost t: Transaction, plan: KernelPlan, receipt: Option<RestoreReceipt>, lost: LostUnicast, committedExtras: Extras)
      returns (ok: bool)
      requires t == Transaction(current, lost, plan) && InTransition(t, receipt)
      requires Journaled(t) && world.Now().sys == t.Target()
      requires ValidExtras(committedExtras, Some(plan))
      modifies world
      ensures Durably() && old(world.seen) <= world.seen && old(world.faults) <= world.faults
      ensures ok <==> world.faults == old(world.faults)
      ensures ok ==> world.Now() == Snapshot(Some(CommittedRecord(Some(plan), receipt, committedExtras)),
                                             Sys(Committed(plan), PlanOwnership(plan.lanes)))
      ensures !ok ==> Journaled(t) || Undone(t)
      ensures !ok && world.faults == old(world.faults) + 1 && t.active.Some? ==> Undone(t)
    {
      TargetAccepted(t);
      var runner := new KernelRunner(world, current, lost, t);
      ok := RunTransition(runner, t, plan, lost);
      if !ok {
        return;
      }
      ok := Commit(t, BuildExpectations(current, lost, plan), plan, receipt, committedExtras);
      if !ok {
        Revert(runner, t, lost);
      }
    }

    /** Memory, journal and kernel are all on this generation. */
    ghost predicate Installed(plan: KernelPlan, receipt: Option<RestoreReceipt>, extras: Extras)
      reads this, world
    {
      && current == Some(plan) && restoreReceipt == receipt && CommittedExtras() == extras
      && world.Now() == Snapshot(Some(CommittedRecord(Some(plan), receipt, extras)), Sys(Committed(plan), PlanOwnership(plan.lanes)))
    }

    /**
     * Moves to `plan` unless something fails. Every state on the way is accounted for; an aborted transition
     * either keeps its pending journal or is back on the previous plan and the extras in memory. A single fault
     * over a previous plan always leads back.
     */
    method TransitionWith(
      plan: KernelPlan, receipt: Option<RestoreReceipt>, lost: LostUnicast,
      nextRuntime: Option<RuntimeRecord>, nextRestore: Option<RuntimeRecord>)
      returns (ok: bool)
      requires Steady() && runtimeLoaded
      requires ValidPlan(plan) && ReceiptFits(receipt, current, plan)
      requires current.Some? ==> current.value.generation != plan.generation
      requires world.Now().sys == Transaction(current, lost, plan).Target()
      modifies `current, `settings, `restoreReceipt, `runtime, `runtimeRestore, world
      ensures Durably() && old(world.seen) <= world.seen && old(world.faults) <= world.faults
      ensures ok <==> world.faults == old(world.faults)
      ensures ok ==> Installed(plan, receipt, Extras(old(Grown(plan)), nextRuntime, nextRestore))
      ensures !ok ==> current == old(current) && CommittedExtras() == old(CommittedExtras())
      ensures !ok ==> Aborted(Transaction(current, lost, plan), old(world.record), old(restoreReceipt))
      ensures !ok && world.faults == old(world.faults) + 1 && current.Some? ==>
                Back(Transaction(current, lost, plan), old(world.record), old(restoreReceipt))
      ensures world.reliability.Contested? ==> !ok && Here() == old(Here()) && world.seen == old(world.seen)
    {
      ReadyForTransition(plan, receipt, lost);
      ok := world.Survey();
      if ok {
        ok := Transact(Transaction(current, lost, plan), plan, receipt, lost, nextRuntime, nextRestore);
      }
    }

    lemma ReadyForTransition(plan: KernelPlan, receipt: Option<RestoreReceipt>, lost: LostUnicast)
      requires Steady() && runtimeLoaded
      requires ValidPlan(plan) && ReceiptFits(receipt, current, plan)
      requires current.Some? ==> current.value.generation != plan.generation
      requires world.Now().sys == Transaction(current, lost, plan).Target()
      ensures InTransition(Transaction(current, lost, plan), receipt)
    {
      SteadyMemoryIsValid();
      TargetAccepted(Transaction(current, lost, plan));
    }

    method Transact(
      ghost t: Transaction, plan: KernelPlan, receipt: Option<RestoreReceipt>, lost: LostUnicast,
      nextRuntime: Option<RuntimeRecord>, nextRestore: Option<RuntimeRecord>)
      returns (ok: bool)
      requires t == Transaction(current, lost, plan) && InTransition(t, receipt) && world.Now().sys == t.Target()
      modifies `current, `settings, `restoreReceipt, `runtime, `runtimeRestore, world
      ensures Durably() && old(world.seen) <= world.seen && old(world.faults) <= world.faults
      ensures ok <==> world.faults == old(world.faults)
      ensures ok ==> Installed(plan, receipt, Extras(old(Grown(plan)), nextRuntime, nextRestore))
      ensures !ok ==> current == old(current) && CommittedExtras() == old(CommittedExtras())
      ensures !ok ==> Aborted(t, old(world.record), old(restoreReceipt))
      ensures !ok && world.faults == old(world.faults) + 1 && current.Some? ==> Back(t, old(world.record), old(restoreReceipt))
    {
      var applied;
      ok, applied := WriteAhead(t, plan, receipt, lost, nextRuntime);
      if ok {
        JoinedReceipts(settings, applied);
        ok := CompleteTransition(t, plan, receipt, lost, Extras(settings + applied, nextRuntime, nextRestore));
      }
    }

    /** The receipts in force once `plan` is: what was owned, and one for every interface that needs it. */
    function Grown(plan: KernelPlan): seq<SettingReceipt>
      reads this, world
    {
      Here().Grown(plan, world.unmarked)
    }

    /** Both ends of a transition are between operations again. */
    lemma InstalledIsSettled(plan: KernelPlan, receipt: Option<RestoreReceipt>, extras: Extras)
      requires Durably() && initialized && Installed(plan, receipt, extras)
      ensures Coherent() && Exactly(Some(plan)) && RuntimeAgrees()
      ensures CommittedExtras() == extras && JournaledRuntime() == (extras.runtime, extras.runtimeRestore)
    {
    }

    /** An aborted transition leaves a coherent helper that has forgotten no runtime authority it knew. */
    twostate lemma AbortedIsCoherent(t: Transaction)
      requires old(Steady()) && Durably() && initialized && runtimeLoaded == old(runtimeLoaded)
      requires current == old(current) && CommittedExtras() == old(CommittedExtras())
      requires Aborted(t, old(world.record), old(restoreReceipt))
      ensures Coherent() && (old(RuntimeAgrees()) ==> RuntimeAgrees())
    {
      if Back(t, old(world.record), old(restoreReceipt)) {
        BackIsSteady(t);
      }
    }

    twostate lemma BackIsSteady(t: Transaction)
      requires old(Steady()) && Durably() && initialized && runtimeLoaded == old(runtimeLoaded)
      requires current == old(current) && CommittedExtras() == old(CommittedExtras())
      requires Back(t, old(world.record), old(restoreReceipt))
      ensures Steady() && !Interrupted() && (old(RuntimeAgrees()) ==> RuntimeAgrees())
    {
    }

    /** Runs the journaled transaction and moves memory with the journal. */
    method CompleteTransition(
      ghost t: Transaction, plan: KernelPlan, receipt: Option<RestoreReceipt>, lost: LostUnicast, committedExtras: Extras)
      returns (ok: bool)
      requires t == Transaction(current, lost, plan) && InTransition(t, receipt) && restoreReceipt == None
      requires Journaled(t) && world.Now().sys == t.Target()
      requires ValidExtras(committedExtras, Some(plan))
      modifies `current, `settings, `restoreReceipt, `runtime, `runtimeRestore, world
      ensures Durably() && old(world.seen) <= world.seen && old(world.faults) <= world.faults
      ensures ok <==> world.faults == old(world.faults)
      ensures ok ==> Installed(plan, receipt, committedExtras)
      ensures !ok ==> current == old(current) && CommittedExtras() == old(CommittedExtras()) && restoreReceipt == None
      ensures !ok ==> Journaled(t) || Undone(t)
      ensures !ok && world.faults == old(world.faults) + 1 && t.active.Some? ==> Undone(t)
    {
      ok := Execute(t, plan, receipt, lost, committedExtras);
      if ok {
        Remember(plan, receipt, committedExtras);
      }
    }

    method Remember(plan: KernelPlan, receipt: Option<RestoreReceipt>, extras: Extras)
      modifies `current, `settings, `restoreReceipt, `runtime, `runtimeRestore
      ensures current == Some(plan) && restoreReceipt == receipt && CommittedExtras() == extras
    {
      current := Some(plan);
      settings, runtime, runtimeRestore := extras.settings, extras.runtime, extras.runtimeRestore;
      restoreReceipt := receipt;
    }

    /** Records the new generation once the live kernel is exactly the journaled commit. */
    method Commit(
      ghost t: Transaction, expected: Expectations, plan: KernelPlan, receipt: Option<RestoreReceipt>, extras: Extras)
      returns (ok: bool)
      requires Durably() && plan == t.pending && ValidPlan(plan) && expected == BuildExpectations(t.active, t.lost, plan)
      requires world.Now().sys == Sys(Committed(plan), PlanOwnership(plan.lanes))
      requires receipt.Some? ==> receipt.value.PreviousMatches(Some(plan))
      requires ValidExtras(extras, Some(plan))
      modifies world
      ensures Durably() && old(world.seen) <= world.seen
      ensures world.faults == old(world.faults) + if ok then 0 else 1
      ensures world.nft == old(world.nft) && world.routing == old(world.routing)
      ensures world.record == if ok then Some(CommittedRecord(Some(plan), receipt, extras)) else old(world.record)
    {
      ok := world.Attempt();
      ok := ok && world.Now().sys == Sys(expected.committed, expected.committedRouting);
      if ok {
        NothingLost(plan);
        assert IsBasis(plan, {}, world.routing);
        ok := PersistCommitted(Some(plan), receipt, extras);
      }
    }

    /** The kernel moved but the journal could not: go back. */
    method Revert(runner: KernelRunner, ghost t: Transaction, lost: LostUnicast)
      requires Durably() && runner.world == world && runner.t == t && runner.Valid() && ValidMemory()
      requires runner.tablePresent && runner.next == Some(t.pending)
      requires t.active == current && lost == t.lost && world.nft == Committed(t.pending)
      requires PendingOf(world.record, t)
      modifies runner, world
      ensures Durably() && old(world.seen) <= world.seen && old(world.faults) <= world.faults
      ensures world.record == old(world.record) || Undone(t)
      ensures world.faults == old(world.faults) ==> Undone(t)
    {
      ghost var before := world.seen;
      InterruptibleIf(t, world.Now().sys);
      var restored := runner.Restore(current, true);
      AcceptedIsAccounted(t, world.record, before, world.seen, true);
      var _ := Undo(t, restored, lost);
    }

    // ----- Recovery -----

    /** Rolls the kernel back to the journaled target, and reaches it unless something fails. */
    method RollBackPending(ghost t: Transaction, record: Record) returns (ok: bool)
      requires Durably() && world.record == Some(record) && PendingOf(world.record, t) && Accepts(t, world.Now().sys)
      modifies world
      ensures Durably() && old(world.seen) <= world.seen
      ensures world.faults == old(world.faults) + if ok then 0 else 1
      ensures world.record == Some(record)
      ensures ok ==> world.Now().sys == t.Target()
      ensures OnlyLeaves(t, Interruptible(t, old(world.Now().sys)), Some(record), old(world.seen), world.seen)
    {
      ghost var strict := Interruptible(t, world.Now().sys);
      ghost var before := world.seen;
      var runner := new KernelRunner(world, record.active, record.expectations.value.lost, t);
      runner.next := record.pending;
      ok := runner.TakeSnapshot();
      if !ok {
        return;
      }
      ok := runner.Restore(record.active, strict);
      AcceptedIsAccounted(t, world.record, before, world.seen, strict);
      if ok {
        ok := VerifyExact(record.active, record.expectations.value.lost);
      }
    }

    /** Finishes a journaled transaction backwards: from every accepted state, unless something fails. */
    method RecoverPending(record: Record) returns (ok: bool)
      requires Durably() && world.record == Some(record) && record.pending.Some?
      modifies world
      ensures Durably() && old(world.seen) <= world.seen && old(world.faults) <= world.faults
      ensures ok ==> record.expectations.Some? && world.Now() == Recovered(record)
      ensures !ok ==> world.record == Some(record)
      ensures if Accepts(TransactionOf(record), old(world.Now().sys)) then
                world.faults == old(world.faults) + if ok then 0 else 1
              else
                !ok && world.Now() == old(world.Now()) && world.seen == old(world.seen) && world.faults == old(world.faults)
    {
      assert Accounted(world.Now());
      var t := TransactionOf(record);
      var verified := VerifyPending(record, world.Now().sys);
      if verified.Err? {
        return false;
      }
      ok := RollBackPending(t, record);
      if ok {
        TargetIsCommitted(t);
        ok := PersistCommitted(record.active, None, ExtrasOf(record));
      }
    }

    // ----- Removal -----

    /** Is everything live a part of what the plan being removed owned? */
    method VerifyCleanup(plan: KernelPlan) returns (ok: bool)
      requires world.Sane()
      modifies world`faults
      ensures world.Sane() && old(world.faults) <= world.faults
      ensures ok ==> CleanupState(plan, world.Now().sys)
      ensures CleanupState(plan, world.Now().sys) ==> world.faults == old(world.faults) + if ok then 0 else 1
      ensures world.reliability.FirstFails? && old(world.faults) == 0 ==> !ok
    {
      var readable := world.Survey();
      ok := readable && CleanupState(plan, world.Now().sys);
    }

    /** Revoked resources are removed rules first, then tables, then nftables. */
    method RemoveOwned(plan: KernelPlan) returns (ok: bool)
      requires Durably() && CleaningUp(world.record, plan)
      modifies world
      ensures Durably() && old(world.seen) <= world.seen
      ensures world.faults == old(world.faults) + if ok then 0 else 1
      ensures world.record == old(world.record)
      ensures ok ==> world.Now().sys == Sys(Absent, EMPTY)
    {
      ok := world.Attempt();
      if !ok {
        return;
      }
      assert Accounted(world.Now());
      ghost var start, before := world.routing, world.seen;
      var rules := BuildRollbackRuleOrder([plan.lanes]);
      var tables := BuildRollbackTableOrder([plan.lanes]);
      CleanupParts(plan, world.Now().sys, DeleteRules(rules), tables);
      RunAppend(start, DeleteRules(rules), tables);
      ok := world.RunSteps(DeleteRules(rules));
      CleanupIsAccounted(plan, world.record, before, world.seen);
      if !ok {
        return;
      }
      ghost var middle := world.seen;
      ok := world.RunSteps(tables);
      CleanupIsAccounted(plan, world.record, middle, world.seen);
      if ok && world.nft.Doc? {
        ok := world.RunNft(Absent);
        assert AccountedRecord(world.record.value, world.Now().sys);
      }
    }

    /** Removes what a revoked generation left and forgets it, unless something fails. */
    method ResumeCleanup(record: Record) returns (ok: bool)
      requires Durably() && world.record == Some(record) && record.cleanupPending
      modifies world
      ensures Durably() && old(world.seen) <= world.seen
      ensures world.faults == old(world.faults) + if ok then 0 else 1
      ensures ok ==> world.Now() == Snapshot(
                if record.restoreReceipt.None? then None else Some(CommittedRecord(None, record.restoreReceipt, NO_EXTRAS)),
                Sys(Absent, EMPTY))
      ensures !ok ==> world.record == Some(record)
    {
      assert Accounted(world.Now());
      ok := VerifyCleanup(record.active.value);
      if !ok {
        return;
      }
      ok := RemoveOwned(record.active.value);
      if ok {
        ok := PersistCommitted(None, record.restoreReceipt, NO_EXTRAS);
      }
    }

    // ----- Reconciliation -----

    /** Takes the generation and the receipts over from the journal; runtime authority is loaded on its own. */
    method Adopt(record: Option<Record>)
      modifies `current, `settings, `restoreReceipt, `initialized
      ensures initialized
      ensures record.None? ==> current == None && settings == [] && restoreReceipt == None
      ensures record.Some? ==> current == record.value.active && settings == record.value.interfaceSettings
                               && restoreReceipt == record.value.restoreReceipt
    {
      initialized := true;
      if record.None? {
        current, settings, restoreReceipt := None, [], None;
      } else {
        current, settings, restoreReceipt := record.value.active, record.value.interfaceSettings, record.value.restoreReceipt;
      }
    }

    /** Reads and checks the journal without touching the kernel. */
    method InspectionReady() returns (ok: bool)
      requires Coherent()
      modifies `current, `settings, `restoreReceipt, `initialized
      ensures Coherent()
      ensures ok <==> world.record.None? || WithinReceiptBound(world.record.value)
      ensures ok ==> initialized && (world.record.Some? ==> current == world.record.value.active)
    {
      assert Accounted(world.Now());
      if world.record.None? {
        initialized := true;
        return true;
      }
      ok := WithinReceiptBound(world.record.value);
      if ok {
        Adopt(world.record);
      }
    }

    /** What a start needs apart from commands that work. */
    ghost predicate Recoverable()
      reads this, world
    {
      Here().Recoverable()
    }

    predicate Unchanged(
      wasCurrent: Option<KernelPlan>, wasSettings: seq<SettingReceipt>, wasReceipt: Option<RestoreReceipt>, wasLoaded: bool)
      reads this
    {
      current == wasCurrent && settings == wasSettings && restoreReceipt == wasReceipt && runtimeLoaded == wasLoaded
    }

    /** Rolls an interrupted transition back; runtime authority is read from the journal again afterwards. */
    method ReconcilePending(record: Record) returns (ok: bool)
      requires Coherent() && world.record == Some(record) && record.pending.Some?
      modifies `current, `settings, `restoreReceipt, `initialized, `runtimeLoaded, world
      ensures Coherent() && old(world.seen) <= world.seen && old(world.faults) <= world.faults
      ensures ok ==> Steady() && !Interrupted()
      ensures !ok && world.faults == old(world.faults) ==> world.Now() == old(world.Now())
      ensures ok && old(Recoverable()) ==> Here() == old(Here().Reconciled())
      ensures if record.expectations.Some? && Accepts(TransactionOf(record), old(world.Now().sys)) then
                world.faults == old(world.faults) + if ok then 0 else 1
              else !ok
      ensures old(RuntimeAgrees()) ==> RuntimeAgrees()
      ensures !old(runtimeLoaded) ==> !runtimeLoaded
    {
      assert Accounted(world.Now());
      ok := RecoverPending(record);
      if ok {
        AdoptRecovered(record);
      }
    }

    method AdoptRecovered(record: Record)
      requires Durably() && SoundRecord(record) && record.pending.Some? && record.expectations.Some?
      requires world.Now() == Recovered(record)
      modifies `current, `settings, `restoreReceipt, `initialized, `runtimeLoaded
      ensures Steady() && !Interrupted() && !runtimeLoaded
      ensures Here() == old(Here()).RolledBack(record)
    {
      assert Accounted(world.Now());
      runtimeLoaded := false;
      Adopt(world.record);
    }

    method ReconcileCleanup(record: Record) returns (ok: bool)
      requires Coherent() && world.record == Some(record) && record.pending.None? && record.cleanupPending
      modifies `current, `settings, `restoreReceipt, `initialized, world
      ensures Coherent() && old(world.seen) <= world.seen
      ensures ok ==> Steady() && !Interrupted() && world.Now().sys == Sys(Absent, EMPTY)
      ensures ok && old(Recoverable()) ==> Here() == old(Here().Reconciled())
      ensures world.faults == old(world.faults) + if ok then 0 else 1
      ensures JournaledRuntime() == (None, None)
    {
      assert Accounted(world.Now());
      ok := ResumeCleanup(record);
      if ok {
        Adopt(world.record);
      }
    }

    /** A committed generation must be exactly live; nothing is repaired without a pending journal. */
    method ReconcileCommitted(record: Record) returns (ok: bool)
      requires Coherent() && !initialized && !Interrupted() && world.record == Some(record)
      modifies `current, `settings, `restoreReceipt, `initialized, world
      ensures Coherent() && old(world.seen) <= world.seen && old(world.faults) <= world.faults
      ensures ok ==> Steady() && !Interrupted()
      ensures !ok && world.faults == old(world.faults) ==> world.Now() == old(world.Now())
      ensures ok && old(Recoverable()) ==> Here() == old(Here().Reconciled())
      ensures world.Now().sys == old(world.Now().sys)
      ensures JournaledRuntime() == old(JournaledRuntime())
      ensures if world.Now().sys == Transaction(record.active, {}, EMPTY_PLAN).Target() then
                world.faults == old(world.faults) + if ok then 0 else 1
              else !ok
    {
      assert Accounted(world.Now());
      if record.active.Some? {
        ok := VerifyExact(record.active, {});
        if !ok {
          return;
        }
      } else if record.restoreReceipt.None? {
        ok := world.Clear();
        if !ok {
          return;
        }
      }
      ok := true;
      Adopt(world.record);
      assert Accounted(world.Now());
    }

    /** Brings the kernel and the journal back to a committed state before anything else may happen. */
    method EnsureReconciled() returns (ok: bool)
      requires Coherent()
      modifies `current, `settings, `restoreReceipt, `initialized, `runtimeLoaded, world
      ensures Coherent() && old(world.seen) <= world.seen && old(world.faults) <= world.faults
      ensures ok ==> Steady() && !Interrupted()
      ensures !ok && world.faults == old(world.faults) ==> world.Now() == old(world.Now())
      ensures ok ==> old(Recoverable()) && Here() == old(Here().Reconciled())
      ensures ok && old(Interrupted()) && old(world.record).value.pending.Some? ==>
                world.Now().sys == TransactionOf(old(world.record).value).Target()
      ensures if old(Recoverable()) then world.faults == old(world.faults) + if ok then 0 else 1 else !ok
      ensures old(initialized && !Interrupted()) ==> ok && Unchanged(old(current), old(settings), old(restoreReceipt), old(runtimeLoaded))
                                                     && world.Now() == old(world.Now()) && world.faults == old(world.faults)
      ensures old(RuntimeAgrees()) ==> RuntimeAgrees()
      ensures !old(runtimeLoaded) ==> !runtimeLoaded
      ensures old(world.record).None? ==> world.record.None?
      ensures old(!Interrupted()) && ok ==> JournaledRuntime() == old(JournaledRuntime())
    {
      assert Accounted(world.Now());
      if world.record.None? {
        initialized := true;
        return true;
      }
      var record := world.record.value;
      if initialized && record.pending.None? && !record.cleanupPending {
        return true;
      }
      if !WithinReceiptBound(record) {
        return false;
      }
      if record.pending.Some? {
        ok := ReconcilePending(record);
      } else if record.cleanupPending {
        ok := ReconcileCleanup(record);
      } else {
        ok := ReconcileCommitted(record);
      }
    }

    /** Reads the journaled runtime authority, once. */
    method LoadRuntime()
      requires Steady()
      modifies `runtime, `runtimeRestore, `runtimeLoaded
      ensures Steady() && runtimeLoaded
      ensures if old(runtimeLoaded) then runtime == old(runtime) && runtimeRestore == old(runtimeRestore)
              else (runtime, runtimeRestore) == JournaledRuntime()
      ensures old(RuntimeAgrees()) ==> RuntimeAgrees()
    {
      if runtimeLoaded {
        return;
      }
      runtime, runtimeRestore := JournaledRuntime().0, JournaledRuntime().1;
      runtimeLoaded := true;
    }

    // ----- Operations -----

    /** No runtime authority is armed, in memory or in the journal that has not been read yet. */
    predicate Unarmed()
      reads this, world
    {
      Here().Unarmed()
    }

    /** Between operations of a helper that has finished reconciling. */
    ghost predicate Idle()
      reads this, world
    {
      Here().Idle()
    }

    /** What an apply needs apart from commands that work. */
    ghost predicate Ready(plan: KernelPlan)
      reads this, world
    {
      Here().Ready(plan)
    }

    /** Nothing live is missing but unicast defaults that this plan gives up anyway. */
    ghost predicate LossesTolerable(plan: KernelPlan)
      reads this, world
    {
      Here().LossesTolerable(plan)
    }

    predicate Newer(plan: KernelPlan)
      reads this, world
    {
      Here().Newer(plan)
    }

    predicate Supersedes(plan: KernelPlan)
      reads this, world
    {
      Here().Supersedes(plan)
    }

    /** Live, journaled and remembered: exactly this generation. */
    ghost predicate Exactly(plan: Option<KernelPlan>)
      reads this, world
    {
      Here().Exactly(plan)
    }

    /** Armed runtime authority is changed only through itself or through cleanup. */
    method RefuseArmed() returns (ok: bool)
      requires Steady()
      modifies `runtime, `runtimeRestore, `runtimeLoaded
      ensures Steady() && runtimeLoaded
      ensures ok <==> runtime.None?
      ensures ok <==> old(Unarmed())
      ensures old(RuntimeAgrees()) ==> RuntimeAgrees()
    {
      LoadRuntime();
      ok := runtime.None?;
    }

    /** The unicast defaults the committed generation lost, if `next` gives all of them up. */
    method RevalidateFor(next: KernelPlan) returns (r: Option<LostUnicast>)
      requires Steady()
      modifies world`faults
      ensures Durably() && old(world.faults) <= world.faults
      ensures r.Some? ==> world.Now().sys == Transaction(current, r.value, next).Target() && LossesTolerable(next)
      ensures r.Some? && current == Some(next) ==> world.Now().sys == Sys(Committed(next), PlanOwnership(next.lanes))
      ensures LossesTolerable(next) && world.faults == old(world.faults) ==> r.Some?
      ensures world.reliability.Contested? && current.Some? ==> r.None?
    {
      SteadyMemoryIsValid();
      if current.None? {
        return Some({});
      }
      var readable := world.Survey();
      if !readable {
        return None;
      }
      r := ToleratedLost(current.value, next, world.Now().sys);
      if r.Some? && current == Some(next) {
        NothingLeftToLose(next, world.Now().sys);
      }
    }

    /** Applies a plan: a success is exact, and nothing but a fault refuses a plan that supersedes the live one. */
    method Apply(plan: KernelPlan) returns (ok: bool)
      requires Coherent() && ValidPlan(plan)
      modifies this, world
      ensures Coherent() && old(world.seen) <= world.seen && old(world.faults) <= world.faults
      ensures ok ==> Exactly(Some(plan)) && runtimeLoaded && runtime.None?
      ensures old(Recoverable() && Here().Reconciled().Ready(plan)) && world.faults == old(world.faults) ==> ok
      ensures ok ==> old(Recoverable() && Here().Reconciled().Ready(plan))
      ensures ok && old(Here().Reconciled().Newer(plan)) ==>
                settings == old(Here().Reconciled().Grown(plan, world.unmarked)) && JournaledRuntime() == (None, None)
      ensures !ok && world.faults == old(world.faults) ==>
                world.Now() == old(world.Now()) || (old(Recoverable()) && world.Now() == old(Here().Reconciled().now))
      ensures old(RuntimeAgrees()) ==> RuntimeAgrees()
      ensures ok ==> restoreReceipt == None
      ensures ok && !old(Here().Reconciled().Newer(plan)) ==> settings == old(Here().Reconciled().memory.settings)
      ensures old(Idle() && current.Some?) && !ok && world.faults == old(world.faults) + 1 ==> world.Now().sys == old(world.Now().sys)
      ensures world.reliability.Contested? ==> !ok && (old(Idle()) ==> world.Now() == old(world.Now()))
    {
      if !UniqueKeys(plan.rules) {
        return false;
      }
      ok := EnsureReconciled();
      if !ok {
        return;
      }
      ok := ApplyOn(plan);
    }

    /** Applies over a reconciled generation, unless runtime authority is armed. */
    method ApplyOn(plan: KernelPlan) returns (ok: bool)
      requires Steady() && Idle() && ValidPlan(plan)
      modifies `current, `settings, `restoreReceipt, `runtime, `runtimeRestore, `runtimeLoaded, world
      ensures Coherent() && old(world.seen) <= world.seen && old(world.faults) <= world.faults
      ensures ok ==> Exactly(Some(plan)) && runtimeLoaded && runtime.None?
      ensures ok && old(Newer(plan)) ==> settings == old(Grown(plan)) && JournaledRuntime() == (None, None)
      ensures (old(Unarmed() && Supersedes(plan) && LossesTolerable(plan)) && world.faults == old(world.faults)) ==> ok
      ensures ok ==> old(Unarmed() && Supersedes(plan) && LossesTolerable(plan))
      ensures !ok && world.faults == old(world.faults) ==> world.Now() == old(world.Now())
      ensures old(RuntimeAgrees()) ==> RuntimeAgrees()
      ensures ok ==> restoreReceipt == None
      ensures ok && !old(Newer(plan)) ==> settings == old(settings)
      ensures !ok && world.faults == old(world.faults) + 1 && old(current).Some? ==> world.Now().sys == old(world.Now().sys)
      ensures world.reliability.Contested? ==> !ok && world.Now() == old(world.Now())
    {
      var lost := Admit(plan);
      if lost.None? {
        return false;
      }
      ok := ApplyOver(plan, lost.value);
    }

    /** Nothing is armed and nothing is missing but what this plan gives up: the losses to build on. */
    method Admit(plan: KernelPlan) returns (lost: Option<LostUnicast>)
      requires Steady() && Idle() && ValidPlan(plan)
      modifies `runtime, `runtimeRestore, `runtimeLoaded, world`faults
      ensures Steady() && Idle() && old(world.faults) <= world.faults && (old(RuntimeAgrees()) ==> RuntimeAgrees())
      ensures lost.Some? ==> runtimeLoaded && runtime.None? && old(Unarmed() && LossesTolerable(plan))
      ensures lost.Some? ==> world.Now().sys == Transaction(current, lost.value, plan).Target()
      ensures lost.Some? && current == Some(plan) ==> world.Now().sys == Sys(Committed(plan), PlanOwnership(plan.lanes))
      ensures old(Unarmed() && LossesTolerable(plan)) && world.faults == old(world.faults) ==> lost.Some?
      ensures lost.Some? && current.Some? ==> !world.reliability.Contested?
    {
      var ok := RefuseArmed();
      if !ok {
        return None;
      }
      lost := RevalidateFor(plan);
    }

    method ApplyOver(plan: KernelPlan, lost: LostUnicast) returns (ok: bool)
      requires Steady() && Idle() && ValidPlan(plan) && runtimeLoaded && runtime.None?
      requires world.Now().sys == Transaction(current, lost, plan).Target()
      requires current == Some(plan) ==> world.Now().sys == Sys(Committed(plan), PlanOwnership(plan.lanes))
      modifies `current, `settings, `restoreReceipt, `runtime, `runtimeRestore, world
      ensures Coherent() && old(world.seen) <= world.seen && old(world.faults) <= world.faults
      ensures ok ==> Exactly(Some(plan)) && runtime.None?
      ensures ok && old(Newer(plan)) ==> settings == old(Grown(plan)) && JournaledRuntime() == (None, None)
      ensures old(Supersedes(plan)) && world.faults == old(world.faults) ==> ok
      ensures ok ==> old(Supersedes(plan))
      ensures !ok && world.faults == old(world.faults) ==> world.Now() == old(world.Now())
      ensures old(RuntimeAgrees()) ==> RuntimeAgrees()
      ensures ok ==> restoreReceipt == None
      ensures ok && !old(Newer(plan)) ==> settings == old(settings)
      ensures !ok && world.faults == old(world.faults) + 1 && old(current).Some? ==> world.Now().sys == old(world.Now().sys)
      ensures world.reliability.Contested? && old(Newer(plan)) ==> !ok && world.Now() == old(world.Now())
    {
      if current.Some? && plan.generation < current.value.generation {
        return false;
      }
      if current.Some? && plan.generation == current.value.generation {
        if plan.Content() != current.value.Content() {
          return false;
        }
        ContentAndGeneration(plan, current.value);
        ok := DropReceipt();
        return;
      }
      ok := Install(plan, None, lost);
    }

    /** A transition without runtime authority: all of it, or a coherent helper. */
    method TransitionTo(plan: KernelPlan, receipt: Option<RestoreReceipt>, lost: LostUnicast) returns (ok: bool)
      requires Steady() && runtimeLoaded && ValidPlan(plan) && ReceiptFits(receipt, current, plan)
      requires current.Some? ==> current.value.generation != plan.generation
      requires world.Now().sys == Transaction(current, lost, plan).Target()
      modifies `current, `settings, `restoreReceipt, `runtime, `runtimeRestore, world
      ensures Durably() && old(world.seen) <= world.seen && old(world.faults) <= world.faults
      ensures ok <==> world.faults == old(world.faults)
      ensures ok ==> Installed(plan, receipt, Extras(old(Grown(plan)), None, None))
      ensures !ok ==> Coherent() && (old(RuntimeAgrees()) ==> RuntimeAgrees())
      ensures !ok && world.faults == old(world.faults) + 1 && old(current).Some? ==> world.Now().sys == old(world.Now().sys)
      ensures world.reliability.Contested? ==> !ok && world.Now() == old(world.Now())
    {
      ok := TransitionWith(plan, receipt, lost, None, None);
      if !ok {
        AbortedIsCoherent(Transaction(current, lost, plan));
      }
    }

    /** A transition without runtime authority ends between operations. */
    method Install(plan: KernelPlan, receipt: Option<RestoreReceipt>, lost: LostUnicast) returns (ok: bool)
      requires Steady() && runtimeLoaded && ValidPlan(plan) && ReceiptFits(receipt, current, plan)
      requires current.Some? ==> current.value.generation != plan.generation
      requires world.Now().sys == Transaction(current, lost, plan).Target()
      modifies `current, `settings, `restoreReceipt, `runtime, `runtimeRestore, world
      ensures Coherent() && old(world.seen) <= world.seen && old(world.faults) <= world.faults
      ensures ok <==> world.faults == old(world.faults)
      ensures ok ==> Exactly(Some(plan)) && settings == old(Grown(plan))
      ensures ok ==> NoRuntime() && JournaledRuntime() == (None, None)
      ensures old(RuntimeAgrees()) ==> RuntimeAgrees()
      ensures ok ==> restoreReceipt == receipt
      ensures !ok && world.faults == old(world.faults) + 1 && old(current).Some? ==> world.Now().sys == old(world.Now().sys)
      ensures world.reliability.Contested? ==> !ok && world.Now() == old(world.Now())
    {
      ghost var grown := Grown(plan);
      ok := TransitionTo(plan, receipt, lost);
      if ok {
        InstalledIsSettled(plan, receipt, Extras(grown, None, None));
        assert CommittedExtras() == Extras(grown, None, None);
      }
    }

    /** Repeating the current generation only forgets an old restore receipt. */
    method DropReceipt() returns (ok: bool)
      requires Steady() && Idle() && current.Some? && runtimeLoaded
      modifies `restoreReceipt, world
      ensures Steady() && Idle() && old(world.seen) <= world.seen
      ensures world.faults == old(world.faults) + if ok then 0 else 1
      ensures world.Now().sys == old(world.Now().sys)
      ensures old(RuntimeAgrees()) ==> RuntimeAgrees()
      ensures ok ==> restoreReceipt == None
      ensures settings == old(settings)
    {
      SteadyMemoryIsValid();
      if restoreReceipt.None? {
        return true;
      }
      ok := PersistCommitted(current, None, CommittedExtras());
      if ok {
        restoreReceipt := None;
      }
    }

    // ----- Restore -----

    /** The restore this receipt stands for has already been done. */
    predicate Repeated(failed: KernelPlan, previous: Option<KernelPlan>)
      reads this, world
    {
      Here().Repeated(failed, previous)
    }

    /** What a restore needs apart from commands that work. */
    ghost predicate Restorable(failed: KernelPlan, previous: Option<KernelPlan>)
      reads this, world
    {
      Here().Restorable(failed, previous)
    }

    /** Is the committed generation exactly live? */
    method RevalidateExactly() returns (ok: bool)
      requires Steady() && Idle()
      modifies world`faults
      ensures Durably() && Steady() && Idle() && old(world.faults) <= world.faults
      ensures ok ==> Exactly(current)
      ensures old(Exactly(current)) ==> world.faults == old(world.faults) + if ok then 0 else 1
      ensures old(RuntimeAgrees()) ==> RuntimeAgrees()
    {
      SteadyMemoryIsValid();
      if current.None? {
        return true;
      }
      ok := VerifyExact(current, {});
      NothingLost(current.value);
    }

    /** Returns from a failed candidate to its predecessor, or to nothing; a success is exact. */
    method RestorePlan(failed: KernelPlan, previous: Option<KernelPlan>) returns (ok: bool)
      requires Coherent() && (previous.Some? ==> ValidPlan(previous.value))
      modifies this, world
      ensures Coherent() && old(world.seen) <= world.seen && old(world.faults) <= world.faults
      ensures ok ==> Exactly(previous)
      ensures old(Recoverable() && Here().Reconciled().Restorable(failed, previous)) && world.faults == old(world.faults) ==> ok
      ensures !ok && world.faults == old(world.faults) ==>
                world.Now() == old(world.Now()) || (old(Recoverable()) && world.Now() == old(Here().Reconciled().now))
      ensures ok ==> old(Recoverable() && Here().Reconciled().Restorable(failed, previous))
      ensures ok ==> Repeated(failed, previous)
      ensures ok && previous.Some? && !old(Here().Reconciled().Repeated(failed, previous)) ==>
                && settings == old(Here().Reconciled().Grown(previous.value, world.unmarked))
                && JournaledRuntime() == (None, None)
    {
      ok := EnsureReconciled();
      if !ok {
        return;
      }
      ok := RestoreOn(failed, previous);
    }

    method RestoreOn(failed: KernelPlan, previous: Option<KernelPlan>) returns (ok: bool)
      requires Steady() && Idle() && (previous.Some? ==> ValidPlan(previous.value))
      modifies this, world
      ensures Coherent() && old(world.seen) <= world.seen && old(world.faults) <= world.faults
      ensures ok ==> Exactly(previous)
      ensures old(Restorable(failed, previous)) && world.faults == old(world.faults) ==> ok
      ensures !ok && world.faults == old(world.faults) ==> world.Now() == old(world.Now())
      ensures ok ==> old(Restorable(failed, previous))
      ensures ok ==> Repeated(failed, previous)
      ensures ok && previous.Some? && !old(Repeated(failed, previous)) ==>
                settings == old(Grown(previous.value)) && JournaledRuntime() == (None, None)
    {
      ok := RefuseArmed();
      if !ok {
        return;
      }
      ok := RevalidateExactly();
      if ok {
        ok := RestoreFrom(failed, previous);
      }
    }

    /** A restore over a generation that is exactly live. */
    method RestoreFrom(failed: KernelPlan, previous: Option<KernelPlan>) returns (ok: bool)
      requires Steady() && runtimeLoaded && runtime.None? && Exactly(current)
      requires previous.Some? ==> ValidPlan(previous.value)
      modifies this, world
      ensures Coherent() && old(world.seen) <= world.seen && old(world.faults) <= world.faults
      ensures ok ==> Exactly(previous)
      ensures old(Restorable(failed, previous)) && world.faults == old(world.faults) ==> ok
      ensures !ok && world.faults == old(world.faults) ==> world.Now() == old(world.Now())
      ensures ok ==> old(Restorable(failed, previous))
      ensures ok ==> Repeated(failed, previous)
      ensures ok && previous.Some? && !old(Repeated(failed, previous)) ==>
                settings == old(Grown(previous.value)) && JournaledRuntime() == (None, None)
    {
      if previous.Some? && previous.value.generation >= failed.generation {
        return false;
      }
      var receipt := NewReceipt(failed, previous);
      if restoreReceipt == Some(receipt) && receipt.PreviousMatches(current) {
        RepeatedRestore(failed, previous);
        return true;
      }
      if current.None? || current.value.generation != failed.generation || current.value.Content() != failed.Content() {
        return false;
      }
      ContentAndGeneration(current.value, failed);
      ok := GoBack(failed, previous);
    }

    /** The candidate is live: return to its predecessor, or to nothing. */
    method GoBack(failed: KernelPlan, previous: Option<KernelPlan>) returns (ok: bool)
      requires Steady() && runtimeLoaded && Exactly(Some(failed))
      requires previous.Some? ==> ValidPlan(previous.value) && previous.value.generation < failed.generation
      modifies this, world
      ensures Coherent() && old(world.seen) <= world.seen && old(world.faults) <= world.faults
      ensures ok ==> Exactly(previous) && restoreReceipt == Some(NewReceipt(failed, previous))
      ensures old(previous.None? ==> WithinReceiptBound(world.record.value)) && world.faults == old(world.faults) ==> ok
      ensures !ok && world.faults == old(world.faults) ==> world.Now() == old(world.Now())
      ensures ok && previous.None? ==> old(WithinReceiptBound(world.record.value))
      ensures ok && previous.Some? ==> settings == old(Grown(previous.value)) && JournaledRuntime() == (None, None)
    {
      if previous.None? {
        ok := RemoveCandidate(failed);
      } else {
        ok := RestoreOver(failed, previous.value);
      }
    }

    method RestoreOver(failed: KernelPlan, previous: KernelPlan) returns (ok: bool)
      requires Steady() && runtimeLoaded && Exactly(Some(failed))
      requires ValidPlan(previous) && previous.generation < failed.generation
      modifies `current, `settings, `restoreReceipt, `runtime, `runtimeRestore, world
      ensures Coherent() && old(world.seen) <= world.seen && old(world.faults) <= world.faults
      ensures ok ==> Exactly(Some(previous))
      ensures world.faults == old(world.faults) ==> ok
      ensures ok ==> restoreReceipt == Some(NewReceipt(failed, Some(previous)))
      ensures ok ==> settings == old(Grown(previous)) && JournaledRuntime() == (None, None)
    {
      NothingLost(failed);
      var receipt := NewReceipt(failed, Some(previous));
      ok := Install(previous, Some(receipt), {});
    }

    lemma RepeatedRestore(failed: KernelPlan, previous: Option<KernelPlan>)
      requires Repeated(failed, previous)
      ensures current == previous
    {
      if current.Some? {
        ContentAndGeneration(current.value, previous.value);
      }
    }

    /** The first candidate failed: remove it and remember the restore. */
    method RemoveCandidate(failed: KernelPlan) returns (ok: bool)
      requires Steady() && runtimeLoaded && Exactly(Some(failed))
      modifies this, world
      ensures Coherent() && old(world.seen) <= world.seen && old(world.faults) <= world.faults
      ensures ok ==> Exactly(None)
      ensures old(WithinReceiptBound(world.record.value)) && world.faults == old(world.faults) ==> ok
      ensures !ok && world.faults == old(world.faults) ==> world.Now() == old(world.Now())
      ensures ok ==> old(WithinReceiptBound(world.record.value))
      ensures ok ==> restoreReceipt == Some(NewReceipt(failed, None))
    {
      var revoked;
      ok, revoked := CleanupWithReceipt(Some(NewReceipt(failed, None)));
    }

    // ----- Cleanup -----

    /** What a cleanup needs apart from commands that work. */
    ghost predicate Cleanable()
      reads this, world
    {
      Here().Cleanable()
    }

    /** Removes everything; `revoked` tells whether it got as far as giving up the runtime authority. */
    method Cleanup() returns (ok: bool, revoked: bool)
      requires Coherent()
      modifies this, world
      ensures Coherent() && old(world.seen) <= world.seen && old(world.faults) <= world.faults
      ensures ok ==> Exactly(None) && world.record == None
      ensures old(Cleanable()) && world.faults == old(world.faults) ==> ok
      ensures !ok && world.faults == old(world.faults) ==> world.Now() == old(world.Now())
      ensures ok ==> old(Cleanable())
      ensures revoked ==> runtimeLoaded && NoRuntime()
      ensures old(Idle()) && revoked && !ok ==>
                (RuntimeAgrees() <==> Interrupted() || old(JournaledRuntime()) == (None, None))
      ensures old(Idle() && JournaledRuntime() == (None, None)) && revoked && !ok ==> RuntimeAgrees()
      ensures world.reliability.FirstFails? && old(world.faults) == 0 && old(Inspectable()) ==>
                (RuntimeAgrees() <==> old(JournaledRuntime()) == (None, None))
      ensures world.reliability.FirstFails? && old(world.faults) == 0 && old(Inspectable()) ==>
                !ok && revoked && Idle() && Unmoved(old(world.Now())) && world.faults == 1
      ensures old(Idle()) && revoked && !ok && Interrupted() ==> world.record.value.interfaceSettings == old(settings)
    {
      ok, revoked := CleanupWithReceipt(None);
    }

    /** Cleanup may read a journal that a start refuses to build on; it still finishes what was interrupted first. */
    method PrepareCleanup() returns (ok: bool)
      requires Coherent()
      modifies `current, `settings, `restoreReceipt, `initialized, `runtimeLoaded, world
      ensures Coherent() && old(world.seen) <= world.seen && old(world.faults) <= world.faults
      ensures ok ==> Steady() && Idle()
      ensures old(Cleanable()) && world.faults == old(world.faults) ==> ok
      ensures !ok && world.faults == old(world.faults) ==> world.Now() == old(world.Now())
      ensures ok ==> old(Cleanable())
      ensures old(!Interrupted()) ==> world.Now() == old(world.Now()) && world.faults == old(world.faults)
      ensures old(Inspectable()) ==> ok && current == world.record.value.active
      ensures old(Idle()) && ok ==> current == old(current)
    {
      ok := InspectionReady();
      if ok {
        ok := EnsureReconciled();
      }
    }

    method CleanupWithReceipt(receipt: Option<RestoreReceipt>) returns (ok: bool, revoked: bool)
      requires Coherent()
      requires receipt.Some? ==> Idle() && CleanupReceiptFits(receipt, current)
      modifies this, world
      ensures Coherent() && old(world.seen) <= world.seen && old(world.faults) <= world.faults
      ensures ok ==> Exactly(None) && world.record == Forgotten(receipt)
      ensures old(Cleanable()) && world.faults == old(world.faults) ==> ok
      ensures !ok && world.faults == old(world.faults) ==> world.Now() == old(world.Now())
      ensures ok ==> old(Cleanable())
      ensures revoked ==> runtimeLoaded && NoRuntime()
      ensures old(Idle()) && revoked && !ok && !Interrupted() ==> world.record == old(world.record)
      ensures revoked && !ok && Interrupted() ==> JournaledRuntime() == (None, None)
      ensures world.reliability.FirstFails? && old(world.faults) == 0 && old(Inspectable()) ==>
                !ok && revoked && Idle() && Unmoved(old(world.Now())) && world.faults == 1
      ensures old(Idle()) && revoked && !ok && Interrupted() ==> world.record.value.interfaceSettings == old(settings)
    {
      revoked := false;
      ok := PrepareCleanup();
      if !ok {
        return;
      }
      revoked := true;
      ok := RevokeAndRemove(receipt);
    }

    method RevokeAndRemove(receipt: Option<RestoreReceipt>) returns (ok: bool)
      requires Steady() && Idle()
      requires CleanupReceiptFits(receipt, current)
      modifies this, world
      ensures Coherent() && old(world.seen) <= world.seen
      ensures world.faults == old(world.faults) + if ok then 0 else 1
      ensures ok ==> Exactly(None) && world.record == Forgotten(receipt)
      ensures runtimeLoaded && NoRuntime()
      ensures !ok && !Interrupted() ==> world.record == old(world.record)
      ensures !ok && Interrupted() ==> JournaledRuntime() == (None, None)
      ensures world.reliability.FirstFails? && old(world.faults) == 0 && old(current).Some? ==>
                !ok && Idle() && current == old(current) && world.Now() == old(world.Now())
      ensures !ok && Interrupted() ==> world.record.value.interfaceSettings == old(settings)
    {
      Revoke();
      if current.None? {
        ok := ForgetReceipt();
      } else {
        ok := RemoveGeneration(receipt);
      }
    }

    /** A journal that can be read and has a generation, with no operation pending. */
    ghost predicate Inspectable()
      reads world
    {
      !Interrupted() && world.record.Some? && world.record.value.active.Some? && WithinReceiptBound(world.record.value)
    }

    /** Journal and kernel are as they were, and memory has read the journal. */
    ghost predicate Unmoved(was: Snapshot)
      reads this, world
    {
      world.Now() == was && was.record.Some? && current == was.record.value.active
    }

    /** Runtime authority is given up before anything is removed, and before anything can fail. */
    method Revoke()
      requires Steady() && Idle()
      modifies `runtime, `runtimeRestore, `runtimeLoaded
      ensures Steady() && Idle() && runtimeLoaded && NoRuntime()
    {
      runtime, runtimeRestore, runtimeLoaded := None, None, true;
    }

    /** Without a generation there is only an old restore receipt to forget. */
    method ForgetReceipt() returns (ok: bool)
      requires Steady() && Idle() && current.None? && NoRuntime()
      modifies `restoreReceipt, world
      ensures Coherent() && old(world.seen) <= world.seen
      ensures world.faults == old(world.faults) + if ok then 0 else 1
      ensures ok ==> Exactly(None) && world.record == None
      ensures !ok ==> world.record == old(world.record)
    {
      SteadyMemoryIsValid();
      ok := world.Clear();
      if ok {
        restoreReceipt := None;
      }
    }

    /** The generation is revoked in the journal first, and forgotten when nothing of it is left. */
    method RemoveGeneration(receipt: Option<RestoreReceipt>) returns (ok: bool)
      requires Steady() && Idle() && current.Some? && runtimeLoaded && NoRuntime()
      requires CleanupReceiptFits(receipt, current)
      modifies `current, `settings, `restoreReceipt, `initialized, world
      ensures Coherent() && old(world.seen) <= world.seen
      ensures world.faults == old(world.faults) + if ok then 0 else 1
      ensures ok ==> Exactly(None) && world.record == Forgotten(receipt)
      ensures !ok && !Interrupted() ==> world.record == old(world.record)
      ensures !ok && Interrupted() ==> JournaledRuntime() == (None, None)
      ensures world.reliability.FirstFails? && old(world.faults) == 0 ==>
                !ok && Idle() && current == old(current) && world.Now() == old(world.Now())
      ensures !ok && Interrupted() ==> world.record.value.interfaceSettings == old(settings)
    {
      SteadyMemoryIsValid();
      CommittedCanBeCleaned(current.value, world.Now().sys);
      ok := VerifyCleanup(current.value);
      if !ok {
        return;
      }
      ok := JournalRemoval(receipt);
      if ok {
        ok := FinishRemoval(receipt);
      }
    }

    /** Revokes the generation in the journal. */
    method JournalRemoval(receipt: Option<RestoreReceipt>) returns (ok: bool)
      requires Steady() && Idle() && current.Some? && runtimeLoaded && NoRuntime()
      requires CleanupReceiptFits(receipt, current) && CleanupState(current.value, world.Now().sys)
      modifies world
      ensures Coherent() && old(world.seen) <= world.seen
      ensures world.faults == old(world.faults) + if ok then 0 else 1
      ensures ok ==> CleaningUp(world.record, current.value) && world.record.value.restoreReceipt == receipt
      ensures !ok ==> world.record == old(world.record)
      ensures ok ==> world.record.value.interfaceSettings == settings
    {
      SteadyMemoryIsValid();
      var record := CleanupRecord(current.value, receipt, settings);
      assert AccountedRecord(record, world.Now().sys);
      ok := world.Save(record);
    }

    method FinishRemoval(receipt: Option<RestoreReceipt>) returns (ok: bool)
      requires Coherent() && initialized && current.Some? && runtimeLoaded && NoRuntime()
      requires CleaningUp(world.record, current.value) && world.record.value.restoreReceipt == receipt
      modifies `current, `settings, `restoreReceipt, `initialized, world
      ensures Coherent() && old(world.seen) <= world.seen
      ensures world.faults == old(world.faults) + if ok then 0 else 1
      ensures ok ==> Exactly(None) && world.record == Forgotten(receipt)
      ensures !ok ==> Interrupted() && JournaledRuntime() == (None, None)
      ensures !ok ==> world.record == old(world.record)
    {
      ok := RemoveOwned(current.value);
      if !ok {
        return;
      }
      settings := [];
      ok := PersistCommitted(None, receipt, NO_EXTRAS);
      if ok {
        Adopt(world.record);
      }
    }
  }

  /** The journal is revoking exactly this plan. */
  ghost predicate CleaningUp(record: Option<Record>, plan: KernelPlan) {
    && record.Some? && SoundRecord(record.value) && Fingerprinted(record.value)
    && record.value.pending.None? && record.value.cleanupPending && record.value.active == Some(plan)
    && record.value.runtime.None? && record.value.runtimeRestore.None?
  }

  lemma CleanupIsAccounted(
    plan: KernelPlan, record: Option<Record>, before: set<Snapshot>, after: set<Snapshot>)
    requires CleaningUp(record, plan) && AllAccounted(before)
    requires forall s :: s in after && s !in before ==> s.record == record && CleanupState(plan, s.sys)
    ensures AllAccounted(after)
  {
    forall s | s in after ensures Accounted(s) {
      if s !in before {
        assert AccountedRecord(s.record.value, s.sys);
      }
    }
  }

  lemma CleanupParts(plan: KernelPlan, sys: Sys, a: seq<RoutingStep>, b: seq<RoutingStep>)
    requires DistinctTables(plan.lanes) && CleanupState(plan, sys) && RollbackSteps([plan.lanes]) == a + b
    ensures forall live :: Reaches(sys.routing, a, live) || Reaches(Run(sys.routing, a), b, live) ==>
      CleanupState(plan, Sys(sys.nft, live))
    ensures Run(sys.routing, a + b) == EMPTY
  {
    assert Plans(None, plan.lanes) == [plan.lanes];
    RollbackShape(None, plan.lanes);
    PrefixReaches(sys.routing, a, b);
    CleanupEmpties(plan, sys.routing);
    forall live | Reaches(sys.routing, a + b, live) ensures CleanupState(plan, Sys(sys.nft, live)) {
      CleanupShrinks(plan, sys.routing, a + b, live);
    }
  }

  lemma CommittedCanBeCleaned(plan: KernelPlan, sys: Sys)
    requires DistinctTables(plan.lanes) && CommittedState(Some(plan), sys)
    ensures CleanupState(plan, sys)
  {
    var lost :| IsBasis(plan, lost, sys.routing);
    BasisIsSubset(plan, lost);
  }

  /** The journal names exactly this transaction and passes every load check but the receipt bound. */
  ghost predicate PendingOf(record: Option<Record>, t: Transaction) {
    && record.Some? && SoundRecord(record.value) && Fingerprinted(record.value)
    && record.value.pending.Some? && !record.value.cleanupPending
    && TransactionOf(record.value) == t && t.Valid()
  }

  lemma AcceptedIsAccounted(
    t: Transaction, record: Option<Record>, before: set<Snapshot>, after: set<Snapshot>, strict: bool)
    requires PendingOf(record, t) && AllAccounted(before)
    requires OnlyLeaves(t, strict, record, before, after)
    ensures AllAccounted(after)
  {
    forall s | s in after ensures Accounted(s) {
      if s !in before {
        assert AccountedRecord(s.record.value, s.sys);
      }
    }
  }

  lemma TargetIsCommitted(t: Transaction)
    requires t.Valid()
    ensures CommittedState(t.active, t.Target())
  {
    if t.active.Some? {
      assert IsBasis(t.active.value, t.lost, t.Target().routing);
    }
  }

  /** A generation that is applied over itself has lost nothing. */
  lemma NothingLeftToLose(plan: KernelPlan, live: Sys)
    requires DistinctTables(plan.lanes) && Tolerable(plan, plan, live)
    ensures live == Sys(Committed(plan), PlanOwnership(plan.lanes))
  {
    var owned := PlanOwnership(plan.lanes);
    PlanOwnsExactly(plan.lanes);
    forall r | r in owned.routes ensures r in live.routing.routes {
      if !r.terminal {
        OwnedIsStillUsed(plan, r);
      }
    }
    assert live.routing.routes == owned.routes;
  }

  lemma OwnedIsStillUsed(plan: KernelPlan, r: RouteOwnership)
    requires DistinctTables(plan.lanes) && r in PlanOwnership(plan.lanes).routes && !r.terminal
    ensures StillUsed(plan, r)
  {
    PlanOwnsExactly(plan.lanes);
  }
}
