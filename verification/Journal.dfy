/** The durable journal record and the checks a restarted helper applies to it. */
module Journal {
  import opened Wrappers
  import opened Plan
  import opened Routing
  import opened Composition
  import opened FailClosed
  import opened CrashModel

  datatype SettingReceipt = SettingReceipt(identity: InterfaceIdentity, previous: nat, applied: nat)

  /** Binds a restore to the candidate it undoes and to the plan it returns to, by generation and content. */
  datatype RestoreReceipt = RestoreReceipt(
    failedGeneration: nat, failedHash: KernelPlan, previousGeneration: Option<nat>, previousHash: Option<KernelPlan>)
  {
    predicate FailedMatches(plan: Option<KernelPlan>) {
      plan.Some? && plan.value.generation == failedGeneration && plan.value.Content() == failedHash
    }

    predicate PreviousMatches(plan: Option<KernelPlan>) {
      match plan
      case Some(p) => previousGeneration == Some(p.generation) && previousHash == Some(p.Content())
      case None => previousGeneration.None? && previousHash.None?
    }
  }

  function NewReceipt(failed: KernelPlan, previous: Option<KernelPlan>): RestoreReceipt {
    RestoreReceipt(failed.generation, failed.Content(),
      if previous.None? then None else Some(previous.value.generation),
      if previous.None? then None else Some(previous.value.Content()))
  }

  datatype Expectations = Expectations(
    guard: Nft, guardless: Nft, activated: Nft, committed: Nft,
    committedRouting: Ownership,
    model: (Option<KernelPlan>, KernelPlan),
    lost: LostUnicast)

  function BasisPlan(plan: KernelPlan, lost: LostUnicast): KernelPlan {
    plan.(lanes := RoutingBasis(plan.lanes, lost))
  }

  function BuildExpectations(active: Option<KernelPlan>, lost: LostUnicast, pending: KernelPlan): Expectations {
    Expectations(
      Doc(active, Some(pending), true),
      Doc(active, Some(pending), false),
      Doc(Some(pending), None, true),
      Committed(pending),
      PlanOwnership(pending.lanes),
      (if active.None? then None else Some(BasisPlan(active.value, lost).Content()), pending.Content()),
      lost)
  }

  /** Runtime authority travels with the plans; its content does not matter here. */
  datatype RuntimeRecord = RuntimeRecord(grant: string)

  datatype Extras = Extras(settings: seq<SettingReceipt>, runtime: Option<RuntimeRecord>, runtimeRestore: Option<RuntimeRecord>)

  const NO_EXTRAS: Extras := Extras([], None, None)

  /** Every lane of a schema-2 plan takes all its resources from one slot. */
  predicate ValidLegacyPlan(plan: KernelPlan) {
    && plan.generation > 0
    && |plan.lanes| <= MAX_LANES
    && (forall i :: 0 <= i < |plan.lanes| ==> LaneOfOneSlot(plan.lanes[i]))
    && DistinctTables(plan.lanes)
    && (forall i, j :: 0 <= i < j < |plan.lanes| ==> plan.lanes[i].id != plan.lanes[j].id)
  }

  predicate LaneOfOneSlot(lane: LanePlan) {
    && TABLE_BASE <= lane.table <= TABLE_MAX
    && lane.mark == MARK_BASE + (lane.table - TABLE_BASE)
    && lane.rulePriority == RULE_PRIORITY_BASE + (lane.table - TABLE_BASE)
    && IsKernelInterfaceName(lane.iface)
  }

  /** The table, the mark and the priority of a slot. */
  function SlotResources(slot: nat): (nat, nat, nat) {
    (20_000 + slot, 0x524c0001 + slot, 10_000 + slot)
  }

  /** One of a hundred slots gives a schema-2 lane all it has. */
  lemma OneSlotGivesAll(lane: LanePlan)
    ensures LaneOfOneSlot(lane) <==>
              && IsKernelInterfaceName(lane.iface)
              && exists slot: nat :: slot < 100 && (lane.table, lane.mark, lane.rulePriority) == SlotResources(slot)
  {
    if LaneOfOneSlot(lane) {
      var slot: nat := lane.table - 20_000;
      assert slot < 100 && (lane.table, lane.mark, lane.rulePriority) == SlotResources(slot);
    }
  }

  /** A schema-2 journal: cleaned up, never converted. */
  datatype LegacyRecord = LegacyRecord(
    active: Option<KernelPlan>, pending: Option<KernelPlan>, lost: LostUnicast, cleanupPending: bool)
  {
    function Active(): Option<seq<LanePlan>> {
      match active case None => None case Some(plan) => Some(RoutingBasis(plan.lanes, lost))
    }

    predicate Valid() {
      (active.Some? ==> ValidLegacyPlan(active.value)) && (pending.Some? ==> ValidLegacyPlan(pending.value))
    }

    function OwnedPlans(): seq<seq<LanePlan>> {
      (if active.None? then [] else [active.value.lanes]) + (if pending.None? then [] else [pending.value.lanes])
    }
  }

  datatype Record = Record(
    active: Option<KernelPlan>,
    activeFingerprint: Option<Nft>,
    pending: Option<KernelPlan>,
    expectations: Option<Expectations>,
    cleanupPending: bool,
    restoreReceipt: Option<RestoreReceipt>,
    interfaceSettings: seq<SettingReceipt>,
    pendingInterfaceSettings: seq<SettingReceipt>,
    runtime: Option<RuntimeRecord>,
    pendingRuntime: Option<RuntimeRecord>,
    runtimeRestore: Option<RuntimeRecord>,
    legacy: Option<LegacyRecord>)

  const EMPTY_RECORD: Record := Record(None, None, None, None, false, None, [], [], None, None, None, None)

  function CommittedRecord(plan: Option<KernelPlan>, receipt: Option<RestoreReceipt>, extras: Extras): Record {
    EMPTY_RECORD.(
      active := plan,
      activeFingerprint := if plan.None? then None else Some(Committed(plan.value)),
      restoreReceipt := receipt,
      interfaceSettings := extras.settings,
      runtime := extras.runtime,
      runtimeRestore := extras.runtimeRestore)
  }

  // ----- Load-time validators -----

  predicate ValidPlan(plan: KernelPlan) {
    && plan.generation > 0
    && |plan.lanes| <= MAX_LANES
    && |plan.rules| <= MAX_RULES
    && (forall i :: 0 <= i < |plan.lanes| ==> InReservedRanges(plan.lanes[i]) && IsKernelInterfaceName(plan.lanes[i].iface))
    && DistinctTables(plan.lanes)
    && DistinctMarks(plan.lanes)
    && (forall i, j :: 0 <= i < j < |plan.lanes| ==> plan.lanes[i].rulePriority != plan.lanes[j].rulePriority)
    && (forall i, j :: 0 <= i < j < |plan.lanes| ==> plan.lanes[i].id != plan.lanes[j].id)
    && (forall i :: 0 <= i < |plan.rules| && plan.rules[i].target.Cgroup? ==>
          IsApplicationCgroup(plan.rules[i].target.path))
    && (forall i :: 0 <= i < |plan.rules| && plan.rules[i].action.Mark? ==>
          exists n :: 0 <= n < |plan.lanes| && plan.lanes[n].mark == plan.rules[i].action.mark)
  }

  /** What can be wrong with a plan: its size, one of its lanes, two lanes that share something, or a rule. */
  ghost predicate Flawed(plan: KernelPlan) {
    || plan.generation == 0 || |plan.lanes| > 100 || |plan.rules| > 10_000
    || (exists lane :: lane in plan.lanes && FlawedLane(lane))
    || (exists i, j :: 0 <= i < j < |plan.lanes| && Share(plan.lanes[i], plan.lanes[j]))
    || (exists rule :: rule in plan.rules && FlawedRule(plan, rule))
  }

  predicate FlawedLane(lane: LanePlan) {
    || lane.table < 20_000 || lane.table > 20_099
    || lane.mark < 0x524c0001 || lane.mark > 0x524c0064
    || lane.rulePriority < 10_000 || lane.rulePriority > 10_099
    || lane.iface == "" || |lane.iface| > 15
    || exists c :: c in lane.iface && !IsAlphanumeric(c) && c != '_' && c != '-' && c != '.'
  }

  predicate Share(a: LanePlan, b: LanePlan) {
    a.id == b.id || a.table == b.table || a.mark == b.mark || a.rulePriority == b.rulePriority
  }

  ghost predicate FlawedRule(plan: KernelPlan, rule: CompiledRule) {
    || (rule.target.Cgroup? && !IsApplicationCgroup(rule.target.path))
    || (rule.action.Mark? && forall lane :: lane in plan.lanes ==> lane.mark != rule.action.mark)
  }

  lemma FlawedLaneIff(lane: LanePlan)
    ensures FlawedLane(lane) <==> !InReservedRanges(lane) || !IsKernelInterfaceName(lane.iface)
  {
  }

  /** A plan is refused exactly for one of these flaws. */
  lemma PlanIsRefusedIff(plan: KernelPlan)
    ensures ValidPlan(plan) <==> !Flawed(plan)
  {
    forall lane ensures FlawedLane(lane) <==> !InReservedRanges(lane) || !IsKernelInterfaceName(lane.iface) {
      FlawedLaneIff(lane);
    }
    if !Flawed(plan) {
      forall i | 0 <= i < |plan.lanes| ensures InReservedRanges(plan.lanes[i]) && IsKernelInterfaceName(plan.lanes[i].iface) {
        assert plan.lanes[i] in plan.lanes;
      }
      forall i, j | 0 <= i < j < |plan.lanes| ensures !Share(plan.lanes[i], plan.lanes[j]) {
      }
      forall i | 0 <= i < |plan.rules| ensures !FlawedRule(plan, plan.rules[i]) {
        assert plan.rules[i] in plan.rules;
      }
    }
  }

  ghost predicate ValidFingerprintPair(r: Record) {
    r.active.Some? == r.activeFingerprint.Some?
  }

  ghost predicate ValidExpectations(r: Record) {
    match (r.pending, r.expectations)
    case (None, None) => true
    case (Some(pending), Some(e)) => e == BuildExpectations(r.active, e.lost, pending)
    case _ => false
  }

  predicate ValidRestoreReceipt(r: Record) {
    match r.restoreReceipt
    case None => true
    case Some(receipt) =>
      && receipt.previousGeneration.Some? == receipt.previousHash.Some?
      && (if r.cleanupPending then
            r.pending.None? && receipt.FailedMatches(r.active) && receipt.PreviousMatches(None)
          else if r.pending.Some? then
            receipt.FailedMatches(r.active) && receipt.PreviousMatches(r.pending)
          else receipt.PreviousMatches(r.active))
  }

  predicate SettingsOwnedByPlans(r: Record) {
    && (r.interfaceSettings != [] ==> r.active.Some?)
    && (r.pendingInterfaceSettings != [] ==> r.pending.Some?)
    && (r.runtime.Some? || r.runtimeRestore.Some? ==> r.active.Some?)
    && (r.pendingRuntime.Some? ==> r.pending.Some?)
  }

  predicate WellFormedReceipts(receipts: seq<SettingReceipt>) {
    forall i :: 0 <= i < |receipts| ==> receipts[i].previous == 0 && receipts[i].applied == 1
  }

  lemma JoinedReceipts(a: seq<SettingReceipt>, b: seq<SettingReceipt>)
    requires WellFormedReceipts(a) && WellFormedReceipts(b)
    ensures WellFormedReceipts(a + b)
  {
  }

  lemma OneMoreReceipt(receipts: seq<SettingReceipt>, r: SettingReceipt)
    requires WellFormedReceipts(receipts) && r.previous == 0 && r.applied == 1
    ensures WellFormedReceipts(receipts + [r])
  {
  }

  /** The receipts a record carries, against the bound every load checks. */
  predicate WithinReceiptBound(r: Record) {
    |r.interfaceSettings| + |r.pendingInterfaceSettings| <= 2 * MAX_LANES
  }

  /** Everything a load checks except the receipt bound. */
  ghost predicate SoundRecord(r: Record) {
    && r.legacy.None?
    && (r.active.Some? ==> ValidPlan(r.active.value))
    && (r.pending.Some? ==> ValidPlan(r.pending.value))
    && ValidFingerprintPair(r)
    && ValidExpectations(r)
    && ValidRestoreReceipt(r)
    && SettingsOwnedByPlans(r)
    && WellFormedReceipts(r.interfaceSettings)
    && WellFormedReceipts(r.pendingInterfaceSettings)
  }

  ghost predicate ValidRecord(r: Record) {
    SoundRecord(r) && WithinReceiptBound(r)
  }

  function TransactionOf(r: Record): Transaction
    requires r.pending.Some? && r.expectations.Some?
  {
    Transaction(r.active, r.expectations.value.lost, r.pending.value)
  }

  /** The phase that the fingerprints in the journal give a live document. */
  function JournaledPhase(r: Record, nft: Nft): Option<Phase>
    requires r.expectations.Some?
  {
    var e := r.expectations.value;
    match (r.activeFingerprint, nft)
    case (None, Absent) => Some(Untouched)
    case (Some(_), Absent) => Some(RollbackAbsent)
    case (_, live) =>
      if r.activeFingerprint == Some(live) then Some(Untouched)
      else if live == e.guard then Some(GuardPhase)
      else if live == e.guardless then Some(GuardlessTransaction)
      else if live == e.activated then Some(Activated)
      else if live == e.committed then Some(CommittedPhase)
      else None
  }

  /** The record written ahead of a transition. */
  function PendingRecord(
    active: Option<KernelPlan>, lost: LostUnicast, pending: KernelPlan, receipt: Option<RestoreReceipt>,
    extras: Extras, pendingRuntime: Option<RuntimeRecord>, intents: seq<SettingReceipt>): Record
  {
    CommittedRecord(active, receipt, extras).(
      pending := Some(pending),
      expectations := Some(BuildExpectations(active, lost, pending)),
      pendingRuntime := pendingRuntime,
      pendingInterfaceSettings := intents)
  }

  /** The record that revokes a generation before any of it is removed. */
  function CleanupRecord(plan: KernelPlan, receipt: Option<RestoreReceipt>, settings: seq<SettingReceipt>): Record {
    CommittedRecord(Some(plan), receipt, Extras(settings, None, None)).(cleanupPending := true)
  }

  /** A receipt that can accompany the removal of the only generation. */
  ghost predicate CleanupReceiptFits(receipt: Option<RestoreReceipt>, plan: Option<KernelPlan>) {
    receipt.Some? ==> plan.Some? && receipt.value == NewReceipt(plan.value, None)
  }

  function ExtrasOf(r: Record): Extras {
    Extras(r.interfaceSettings, r.runtime, r.runtimeRestore)
  }

  /** A receipt that can accompany a transition from `active` to `pending`. */
  ghost predicate ReceiptFits(receipt: Option<RestoreReceipt>, active: Option<KernelPlan>, pending: KernelPlan) {
    receipt.Some? ==> active.Some? && receipt.value == NewReceipt(active.value, Some(pending))
  }

  ghost predicate ValidExtras(extras: Extras, active: Option<KernelPlan>) {
    && (active.None? ==> extras == NO_EXTRAS)
    && WellFormedReceipts(extras.settings)
  }

  /** Every record a transition writes ahead loads again exactly while the receipts stay within the bound. */
  lemma PendingRecordLoadsIff(
    active: Option<KernelPlan>, lost: LostUnicast, pending: KernelPlan, receipt: Option<RestoreReceipt>,
    extras: Extras, pendingRuntime: Option<RuntimeRecord>, intents: seq<SettingReceipt>)
    requires active.Some? ==> ValidPlan(active.value)
    requires ValidPlan(pending) && ReceiptFits(receipt, active, pending)
    requires ValidExtras(extras, active) && WellFormedReceipts(intents)
    ensures SoundRecord(PendingRecord(active, lost, pending, receipt, extras, pendingRuntime, intents))
    ensures ValidRecord(PendingRecord(active, lost, pending, receipt, extras, pendingRuntime, intents))
            <==> |extras.settings| + |intents| <= 2 * MAX_LANES
    ensures TransactionOf(PendingRecord(active, lost, pending, receipt, extras, pendingRuntime, intents))
            == Transaction(active, lost, pending)
  {
  }

  lemma CommittedRecordLoadsIff(plan: Option<KernelPlan>, receipt: Option<RestoreReceipt>, extras: Extras)
    requires plan.Some? ==> ValidPlan(plan.value)
    requires receipt.Some? ==> receipt.value.PreviousMatches(plan)
    requires ValidExtras(extras, plan)
    ensures SoundRecord(CommittedRecord(plan, receipt, extras))
    ensures ValidRecord(CommittedRecord(plan, receipt, extras)) <==> |extras.settings| <= 2 * MAX_LANES
  {
  }

  /** Two restores have one receipt only if they are of the same candidate to the same plan. */
  lemma ReceiptsIdentify(failed: KernelPlan, previous: Option<KernelPlan>, other: KernelPlan, before: Option<KernelPlan>)
    ensures NewReceipt(failed, previous) == NewReceipt(other, before) <==> failed == other && previous == before
    ensures NewReceipt(failed, previous).PreviousMatches(before) <==> previous == before
    ensures NewReceipt(failed, previous).FailedMatches(before) <==> before == Some(failed)
  {
    ContentAndGeneration(failed, other);
    if before.Some? {
      ContentAndGeneration(failed, before.value);
    }
    if previous.Some? && before.Some? {
      ContentAndGeneration(previous.value, before.value);
    }
  }

  lemma ContentAndGeneration(a: KernelPlan, b: KernelPlan)
    ensures a.generation == b.generation && a.Content() == b.Content() <==> a == b
  {
    assert a == a.Content().(generation := a.generation);
    assert b == b.Content().(generation := b.generation);
  }

  // ----- Which receipts a transition adds -----

  /** Lanes whose IPv4 replies need the setting, each interface once. */
  function MarkAware(lanes: seq<LanePlan>): (identities: seq<InterfaceIdentity>)
    ensures |identities| <= |lanes|
    ensures forall i, j :: 0 <= i < j < |identities| ==> identities[i] != identities[j]
  {
    if lanes == [] then
      []
    else
      var lane, before := lanes[|lanes| - 1], MarkAware(lanes[..|lanes| - 1]);
      if lane.availability != Available || lane.routeV4.None? || lane.identity.None? || lane.identity.value in before then
        before
      else
        before + [lane.identity.value]
  }

  /** The interfaces that need the setting: those of the lanes that are available with an IPv4 route and an identity. */
  lemma {:induction false} MarkAwareIff(lanes: seq<LanePlan>, identity: InterfaceIdentity)
    ensures identity in MarkAware(lanes) <==>
              exists lane :: lane in lanes && lane.availability == Available && lane.routeV4.Some? && lane.identity == Some(identity)
  {
    if lanes != [] {
      var last, rest := lanes[|lanes| - 1], lanes[..|lanes| - 1];
      MarkAwareIff(rest, identity);
      assert forall lane :: lane in lanes <==> lane == last || lane in rest;
    }
  }

  predicate Owns(settings: seq<SettingReceipt>, identity: InterfaceIdentity) {
    exists k :: 0 <= k < |settings| && settings[k].identity == identity
  }

  /** One receipt for every interface that needs the setting and is not owned yet. */
  function NeededReceipts(
    settings: seq<SettingReceipt>, identities: seq<InterfaceIdentity>, unmarked: set<InterfaceIdentity>): seq<SettingReceipt>
  {
    NeededUpTo(settings, identities, |identities|, unmarked)
  }

  function NeededUpTo(
    settings: seq<SettingReceipt>, identities: seq<InterfaceIdentity>, n: nat, unmarked: set<InterfaceIdentity>)
    : (r: seq<SettingReceipt>)
    requires n <= |identities|
    ensures |r| <= n && WellFormedReceipts(r)
  {
    if n == 0 then
      []
    else
      var before := NeededUpTo(settings, identities, n - 1, unmarked);
      if Owns(settings, identities[n - 1]) || identities[n - 1] !in unmarked then before
      else before + [SettingReceipt(identities[n - 1], 0, 1)]
  }

  /** One receipt, of a zero made one, for each of the interfaces that needs the setting and has no receipt yet; and no other. */
  lemma NeededReceiptsAre(
    settings: seq<SettingReceipt>, identities: seq<InterfaceIdentity>, unmarked: set<InterfaceIdentity>, r: SettingReceipt)
    requires forall i, j :: 0 <= i < j < |identities| ==> identities[i] != identities[j]
    ensures r in NeededReceipts(settings, identities, unmarked) <==>
              && r.identity in identities && r.identity in unmarked && r.previous == 0 && r.applied == 1
              && forall own :: own in settings ==> own.identity != r.identity
    ensures var needed := NeededReceipts(settings, identities, unmarked);
            forall i, j :: 0 <= i < j < |needed| ==> needed[i].identity != needed[j].identity
  {
    NeededUpToAre(settings, identities, |identities|, unmarked, r);
  }

  lemma {:induction false} NeededUpToAre(
    settings: seq<SettingReceipt>, identities: seq<InterfaceIdentity>, n: nat, unmarked: set<InterfaceIdentity>, r: SettingReceipt)
    requires n <= |identities| && forall i, j :: 0 <= i < j < |identities| ==> identities[i] != identities[j]
    ensures r in NeededUpTo(settings, identities, n, unmarked) <==>
              && (exists i :: 0 <= i < n && identities[i] == r.identity) && r.identity in unmarked && r.previous == 0 && r.applied == 1
              && forall own :: own in settings ==> own.identity != r.identity
    ensures var needed := NeededUpTo(settings, identities, n, unmarked);
            && (forall k :: 0 <= k < |needed| ==> exists i :: 0 <= i < n && identities[i] == needed[k].identity)
            && forall i, j :: 0 <= i < j < |needed| ==> needed[i].identity != needed[j].identity
  {
    if n > 0 {
      NeededUpToAre(settings, identities, n - 1, unmarked, r);
      var before := NeededUpTo(settings, identities, n - 1, unmarked);
      assert Owns(settings, identities[n - 1]) <==> exists own :: own in settings && own.identity == identities[n - 1];
    }
  }
}
