/** When does the journal account for everything RouteLane left in the kernel? */
module Accounting {
  import opened Wrappers
  import opened Plan
  import opened Routing
  import opened Composition
  import opened FailClosed
  import opened Rollback
  import opened CrashModel
  import opened CrashCheck
  import opened Journal
  import opened World

  ghost predicate IsBasis(plan: KernelPlan, lost: LostUnicast, routing: Ownership) {
    routing == PlanOwnership(RoutingBasis(plan.lanes, lost))
  }

  /** A committed generation: exact nftables, exact routing up to unicast defaults the kernel dropped. */
  ghost predicate CommittedState(active: Option<KernelPlan>, sys: Sys) {
    match active
    case None => sys == Sys(Absent, EMPTY)
    case Some(plan) => sys.nft == Committed(plan) && exists lost :: IsBasis(plan, lost, sys.routing)
  }

  predicate Subset(a: Ownership, b: Ownership) {
    a.routes <= b.routes && a.rules <= b.rules
  }

  /** A cleanup in progress: a part of what the plan owned, and the table until nothing else is left. */
  predicate CleanupState(plan: KernelPlan, sys: Sys) {
    && Subset(sys.routing, PlanOwnership(plan.lanes))
    && (sys.nft == Committed(plan) || (sys.nft.Absent? && sys.routing == EMPTY))
  }

  /** What a cleanup goes on from: under the plan's own document nothing that the plan did not own, and without it nothing. */
  lemma CleanupStateIff(plan: KernelPlan, sys: Sys)
    ensures CleanupState(plan, sys) <==>
              match sys.nft
              case Absent => sys.routing.routes == {} && sys.routing.rules == {}
              case Doc(active, pending, guard) =>
                && active == Some(plan) && pending == None && !guard
                && (forall r :: r in sys.routing.routes ==> r in PlanOwnership(plan.lanes).routes)
                && (forall u :: u in sys.routing.rules ==> u in PlanOwnership(plan.lanes).rules)
  {
  }

  ghost predicate Fingerprinted(r: Record) {
    r.activeFingerprint == match r.active case None => None case Some(plan) => Some(Committed(plan))
  }

  ghost predicate AccountedRecord(r: Record, sys: Sys) {
    && SoundRecord(r) && Fingerprinted(r)
    && (if r.pending.Some? then
          && !r.cleanupPending && TransactionOf(r).Valid()
          && (Accepts(TransactionOf(r), sys) || Stranded(TransactionOf(r), sys))
        else if r.cleanupPending then
          r.active.Some? && r.runtime.None? && r.runtimeRestore.None? && CleanupState(r.active.value, sys)
        else CommittedState(r.active, sys))
  }

  /** The whole-run invariant: but for the receipt bound the record passes every load check, and it explains the kernel. */
  ghost predicate Accounted(s: Snapshot) {
    match s.record
    case None => s.sys == Sys(Absent, EMPTY)
    case Some(r) => AccountedRecord(r, s.sys)
  }

  ghost predicate AllAccounted(seen: set<Snapshot>) {
    forall s :: s in seen ==> Accounted(s)
  }

  // ----- The recovery check, on the journal -----

  /** The fingerprints in a sound journal tell the phases of its transaction apart. */
  lemma JournaledPhaseIs(r: Record, nft: Nft)
    requires SoundRecord(r) && Fingerprinted(r) && r.pending.Some? && TransactionOf(r).Valid()
    ensures JournaledPhase(r, nft) == Classify(TransactionOf(r), nft)
  {
  }

  /** Verification of a pending journal against the live kernel, phase first. */
  method VerifyPending(r: Record, live: Sys) returns (verified: Result<(), CheckError>)
    requires SoundRecord(r) && Fingerprinted(r) && r.pending.Some? && TransactionOf(r).Valid()
    ensures verified.Ok? <==> Accepts(TransactionOf(r), live)
  {
    JournaledPhaseIs(r, live.nft);
    var phase := JournaledPhase(r, live.nft);
    if phase.None? {
      return Err(NoCrashState);
    }
    var active := if r.active.None? then None else Some(RoutingBasis(r.active.value.lanes, r.expectations.value.lost));
    var reachable := RoutingStateReachable(live.routing, active, r.pending.value.lanes, phase.value);
    if reachable.Err? {
      return Err(UnderivableCommit);
    }
    verified := if reachable.value then Ok(()) else Err(NoCrashState);
  }

  // ----- Losing unicast defaults -----

  lemma LosingOneMore(plan: KernelPlan, lost: LostUnicast, routing: Ownership, r: RouteOwnership)
    requires DistinctTables(plan.lanes) && IsBasis(plan, lost, routing) && !r.terminal
    ensures exists more :: IsBasis(plan, more, routing.(routes := routing.routes - {r}))
  {
    BasisOwnership(plan.lanes, lost);
    PlanOwnsExactly(plan.lanes);
    if r in routing.routes {
      var more := lost + {(r.family, r.table)};
      BasisOwnership(plan.lanes, more);
      forall q ensures q in PlanOwnership(RoutingBasis(plan.lanes, more)).routes <==> q in routing.routes - {r} {
      }
      assert PlanOwnership(RoutingBasis(plan.lanes, more)).routes == routing.routes - {r};
      assert IsBasis(plan, more, routing.(routes := routing.routes - {r}));
    } else {
      assert routing.routes - {r} == routing.routes;
      assert routing.(routes := routing.routes - {r}) == routing;
    }
  }

  /** A basis never holds a route or rule its plan does not own. */
  lemma BasisIsSubset(plan: KernelPlan, lost: LostUnicast)
    requires DistinctTables(plan.lanes)
    ensures Subset(PlanOwnership(RoutingBasis(plan.lanes, lost)), PlanOwnership(plan.lanes))
  {
    BasisOwnership(plan.lanes, lost);
  }

  lemma NothingLost(plan: KernelPlan)
    ensures RoutingBasis(plan.lanes, {}) == plan.lanes
    ensures IsBasis(plan, {}, PlanOwnership(plan.lanes))
  {
    assert RoutingBasis(plan.lanes, {}) == plan.lanes;
  }

  // ----- Cleanup -----

  lemma CleanupShrinks(plan: KernelPlan, routing: Ownership, steps: seq<RoutingStep>, live: Ownership)
    requires AllRemovals(steps) && Subset(routing, PlanOwnership(plan.lanes)) && Reaches(routing, steps, live)
    ensures Subset(live, PlanOwnership(plan.lanes))
    ensures routing == EMPTY ==> live == EMPTY
  {
    var k :| 0 <= k <= |steps| && StateAt(routing, steps, k) == live;
    RemovalRun(routing, steps[..k]);
  }

  lemma CleanupEmpties(plan: KernelPlan, routing: Ownership)
    requires DistinctTables(plan.lanes) && Subset(routing, PlanOwnership(plan.lanes))
    ensures Run(routing, RollbackSteps([plan.lanes])) == EMPTY
  {
    PlanOwnsExactly(plan.lanes);
    assert Plans(None, plan.lanes) == [plan.lanes];
    RollbackEmpties(None, plan.lanes, routing);
  }

  // ----- Which losses an apply may build on -----

  ghost predicate Tolerable(plan: KernelPlan, next: KernelPlan, live: Sys) {
    var owned := PlanOwnership(plan.lanes);
    && live.nft == Committed(plan)
    && live.routing.rules == owned.rules && live.routing.routes <= owned.routes
    && forall r :: r in owned.routes && r !in live.routing.routes ==> !r.terminal && GivenUp(next, r)
  }

  /** The next plan has no lane for the table, or one that is unavailable or without a route for the family. */
  ghost predicate GivenUp(next: KernelPlan, r: RouteOwnership) {
    forall i :: FirstOfTable(next.lanes, r.table, i) ==>
      next.lanes[i].availability == Unavailable || (if r.family == V4 then next.lanes[i].routeV4 else next.lanes[i].routeV6) == None
  }

  lemma GivenUpIff(next: KernelPlan, r: RouteOwnership)
    ensures GivenUp(next, r) <==> !StillUsed(next, r)
  {
    var lane := LaneForTable(next.lanes, r.table);
    if lane.Some? {
      var i :| FirstOfTable(next.lanes, r.table, i) && next.lanes[i] == lane.value;
      assert forall j :: FirstOfTable(next.lanes, r.table, j) ==> j == i;
    }
  }

  predicate StillUsed(next: KernelPlan, r: RouteOwnership) {
    var lane := LaneForTable(next.lanes, r.table);
    lane.Some? && LaneUnicast(lane.value, r.family).Some?
  }

  /** A slot owns at most one unicast default. */
  lemma OneUnicastPerSlot(lanes: seq<LanePlan>, a: RouteOwnership, b: RouteOwnership)
    requires DistinctTables(lanes)
    requires a in PlanOwnership(lanes).routes && b in PlanOwnership(lanes).routes
    requires !a.terminal && !b.terminal && a.family == b.family && a.table == b.table
    ensures a == b
  {
    PlanOwnsExactly(lanes);
  }

  lemma LossesAreExact(plan: KernelPlan, routing: Ownership, lost: LostUnicast)
    requires DistinctTables(plan.lanes)
    requires routing.rules == PlanOwnership(plan.lanes).rules && routing.routes <= PlanOwnership(plan.lanes).routes
    requires forall r :: r in PlanOwnership(plan.lanes).routes && r !in routing.routes ==> !r.terminal
    requires lost == set r | r in PlanOwnership(plan.lanes).routes && r !in routing.routes :: (r.family, r.table)
    ensures IsBasis(plan, lost, routing)
  {
    var owned := PlanOwnership(plan.lanes);
    BasisOwnership(plan.lanes, lost);
    forall r | r in owned.routes ensures r in routing.routes <==> r.terminal || (r.family, r.table) !in lost {
      if !r.terminal && (r.family, r.table) in lost {
        var q :| q in owned.routes && q !in routing.routes && (q.family, q.table) == (r.family, r.table);
        OneUnicastPerSlot(plan.lanes, q, r);
      }
    }
    assert PlanOwnership(RoutingBasis(plan.lanes, lost)).routes == routing.routes;
  }

  /**
   * The unicast defaults the kernel dropped, if nothing else differs and the next plan gives each of them up;
   * the live routing is then exactly the basis of the plan.
   */
  method ToleratedLost(plan: KernelPlan, next: KernelPlan, live: Sys) returns (r: Option<LostUnicast>)
    requires DistinctTables(plan.lanes)
    ensures r.Some? <==> Tolerable(plan, next, live)
    ensures r.Some? ==> IsBasis(plan, r.value, live.routing)
  {
    var owned := PlanOwnership(plan.lanes);
    if live.nft != Committed(plan) || live.routing.rules != owned.rules || !(live.routing.routes <= owned.routes) {
      return None;
    }
    var missing := owned.routes - live.routing.routes;
    var left := missing;
    var lost: LostUnicast := {};
    while left != {}
      invariant left <= missing
      invariant forall q :: q in missing - left ==> !q.terminal && GivenUp(next, q)
      invariant lost == set q | q in missing - left :: (q.family, q.table)
      decreases left
    {
      var route :| route in left;
      GivenUpIff(next, route);
      if route.terminal || StillUsed(next, route) {
        return None;
      }
      lost := lost + {(route.family, route.table)};
      left := left - {route};
    }
    assert lost == set q | q in owned.routes && q !in live.routing.routes :: (q.family, q.table);
    LossesAreExact(plan, live.routing, lost);
    return Some(lost);
  }
}
