/** Which live states a journaled transaction may have left: the declarative form of the recovery check. */
module CrashModel {
  import opened Wrappers
  import opened Plan
  import opened Routing
  import opened Composition
  import opened FailClosed
  import opened Rollback

  /** The live nftables table: absent, or a rendered document identified by what it was rendered from. */
  datatype Nft = Absent | Doc(active: Option<KernelPlan>, pending: Option<KernelPlan>, guard: bool)

  datatype Sys = Sys(nft: Nft, routing: Ownership)

  function Committed(plan: KernelPlan): Nft {
    Doc(Some(plan), None, false)
  }

  /** What a pending journal fixes: the previous generation, what the kernel dropped of it, and the candidate. */
  datatype Transaction = Transaction(active: Option<KernelPlan>, lost: LostUnicast, pending: KernelPlan) {
    function Active(): Option<seq<LanePlan>> {
      match active case None => None case Some(plan) => Some(RoutingBasis(plan.lanes, lost))
    }

    function Next(): seq<LanePlan> { pending.lanes }

    ghost predicate Valid() {
      && (active.Some? ==> DistinctTables(active.value.lanes) && active.value.generation != pending.generation)
      && DistinctTables(pending.lanes)
    }

    function Rollback(): seq<RoutingStep> {
      RollbackSteps(Plans(Active(), Next()))
    }

    /** Where a completed rollback ends. */
    function Target(): Sys {
      match active case None => Sys(Absent, EMPTY) case Some(plan) => Sys(Committed(plan), Basis(Active()))
    }
  }

  datatype Phase = Untouched | GuardPhase | GuardlessTransaction | Activated | CommittedPhase | RollbackAbsent

  function Classify(t: Transaction, nft: Nft): Option<Phase> {
    if t.active.None? && nft.Absent? then Some(Untouched)
    else if t.active.Some? && nft == Committed(t.active.value) then Some(Untouched)
    else if t.active.Some? && nft.Absent? then Some(RollbackAbsent)
    else if nft == Doc(t.active, Some(t.pending), true) then Some(GuardPhase)
    else if nft == Doc(t.active, Some(t.pending), false) then Some(GuardlessTransaction)
    else if nft == Doc(Some(t.pending), None, true) then Some(Activated)
    else if nft == Committed(t.pending) then Some(CommittedPhase)
    else None
  }

  function StateAt(s: Ownership, steps: seq<RoutingStep>, k: nat): Ownership
    requires k <= |steps|
  {
    Run(s, steps[..k])
  }

  ghost predicate Reaches(s: Ownership, steps: seq<RoutingStep>, live: Ownership) {
    exists k :: 0 <= k <= |steps| && StateAt(s, steps, k) == live
  }

  /** The steps of one stage, and the state it starts from. */
  datatype Stage = Stage(start: Ownership, steps: seq<RoutingStep>)

  function PhaseStage(active: Option<seq<LanePlan>>, pending: seq<LanePlan>, phase: Phase): Stage {
    match phase
    case Untouched => Stage(Basis(active), [])
    case GuardPhase => Stage(Basis(active), TransitionSteps(active, pending))
    case GuardlessTransaction => Stage(Basis(active), TransitionSteps(active, pending))
    case Activated => RetireStage(active, pending)
    case CommittedPhase => RetireStage(active, pending)
    case RollbackAbsent => Stage(EMPTY, if active.None? then [] else InstallSteps(active.value))
  }

  function RetireStage(active: Option<seq<LanePlan>>, pending: seq<LanePlan>): Stage {
    Stage(Run(Basis(active), TransitionSteps(active, pending)),
          if active.None? then [] else RetireSteps(active.value, pending))
  }

  /** A stage interrupted anywhere, and then a rollback interrupted anywhere. */
  ghost predicate ReachesThroughRollback(stage: Stage, rollback: seq<RoutingStep>, live: Ownership) {
    exists i :: 0 <= i <= |stage.steps| && Reaches(StateAt(stage.start, stage.steps, i), rollback, live)
  }

  ghost predicate Reachable(active: Option<seq<LanePlan>>, pending: seq<LanePlan>, phase: Phase, live: Ownership) {
    var stage := PhaseStage(active, pending, phase);
    if phase.RollbackAbsent? then Reaches(stage.start, stage.steps, live)
    else ReachesThroughRollback(stage, RollbackSteps(Plans(active, pending)), live)
  }

  /** The check a restarted helper makes before it touches anything. */
  ghost predicate Accepts(t: Transaction, sys: Sys) {
    var phase := Classify(t, sys.nft);
    phase.Some? && Reachable(t.Active(), t.Next(), phase.value, sys.routing)
  }

  // ----- The states of the forward run are accepted -----

  lemma ReachesHere(s: Ownership, steps: seq<RoutingStep>)
    ensures Reaches(s, steps, s)
  {
    assert StateAt(s, steps, 0) == s;
  }

  lemma StageStateReachable(
    active: Option<seq<LanePlan>>, pending: seq<LanePlan>, phase: Phase, k: nat)
    requires k <= |PhaseStage(active, pending, phase).steps|
    ensures Reachable(active, pending, phase,
      StateAt(PhaseStage(active, pending, phase).start, PhaseStage(active, pending, phase).steps, k))
  {
    var stage := PhaseStage(active, pending, phase);
    ReachesHere(StateAt(stage.start, stage.steps, k), RollbackSteps(Plans(active, pending)));
  }

  /** The prepare stage never leaves the guard phase. */
  lemma PrepareAccepted(t: Transaction, k: nat)
    requires t.Valid() && k <= |TransitionSteps(t.Active(), t.Next())|
    ensures Accepts(t, Sys(Doc(t.active, Some(t.pending), true), StateAt(Basis(t.Active()), TransitionSteps(t.Active(), t.Next()), k)))
  {
    StageStateReachable(t.Active(), t.Next(), GuardPhase, k);
  }

  lemma RetireAccepted(t: Transaction, guard: bool, k: nat)
    requires t.Valid() && k <= |RetireStage(t.Active(), t.Next()).steps|
    ensures Accepts(t, Sys(Doc(Some(t.pending), None, guard),
      StateAt(RetireStage(t.Active(), t.Next()).start, RetireStage(t.Active(), t.Next()).steps, k)))
  {
    ActivatedPhases(t, guard);
    RetireStateReachable(t.Active(), t.Next(), if guard then Activated else CommittedPhase, k);
  }

  lemma ActivatedPhases(t: Transaction, guard: bool)
    requires t.Valid()
    ensures Classify(t, Doc(Some(t.pending), None, guard)) == Some(if guard then Activated else CommittedPhase)
  {
  }

  lemma {:induction false} RetireStateReachable(active: Option<seq<LanePlan>>, pending: seq<LanePlan>, phase: Phase, k: nat)
    requires phase == Activated || phase == CommittedPhase
    requires k <= |RetireStage(active, pending).steps|
    ensures Reachable(active, pending, phase,
      StateAt(RetireStage(active, pending).start, RetireStage(active, pending).steps, k))
  {
    StageStateReachable(active, pending, phase, k);
  }

  lemma TargetAccepted(t: Transaction)
    requires t.Valid()
    ensures Accepts(t, t.Target())
  {
    StageStateReachable(t.Active(), t.Next(), Untouched, 0);
    assert StateAt(Basis(t.Active()), [], 0) == Basis(t.Active());
  }

  lemma ReinstallAccepted(t: Transaction, k: nat)
    requires t.Valid() && t.active.Some? && k <= |InstallSteps(t.Active().value)|
    ensures Accepts(t, Sys(Absent, StateAt(EMPTY, InstallSteps(t.Active().value), k)))
  {
    StageStateReachable(t.Active(), t.Next(), RollbackAbsent, k);
  }

  // ----- Closure -----

  /** While the table is present, any interrupted rollback from an accepted state is accepted again. */
  lemma RollbackClosure(t: Transaction, sys: Sys, j: nat)
    requires t.Valid() && Accepts(t, sys) && Classify(t, sys.nft) != Some(RollbackAbsent)
    requires j <= |t.Rollback()|
    ensures Accepts(t, Sys(sys.nft, StateAt(sys.routing, t.Rollback(), j)))
  {
    var stage := PhaseStage(t.Active(), t.Next(), Classify(t, sys.nft).value);
    var rollback := t.Rollback();
    var i :| 0 <= i <= |stage.steps| && Reaches(StateAt(stage.start, stage.steps, i), rollback, sys.routing);
    var from := StateAt(stage.start, stage.steps, i);
    var k :| 0 <= k <= |rollback| && StateAt(from, rollback, k) == sys.routing;
    RollbackShape(t.Active(), t.Next());
    InterruptedRollback(from, rollback, k, j);
    assert StateAt(from, rollback, if k < j then j else k) == StateAt(sys.routing, rollback, j);
    assert Reaches(from, rollback, StateAt(sys.routing, rollback, j));
  }

  function Guardless(nft: Nft): Nft {
    if nft.Doc? then nft.(guard := false) else nft
  }

  /** Dropping the guard chain after a failed rollback keeps the state accepted. */
  lemma GuardRemovalAccepted(t: Transaction, sys: Sys)
    requires t.Valid() && Accepts(t, sys)
    ensures Accepts(t, Sys(Guardless(sys.nft), sys.routing))
  {
    var before := Classify(t, sys.nft).value;
    GuardlessPhaseOf(t, sys.nft);
    GuardlessReachable(t.Active(), t.Next(), before, sys.routing);
  }

  function GuardlessPhase(phase: Phase): Phase {
    match phase
    case GuardPhase => GuardlessTransaction
    case Activated => CommittedPhase
    case _ => phase
  }

  lemma GuardlessPhaseOf(t: Transaction, nft: Nft)
    requires t.Valid() && Classify(t, nft).Some?
    ensures Classify(t, Guardless(nft)) == Some(GuardlessPhase(Classify(t, nft).value))
  {
  }

  lemma GuardlessReachable(active: Option<seq<LanePlan>>, pending: seq<LanePlan>, phase: Phase, live: Ownership)
    requires Reachable(active, pending, phase, live)
    ensures Reachable(active, pending, GuardlessPhase(phase), live)
  {
    assert PhaseStage(active, pending, phase) == PhaseStage(active, pending, GuardlessPhase(phase));
  }

  // ----- Accepted states are within the plans -----

  lemma StageIsWithin(active: Option<seq<LanePlan>>, pending: seq<LanePlan>, phase: Phase, k: nat)
    requires active.Some? ==> DistinctTables(active.value)
    requires DistinctTables(pending)
    requires k <= |PhaseStage(active, pending, phase).steps|
    ensures WithinPlans(active, pending,
      StateAt(PhaseStage(active, pending, phase).start, PhaseStage(active, pending, phase).steps, k))
  {
    match phase {
      case Untouched => BasisIsWithin(active, pending);
      case GuardPhase => ForwardIsWithin(active, pending, k);
      case GuardlessTransaction => ForwardIsWithin(active, pending, k);
      case Activated => RetireStageIsWithin(active, pending, k);
      case CommittedPhase => RetireStageIsWithin(active, pending, k);
      case RollbackAbsent =>
        if active.Some? {
          ForwardIsWithin(None, active.value, k);
        }
    }
  }

  lemma RetireStageIsWithin(active: Option<seq<LanePlan>>, pending: seq<LanePlan>, k: nat)
    requires active.Some? ==> DistinctTables(active.value)
    requires k <= |RetireStage(active, pending).steps|
    ensures WithinPlans(active, pending, StateAt(RetireStage(active, pending).start, RetireStage(active, pending).steps, k))
  {
    if active.Some? {
      RetireIsWithin(active.value, pending, k);
    } else {
      var steps := TransitionSteps(active, pending);
      ForwardIsWithin(active, pending, |steps|);
      assert steps[..|steps|] == steps;
    }
  }

  lemma AcceptedIsWithin(t: Transaction, sys: Sys)
    requires t.Valid() && Accepts(t, sys)
    ensures WithinPlans(t.Active(), t.Next(), sys.routing)
  {
    var phase := Classify(t, sys.nft).value;
    var stage := PhaseStage(t.Active(), t.Next(), phase);
    if phase.RollbackAbsent? {
      var k :| 0 <= k <= |stage.steps| && StateAt(stage.start, stage.steps, k) == sys.routing;
      StageIsWithin(t.Active(), t.Next(), phase, k);
    } else {
      var i :| 0 <= i <= |stage.steps| && Reaches(StateAt(stage.start, stage.steps, i), t.Rollback(), sys.routing);
      var from := StateAt(stage.start, stage.steps, i);
      var k :| 0 <= k <= |t.Rollback()| && StateAt(from, t.Rollback(), k) == sys.routing;
      StageIsWithin(t.Active(), t.Next(), phase, i);
      RollbackShape(t.Active(), t.Next());
      RemovalsStayWithin(t.Active(), t.Next(), from, t.Rollback()[..k]);
    }
  }

  /** From every accepted state the full rollback removes everything. */
  lemma RollbackFromAccepted(t: Transaction, sys: Sys)
    requires t.Valid() && Accepts(t, sys)
    ensures Run(sys.routing, t.Rollback()) == EMPTY
  {
    AcceptedIsWithin(t, sys);
    RollbackEmpties(t.Active(), t.Next(), sys.routing);
  }

  // ----- Which crash states are open -----

  /** The IPv6 rules of a table that these removals have not reached. */
  ghost predicate StillRuled(s: Ownership, removals: seq<RoutingStep>, table: nat) {
    exists u :: u in s.rules && u.family == V6 && u.table == table && KeepsRule(removals, u)
  }

  /**
   * The preparation stopped after `i` steps inside the window of an IPv6 table, and its rollback after `j` more,
   * before all rules of that table were gone. Whether the guard is there does not matter.
   */
  ghost predicate LeftOpen(t: Transaction, phase: Phase, i: nat, j: nat)
    requires i <= |PhaseStage(t.Active(), t.Next(), phase).steps| && j <= |t.Rollback()|
  {
    var stage := PhaseStage(t.Active(), t.Next(), phase);
    && phase in {GuardPhase, GuardlessTransaction}
    && exists table :: InWindow(stage.steps, i, table) && StillRuled(StateAt(stage.start, stage.steps, i), t.Rollback()[..j], table)
  }

  /**
   * A crash state fails closed, the stage interrupted after `i` steps and its rollback after `j` more, if and only
   * if it is not left open; and then it is open in the table of the window alone.
   */
  lemma CrashStateIsClosedIff(t: Transaction, phase: Phase, i: nat, j: nat)
    requires t.Valid() && i <= |PhaseStage(t.Active(), t.Next(), phase).steps| && j <= |t.Rollback()|
    ensures var stage := PhaseStage(t.Active(), t.Next(), phase);
            var s := StateAt(StateAt(stage.start, stage.steps, i), t.Rollback(), j);
            && (Closed(s) <==> !LeftOpen(t, phase, i, j))
            && (!Closed(s) ==> exists table :: InWindow(stage.steps, i, table) && ClosedExcept(s, V6, table))
  {
    var stage := PhaseStage(t.Active(), t.Next(), phase);
    var s := StateAt(stage.start, stage.steps, i);
    StageFailsClosed(t, phase, i);
    StageIsWithin(t.Active(), t.Next(), phase, i);
    if Closed(s) {
      RollbackFailsClosed(t.Active(), t.Next(), s, j);
    } else {
      var table :| InWindow(stage.steps, i, table) && ClosedExcept(s, V6, table) && LiftedSafely(t.Active(), t.Next(), s, table);
      RollbackOfWindow(t.Active(), t.Next(), s, table, j);
    }
    if LeftOpen(t, phase, i, j) {
      var table :| InWindow(stage.steps, i, table) && StillRuled(s, t.Rollback()[..j], table);
      WindowHasNoTerminal(stage.start, stage.steps, i, table);
      RollbackShape(t.Active(), t.Next());
      RemovalRun(s, t.Rollback()[..j]);
    }
  }

  lemma WindowHasNoTerminal(start: Ownership, steps: seq<RoutingStep>, i: nat, table: nat)
    requires i <= |steps| && InWindow(steps, i, table)
    ensures !HoldsTerminal(StateAt(start, steps, i), V6, table)
  {
    if steps[i - 1] == DeleteRoute(V6, table, Terminal) {
      RunSnoc(start, steps, i - 1);
    } else {
      RunSnoc(start, steps, i - 2);
      RunSnoc(start, steps, i - 1);
    }
  }

  /** A rollback begun in the window opens nothing else, and closes the table when its IPv6 rules are gone. */
  lemma RollbackOfWindow(active: Option<seq<LanePlan>>, pending: seq<LanePlan>, s: Ownership, table: nat, j: nat)
    requires ClosedExcept(s, V6, table) && WithinPlans(active, pending, s)
    requires j <= |RollbackSteps(Plans(active, pending))|
    ensures var removals := RollbackSteps(Plans(active, pending))[..j];
            && ClosedExcept(Run(s, removals), V6, table)
            && (!StillRuled(s, removals, table) ==> Closed(Run(s, removals)))
  {
    var rules := RollbackRuleOrder(Plans(active, pending));
    var steps := RollbackSteps(Plans(active, pending));
    RollbackShape(active, pending);
    RemovalRun(s, steps[..j]);
    if j <= |rules| {
      assert forall k :: 0 <= k < j ==> steps[k].DeleteRule?;
      forall r | r in s.routes ensures r in Run(s, steps[..j]).routes {
        assert KeepsRoute(steps[..j], r);
      }
    } else {
      assert steps[..j][..|rules|] == DeleteRules(rules);
      forall u | u in s.rules ensures !KeepsRule(steps[..j], u) {
        var k :| 0 <= k < |rules| && rules[k] == u;
        assert RemovesRule(steps[..j][k], u);
      }
    }
  }

  // ----- The window can stand without the guard -----

  /** Every preparation that installs an IPv6 gateway where the previous plan had none opens the window. */
  lemma LiftOpensTheWindow(t: Transaction, lane: LanePlan) returns (i: nat)
    requires t.Valid() && t.active.Some? && lane in t.Next()
    requires NeedsOpenTable(PreviousLane(t.Active(), lane.table), lane, V6)
    ensures 0 < i <= |TransitionSteps(t.Active(), t.Next())|
    ensures InWindow(TransitionSteps(t.Active(), t.Next()), i, lane.table)
    ensures LeftOpen(t, GuardPhase, i, 0) && LeftOpen(t, GuardlessTransaction, i, 0)
  {
    i := LiftIsTaken(t.Active(), t.Next(), lane);
    PreviousRuleIsLive(t, lane.table, i);
    OpenAt(t, GuardPhase, i, lane.table);
    OpenAt(t, GuardlessTransaction, i, lane.table);
  }

  lemma OpenAt(t: Transaction, phase: Phase, i: nat, table: nat)
    requires phase in {GuardPhase, GuardlessTransaction} && i <= |TransitionSteps(t.Active(), t.Next())|
    requires InWindow(TransitionSteps(t.Active(), t.Next()), i, table)
    requires StillRuled(StateAt(Basis(t.Active()), TransitionSteps(t.Active(), t.Next()), i), [], table)
    ensures LeftOpen(t, phase, i, 0)
  {
    assert PhaseStage(t.Active(), t.Next(), phase) == Stage(Basis(t.Active()), TransitionSteps(t.Active(), t.Next()));
    assert t.Rollback()[..0] == [];
  }

  /** No crash state of the preparation is open if and only if no lane gets an IPv6 gateway in a table that had none. */
  lemma PreparationStaysClosedIff(t: Transaction)
    requires t.Valid()
    ensures (forall i, j :: 0 <= i <= |TransitionSteps(t.Active(), t.Next())| && 0 <= j <= |t.Rollback()| ==>
               !LeftOpen(t, GuardPhase, i, j))
            <==> (forall lane :: lane in t.Next() ==> !NeedsOpenTable(PreviousLane(t.Active(), lane.table), lane, V6))
  {
    var steps := TransitionSteps(t.Active(), t.Next());
    if forall lane :: lane in t.Next() ==> !NeedsOpenTable(PreviousLane(t.Active(), lane.table), lane, V6) {
      forall i, j | 0 <= i <= |steps| && 0 <= j <= |t.Rollback()| ensures !LeftOpen(t, GuardPhase, i, j) {
        StageFailsClosed(t, GuardPhase, i);
        StageIsWithin(t.Active(), t.Next(), GuardPhase, i);
        RollbackFailsClosed(t.Active(), t.Next(), StateAt(Basis(t.Active()), steps, i), j);
        CrashStateIsClosedIff(t, GuardPhase, i, j);
      }
    } else {
      var lane :| lane in t.Next() && NeedsOpenTable(PreviousLane(t.Active(), lane.table), lane, V6);
      var i := LiftOpensTheWindow(t, lane);
      assert LeftOpen(t, GuardPhase, i, 0);
    }
  }

  /** The first rule a rollback deletes is an IPv4 rule, so it leaves the window open. */
  lemma FirstRemovalLeavesOpen(t: Transaction, i: nat)
    requires t.Valid() && i <= |TransitionSteps(t.Active(), t.Next())| && LeftOpen(t, GuardPhase, i, 0)
    ensures |RollbackRuleOrder(Plans(t.Active(), t.Next()))| > 0 && |t.Rollback()| > 0
    ensures LeftOpen(t, GuardPhase, i, 1)
  {
    var steps := TransitionSteps(t.Active(), t.Next());
    var s := StateAt(Basis(t.Active()), steps, i);
    var table :| InWindow(steps, i, table) && StillRuled(s, t.Rollback()[..0], table);
    var u :| u in s.rules && u.family == V6 && u.table == table;
    StageIsWithin(t.Active(), t.Next(), GuardPhase, i);
    FirstDeletion(t.Active(), t.Next(), u);
    assert KeepsRule(t.Rollback()[..1], u);
  }

  lemma FirstDeletion(active: Option<seq<LanePlan>>, pending: seq<LanePlan>, u: RuleOwnership)
    requires u in PreviousRules(active) || u in InstallRules(pending)
    ensures |RollbackRuleOrder(Plans(active, pending))| > 0
    ensures RollbackRuleOrder(Plans(active, pending))[0].family == V4
    ensures RollbackSteps(Plans(active, pending))[0] == DeleteRule(RollbackRuleOrder(Plans(active, pending))[0])
  {
    PlansOrder(active, pending);
    var rules := RulesOfPlans(Plans(active, pending));
    assert rules[0].family == V4 by {
      if PreviousRules(active) != [] {
        assert rules[0] == PreviousRules(active)[0];
      } else {
        assert rules == InstallRules(pending);
      }
    }
    assert [] + [rules[0]] == [rules[0]];
    assert AppendNew([], rules) == AppendNew([rules[0]], rules[1..]);
    AppendNewMembers([rules[0]], rules[1..]);
    assert AppendNew([], rules)[..1][0] == rules[0];
  }

  lemma LiftIsTaken(previous: Option<seq<LanePlan>>, next: seq<LanePlan>, lane: LanePlan) returns (i: nat)
    requires lane in next && NeedsOpenTable(PreviousLane(previous, lane.table), lane, V6)
    ensures 0 < i <= |TransitionSteps(previous, next)| && InWindow(TransitionSteps(previous, next), i, lane.table)
  {
    var routes := RouteSteps(previous, next);
    LiftIsAStep(previous, next, lane);
    var p :| 0 <= p < |routes| && routes[p] == DeleteRoute(V6, lane.table, Terminal);
    assert TransitionSteps(previous, next)[p] == routes[p];
    i := p + 1;
  }

  lemma PreviousRuleIsLive(t: Transaction, table: nat, i: nat)
    requires t.Valid() && t.active.Some? && LaneForTable(t.Active().value, table).Some?
    requires i <= |TransitionSteps(t.Active(), t.Next())|
    ensures StillRuled(StateAt(Basis(t.Active()), TransitionSteps(t.Active(), t.Next()), i), [], table)
  {
    var rule := RuleOf(LaneForTable(t.Active().value, table).value, V6);
    PlanOwnsExactly(t.Active().value);
    PreviousRuleIsInstalled(t.Active().value, table);
    PreparationKeepsRules(t.Active(), t.Next(), i);
    assert rule in Basis(t.Active()).rules && KeepsRule([], rule);
  }

  lemma {:induction false} LiftIsAStep(previous: Option<seq<LanePlan>>, lanes: seq<LanePlan>, lane: LanePlan)
    requires lane in lanes && NeedsOpenTable(PreviousLane(previous, lane.table), lane, V6)
    ensures DeleteRoute(V6, lane.table, Terminal) in RouteSteps(previous, lanes)
  {
    if lanes[0] == lane {
      assert DeleteRoute(V6, lane.table, Terminal) == FamilySteps(PreviousLane(previous, lane.table), lane, V6)[0];
    } else {
      LiftIsAStep(previous, lanes[1..], lane);
    }
  }

  lemma {:induction false} PreviousRuleIsInstalled(lanes: seq<LanePlan>, table: nat)
    requires LaneForTable(lanes, table).Some?
    ensures RuleOf(LaneForTable(lanes, table).value, V6) in InstallRules(lanes)
  {
    if lanes[0].table != table {
      PreviousRuleIsInstalled(lanes[1..], table);
    } else {
      assert InstallRules(lanes)[1] == RuleOf(lanes[0], V6);
    }
  }

  lemma PreparationKeepsRules(previous: Option<seq<LanePlan>>, next: seq<LanePlan>, i: nat)
    requires i <= |TransitionSteps(previous, next)|
    ensures Basis(previous).rules <= StateAt(Basis(previous), TransitionSteps(previous, next), i).rules
  {
    RouteStepsTables(previous, next);
    forall k | 0 <= k < i ensures !TransitionSteps(previous, next)[k].DeleteRule? {
      assert TransitionSteps(previous, next)[k] in RouteSteps(previous, next) || k >= |RouteSteps(previous, next)|;
    }
    RulesSurvive(Basis(previous), TransitionSteps(previous, next)[..i]);
  }

  lemma {:induction false} RulesSurvive(s: Ownership, steps: seq<RoutingStep>)
    requires forall k :: 0 <= k < |steps| ==> !steps[k].DeleteRule?
    ensures s.rules <= Run(s, steps).rules
    decreases |steps|
  {
    if steps != [] {
      RulesSurvive(Apply(s, steps[0]), steps[1..]);
    }
  }

  /** Stopped in the window, a crash state is accepted with the guard and without it, and open either way. */
  lemma OpenWithoutTheGuard(t: Transaction, guard: bool, i: nat, j: nat)
    requires t.Valid() && i <= |TransitionSteps(t.Active(), t.Next())| && j <= |t.Rollback()|
    requires LeftOpen(t, GuardPhase, i, j)
    ensures var s := StateAt(StateAt(Basis(t.Active()), TransitionSteps(t.Active(), t.Next()), i), t.Rollback(), j);
            Accepts(t, Sys(Doc(t.active, Some(t.pending), guard), s)) && !Closed(s)
  {
    PrepareAccepted(t, i);
    RollbackClosure(t, Sys(Doc(t.active, Some(t.pending), true), StateAt(Basis(t.Active()), TransitionSteps(t.Active(), t.Next()), i)), j);
    CrashStateIsClosedIff(t, GuardPhase, i, j);
    if !guard {
      GuardRemovalAccepted(t, Sys(Doc(t.active, Some(t.pending), true),
        StateAt(StateAt(Basis(t.Active()), TransitionSteps(t.Active(), t.Next()), i), t.Rollback(), j)));
    }
  }

  lemma StageFailsClosed(t: Transaction, phase: Phase, i: nat)
    requires t.Valid() && i <= |PhaseStage(t.Active(), t.Next(), phase).steps|
    ensures var stage := PhaseStage(t.Active(), t.Next(), phase);
      if phase in {GuardPhase, GuardlessTransaction}
      then ClosedOrInWindow(t.Active(), t.Next(), stage.steps, stage.start, i)
      else Closed(StateAt(stage.start, stage.steps, i))
  {
    match phase {
      case Untouched => BasisIsClosed(t.Active());
      case GuardPhase => PrepareFailsClosed(t.Active(), t.Next(), i);
      case GuardlessTransaction => PrepareFailsClosed(t.Active(), t.Next(), i);
      case Activated => RetireStageFailsClosed(t, i);
      case CommittedPhase => RetireStageFailsClosed(t, i);
      case RollbackAbsent =>
        if t.active.Some? {
          InstallFailsClosed(t.Active().value, i);
        }
    }
  }

  lemma RetireStageFailsClosed(t: Transaction, i: nat)
    requires t.Valid() && i <= |RetireStage(t.Active(), t.Next()).steps|
    ensures Closed(StateAt(RetireStage(t.Active(), t.Next()).start, RetireStage(t.Active(), t.Next()).steps, i))
  {
    if t.active.Some? {
      RetireFailsClosed(t.Active().value, t.Next(), i);
    } else {
      PrepareFailsClosed(None, t.Next(), 0);
    }
  }

  // ----- Crashing again while the table is absent -----

  /** All live routes sit in the first slot a rollback flushes. */
  ghost predicate OnlyFirstSlot(lanes: seq<LanePlan>, s: Ownership) {
    forall r :: r in s.routes ==> |lanes| > 0 && r.family == V4 && r.table == lanes[0].table
  }

  /** Every interruption of a recovery begun in the absent phase is accepted again. */
  ghost predicate SurvivesInterruption(t: Transaction, s: Ownership) {
    forall j :: 0 <= j <= |t.Rollback()| ==> Accepts(t, Sys(Absent, StateAt(s, t.Rollback(), j)))
  }

  /** A slot that got a route during an installation keeps one. */
  lemma {:induction false} ReplacedSlotStays(lanes: seq<LanePlan>, s: Ownership, k: nat)
    requires 0 < k <= |InstallSteps(lanes)| && |lanes| > 0
    ensures exists r :: r in StateAt(s, InstallSteps(lanes), k).routes && r.family == V4 && r.table == lanes[0].table
  {
    var steps := InstallSteps(lanes);
    RunSnoc(s, steps, k - 1);
    if k == 1 {
      assert steps[..0] == [];
      assert RouteOwned(V4, lanes[0].table, steps[0].route) in StateAt(s, steps, 1).routes;
    } else {
      ReplacedSlotStays(lanes, s, k - 1);
      var before := StateAt(s, steps, k - 1);
      var r :| r in before.routes && r.family == V4 && r.table == lanes[0].table;
      var step := steps[k - 1];
      assert step in steps;
      InstallStepsOnlyAdd(lanes);
      if step.ReplaceRoute? && r !in Apply(before, step).routes {
        assert RouteOwned(step.family, step.table, step.route) in Apply(before, step).routes;
      }
    }
  }

  lemma InstalledStateIsEmptyOrHoldsFirstSlot(lanes: seq<LanePlan>, s: Ownership)
    requires Reaches(EMPTY, InstallSteps(lanes), s)
    ensures s == EMPTY || (|lanes| > 0 && exists r :: r in s.routes && r.family == V4 && r.table == lanes[0].table)
  {
    var k :| 0 <= k <= |InstallSteps(lanes)| && StateAt(EMPTY, InstallSteps(lanes), k) == s;
    if k > 0 {
      ReplacedSlotStays(lanes, EMPTY, k);
    }
  }

  lemma {:induction false} InstallRouteStepsOnlyReplace(lanes: seq<LanePlan>)
    ensures forall x :: x in RouteSteps(None, lanes) ==> x.ReplaceRoute?
  {
    if lanes != [] {
      InstallRouteStepsOnlyReplace(lanes[1..]);
    }
  }

  lemma InstallStepsOnlyAdd(lanes: seq<LanePlan>)
    ensures forall x :: x in InstallSteps(lanes) ==> x.ReplaceRoute? || x.AddRule?
  {
    InstallRouteStepsOnlyReplace(lanes);
  }

  lemma {:induction false} NoRuleWithoutAddRule(s: Ownership, steps: seq<RoutingStep>)
    requires s.rules == {} && forall x :: x in steps ==> !x.AddRule?
    ensures Run(s, steps).rules == {}
    decreases |steps|
  {
    if steps != [] {
      assert steps[0] in steps;
      NoRuleWithoutAddRule(Apply(s, steps[0]), steps[1..]);
    }
  }

  /** An installation interrupted while only the first slot holds routes has added no rule yet. */
  lemma FirstSlotHasNoRules(lanes: seq<LanePlan>, s: Ownership)
    requires DistinctTables(lanes) && Reaches(EMPTY, InstallSteps(lanes), s) && OnlyFirstSlot(lanes, s)
    ensures s.rules == {}
  {
    var routes := RouteSteps(None, lanes);
    var k :| 0 <= k <= |InstallSteps(lanes)| && StateAt(EMPTY, InstallSteps(lanes), k) == s;
    InstallRouteStepsOnlyReplace(lanes);
    if k <= |routes| {
      assert InstallSteps(lanes)[..k] == routes[..k];
      assert forall x :: x in routes[..k] ==> x in routes;
      NoRuleWithoutAddRule(EMPTY, routes[..k]);
    } else {
      LaterStatesHoldBothFamilies(lanes, k);
      assert false;
    }
  }

  lemma {:induction false} LaterStatesHoldBothFamilies(lanes: seq<LanePlan>, k: nat)
    requires DistinctTables(lanes) && |RouteSteps(None, lanes)| < k <= |InstallSteps(lanes)|
    ensures |lanes| > 0 && RouteOwned(V6, lanes[0].table, Terminal) in StateAt(EMPTY, InstallSteps(lanes), k).routes
  {
    var routes := RouteSteps(None, lanes);
    var added := Without(InstallRules(lanes), []);
    RouteStepsEffect(None, lanes, EMPTY);
    assert InstallSteps(lanes)[..k] == routes + AddRules(added)[..k - |routes|];
    assert AddRules(added)[..k - |routes|] == AddRules(added[..k - |routes|]);
    RunAppend(EMPTY, routes, AddRules(added[..k - |routes|]));
    AddRulesEffect(added[..k - |routes|], Run(EMPTY, routes));
  }

  lemma FirstFlush(lanes: seq<LanePlan>, pending: seq<LanePlan>)
    requires |lanes| > 0
    ensures |RollbackTableOrder(Plans(Some(lanes), pending))| > 0
    ensures RollbackTableOrder(Plans(Some(lanes), pending))[0] == FlushTable(V4, lanes[0].table)
  {
    PlansOrder(Some(lanes), pending);
    var flushes := FlushesOfPlans(Plans(Some(lanes), pending));
    assert flushes[0] == FlushTable(V4, lanes[0].table);
    assert [] + [flushes[0]] == [flushes[0]];
    assert AppendNew([], flushes) == AppendNew([flushes[0]], flushes[1..]);
    AppendNewMembers([flushes[0]], flushes[1..]);
    assert AppendNew([], flushes)[..1][0] == flushes[0];
  }

  lemma AbsentAccepts(t: Transaction, s: Ownership)
    requires t.active.Some?
    ensures Accepts(t, Sys(Absent, s)) <==> Reaches(EMPTY, InstallSteps(t.Active().value), s)
  {
  }

  lemma FirstSlotSurvives(t: Transaction, s: Ownership)
    requires t.Valid() && t.active.Some? && Accepts(t, Sys(Absent, s)) && OnlyFirstSlot(t.Active().value, s)
    ensures SurvivesInterruption(t, s)
  {
    FirstSlotHasNoRules(t.Active().value, s);
    RollbackShape(t.Active(), t.Next());
    AbsentAccepts(t, EMPTY);
    assert StateAt(EMPTY, InstallSteps(t.Active().value), 0) == EMPTY;
    forall j | 0 <= j <= |t.Rollback()| ensures Accepts(t, Sys(Absent, StateAt(s, t.Rollback(), j))) {
      RemovalRun(s, t.Rollback()[..j]);
      var after := StateAt(s, t.Rollback(), j);
      if after.routes != {} {
        var r :| r in after.routes;
        forall q | q in s.routes ensures q in after.routes {
          assert KeepsRoute(t.Rollback()[..j], r);
        }
        assert after.routes == s.routes;
        assert after == s;
      } else {
        assert after == EMPTY;
      }
    }
  }

  /** The rollback's first flush empties the first slot and leaves every other one. */
  lemma FirstSlotFlushed(t: Transaction, s: Ownership, r: RouteOwnership) returns (after: Ownership)
    requires t.Valid() && t.active.Some? && |t.Active().value| > 0
    requires r in s.routes && (r.family != V4 || r.table != t.Active().value[0].table)
    ensures exists j :: 0 <= j <= |t.Rollback()| && after == StateAt(s, t.Rollback(), j)
    ensures r in after.routes
    ensures forall q :: q in after.routes ==> q.family != V4 || q.table != t.Active().value[0].table
  {
    var lanes := t.Active().value;
    FirstFlush(lanes, t.Next());
    RollbackShape(t.Active(), t.Next());
    var n := |RollbackRuleOrder(Plans(t.Active(), t.Next()))|;
    var steps := t.Rollback()[..n + 1];
    RemovalRun(s, steps);
    assert steps[n] == FlushTable(V4, lanes[0].table);
    assert KeepsRoute(steps, r);
    after := StateAt(s, t.Rollback(), n + 1);
    forall q | q in after.routes
      ensures q.family != V4 || q.table != lanes[0].table
    {
      assert KeepsRoute(steps, q);
      assert !RemovesRoute(steps[n], q);
    }
  }

  lemma OtherSlotStrands(t: Transaction, s: Ownership, r: RouteOwnership)
    requires t.Valid() && t.active.Some? && Accepts(t, Sys(Absent, s))
    requires r in s.routes && (|t.Active().value| == 0 || r.family != V4 || r.table != t.Active().value[0].table)
    ensures !SurvivesInterruption(t, s)
  {
    AbsentAccepts(t, s);
    InstalledStateIsEmptyOrHoldsFirstSlot(t.Active().value, s);
    var after := FirstSlotFlushed(t, s, r);
    AbsentAccepts(t, after);
    if Accepts(t, Sys(Absent, after)) {
      InstalledStateIsEmptyOrHoldsFirstSlot(t.Active().value, after);
      assert false;
    }
  }

  /**
   * The check accepts only installation prefixes while the table is absent, but recovery from there deletes
   * first. A second interruption is harmless exactly when every live route is in the first slot.
   */
  lemma AbsentRecoveryIsRepeatableIff(t: Transaction, s: Ownership)
    requires t.Valid() && t.active.Some? && Accepts(t, Sys(Absent, s))
    ensures SurvivesInterruption(t, s) <==> OnlyFirstSlot(t.Active().value, s)
  {
    if OnlyFirstSlot(t.Active().value, s) {
      FirstSlotSurvives(t, s);
    } else {
      var r :| r in s.routes
        && (|t.Active().value| == 0 || r.family != V4 || r.table != t.Active().value[0].table);
      OtherSlotStrands(t, s, r);
    }
  }

  /**
   * The failing family is real: for any previous generation with a lane, the crash right before the reinstalled
   * table comes back leaves an accepted state, and recovery from it must not be interrupted again.
   */
  lemma FinishedReinstallStrands(t: Transaction)
    requires t.Valid() && t.active.Some? && t.active.value.lanes != []
    ensures Accepts(t, Sys(Absent, PlanOwnership(t.Active().value)))
    ensures !SurvivesInterruption(t, PlanOwnership(t.Active().value))
  {
    var lanes := t.Active().value;
    var steps := InstallSteps(lanes);
    ReinstallAccepted(t, |steps|);
    assert steps[..|steps|] == steps;
    PlanOwnsExactly(lanes);
    var r := RouteOwned(V6, lanes[0].table, Terminal);
    assert lanes[0] in lanes && r in PlanOwnership(lanes).routes;
    OtherSlotStrands(t, PlanOwnership(lanes), r);
  }

  // ----- Which interruptions a recovery survives -----

  ghost predicate Interruptible(t: Transaction, sys: Sys) {
    forall j :: 0 <= j <= |t.Rollback()| ==> Accepts(t, Sys(sys.nft, StateAt(sys.routing, t.Rollback(), j)))
  }

  /** Left by interrupting a recovery that began while the table was absent; the check refuses it. */
  ghost predicate Stranded(t: Transaction, sys: Sys) {
    && t.active.Some? && sys.nft.Absent?
    && exists s :: Reaches(EMPTY, InstallSteps(t.Active().value), s) && Reaches(s, t.Rollback(), sys.routing)
  }

  lemma EmptyAbsentAccepted(t: Transaction)
    requires t.Valid()
    ensures Accepts(t, Sys(Absent, EMPTY))
  {
    if t.active.Some? {
      ReinstallAccepted(t, 0);
      assert StateAt(EMPTY, InstallSteps(t.Active().value), 0) == EMPTY;
    } else {
      TargetAccepted(t);
    }
  }

  /** With the table present, or nothing live, or only the first slot live, a recovery can be interrupted anywhere. */
  lemma InterruptibleIf(t: Transaction, sys: Sys)
    requires t.Valid() && Accepts(t, sys)
    requires sys.nft.Doc? || t.active.None? || OnlyFirstSlot(t.Active().value, sys.routing)
    ensures Interruptible(t, sys)
  {
    if sys.nft.Absent? && t.active.Some? {
      AbsentRecoveryIsRepeatableIff(t, sys.routing);
      assert SurvivesInterruption(t, sys.routing);
    } else {
      forall j | 0 <= j <= |t.Rollback()| ensures Accepts(t, Sys(sys.nft, StateAt(sys.routing, t.Rollback(), j))) {
        RollbackClosure(t, sys, j);
      }
    }
  }

  /** Otherwise its interruptions are at least rollbacks of a reinstallation. */
  lemma AbsentInterruptionIsStranded(t: Transaction, sys: Sys, j: nat)
    requires t.Valid() && Accepts(t, sys) && t.active.Some? && sys.nft.Absent? && j <= |t.Rollback()|
    ensures Stranded(t, Sys(Absent, StateAt(sys.routing, t.Rollback(), j)))
  {
    AbsentAccepts(t, sys.routing);
    assert Reaches(sys.routing, t.Rollback(), StateAt(sys.routing, t.Rollback(), j));
  }
}
