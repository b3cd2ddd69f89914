/** The recovery check as the helper computes it, proved to decide the declarative crash model. */
module CrashCheck {
  import opened Wrappers
  import opened Plan
  import opened Routing
  import opened Composition
  import opened FailClosed
  import opened Rollback
  import opened StepBuilders
  import opened CrashModel

  datatype CheckError = UnderivableCommit | NoCrashState

  /** All states a step list passes through, the first one included. */
  ghost predicate Passes(states: seq<Ownership>, s: Ownership, steps: seq<RoutingStep>) {
    && |states| == |steps| + 1
    && forall k :: 0 <= k <= |steps| ==> states[k] == StateAt(s, steps, k)
  }

  method StatesOf(s: Ownership, steps: seq<RoutingStep>) returns (states: seq<Ownership>)
    ensures Passes(states, s, steps)
  {
    var state := new RoutingState(s);
    states := [state.Value()];
    for i := 0 to |steps|
      invariant state.Value() == StateAt(s, steps, i)
      invariant |states| == i + 1
      invariant forall k :: 0 <= k <= i ==> states[k] == StateAt(s, steps, k)
      modifies state
    {
      RunSnoc(s, steps, i);
      state.ApplyStep(steps[i]);
      states := states + [state.Value()];
    }
  }

  /** The start states of a phase. The commit must be exactly what the candidate owns. */
  method BuildForwardStates(active: Option<seq<LanePlan>>, pending: seq<LanePlan>, phase: Phase)
    returns (r: Result<seq<Ownership>, CheckError>)
    requires active.Some? ==> DistinctTables(active.value)
    requires DistinctTables(pending)
    requires phase in {Untouched, GuardPhase, Activated, CommittedPhase}
    ensures r.Ok?
    ensures phase != CommittedPhase ==>
      Passes(r.value, PhaseStage(active, pending, phase).start, PhaseStage(active, pending, phase).steps)
    ensures phase == CommittedPhase ==> r.value == [PlanOwnership(pending)]
    ensures RetireStageEnd(active, pending) == PlanOwnership(pending)
  {
    RetireStageEndsExactly(active, pending);
    var state := Basis(active);
    if phase == Untouched {
      var untouched := StatesOf(state, []);
      return Ok(untouched);
    }
    var transition := BuildTransitionSteps(active, pending);
    var guardStates := StatesOf(state, transition);
    assert transition[..|transition|] == transition;
    if phase == GuardPhase {
      return Ok(guardStates);
    }
    state := guardStates[|transition|];
    var retire := [];
    if active.Some? {
      retire := BuildRetireSteps(active.value, pending);
    }
    var activatedStates := StatesOf(state, retire);
    assert retire[..|retire|] == retire;
    if activatedStates[|retire|] != PlanOwnership(pending) {
      return Err(UnderivableCommit);
    }
    if phase == Activated {
      return Ok(activatedStates);
    }
    return Ok([PlanOwnership(pending)]);
  }

  function RetireStageEnd(active: Option<seq<LanePlan>>, pending: seq<LanePlan>): Ownership {
    Run(RetireStage(active, pending).start, RetireStage(active, pending).steps)
  }

  lemma RetireStageEndsExactly(active: Option<seq<LanePlan>>, pending: seq<LanePlan>)
    requires active.Some? ==> DistinctTables(active.value)
    requires DistinctTables(pending)
    ensures RetireStageEnd(active, pending) == PlanOwnership(pending)
  {
    if active.Some? {
      TransitionThenRetire(active.value, pending);
    } else {
      FirstTransition(pending);
    }
  }

  /** Does some step of the rollback change the state into the expected one? */
  ghost predicate ChangesInto(s: Ownership, steps: seq<RoutingStep>, expected: Ownership) {
    exists k :: 0 <= k < |steps| && StateAt(s, steps, k) != StateAt(s, steps, k + 1) == expected
  }

  method RollbackPrefixReaches(start: Ownership, active: Option<seq<LanePlan>>, pending: seq<LanePlan>, expected: Ownership)
    returns (found: bool)
    ensures found <==> ChangesInto(start, RollbackSteps(Plans(active, pending)), expected)
  {
    var rules := BuildRollbackRuleOrder(Plans(active, pending));
    var tables := BuildRollbackTableOrder(Plans(active, pending));
    var steps := DeleteRules(rules) + tables;
    var state := new RoutingState(start);
    for i := 0 to |steps|
      invariant state.Value() == StateAt(start, steps, i)
      invariant forall k :: 0 <= k < i ==> !(StateAt(start, steps, k) != StateAt(start, steps, k + 1) == expected)
      modifies state
    {
      var before := state.Value();
      RunSnoc(start, steps, i);
      state.ApplyStep(steps[i]);
      if state.Value() != before && state.Value() == expected {
        assert StateAt(start, steps, i) != StateAt(start, steps, i + 1) == expected;
        return true;
      }
    }
    return false;
  }

  /** Comparing the start state and every change is the same as comparing every prefix. */
  lemma ChangesCoverPrefixes(s: Ownership, steps: seq<RoutingStep>, live: Ownership)
    ensures Reaches(s, steps, live) <==> s == live || ChangesInto(s, steps, live)
  {
    assert StateAt(s, steps, 0) == s;
    if Reaches(s, steps, live) {
      var k :| 0 <= k <= |steps| && StateAt(s, steps, k) == live;
      FirstArrival(s, steps, live, k);
    }
  }

  lemma {:induction false} FirstArrival(s: Ownership, steps: seq<RoutingStep>, live: Ownership, k: nat)
    requires k <= |steps| && StateAt(s, steps, k) == live
    ensures s == live || ChangesInto(s, steps, live)
  {
    if k == 0 {
      assert StateAt(s, steps, 0) == s;
    } else if StateAt(s, steps, k - 1) == live {
      FirstArrival(s, steps, live, k - 1);
    } else {
      assert StateAt(s, steps, k - 1) != StateAt(s, steps, k - 1 + 1) == live;
    }
  }

  /** Is the live state one of the start states or a rollback of one of them? */
  method AnyReaches(states: seq<Ownership>, active: Option<seq<LanePlan>>, pending: seq<LanePlan>, live: Ownership)
    returns (found: bool)
    ensures found <==> exists i :: 0 <= i < |states| && Reaches(states[i], RollbackSteps(Plans(active, pending)), live)
  {
    for i := 0 to |states|
      invariant forall k :: 0 <= k < i ==> !Reaches(states[k], RollbackSteps(Plans(active, pending)), live)
    {
      ChangesCoverPrefixes(states[i], RollbackSteps(Plans(active, pending)), live);
      var reached := RollbackPrefixReaches(states[i], active, pending, live);
      if states[i] == live || reached {
        return true;
      }
    }
    return false;
  }

  lemma PassesCovers(
    states: seq<Ownership>, stage: Stage, rollback: seq<RoutingStep>, live: Ownership)
    requires Passes(states, stage.start, stage.steps)
    ensures (exists i :: 0 <= i < |states| && Reaches(states[i], rollback, live))
            <==> ReachesThroughRollback(stage, rollback, live)
  {
    if i :| 0 <= i < |states| && Reaches(states[i], rollback, live) {
      assert Reaches(StateAt(stage.start, stage.steps, i), rollback, live);
    }
    if ReachesThroughRollback(stage, rollback, live) {
      var i :| 0 <= i <= |stage.steps| && Reaches(StateAt(stage.start, stage.steps, i), rollback, live);
      assert Reaches(states[i], rollback, live);
    }
  }

  /** The committed document may also stand over an unfinished retirement. */
  method CommittedStateReachable(live: Ownership, active: Option<seq<LanePlan>>, pending: seq<LanePlan>)
    returns (r: Result<bool, CheckError>)
    requires active.Some? ==> DistinctTables(active.value)
    requires DistinctTables(pending)
    ensures r.Ok?
    ensures r.value <==> Reachable(active, pending, CommittedPhase, live)
  {
    var committed := BuildForwardStates(active, pending, CommittedPhase);
    if committed.Err? {
      return Err(UnderivableCommit);
    }
    var early := AnyReaches(committed.value, active, pending, live);
    if early {
      CommitIsLastActivated(active, pending, live);
      return Ok(true);
    }
    var activated := BuildForwardStates(active, pending, Activated);
    if activated.Err? {
      return Err(UnderivableCommit);
    }
    var found := AnyReaches(activated.value, active, pending, live);
    PassesCovers(activated.value, PhaseStage(active, pending, Activated), RollbackSteps(Plans(active, pending)), live);
    return Ok(found);
  }

  /** The check never fails for want of a derivable commit, and it decides the crash model exactly. */
  method RoutingStateReachable(live: Ownership, active: Option<seq<LanePlan>>, pending: seq<LanePlan>, phase: Phase)
    returns (r: Result<bool, CheckError>)
    requires active.Some? ==> DistinctTables(active.value)
    requires DistinctTables(pending)
    ensures r.Ok?
    ensures r.value <==> Reachable(active, pending, phase, live)
  {
    var rollback := RollbackSteps(Plans(active, pending));
    if phase == RollbackAbsent {
      var found := AbsentStateReachable(live, active, pending);
      return Ok(found);
    }
    if phase == CommittedPhase {
      r := CommittedStateReachable(live, active, pending);
      return;
    }
    var start := if phase == GuardlessTransaction then GuardPhase else phase;
    var states := BuildForwardStates(active, pending, start);
    if states.Err? {
      return Err(UnderivableCommit);
    }
    var found := AnyReaches(states.value, active, pending, live);
    PassesCovers(states.value, PhaseStage(active, pending, start), rollback, live);
    return Ok(found);
  }

  lemma CommitIsLastActivated(active: Option<seq<LanePlan>>, pending: seq<LanePlan>, live: Ownership)
    requires active.Some? ==> DistinctTables(active.value)
    requires DistinctTables(pending)
    requires Reaches(PlanOwnership(pending), RollbackSteps(Plans(active, pending)), live)
    ensures Reachable(active, pending, CommittedPhase, live)
  {
    RetireStageEndsExactly(active, pending);
    EndReaches(RetireStage(active, pending), RollbackSteps(Plans(active, pending)), live);
  }

  lemma EndReaches(stage: Stage, rollback: seq<RoutingStep>, live: Ownership)
    requires Reaches(Run(stage.start, stage.steps), rollback, live)
    ensures ReachesThroughRollback(stage, rollback, live)
  {
    assert stage.steps[..|stage.steps|] == stage.steps;
    assert Reaches(StateAt(stage.start, stage.steps, |stage.steps|), rollback, live);
  }

  method AbsentStateReachable(live: Ownership, active: Option<seq<LanePlan>>, pending: seq<LanePlan>)
    returns (found: bool)
    ensures found <==> Reachable(active, pending, RollbackAbsent, live)
  {
    var steps := [];
    if active.Some? {
      steps := BuildTransitionSteps(None, active.value);
    }
    var states := StatesOf(EMPTY, steps);
    for i := 0 to |states|
      invariant forall k :: 0 <= k < i ==> states[k] != live
    {
      if states[i] == live {
        assert StateAt(EMPTY, steps, i) == live;
        return true;
      }
    }
    return false;
  }
}
