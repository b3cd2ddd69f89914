/** The states a restarted helper accepts are exactly those that a transaction, cut off anywhere, leaves behind. */
module CrashStates {
  import opened Wrappers
  import opened Plan
  import opened Routing
  import opened Composition
  import opened FailClosed
  import opened Rollback
  import opened CrashModel

  /** One command to the kernel: a whole document, or one routing step. */
  datatype Command = Load(nft: Nft) | Route(step: RoutingStep)

  function Execute(sys: Sys, commands: seq<Command>): Sys
    decreases |commands|
  {
    if commands == [] then
      sys
    else
      match commands[0]
      case Load(nft) => Execute(Sys(nft, sys.routing), commands[1..])
      case Route(step) => Execute(Sys(sys.nft, Apply(sys.routing, step)), commands[1..])
  }

  function Routes(steps: seq<RoutingStep>): seq<Command> {
    seq(|steps|, i requires 0 <= i < |steps| => Route(steps[i]))
  }

  /** The commands of the preparation, between the document that guards it and the one that activates the candidate. */
  function Preparation(t: Transaction): seq<Command> {
    [Load(Doc(t.active, Some(t.pending), true))] + Routes(TransitionSteps(t.Active(), t.Next()))
  }

  /** What is left to do then: the candidate's document, the previous plan's resources, the guard. */
  function Completion(t: Transaction): seq<Command> {
    [Load(Doc(Some(t.pending), None, true))]
    + Routes(if t.active.None? then [] else RetireSteps(t.Active().value, t.Next()))
    + [Load(Doc(Some(t.pending), None, false))]
  }

  function Forward(t: Transaction): seq<Command> {
    Preparation(t) + Completion(t)
  }

  /** Cut off after i commands, rolled back by j steps, and the guard taken off or not. */
  function Left(t: Transaction, i: nat, j: nat, gone: bool): Sys
    requires i <= |Forward(t)| && j <= |t.Rollback()|
  {
    var s := Execute(t.Target(), Forward(t)[..i]);
    Sys(if gone then Guardless(s.nft) else s.nft, StateAt(s.routing, t.Rollback(), j))
  }

  /** The rollback is complete, the table is gone, and k steps of the previous plan are installed again. */
  function Reinstalling(t: Transaction, k: nat): Sys
    requires t.active.Some? && k <= |InstallSteps(t.Active().value)|
  {
    Sys(Absent, StateAt(EMPTY, InstallSteps(t.Active().value), k))
  }

  ghost predicate CutOff(t: Transaction, sys: Sys) {
    exists i: nat, j: nat, gone :: i <= |Forward(t)| && j <= |t.Rollback()| && sys == Left(t, i, j, gone)
  }

  ghost predicate CutOffReinstalling(t: Transaction, sys: Sys) {
    t.active.Some? && exists k: nat :: k <= |InstallSteps(t.Active().value)| && sys == Reinstalling(t, k)
  }

  // ----- Executing -----

  lemma {:induction false} ExecuteAppend(sys: Sys, a: seq<Command>, b: seq<Command>)
    ensures Execute(sys, a + b) == Execute(Execute(sys, a), b)
    decreases |a|
  {
    if a == [] {
      assert a + b == b;
    } else {
      assert (a + b)[1..] == a[1..] + b;
      match a[0]
      case Load(nft) => ExecuteAppend(Sys(nft, sys.routing), a[1..], b);
      case Route(step) => ExecuteAppend(Sys(sys.nft, Apply(sys.routing, step)), a[1..], b);
    }
  }

  lemma {:induction false} ExecuteRoutes(sys: Sys, steps: seq<RoutingStep>)
    ensures Execute(sys, Routes(steps)) == Sys(sys.nft, Run(sys.routing, steps))
    decreases |steps|
  {
    if steps != [] {
      assert Routes(steps)[1..] == Routes(steps[1..]);
      ExecuteRoutes(Sys(sys.nft, Apply(sys.routing, steps[0])), steps[1..]);
    }
  }

  lemma ExecuteLoad(sys: Sys, nft: Nft)
    ensures Execute(sys, [Load(nft)]) == Sys(nft, sys.routing)
  {
    assert [Load(nft)][1..] == [];
  }

  /** A document and then some of its routing steps. */
  lemma LoadThenRoutes(sys: Sys, nft: Nft, steps: seq<RoutingStep>, i: nat)
    requires i <= |steps|
    ensures ([Load(nft)] + Routes(steps))[..i + 1] == [Load(nft)] + Routes(steps[..i])
    ensures Execute(sys, ([Load(nft)] + Routes(steps))[..i + 1]) == Sys(nft, StateAt(sys.routing, steps, i))
  {
    assert ([Load(nft)] + Routes(steps))[..i + 1] == [Load(nft)] + Routes(steps[..i]);
    ExecuteAppend(sys, [Load(nft)], Routes(steps[..i]));
    ExecuteLoad(sys, nft);
    ExecuteRoutes(Sys(nft, sys.routing), steps[..i]);
  }

  /** Where the forward run stands after its first command, and after i more of the preparation. */
  lemma DuringPreparation(t: Transaction, i: nat)
    requires i <= |TransitionSteps(t.Active(), t.Next())|
    ensures i + 1 <= |Forward(t)|
    ensures Execute(t.Target(), Forward(t)[..i + 1])
            == Sys(Doc(t.active, Some(t.pending), true), StateAt(Basis(t.Active()), TransitionSteps(t.Active(), t.Next()), i))
  {
    LoadThenRoutes(t.Target(), Doc(t.active, Some(t.pending), true), TransitionSteps(t.Active(), t.Next()), i);
    assert Forward(t)[..i + 1] == Preparation(t)[..i + 1];
  }

  function Retirement(t: Transaction): Stage {
    RetireStage(t.Active(), t.Next())
  }

  lemma AfterPreparation(t: Transaction)
    ensures Execute(t.Target(), Preparation(t)) == Sys(Doc(t.active, Some(t.pending), true), Retirement(t).start)
  {
    var steps := TransitionSteps(t.Active(), t.Next());
    LoadThenRoutes(t.Target(), Doc(t.active, Some(t.pending), true), steps, |steps|);
    assert steps[..|steps|] == steps && Preparation(t)[..|steps| + 1] == Preparation(t);
  }

  lemma DuringCompletion(t: Transaction, i: nat)
    requires i <= |Retirement(t).steps|
    ensures |Preparation(t)| + i + 1 <= |Forward(t)|
    ensures Execute(t.Target(), Forward(t)[..|Preparation(t)| + i + 1])
            == Sys(Doc(Some(t.pending), None, true), StateAt(Retirement(t).start, Retirement(t).steps, i))
  {
    var nft, steps := Doc(Some(t.pending), None, true), Retirement(t).steps;
    assert Forward(t)[..|Preparation(t)| + i + 1] == Preparation(t) + ([Load(nft)] + Routes(steps))[..i + 1];
    ExecuteAppend(t.Target(), Preparation(t), ([Load(nft)] + Routes(steps))[..i + 1]);
    AfterPreparation(t);
    LoadThenRoutes(Execute(t.Target(), Preparation(t)), nft, steps, i);
  }

  lemma Joined(a: seq<Command>, b: seq<Command>, c: seq<Command>)
    ensures a + (b + c) == a + b + c && (a + (b + c))[..|a| + |b|] == a + b
  {
  }

  lemma AfterAll(t: Transaction)
    ensures |Forward(t)| == |Preparation(t)| + |Retirement(t).steps| + 2
    ensures Execute(t.Target(), Forward(t))
            == Sys(Committed(t.pending), StateAt(Retirement(t).start, Retirement(t).steps, |Retirement(t).steps|))
  {
    var retiring := [Load(Doc(Some(t.pending), None, true))] + Routes(Retirement(t).steps);
    var last := [Load(Doc(Some(t.pending), None, false))];
    DuringCompletion(t, |Retirement(t).steps|);
    Joined(Preparation(t), retiring, last);
    ExecuteAppend(t.Target(), Preparation(t) + retiring, last);
    ExecuteLoad(Execute(t.Target(), Preparation(t) + retiring), Committed(t.pending));
  }

  // ----- Everything left behind is accepted -----

  lemma CutOffIsAccepted(t: Transaction, i: nat, j: nat, gone: bool)
    requires t.Valid() && i <= |Forward(t)| && j <= |t.Rollback()|
    ensures Accepts(t, Left(t, i, j, gone))
  {
    CutOffForward(t, i);
    var s := Execute(t.Target(), Forward(t)[..i]);
    RollbackClosure(t, s, j);
    if gone {
      GuardRemovalAccepted(t, Sys(s.nft, StateAt(s.routing, t.Rollback(), j)));
    }
  }

  /** Accepted, and not between a completed rollback and the reinstallation. */
  ghost predicate Standing(t: Transaction, sys: Sys) {
    Accepts(t, sys) && Classify(t, sys.nft) != Some(RollbackAbsent)
  }

  lemma CutOffForward(t: Transaction, i: nat)
    requires t.Valid() && i <= |Forward(t)|
    ensures Standing(t, Execute(t.Target(), Forward(t)[..i]))
  {
    if i == 0 {
      UntouchedStands(t);
    } else if i <= |Preparation(t)| {
      CutOffPreparing(t, i - 1);
    } else {
      CutOffCompleting(t, i - |Preparation(t)| - 1);
    }
  }

  lemma UntouchedStands(t: Transaction)
    requires t.Valid()
    ensures Standing(t, Execute(t.Target(), Forward(t)[..0]))
  {
    assert Forward(t)[..0] == [];
    TargetAccepted(t);
  }

  lemma CutOffPreparing(t: Transaction, i: nat)
    requires t.Valid() && i + 1 <= |Preparation(t)|
    ensures i + 1 <= |Forward(t)| && Standing(t, Execute(t.Target(), Forward(t)[..i + 1]))
  {
    DuringPreparation(t, i);
    PrepareAccepted(t, i);
  }

  lemma CutOffCompleting(t: Transaction, i: nat)
    requires t.Valid() && |Preparation(t)| + i + 1 <= |Forward(t)|
    ensures Standing(t, Execute(t.Target(), Forward(t)[..|Preparation(t)| + i + 1]))
  {
    AfterAll(t);
    if i <= |Retirement(t).steps| {
      DuringCompletion(t, i);
      RetireAccepted(t, true, i);
    } else {
      assert Forward(t)[..|Preparation(t)| + i + 1] == Forward(t);
      RetireAccepted(t, false, |Retirement(t).steps|);
    }
  }

  // ----- Everything accepted is left behind -----

  lemma AcceptedIsCutOff(t: Transaction, sys: Sys)
    requires t.Valid() && Accepts(t, sys)
    ensures CutOff(t, sys) || CutOffReinstalling(t, sys)
  {
    var phase := Classify(t, sys.nft).value;
    var stage := PhaseStage(t.Active(), t.Next(), phase);
    if phase.RollbackAbsent? {
      var k :| 0 <= k <= |stage.steps| && StateAt(stage.start, stage.steps, k) == sys.routing;
      assert sys == Reinstalling(t, k);
    } else {
      var i :| 0 <= i <= |stage.steps| && Reaches(StateAt(stage.start, stage.steps, i), t.Rollback(), sys.routing);
      var j :| 0 <= j <= |t.Rollback()| && StateAt(StateAt(stage.start, stage.steps, i), t.Rollback(), j) == sys.routing;
      LeftAt(t, sys, phase, i, j);
    }
  }

  lemma LeftAt(t: Transaction, sys: Sys, phase: Phase, i: nat, j: nat)
    requires t.Valid() && Classify(t, sys.nft) == Some(phase) && !phase.RollbackAbsent?
    requires i <= |PhaseStage(t.Active(), t.Next(), phase).steps| && j <= |t.Rollback()|
    requires var stage := PhaseStage(t.Active(), t.Next(), phase);
             StateAt(StateAt(stage.start, stage.steps, i), t.Rollback(), j) == sys.routing
    ensures CutOff(t, sys)
  {
    match phase {
      case Untouched => LeftUntouched(t, sys, j);
      case GuardPhase => LeftPreparing(t, sys, i, j, false);
      case GuardlessTransaction => LeftPreparing(t, sys, i, j, true);
      case Activated => LeftCompleting(t, sys, i, j, false);
      case CommittedPhase => LeftCompleting(t, sys, i, j, true);
    }
  }

  lemma LeftUntouched(t: Transaction, sys: Sys, j: nat)
    requires j <= |t.Rollback()| && sys == Sys(t.Target().nft, StateAt(Basis(t.Active()), t.Rollback(), j))
    ensures CutOff(t, sys)
  {
    assert Forward(t)[..0] == [];
    assert sys == Left(t, 0, j, false);
  }

  lemma LeftPreparing(t: Transaction, sys: Sys, i: nat, j: nat, gone: bool)
    requires i <= |TransitionSteps(t.Active(), t.Next())| && j <= |t.Rollback()|
    requires sys == Sys(Doc(t.active, Some(t.pending), !gone),
                        StateAt(StateAt(Basis(t.Active()), TransitionSteps(t.Active(), t.Next()), i), t.Rollback(), j))
    ensures CutOff(t, sys)
  {
    DuringPreparation(t, i);
    assert sys == Left(t, i + 1, j, gone);
  }

  lemma LeftCompleting(t: Transaction, sys: Sys, i: nat, j: nat, gone: bool)
    requires i <= |Retirement(t).steps| && j <= |t.Rollback()|
    requires sys == Sys(Doc(Some(t.pending), None, !gone),
                        StateAt(StateAt(Retirement(t).start, Retirement(t).steps, i), t.Rollback(), j))
    ensures CutOff(t, sys)
  {
    DuringCompletion(t, i);
    assert sys == Left(t, |Preparation(t)| + i + 1, j, gone);
  }

  /** A state is accepted if and only if a transaction cut off anywhere leaves it. */
  lemma AcceptedIffCutOff(t: Transaction, sys: Sys)
    requires t.Valid()
    ensures Accepts(t, sys) <==> CutOff(t, sys) || CutOffReinstalling(t, sys)
  {
    if Accepts(t, sys) {
      AcceptedIsCutOff(t, sys);
    }
    if CutOff(t, sys) {
      var i: nat, j: nat, gone :| i <= |Forward(t)| && j <= |t.Rollback()| && sys == Left(t, i, j, gone);
      CutOffIsAccepted(t, i, j, gone);
    }
    if CutOffReinstalling(t, sys) {
      var k: nat :| k <= |InstallSteps(t.Active().value)| && sys == Reinstalling(t, k);
      ReinstallAccepted(t, k);
    }
  }
}
