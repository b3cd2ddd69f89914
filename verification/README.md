# RouteLane verification

A Dafny model of RouteLane's privileged helper and of the parts around it that decide where packets go, with proofs of the properties the design relies on.

**The routing transaction.** A plan is compiled into typed routing steps that run between nftables phases, with a journal written ahead. The kernel is a set of owned routes, a set of owned rules and one nftables document. Every command is one atomic step that may fail before or after its effect, and `World.Durable` collects every state a crash could leave. The stage runner, the write-ahead transition, recovery, cleanup and the legacy cleanup are classes and methods over that world; the pending-journal check is a method proved to decide exactly the states of the step machine, and those are proved to be exactly what a transaction cut off anywhere leaves.

**The packet policy.** Chains have a small interpreter in which goto is a tail call and return accepts. The renderer's loops are proved against a specified document, and walking that document is proved equal to a decision function that mentions no chains. What the kernel runs at a hook is read off the base chains of the document, by hook, kind and priority. On top of it stand facts about whole runs of packets and plan replacements, and about listings the kernel returns.

**The decisions before it.** The primary exit selector with its failback clock, and the planner with its fallback walk and deduplication. What they mean is stated over the profile, the hops and the observed topology alone. One theorem joins everything: a new connection that its governing rule gives to a lane is marked by the chains, looked up by its mark among the installed rules and routes, and leaves by the gateway and interface observed for that lane (`EndToEnd.NewConnectionsReachTheWire`).

**Around it.** The one interface setting RouteLane writes, against an administrator who may change anything between two calls, and the runtime monitor's capacity-one wakeup channel as a state machine.

**Faults.** Reading the kernel, saving the journal and running a command are attempts, and an attempt that fails is a fault; so is a foreign object that is found where RouteLane's own is or will be, and in a contested world there always is one. Each operation says when it succeeds without a fault, what a single fault can do where that is known, and what holds whatever fails. Loading the journal does not fail except for what the journal says.

Some expected properties are not true of the code. Each keeps the code as it is, with an exact condition and a concrete failing case:

- Recovery with the table absent can be interrupted and repeated only when every live route is in the first lane's IPv4 slot (`CrashModel.AbsentRecoveryIsRepeatableIff`, `CrashModel.FinishedReinstallStrands`). The helper accepts prefixes of the reinstall there but deletes first.
- The window in which a table's IPv6 terminal is lifted does not always stand behind the guard: when the preparation stops inside it and the rollback stops before that table's IPv6 rules are gone, the guard is removed all the same (`CrashModel.CrashStateIsClosedIff`, `CrashModel.OpenWithoutTheGuard`, `FailingRuns.GuardTakenInTheWindow`). Only a plan that puts an IPv6 gateway into a table without an IPv6 unicast opens the window at all (`CrashModel.PreparationStaysClosedIff`).
- A written interface setting has a durable receipt at every point, except that after a failed kernel transition the journal is repaired before the settings are restored; a crash in between loses the receipt and the old value (`Settings.SettingsKeeper.UndoTransition`, `Settings.OrphanedSetting`).
- A journal the helper saves can be loaded again exactly while its setting receipts stay within the bound of 200, and nothing keeps them there: receipts of interfaces that are gone are dropped only by a cleanup, which has to load the same journal first (`FailingRuns.ApplyThenRestart`, `FailingRuns.BeyondTheBound`).
- A cleanup gives the runtime authority up in memory before anything can fail. If it then fails before journaling that, memory and journal can disagree exactly when the journal carries runtime authority, and the next apply drops it (`Backend.PrivilegedBackend.Cleanup`, `FailingRuns.ForgottenAuthority`).
- A compiled plan is not always one the helper accepts: the planner bounds neither the compiled rules nor the interface names and ids it copies (`PlannerLimits.CompiledPlansAreValidIff`, `PlannerLimits.DottedIdIsRefused`, `PlannerLimits.TooManyRulesAreRefused`).
- The helper accepts a rule whose network is of the other family, and such a rule can mark packets with a lane their own family cannot use (`Sticky.MarksForOwnFamilyIff`, `Sticky.CrossedPlanMarksTheOtherFamily`). The planner compiles no such rule (`PlannerPlans.CompiledPlansMarkForOwnFamily`).

Hashes and fingerprints stand for what they hash. A document's fingerprint is its phase, the triple of active plan, pending plan and guard. Rendered documents of different phases do differ, because chain names carry the plans.

`dafny verify dfyconfig.toml` checks the project.

## Model

| member | source | states |
|---|---|---|
| `Routing.RoutingState.ApplyStep` | src/backend/privileged.rs:3526-3577 | one typed step changes the owned routes and rules in place exactly as the step semantics says |
| `Routing.StepsKeepToTheirSlot` | src/backend/privileged.rs:3526-3577 | a step concerns one rule or one slot: it adds or removes what it names there and leaves everything else alone |
| `Routing.LaneForTable` | src/backend/policy_route.rs:235-238 | a lookup by table finds the first lane of that table, or there is none |
| `StepBuilders.BuildTransitionSteps` | src/backend/policy_route.rs:246-295 | the nested loops build the transition's steps: routes per lane and family, lifting an IPv6 terminal first where a gateway arrives, then only the rules the previous plan lacked |
| `StepBuilders.BuildRetireSteps` | src/backend/policy_route.rs:306-351 | the loops build the retirement's steps: rules the next plan lacks, flushed tables, lost unicasts |
| `StepBuilders.BuildRollbackRuleOrder` | src/backend/privileged.rs:3623-3648 | each rule of the given plans once, in order of first appearance |
| `StepBuilders.BuildRollbackTableOrder` | src/backend/privileged.rs:3650-3666 | each table flush of the given plans once, in order of first appearance |
| `Composition.PlanOwnsExactly` | src/backend/privileged.rs:3488-3494 | installing a plan on nothing owns exactly its unicasts, terminals and rules |
| `Composition.TransitionThenRetire` | src/backend/policy_route.rs:246-351 | for any two valid plans, transition then retirement run on the first plan's ownership gives exactly the second plan's |
| `Composition.FirstTransition` | src/backend/policy_route.rs:240-295 | the first transition alone gives exactly the plan's ownership |
| `Composition.BasisOwnership` | src/backend/privileged.rs:4474-4485 | the rollback basis owns the plan's routes and rules minus exactly the unicasts the kernel had dropped |
| `PolicyRouting.PlanOwnsItsLanes` | src/backend/policy_route.rs:211-238 | an installed plan owns, for each lane and family, a rule from the lane's mark to its table at its priority, a terminal route, and one through its interface and gateway while it is available with a route; and nothing else |
| `PolicyRouting.MarkedPacketsTakeTheirLane` | src/backend/policy_route.rs:211-233 | in an accepted plan a packet with a lane's mark is looked up in that lane's table and nowhere else, and goes through exactly the gateway and interface of the lane's route, or nowhere without one |
| `PolicyRouting.OtherPacketsAreLeftAlone` | src/backend/policy_route.rs:226-233 | a packet whose mark is no lane's is routed by none of the owned rules |
| `PolicyRouting.GatewaysAreAccepted` | src/backend/policy_route.rs:246-295 | no preparation, from any previous plan or from nothing, asks for an IPv6 gateway in a table that holds only a terminal route, which the kernel would refuse |
| `PolicyRouting.OnlyGainedGatewaysLift` | src/backend/policy_route.rs:246-295 | a preparation takes nothing away but the IPv6 terminal of a table whose lane gains a gateway |
| `FailClosed.PrepareFailsClosed` | src/backend/policy_route.rs:246-295 | after every step of the preparation each live rule's table holds a terminal route, except in the window that lifts an IPv6 terminal from a table without a unicast |
| `FailClosed.InstallFailsClosed` | src/backend/policy_route.rs:240-244 | every prefix of an installation is closed without exception |
| `FailClosed.RetireFailsClosed` | src/backend/policy_route.rs:306-351 | every prefix of a retirement is closed without exception |
| `Rollback.InterruptedRollback` | src/backend/privileged.rs:3668-3687 | stopping a rollback and running it again from the start equals the longer of the two prefixes |
| `Rollback.RollbackEmpties` | src/backend/privileged.rs:2953-3006 | the whole rollback removes everything the two plans can own |
| `Rollback.BasisRollsBackAlike` | src/backend/privileged.rs:3623-3666 | the basis and the plan it came from have the same rollback steps |
| `Rollback.RollbackFailsClosed` | src/backend/privileged.rs:3623-3666 | every prefix of a rollback from a closed state is closed, because rules go before tables |
| `CrashModel.RollbackClosure` | src/backend/privileged.rs:3453-3486 | while the table is present the accepted states are closed under any interrupted rollback |
| `CrashModel.GuardRemovalAccepted` | src/backend/transaction.rs:273-290 | removing the guard after a failed stage keeps an accepted state accepted |
| `CrashModel.RollbackFromAccepted` | src/backend/privileged.rs:2953-3006 | a completed rollback from any accepted state leaves no owned route or rule |
| `CrashModel.CrashStateIsClosedIff` | src/backend/privileged.rs:3453-3486 | a stage interrupted anywhere and its rollback interrupted anywhere fail closed if and only if the stage did not stop in the IPv6 window of a preparation, or the rollback has deleted the IPv6 rules of that table; what is not closed is open in the table of the window alone |
| `CrashModel.PreparationStaysClosedIff` | src/backend/policy_route.rs:246-295 | no crash state of a preparation is open if and only if no lane gets an IPv6 gateway in a table whose previous lane had no IPv6 unicast |
| `CrashModel.LiftOpensTheWindow` | src/backend/policy_route.rs:246-295 | a preparation that puts an IPv6 gateway into such a table passes through a state that is left open |
| `CrashModel.OpenWithoutTheGuard` | src/backend/transaction.rs:273-290 | the window can stand without the guard: whatever was left open is an accepted crash state with the guard and without it |
| `FailingRuns.GuardTakenInTheWindow` | src/backend/transaction.rs:273-290 | the failing run: a preparation has stopped in the window and the first removal of the rollback fails too; the guard is taken away all the same, and the table stays open in a state that the next helper accepts |
| `CrashModel.AbsentRecoveryIsRepeatableIff` | src/backend/privileged.rs:3459-3462 | with the table absent, a recovery may be interrupted anywhere and repeated if and only if every live route is in the IPv4 slot of the first lane |
| `CrashModel.FinishedReinstallStrands` | src/backend/privileged.rs:3689-3700 | the failing case is real: for any previous plan with a lane, the finished reinstallation without its table is accepted, and an interrupted recovery from it is not |
| `CrashModel.AbsentInterruptionIsStranded` | src/backend/privileged.rs:3459-3462 | what an interruption leaves otherwise is still a prefix of the rollback, though no longer accepted |
| `CrashCheck.BuildForwardStates` | src/backend/privileged.rs:3579-3620 | the builder never reports an underivable commit and lists exactly the states of the phase |
| `CrashCheck.RollbackPrefixReaches` | src/backend/privileged.rs:3668-3687 | the search over rollback prefixes, which looks only after steps that change something, misses no prefix |
| `CrashCheck.RoutingStateReachable` | src/backend/privileged.rs:3453-3486 | the decision procedure never fails and answers yes exactly for the states of the step machine |
| `Accounting.VerifyPending` | src/backend/privileged.rs:3358-3394 | the whole pending-journal check, on the fingerprints and plans of the journal, succeeds exactly on the accepted states |
| `Accounting.JournaledPhaseIs` | src/backend/privileged.rs:3358-3394 | the fingerprints of a sound journal give every live document the phase its transaction gives it |
| `CrashStates.AcceptedIffCutOff` | src/backend/privileged.rs:3453-3486 | a state is accepted if and only if the transaction's commands to the kernel, cut off after any number of them, rolled back by any number of steps and with the guard taken off or not, leave it, or a reinstallation over the deleted table does |
| `FailingRuns.ApplyThenRestart` | src/backend/privileged.rs:1567-1572 | in a run without faults, a helper can start again after an apply if and only if the receipts owned before plus one for every interface the plan newly needs stay within the bound |
| `FailingRuns.BeyondTheBound` | src/backend/privileged.rs:2592-2604 | the failing run, from an empty journal and kernel: nothing fails, 201 plans follow one another over a tunnel that is created anew each time, and the journal then holds 201 distinct receipts that the next helper refuses to load |
| `World.Durable.RunSteps` | src/backend/privileged.rs:4560-4592 | a command sequence that may fail anywhere, before or after its effect, leaves only prefixes of the steps; it ends on the whole sequence unless there is a fault |
| `Runner.KernelRunner.InstallGuard` | src/backend/privileged.rs:2856-2872 | installing the guard leaves only accepted states and ends in the guarded phase |
| `Runner.KernelRunner.PrepareRoutes` | src/backend/privileged.rs:2874-2883 | preparation leaves only accepted states and ends with the transition's routing |
| `Runner.KernelRunner.ActivateNft` | src/backend/privileged.rs:2885-2909 | activation leaves only accepted states and ends on the candidate's document with the guard |
| `Runner.KernelRunner.RemoveGeneration` | src/backend/privileged.rs:2915-2938 | retirement leaves only accepted states and ends on exactly the candidate's ownership |
| `Runner.KernelRunner.RemoveGuard` | src/backend/privileged.rs:2940-2951 | removing the guard chain takes the document from guarded to committed |
| `Runner.KernelRunner.Restore` | src/backend/privileged.rs:2953-3006 | from every accepted state a restore succeeds exactly when no command fails and then ends on the exact rollback target; every state before is accepted, or stranded as above |
| `Runner.KernelRunner.Transition` | src/backend/transaction.rs:234-271 | the stages in order, with restore and guard removal on failure: it succeeds exactly when nothing fails and then means exactly the candidate; after a single fault the rollback and the guard removal succeed; if somebody else holds what it asks for it fails before it touches anything; no state on the way is unaccounted for |
| `Accounting.LossesAreExact` | src/backend/privileged.rs:3254-3313 | the unicasts found missing are exactly those the basis must drop |
| `Accounting.ToleratedLost` | src/backend/privileged.rs:3254-3313 | losses are tolerated if and only if the live state is a basis of the plan and the next plan has, for everything missing, no lane for the table or one that is unavailable or without a route for the family |
| `Accounting.LosingOneMore` | src/backend/privileged.rs:4474-4485 | when the kernel drops another unicast, the state is a basis for a larger loss |
| `Accounting.CleanupStateIff` | src/backend/privileged.rs:3315-3356 | a cleanup goes on only from the plan's own document with nothing live that the plan did not own, or from nothing at all |
| `Accounting.CleanupEmpties` | src/backend/privileged.rs:2953-3006 | a completed cleanup leaves nothing owned |
| `Backend.PrivilegedBackend.PersistCommitted` | src/backend/privileged.rs:2444-2484 | the journal becomes the committed record, or is cleared, or stays as it was |
| `Backend.PrivilegedBackend.EnsureSettings` | src/backend/privileged.rs:2522-2549 | every setting intent is journaled before its write, for each interface of the plan once and only where it is not owned yet; unless something fails the result is exactly the needed receipts |
| `Backend.PrivilegedBackend.Undo` | src/backend/privileged.rs:2486-2502 | after a rollback that reported success the journal goes back exactly when the kernel proves to be the rollback target and nothing fails |
| `Backend.PrivilegedBackend.TransitionWith` | src/backend/privileged.rs:1503-1686 | a transition commits exactly the candidate if and only if nothing fails; otherwise it keeps its pending journal, with the setting receipts in memory, or is back on the previous plan and the extras in memory, and a single fault over a previous plan always leads back; if somebody else holds what it asks for nothing is journaled at all; every state a crash could leave is accounted for |
| `Backend.PrivilegedBackend.RollBackPending` | src/backend/privileged.rs:1794-1825 | from every accepted state the kernel reaches the journaled rollback target exactly unless something fails |
| `Backend.PrivilegedBackend.RecoverPending` | src/backend/privileged.rs:1794-1848 | an accepted pending journal is recovered to the exact rollback target, the journal included, unless something fails; from any other state recovery refuses without touching anything |
| `Backend.PrivilegedBackend.ResumeCleanup` | src/backend/privileged.rs:1765-1792 | an interrupted cleanup is completed to an empty kernel and a cleared journal unless something fails |
| `Backend.PrivilegedBackend.EnsureReconciled` | src/backend/privileged.rs:1709-1879 | a start succeeds exactly when the journal is within the receipt bound, the live state is the committed one or one the interrupted operation accepts, and nothing fails; where it then ends, in memory, journal and kernel, is a function of where it began, and after an interrupted transition it is the exact target; a helper with nothing interrupted goes on at once |
| `Backend.PrivilegedBackend.Apply` | src/backend/privileged.rs:947-981 | apply succeeds only on exactly the plan, nftables and routing, with a receipt for exactly the interfaces that need one and no restore receipt; from wherever a start can recover it succeeds, unless something fails, on every plan that supersedes the recovered generation and gives up what the kernel dropped of it, and on no other; repeating the live generation keeps its setting receipts; a single fault over a live generation leaves the kernel as it was, and if somebody else holds what the plan asks for it never succeeds |
| `Backend.PrivilegedBackend.RestorePlan` | src/backend/privileged.rs:983-1023 | restore succeeds only on exactly the previous plan or on nothing, nftables and routing, and can then be repeated; from wherever a start can recover it succeeds, unless something fails, exactly on a restore of the live candidate or one already done, never while runtime authority is armed, and otherwise changes nothing |
| `Backend.PrivilegedBackend.Cleanup` | src/backend/privileged.rs:1149-1213 | cleanup succeeds only from a readable journal and, unless something fails, then leaves nothing owned and no journal; stopped on the way it keeps the setting receipts; if it fails after revoking the runtime authority, memory and journal agree on it if and only if the revocation is journaled or the journal carried none; so they always agree if the journal carried none, and otherwise one failed read makes them disagree |
| `FailingRuns.ForgottenAuthority` | src/backend/privileged.rs:1163-1167 | the failing run: one failed read makes a cleanup fail after it forgot the runtime authority; the same helper then applies the next plan and drops the journaled authority, which a fresh helper refuses |
| `CrashSafety.Restart` | src/backend/privileged.rs:1709-1879 | a new helper may start from any state a crash of the old one left |
| `CrashSafety.LinkLoss` | src/backend/privileged.rs:3254-3313 | when the kernel drops a unicast default between operations, exactly that route goes and the journal still accounts for the rest |
| `CrashSafety.RestartInterrupted` | src/backend/privileged.rs:1794-1848 | starting over any crash state of a transition succeeds if and only if the journal is within the receipt bound, the state is accepted and nothing fails; it then ends on the exact basis of the journal, never recreating a dropped unicast, with its setting receipts and its runtime authority |
| `CrashSafety.RestartRemembers` | src/backend/privileged.rs:1709-1879 | a new helper over the journal of one that is between operations ends on the same generation, setting receipts, restore receipt and runtime authority |
| `Situations.WritingAheadLosesNothing` | src/backend/privileged.rs:1516-1533 | the record a transition writes ahead names the settings it will write, and recovered it is exactly the committed record that it replaced |
| `Journal.PlanIsRefusedIff` | src/backend/privileged.rs:4730-4793 | a plan is refused exactly for its size, for a lane outside the reserved numbers or with a bad interface name, for two lanes that share an id, table, mark or priority, or for a rule without its lane or with a foreign cgroup |
| `Journal.MarkAwareIff` | src/backend/privileged.rs:2522-2549 | the interfaces that need the setting are those of the lanes that are available with an IPv4 route and an identity |
| `Journal.NeededReceiptsAre` | src/backend/privileged.rs:2522-2549 | a transition adds one receipt, of a zero made one, for each interface that needs the setting and has no receipt yet, and no other |
| `Journal.ReceiptsIdentify` | src/backend/privileged.rs:983-1023 | a restore receipt fits exactly the candidate and the predecessor it was made for |
| `Histories.Live` | src/backend/privileged.rs:947-1084 | over any sequence of applies, restores and cleanups with any faults, of crashes into any state seen, and of unicasts lost between operations: the history has one entry for each event, each entry begins where the one before ended and does what that operation promises, no more faults are counted than the world allows, and every state a crash could leave is accounted for |
| `Histories.OnlyRestoresGoBack` | src/backend/privileged.rs:947-1084 | in any history a successful apply moves to a later generation or repeats the live plan, and only a restore of the live candidate, or one already done, goes back |
| `LegacyCleanup.VerifyLegacyLive` | src/backend/privileged.rs:2665-2697 | the legacy ownership proof succeeds exactly on the owned states |
| `LegacyCleanup.LegacyProofIsTheRecoveryCheck` | src/backend/privileged.rs:2665-2697 | with a transaction pending the proof accepts exactly what the pending-journal check accepts of it, and once the cleanup has begun, without a table, exactly the reinstallations of the previous plan that are partly rolled back again |
| `LegacyCleanup.LegacyProofWithoutTransaction` | src/backend/privileged.rs:2665-2697 | without a transaction it accepts the active generation whole, or partly removed once the cleanup has begun, or then nothing at all |
| `Journal.OneSlotGivesAll` | src/backend/privileged.rs:2622-2663 | a schema-2 lane takes its table, mark and priority from one of a hundred slots |
| `LegacyCleanup.CleanupKeepsOwnership` | src/backend/privileged.rs:1245-1296 | every prefix of the legacy cleanup is owned again, with the table absent too |
| `LegacyCleanup.CleanUp` | src/backend/privileged.rs:1245-1296 | a legacy cleanup whose ownership is proven ends empty with the journal cleared unless something fails; its own revalidation never refuses, and whatever stops it leaves a journal and a kernel the next cleanup can start from |
| `LegacyCleanup.Resume` | src/backend/privileged.rs:1245-1296 | from every state a stopped legacy cleanup left, a cleanup without faults finishes |
| `NftRender.RenderNftDocument` | src/backend/nft_document.rs:401-560 | the loops over families, lanes, rules and networks build exactly the specified document |
| `NftRender.Controls` | src/backend/nft_document.rs:276-312 | the control exemptions in order |
| `NftRender.BuildHookChains` | src/backend/nft_document.rs:482-529 | one pass fills the reply, egress and translation chains |
| `NftRender.MarkOf` | src/backend/nft_document.rs:356-370 | the primary mark is that of a ready lane with the chosen id, or no such lane is ready |
| `NftRender.SortedOnce` | src/backend/nft_document.rs:531-540 | the guard lists every network of both plans, in order and none twice |
| `NftPolicy.FirstRule` | src/backend/nft_document.rs:457-459 | the first rule whose target matches: it matches and none before it does |
| `NftPolicy.ControlNetworksAre` | src/backend/nft_document.rs:276-312 | the control networks are 224.0.0.0/24, ff02::/16 and fe80::/10, bit by bit, and the broadcast address |
| `NftPolicy.ReadyIs` | src/backend/nft_document.rs:241-252 | a lane takes traffic of a family exactly while it is available with a route and a source on the device it was planned for |
| `NftPolicy.ControlsEval` | src/backend/nft_document.rs:276-312 | the control rules exempt exactly host-local and on-link control traffic |
| `NftPolicy.ExplicitEval` | src/backend/nft_document.rs:372-399 | the explicit rules act on the first match only |
| `NftPolicy.SelectEval` | src/backend/nft_document.rs:425-442 | a select chain restores marked sessions, leaves unmanaged ones, marks new ones only for a ready lane, and refuses the rest |
| `NftPolicy.RestoreEval` | src/backend/nft_document.rs:414-424 | a restore chain accepts exactly the marks of ready lanes |
| `NftPolicy.OutputEval` | src/backend/nft_document.rs:445-480 | the output chain up to its tail calls |
| `NftCorrect.OutputIsDecide` | src/backend/nft_document.rs:401-480 | in every phase with an active plan, walking the rendered output, select and restore chains gives the declared verdict and marks for every packet |
| `NftCorrect.EgressIsDecided` | src/backend/nft_document.rs:482-529 | a local non-control packet with an owned mark passes the egress guard exactly when a ready lane proves it, and is dropped otherwise |
| `NftCorrect.OnlyProvenIsMasqueraded` | src/backend/nft_document.rs:482-529 | source translation applies to exactly the proven packets |
| `NftCorrect.RepliesTakeTheirMark` | src/backend/nft_document.rs:482-529 | an incoming packet takes its connection's mark exactly when it is a reply on that lane |
| `NftCorrect.GuardRefusesTheRest` | src/backend/nft_document.rs:531-546 | the guard lets out control traffic and the local networks of both plans and refuses everything else |
| `NftHooks.HooksOfDocument` | src/backend/nft_document.rs:401-560 | the base chains the kernel finds in a rendered document, hook by hook with kind and priority: output at -150 of the route kind, replies at -150, the egress guard at 99 before the translation at 100, and the guard at -149 when there is one |
| `NftHooks.OutputHookDecides` | src/backend/nft_document.rs:401-480 | a locally sent packet meets the plan's decision, then the guard's if the document is guarded, and is routed again exactly if the plan changed its mark |
| `NftHooks.PostroutingHookDecides` | src/backend/nft_document.rs:482-529 | a packet on its way out is dropped by the egress guard, or translated exactly if a ready lane proves it, or passed on |
| `NftHooks.PreroutingHookDecides` | src/backend/nft_document.rs:482-529 | a packet coming in takes its connection's mark exactly if it is a reply on that connection's lane, and passes |
| `NftHooks.GuardLetsOut` | src/backend/nft_document.rs:531-546 | the guard lets out exactly control traffic and what either plan calls a local network |
| `Sticky.OnlyReadyLanesAreMarked` | src/backend/nft_document.rs:401-480 | for every plan and packet, the chains only assign or restore marks of lanes ready for the family of the deciding rule, or for the packet's own family where no rule decides |
| `Sticky.MarksForOwnFamilyIff` | src/backend/privileged.rs:4772-4790 | in a plan a load accepts, marks always belong to lanes ready for the packet's own family if and only if every rule on a network of the other family either gives no lanes, or decides no packet, or only has lanes ready for the network's family too |
| `Sticky.ConsistentFamiliesSuffice` | src/backend/privileged.rs:4772-4790 | for that it is enough, in any plan, that every rule on a network is of the network's family |
| `Sticky.CrossedPlanMarksTheOtherFamily` | src/backend/privileged.rs:4772-4790 | the failing case: a plan that a load accepts, with an IPv6 rule on an IPv4 network, gives an IPv4 packet the mark of a lane without IPv4 |
| `Sticky.MarkedConnectionsKeepTheirLane` | src/backend/nft_document.rs:414-443 | a packet of a marked connection is exempt, refused, or carries exactly that mark, of a lane still ready for the deciding family |
| `Sticky.MarkWrittenAtMostOnce` | src/backend/nft_document.rs:414-443 | over any run of packets and plan replacements a connection's mark is written at most once, from zero |
| `Sticky.MarkNamesTheLaneThatWasReady` | src/backend/nft_document.rs:425-442 | the mark a connection carries was written for a lane that was ready, for the family that decided, in the plan in force then |
| `Sticky.LeavesOnlyByItsLane` | src/backend/nft_document.rs:482-529 | a managed local packet leaves only by its lane's observed interface, even if the plan was replaced on the way; otherwise it is dropped |
| `NftDocument.SameNormalForm` | src/backend/nft_document.rs:85-95 | normalising is idempotent, and two listings agree exactly when they list the same chains and the same rules in order |
| `NftDocument.ListingOrderIsIrrelevant` | src/backend/nft_document.rs:85-95 | chain-interleaved and chains-first listings have one normal form |
| `NftDocument.RemovingTheGuardIsRenderingWithoutIt` | src/backend/privileged.rs:2940-2951 | deleting the guard chain and its rules from a document gives exactly the document rendered without the guard |
| `NftDocument.PhasesRenderApart` | src/backend/nft_document.rs:401-560 | documents rendered for different phases differ, so a document's fingerprint stands for its phase |
| `NftDocument.RenderedSealIsValid` | src/backend/nft_document.rs:120-148 | every rendered document carries a valid seal and keeps it when the guard comes off |
| `NftDocument.SealProvesThePolicy` | src/backend/nft_document.rs:120-148 | any listing with a valid seal of a phase enforces that phase's output policy for every packet |
| `NftDocument.SealProvesEveryHook` | src/backend/nft_document.rs:120-148 | an unguarded listing in any order with a valid seal of a phase does to every packet at every hook what the rendered document does |
| `NftJson.NormalizeIsIdempotent` | src/backend/nft_document.rs:85-118 | normalising JSON twice changes nothing more, for every JSON value |
| `NftJson.BothListingsNormalizeAlike` | src/backend/nft_document.rs:85-95 | the two listing orders of the same blocks normalise to the same JSON |
| `NftJson.RuleOrderIsKept` | src/backend/nft_document.rs:85-95 | within each chain normalising keeps which rules there are and their order |
| `NftJson.VolatileFieldsAreErased` | src/backend/nft_document.rs:96-110 | handles, listing metadata and counter values do not show in the normal form |
| `NftJson.NormalFormTellsAlike` | src/backend/nft_document.rs:85-118 | two values have the same normal form if and only if they are alike: equal but for handles, listing metadata, counter values and the place of rules among chains |
| `Primary.PrimarySelector.Update` | src/backend/primary.rs:87-186 | one update steps both family automata independently, from fresh states when the policy changed |
| `Primary.PreferenceMeans` | src/backend/primary.rs:100-119 | the preferred lane is the one the policy names, or with the system default the only lane bound to that family's default interface; it is undetermined exactly when the default is or two lanes are bound |
| `Primary.FailoverIsImmediateAndInOrder` | src/backend/primary.rs:135-157 | when the present exit may not stay, the preferred lane takes over at once if it is usable, otherwise with failover on the first usable backup, and otherwise the family is blocked |
| `Primary.StayingIsTimed` | src/backend/primary.rs:158-176 | an exit that may stay does, until another preferred lane has been usable for five seconds; the clock starts anew when the preference changes or time runs back |
| `Primary.AmbiguityBlocks` | src/backend/primary.rs:130-134 | an undetermined preference blocks the family |
| `Primary.NextDeadlineIsEarliest` | src/backend/primary.rs:188-197 | the next deadline is five seconds after the earlier of the clocks that run |
| `Primary.ExitIsReadyOrBlocked` | src/backend/primary.rs:87-186 | after every update the exit is a permitted lane ready with its bound identity, and blocked exactly when ambiguous or no permitted lane is ready; without failover it is the preferred lane |
| `Primary.ClockMeansWaiting` | src/backend/primary.rs:155-171 | a running failback clock was started by an update since which every update saw the same preferred lane ready and the same other exit |
| `Primary.FailbackNeedsAnUnbrokenWait` | src/backend/primary.rs:155-171 | an exit that is still ready is left only for the preferred lane, after an unbroken wait of at least five seconds, whatever the clock does |
| `Primary.DeadlineIsExact` | src/backend/primary.rs:155-197 | with constant inputs nothing changes before the deadline and a waiting family is on its preferred lane from the deadline on |
| `Primary.QuietUntilNextDeadline` | src/backend/primary.rs:188-197 | before the selector's own deadline the whole decision stays |
| `Fallback.CheckFallbacks` | src/domain/profile.rs:169-183 | the cycle check terminates, accepts exactly the acyclic graphs and names the first lane whose chain never ends |
| `Fallback.ChainIsTheHops` | src/domain/profile.rs:158-183 | in an acyclic graph the fallback chain is finite and listed whole |
| `Planner.ValidateProfile` | src/domain/profile.rs:89-185 | the checks together accept exactly the valid profiles, and every error names a violation the profile has |
| `Planner.WalkFallbacks` | src/backend/planner.rs:288-302 | the fallback walk ends at the first lane of the chain that can carry the family, or finds none |
| `Planner.CompileRouteAction` | src/backend/planner.rs:271-309 | a route action is the mark of that lane, or the original lane's failure policy |
| `PlannerIntent.RouteActionMeans` | src/backend/planner.rs:271-309 | a route action is the mark of the first lane down its fallbacks whose interface was seen to carry the family; without one, by the lane's own policy, a refusal, the primary exit or nothing |
| `PlannerIntent.ActionsMeanTheProfile` | src/backend/planner.rs:255-309 | every action is compiled to what the profile says, in terms of lanes, hops and observed interfaces alone |
| `PlannerIntent.MeaningIsUnique` | src/backend/planner.rs:255-309 | that meaning determines the compiled action |
| `PlannerIntent.ExitIsUsableIff` | src/backend/planner.rs:99-119 | a primary exit is accepted exactly if it is blocked, or a lane whose interface is known, carries the family and has a source for it |
| `PlannerIntent.PlanShowsTheInterface` | src/backend/planner.rs:156-188 | each lane has one plan, with its own name and failure policy, the identity and sources observed on its interface, and a route exactly for the families it carries |
| `Planner.CompileRule` | src/backend/planner.rs:190-253 | the loops append one compiled rule per target and family that is not inactive, or report the rule's error |
| `Planner.Deduplicate` | src/backend/planner.rs:138-141 | the in-place filter keeps the first rule of every routing key |
| `Planner.CompileProfile` | src/backend/planner.rs:69-154 | a disabled or invalid profile and an unusable primary are refused, the latter with its lane and the first family it cannot serve; otherwise the plan is the specified compilation, under the generation, profile, primary decision and local addresses it was asked for |
| `PlannerMeaning.DeduplicationKeepsFirstMatch` | src/backend/planner.rs:138-141 | deduplication never changes the first match of any packet |
| `PlannerMeaning.DeduplicatedKeysAreUnique` | src/backend/plan.rs:102-109 | after deduplication no two rules share a routing key and no key is lost |
| `Plan.KeysAgreeIff` | src/backend/plan.rs:102-109 | two rules have one key exactly if they agree in family and action and name the same addresses or the same cgroup |
| `PlannerMeaning.CompiledRulesMeanTheProfile` | src/backend/planner.rs:121-153 | for every packet, first match over the compiled rules is the first enabled rule in (priority, id) order that matches and is not inactive for the family, with its resolved action |
| `PlannerMeaning.FailsAtTheFirstUnsupported` | src/backend/planner.rs:121-134 | compilation succeeds when every enabled rule can be compiled, and otherwise reports the error of the first one in execution order that cannot |
| `PlannerMeaning.DecidingRuleIsUnique` | src/domain/rule.rs:123-127 | with unique rule ids that rule is unique |
| `PlannerIntent.DuplicatesIff` | src/domain/rule.rs:101-121 | two rules are duplicates exactly if they agree in executable and children flag, in the addresses they name and in the action |
| `PlannerIntent.ClaimsIff` | src/domain/profile.rs:134-140 | an application rule claims the desktop entry it names, unless that name is empty |
| `Sorting.TextBeforeIsLexicographic` | src/domain/rule.rs:123-127 | the order of ids is lexicographic: a proper prefix, or smaller at the first difference |
| `PlannerPlans.SlotIsRank` | src/backend/planner.rs:81-88 | a lane's table, mark and priority share one offset, the number of lane ids before its own |
| `PlannerLimits.CompiledPlansAreValidIff` | src/backend/privileged.rs:4730-4793 | a compiled plan passes the helper's validation if and only if the enabled rules in effect have at most 10,000 distinct families, destinations and actions, every lane has a kernel interface name, and every enabled application rule in effect has an id of letters, digits, hyphens and underscores |
| `PlannerLimits.RulesAreTheKeys` | src/backend/planner.rs:121-141 | a compiled plan has exactly one rule for each distinct family, destination and action of the enabled rules in effect |
| `PlannerLimits.DottedIdIsRefused` | src/backend/privileged.rs:4778-4784 | a valid profile with one application rule called "a.b" compiles to a plan the helper refuses |
| `PlannerLimits.TooManyRulesAreRefused` | src/backend/privileged.rs:4740-4745 | a valid profile of 5,001 application rules with fine ids compiles to a plan the helper refuses |
| `PlannerPlans.EmittedMarksAreReady` | src/backend/planner.rs:255-336 | on observed topology every emitted mark is that of a lane the renderer considers ready for the rule's family |
| `PlannerPlans.CompiledPlansMarkForOwnFamily` | src/backend/planner.rs:190-253 | compiled plans never mark a packet with a lane of the other family |
| `PlannerPlans.PrimariesAgree` | src/backend/planner.rs:323-336 | the planner's primary action and the renderer's primary mark are the same |
| `PlannerIntent.NewConnectionsFollowTheProfile` | src/backend/planner.rs:121-153 | from profile to packet: the policy rendered from a compiled plan treats the first packet of a connection as the rule that governs it says: of the enabled rules that match and are not dormant, the one with the smallest priority and then the first id |
| `EndToEnd.NewConnectionsReachTheWire` | src/backend/planner.rs:69-154 | from profile to wire: a new connection that its governing rule gives to a lane is marked and routed again at the output hook, looked up to exactly the gateway and interface observed for that lane, and translated there; any other is refused, or left alone on a local network |
| `PlannerPlans.FailoverKeepsRules` | src/backend/planner.rs:81-88 | between any two plans of one profile, transition and retirement add or delete no rule and flush no table |
| `Settings.RestoreMark` | src/backend/interface_settings.rs:215-243 | compare and restore, call by call: nothing is written but after the device was confirmed, its mark read as RouteLane's own value and the device confirmed again; success means that the zero was read there, or written and read back; on an interface that nobody else touches it succeeds unless a call fails, and then the value is the original one |
| `Settings.SettingsKeeper.Wanted` | src/backend/interface_settings.rs:171-193 | what decides is what was read: wanted exactly if the larger of the two modes is 1 and both marks are 0, and an error for a value out of range |
| `Settings.ScopeIs` | src/backend/interface_settings.rs:27-38 | only a device with an index is ever written, under a short plain name that stands for no other device or path |
| `Settings.SettingsKeeper.EnsureMark` | src/backend/interface_settings.rs:167-213 | call by call: a receipt is journaled only if the device was confirmed, the larger filtering mode read is exactly 1 and both marks read are 0, and the setting is written only after that, with the device confirmed and its mark read as 0 once more; success means it was read back; in a calm world with readable values it is written exactly if it is wanted, and with values in range nothing changes otherwise |
| `Settings.SettingsKeeper.EnsureSettings` | src/backend/privileged.rs:2522-2549 | at every point of the loop everything owed has a durable receipt; in a calm world in which every interface not owned yet can be read and is in range, the loop succeeds and exactly those that filter strictly without the mark are set, owed and journaled |
| `Settings.SettingsKeeper.RestoreReceipts` | src/backend/privileged.rs:2553-2572 | every receipt is spent; unless a call fails, every interface that nobody else touches has its original value, and nothing is reported as failed if that is all of them |
| `Settings.SettingsKeeper.AbortEarly` | src/backend/privileged.rs:1538-1565 | an early abort gives back before it forgets, so everything owed stays covered; unless a call fails the journal is repaired and every interface that nobody else touches has its original value |
| `Settings.SettingsKeeper.UndoTransition` | src/backend/privileged.rs:1580-1606 | after a failed transition every outcome leaves everything owed covered if nothing pending is owed before; if something is, a repaired journal leaves an uncovered state; unless a call fails the journal is repaired and the settings are given back |
| `Settings.OrphanedSetting` | src/backend/privileged.rs:1580-1606 | the failing run, in a calm world from an interface nobody has written: journaled, switched, and after a failed transition without its receipt; a helper that starts over that state has nothing to give back and leaves RouteLane's value in place |
| `Settings.SettingsKeeper.Recover` | src/backend/privileged.rs:1827-1840 | recovery gives back before it forgets; unless a call fails the journal is repaired and every interface of the interrupted transition that nobody else touches has its original value |
| `Settings.SettingsKeeper.Cleanup` | src/backend/privileged.rs:1197-1205 | after cleanup nothing is owed; unless a call fails the journal is cleared and every interface that nobody else touches has its original value |
| `Settings.RecoverAfterCrash` | src/backend/privileged.rs:1827-1848 | from the durable receipts alone, in any covered crash state, recovery and cleanup leave nothing owed; unless a call fails they complete, and every interface that nobody else ever touched ends with its original value |
| `Wakeup.WaitingMeansCovered` | src/backend/runtime_monitor.rs:51-84 | in every run, a driver waiting on an empty channel has started a refresh after every notification read |
| `Wakeup.NeverStuck` | src/backend/runtime_monitor.rs:51-84 | while a notification is uncovered the driver has a step to take |
| `Wakeup.NoLostWakeup` | src/backend/runtime_monitor.rs:51-127 | every notification read, delivered or dropped, is followed by a refresh within a number of driver steps bounded by what the forwarder keeps sending |
| `Wakeup.DeadlineStartsARefresh` | src/backend/runtime_monitor.rs:57-68 | an armed failback deadline can pass while the driver waits and then a refresh starts; an unarmed one cannot |
| `Wakeup.ArmedByTheLatestRefresh` | src/backend/runtime_monitor.rs:86-90 | the deadline is armed exactly if the refresh that finished last asked for it |
| `Wakeup.OnlyThreeThingsWake` | src/backend/runtime_monitor.rs:58-84 | a waiting driver wakes for an event, for an armed deadline or for the end of every sender, and only the last stops it |
| `Wakeup.ChangedIsCoalesced` | src/backend/runtime_monitor.rs:71-75 | a change that was received is coalesced with what follows it, and then a refresh starts |
| `Wakeup.DrainGoesOn` | src/backend/runtime_monitor.rs:73-74 | the drain takes every change that is pending, and only then a refresh starts |
| `Wakeup.ClosedRestartsTheMonitor` | src/backend/runtime_monitor.rs:76-81 | the monitor's end, once received, starts it again before the next refresh |
| `Wakeup.ClosedIsLostIff` | src/backend/runtime_monitor.rs:71-81 | the monitor's end leaves the channel by being received, which restarts it, or by a drain, which loses it |
| `Wakeup.ClosedMayBeSwallowed` | src/backend/runtime_monitor.rs:71-75 | a run in which the drain loop takes the monitor's end from the channel and never acts on it |

## Left out

- World.Durable.Save: assumes that a failed save leaves the old journal; the rename and directory sync behind it are not modelled.
- World.Durable.RunSteps: one command is one atomic step; process execution, pipes and timeouts are not modelled.
- Backend.PrivilegedBackend.EnsureSettings: an interface needs the setting or does not, throughout a run; the values behind that, the write itself and what it owes are the subject of the Settings module, whose devices are a world of their own.
- Backend.PrivilegedBackend.Cleanup: the settings it gives back are likewise modelled in the Settings module.
- Backend.PrivilegedBackend.EnsureReconciled: runtime authority is a record that is loaded, armed or given up; activating and refreshing it, its grant checks and its hold-back timer are not modelled, and nothing is claimed about an aborted refresh.
- Backend.PrivilegedBackend.Apply: which foreign object conflicts with a plan is decided while parsing command output; here a survey of the kernel finds one or does not.
- Histories.Live: the kernel drops unicast defaults only while no operation is journaled; a drop during one can leave a state that the pending-journal check refuses.
- LegacyCleanup.CleanUp: the comparison of interface identities and of stored fingerprints before a legacy cleanup, and the settings it gives back.
- Accounting.ToleratedLost: starts from typed live ownership; the carrier check on link-down routes and the parsing of route listings are not part of this model.
- Planner.ValidateProfile: lane names and domain names come trimmed and case-folded; when several things are wrong, which of them is reported first is stated only for the cycle check.
- Planner.CompileProfile: resolved domain addresses and the observed topology are inputs.
- NftRender.RenderNftDocument: chain names and the seal are injective datatypes instead of formatted strings and hashes; the reject code of a family is not distinguished.
- NftCorrect.OutputIsDecide: packets are described by the fields the chains read.
- NftHooks.HooksOfDocument: chains of other tables at the same hooks are not part of this model.
- NftDocument.SealProvesEveryHook: a listing that still has its guard, or whose seal is itself a base chain, is covered for the output policy only.
- PolicyRouting.MarkedPacketsTakeTheirLane: rules that RouteLane does not own, with priorities before its own, are not part of this model.
- NftJson.NormalizeIsIdempotent: normalises values instead of rewriting a tree in place; numbers are integers.
- Primary.PrimarySelector.Update: the interface bindings are given; collecting them from the profile and topology is a plain filter.
- Wakeup.NoLostWakeup: the event loop is a state machine over its steps, because its waits interleave with the forwarder; time is abstract, so any timer may fire at any moment.
- Settings.SettingsKeeper.Commit: receipts of one transition become committed together with its record; their number matters only in the Journal module.
- Kernel changes that race with a running transaction: the set of lost unicasts is fixed when the journal is written.
- Orphan recovery and the first legacy journal format: the modelled cleanup is the second legacy format, whose renderer is the modern one.
- Binding interface names in nft listings to indices, and the route matchers over command output.
- D-Bus, authorization, the daemon client, the command line, the desktop interface, cgroup files and DNS.
- Health reports and migrations of language and configuration.
