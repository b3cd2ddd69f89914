/** What a crash leaves is where the next start begins. */
module CrashSafety {
  import opened Wrappers
  import opened Plan
  import opened Routing
  import opened Composition
  import opened FailClosed
  import opened CrashModel
  import opened Journal
  import opened World
  import opened Accounting
  import opened Situations
  import opened Backend

  /** A new helper over any state a crash of the old one may have left. */
  method Restart(crashed: Durable, s: Snapshot, reliability: Reliability) returns (backend: PrivilegedBackend)
    requires AllAccounted(crashed.seen) && s in crashed.seen
    ensures fresh(backend) && fresh(backend.world)
    ensures backend.world.Now() == s && backend.world.origin == s && backend.world.seen == {s} && backend.world.faults == 0
    ensures backend.world.reliability == reliability && backend.world.unmarked == crashed.unmarked
    ensures backend.Coherent() && backend.Here() == Situation(BLANK, s)
  {
    var world := new Durable(s, reliability, crashed.unmarked);
    backend := new PrivilegedBackend(world);
  }

  /** Between operations the kernel may drop a unicast default on its own, and nothing else. */
  method LinkLoss(backend: PrivilegedBackend, r: RouteOwnership)
    requires backend.Coherent() && !backend.Interrupted() && !r.terminal
    modifies backend.world`routing, backend.world`seen
    ensures backend.Coherent() && old(backend.world.seen) <= backend.world.seen
    ensures backend.world.routing == old(backend.world.routing).(routes := old(backend.world.routing.routes) - {r})
  {
    var world := backend.world;
    assert Accounted(world.Now());
    if world.record.Some? && world.record.value.active.Some? {
      var plan := world.record.value.active.value;
      ghost var lost :| IsBasis(plan, lost, world.routing);
      LosingOneMore(plan, lost, world.routing, r);
    } else {
      assert world.routing.(routes := world.routing.routes - {r}) == EMPTY;
    }
    world.LoseUnicast(r);
  }

  /**
   * Starting over an interrupted transition: an accepted state with a readable journal ends on the exact rollback
   * target unless something fails, and any other state is refused.
   */
  method RestartInterrupted(crashed: Durable, s: Snapshot, reliability: Reliability)
    returns (backend: PrivilegedBackend, ok: bool)
    requires AllAccounted(crashed.seen) && s in crashed.seen
    requires s.record.Some? && s.record.value.pending.Some?
    ensures backend.Coherent()
    ensures ok <==> WithinReceiptBound(s.record.value) && Accepts(TransactionOf(s.record.value), s.sys) && backend.world.faults == 0
    ensures reliability.Sound? ==> backend.world.faults == 0
    ensures ok ==> backend.Idle() && backend.Settled()
    ensures ok ==> backend.world.Now().sys == TransactionOf(s.record.value).Target() && backend.current == s.record.value.active
    ensures ok ==> backend.settings == s.record.value.interfaceSettings && backend.restoreReceipt == None
    ensures ok ==> backend.JournaledRuntime() == (s.record.value.runtime, s.record.value.runtimeRestore)
  {
    backend := Restart(crashed, s, reliability);
    ok := backend.EnsureReconciled();
  }

  /** A new helper over the journal of one that is between operations knows everything the old one knew. */
  method RestartRemembers(backend: PrivilegedBackend) returns (again: PrivilegedBackend)
    requires backend.Coherent() && backend.Exactly(backend.current)
    requires backend.runtimeLoaded && backend.RuntimeAgrees() && |backend.settings| <= 2 * MAX_LANES
    ensures again.Coherent() && again.Exactly(backend.current) && again.world.faults == 0
    ensures again.settings == backend.settings && again.restoreReceipt == backend.restoreReceipt
    ensures again.JournaledRuntime() == (backend.runtime, backend.runtimeRestore)
  {
    if backend.current.Some? {
      NothingLost(backend.current.value);
    }
    again := Restart(backend.world, backend.world.Now(), Sound);
    var _ := again.EnsureReconciled();
  }
}
