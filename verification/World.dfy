/**
 * Everything that survives a crash of the helper: the journal cell and the kernel. Each mutation is one
 * command that may fail, and a kernel command that reports failure may still have taken effect.
 * `seen` collects every state a crash could leave.
 */
module World {
  import opened Wrappers
  import opened Plan
  import opened Routing
  import opened Composition
  import opened FailClosed
  import opened Rollback
  import opened CrashModel
  import opened Journal

  datatype Snapshot = Snapshot(record: Option<Record>, sys: Sys)

  /**
   * What may go wrong in a run: nothing, exactly its first attempt, or anything; and in a contested one somebody
   * else holds a table, route or rule that RouteLane asks for.
   */
  datatype Reliability = Sound | FirstFails | Unreliable | Contested

  /**
   * Reading the kernel, saving the journal and running a command are attempts. An attempt that fails is a
   * fault, and so is a foreign object that a survey finds.
   */
  class Durable {
    const reliability: Reliability
    /** Interfaces whose reverse-path filter needs RouteLane's setting. */
    const unmarked: set<InterfaceIdentity>
    var record: Option<Record>
    var nft: Nft
    var routing: Ownership
    var faults: nat
    var seen: set<Snapshot>
    /** Where this run began. */
    const origin: Snapshot

    function Now(): Snapshot
      reads this
    {
      Snapshot(record, Sys(nft, routing))
    }

    /** The faults so far are possible in this world. */
    ghost predicate Sane()
      reads this
    {
      (reliability.Sound? ==> faults == 0) && (reliability.FirstFails? ==> faults <= 1)
    }

    constructor (s: Snapshot, reliability: Reliability, unmarked: set<InterfaceIdentity>)
      ensures Now() == s && seen == {s} && faults == 0 && Sane()
      ensures this.reliability == reliability && this.unmarked == unmarked && origin == s
    {
      this.reliability, this.unmarked, origin := reliability, unmarked, s;
      record, nft, routing := s.record, s.sys.nft, s.sys.routing;
      faults, seen := 0, {s};
    }

    /** Reads the kernel, or does anything else that can fail; a failure is one more fault. */
    method Attempt() returns (ok: bool)
      requires Sane()
      modifies this`faults
      ensures Sane() && faults == old(faults) + if ok then 0 else 1
      ensures reliability.FirstFails? && old(faults) == 0 ==> !ok
    {
      match reliability {
        case Sound => ok := true;
        case FirstFails => ok := faults > 0;
        case Unreliable => ok := *;
        case Contested => ok := *;
      }
      if !ok {
        faults := faults + 1;
      }
    }

    /** Reads the kernel and finds nothing of others where RouteLane's own is or will be. */
    method Survey() returns (ok: bool)
      requires Sane()
      modifies this`faults
      ensures Sane() && faults == old(faults) + if ok then 0 else 1
      ensures reliability.FirstFails? && old(faults) == 0 ==> !ok
      ensures reliability.Contested? ==> !ok
    {
      ok := Attempt();
      if ok && reliability.Contested? {
        ok, faults := false, faults + 1;
      }
    }

    /** A failed kernel command may have taken effect all the same. */
    method TakesEffect(ok: bool) returns (effective: bool)
      ensures ok ==> effective
    {
      effective := *;
      effective := ok || effective;
    }

    /** Saving replaces the whole journal or leaves it as it was. */
    method Save(r: Record) returns (ok: bool)
      requires Sane()
      modifies this
      ensures Sane() && faults == old(faults) + if ok then 0 else 1
      ensures record == if ok then Some(r) else old(record)
      ensures nft == old(nft) && routing == old(routing)
      ensures seen == old(seen) + {Now()}
    {
      ok := Attempt();
      if ok {
        record := Some(r);
      }
      seen := seen + {Now()};
    }

    method Clear() returns (ok: bool)
      requires Sane()
      modifies this
      ensures Sane() && faults == old(faults) + if ok then 0 else 1
      ensures record == if ok then None else old(record)
      ensures nft == old(nft) && routing == old(routing)
      ensures seen == old(seen) + {Now()}
    {
      ok := Attempt();
      if ok {
        record := None;
      }
      seen := seen + {Now()};
    }

    method RunNft(document: Nft) returns (ok: bool)
      requires Sane()
      modifies this
      ensures Sane() && faults == old(faults) + if ok then 0 else 1
      ensures record == old(record) && routing == old(routing)
      ensures nft == document || (!ok && nft == old(nft))
      ensures seen == old(seen) + {Now()}
    {
      ok := Attempt();
      var effective := TakesEffect(ok);
      if effective {
        nft := document;
      }
      seen := seen + {Now()};
    }

    /** Deleting the guard chain fails when there is none. */
    method RemoveGuardChain() returns (ok: bool)
      requires Sane()
      modifies this
      ensures Sane() && record == old(record) && routing == old(routing)
      ensures ok ==> old(nft).Doc? && old(nft).guard
      ensures nft == Guardless(old(nft)) || (!ok && nft == old(nft))
      ensures old(nft).Doc? && old(nft).guard ==> faults == old(faults) + if ok then 0 else 1
      ensures old(faults) <= faults <= old(faults) + 1
      ensures seen == old(seen) + {Now()}
    {
      if nft.Doc? && nft.guard {
        ok := RunNft(nft.(guard := false));
      } else {
        ok := false;
        seen := seen + {Now()};
      }
    }

    method RunStep(step: RoutingStep) returns (ok: bool)
      requires Sane()
      modifies this
      ensures Sane() && faults == old(faults) + if ok then 0 else 1
      ensures record == old(record) && nft == old(nft)
      ensures routing == Apply(old(routing), step) || (!ok && routing == old(routing))
      ensures reliability.FirstFails? && old(faults) == 0 ==> !ok
      ensures seen == old(seen) + {Now()}
    {
      ok := Attempt();
      var effective := TakesEffect(ok);
      if effective {
        routing := Apply(routing, step);
      }
      seen := seen + {Now()};
    }

    /** Runs steps until one fails. Every state in between is a prefix of the steps. */
    method RunSteps(steps: seq<RoutingStep>) returns (ok: bool)
      requires Sane() && Now() in seen
      modifies this
      ensures Sane() && faults == old(faults) + if ok then 0 else 1
      ensures record == old(record) && nft == old(nft)
      ensures ok ==> routing == Run(old(routing), steps)
      ensures Reaches(old(routing), steps, routing)
      ensures reliability.FirstFails? && old(faults) == 0 && steps != [] ==>
                !ok && (routing == old(routing) || routing == Apply(old(routing), steps[0]))
      ensures old(seen) <= seen && Now() in seen
      ensures forall s :: s in seen && s !in old(seen) ==>
        s.record == old(record) && s.sys.nft == old(nft) && Reaches(old(routing), steps, s.sys.routing)
    {
      ghost var start := routing;
      assert StateAt(start, steps, 0) == start;
      for i := 0 to |steps|
        invariant Sane() && faults == old(faults)
        invariant reliability.FirstFails? && old(faults) == 0 ==> i == 0
        invariant record == old(record) && nft == old(nft)
        invariant routing == StateAt(start, steps, i)
        invariant old(seen) <= seen && Now() in seen
        invariant forall s :: s in seen && s !in old(seen) ==>
          s.record == old(record) && s.sys.nft == old(nft) && Reaches(start, steps, s.sys.routing)
      {
        RunSnoc(start, steps, i);
        ok := RunStep(steps[i]);
        assert routing == StateAt(start, steps, i) || routing == StateAt(start, steps, i + 1);
        if !ok {
          return;
        }
      }
      assert steps[..|steps|] == steps;
      ok := true;
    }

    /** The kernel drops a unicast default by itself when a link or address is lost. */
    method LoseUnicast(r: RouteOwnership)
      requires !r.terminal
      modifies this`routing, this`seen
      ensures routing == old(routing).(routes := old(routing).routes - {r})
      ensures seen == old(seen) + {Now()}
    {
      routing := routing.(routes := routing.routes - {r});
      seen := seen + {Now()};
    }
  }
}
