/** The fallback graph of a profile's lanes: its cycle check and the walk the planner makes on it. */
module Fallback {
  import opened Wrappers
  import opened Plan
  import opened Domain

  function NextLane(lanes: seq<Lane>, id: LaneId): Option<LaneId> {
    match FindLane(lanes, id)
    case None => None
    case Some(lane) => lane.fallback
  }

  /** The lane n fallback hops from id, if the chain is that long. */
  function Hop(lanes: seq<Lane>, id: LaneId, n: nat): Option<LaneId> {
    if n == 0 then
      Some(id)
    else
      match Hop(lanes, id, n - 1)
      case None => None
      case Some(current) => NextLane(lanes, current)
  }

  ghost predicate Ends(lanes: seq<Lane>, id: LaneId) {
    exists n :: Hop(lanes, id, n).None?
  }

  ghost predicate Acyclic(lanes: seq<Lane>) {
    forall id, n: nat :: n > 0 ==> Hop(lanes, id, n) != Some(id)
  }

  lemma {:induction false} HopAdds(lanes: seq<Lane>, id: LaneId, a: nat, b: nat)
    requires Hop(lanes, id, a).Some?
    ensures Hop(lanes, id, a + b) == Hop(lanes, Hop(lanes, id, a).value, b)
  {
    if b > 0 {
      HopAdds(lanes, id, a, b - 1);
    }
  }

  lemma {:induction false} HopPrefix(lanes: seq<Lane>, id: LaneId, a: nat, b: nat)
    requires a <= b && Hop(lanes, id, b).Some?
    ensures Hop(lanes, id, a).Some?
    decreases b
  {
    if a < b {
      HopPrefix(lanes, id, a, b - 1);
    }
  }

  lemma {:induction false} RepeatNeverEnds(lanes: seq<Lane>, id: LaneId, a: nat, b: nat, n: nat)
    requires a < b && Hop(lanes, id, b).Some? && Hop(lanes, id, a) == Hop(lanes, id, b)
    ensures Hop(lanes, id, n).Some?
    decreases n
  {
    if n <= b {
      HopPrefix(lanes, id, n, b);
    } else {
      var d := n - b;
      RepeatNeverEnds(lanes, id, a, b, a + d);
      RepeatShifts(lanes, id, a, b, d);
      assert n == b + d;
    }
  }

  lemma RepeatShifts(lanes: seq<Lane>, id: LaneId, a: nat, b: nat, d: nat)
    requires a < b && Hop(lanes, id, b).Some? && Hop(lanes, id, a) == Hop(lanes, id, b)
    ensures Hop(lanes, id, a + d) == Hop(lanes, id, b + d)
  {
    HopAdds(lanes, id, a, d);
    HopAdds(lanes, id, b, d);
  }

  /** A repeated lane on any chain is a cycle through that lane. */
  lemma RepeatIsCycle(lanes: seq<Lane>, id: LaneId, a: nat, b: nat)
    requires a < b && Hop(lanes, id, b).Some? && Hop(lanes, id, a) == Hop(lanes, id, b)
    ensures !Acyclic(lanes)
  {
    HopAdds(lanes, id, a, b - a);
    var x := Hop(lanes, id, a).value;
    assert Hop(lanes, x, b - a) == Some(x);
  }

  function LaneIds(lanes: seq<Lane>): set<LaneId> {
    set i | 0 <= i < |lanes| :: lanes[i].id
  }

  lemma NextIsKnown(lanes: seq<Lane>, id: LaneId)
    requires NextLane(lanes, id).Some?
    ensures id in LaneIds(lanes)
  {
  }

  /** Exactly the lanes of the first k hops. */
  ghost predicate AreHops(lanes: seq<Lane>, id: LaneId, k: nat, visited: set<LaneId>) {
    && (forall x :: x in visited ==> exists j :: 0 <= j < k && Hop(lanes, id, j) == Some(x))
    && visited <= LaneIds(lanes)
  }

  lemma HopsGrow(lanes: seq<Lane>, id: LaneId, k: nat, visited: set<LaneId>, current: LaneId)
    requires AreHops(lanes, id, k, visited)
    requires Hop(lanes, id, k) == Some(current) && NextLane(lanes, current).Some?
    ensures AreHops(lanes, id, k + 1, visited + {current})
    ensures current !in visited ==> LaneIds(lanes) - (visited + {current}) < LaneIds(lanes) - visited
  {
    NextIsKnown(lanes, current);
    forall x | x in visited + {current}
      ensures exists j :: 0 <= j < k + 1 && Hop(lanes, id, j) == Some(x)
    {
      if x in visited {
        var j :| 0 <= j < k && Hop(lanes, id, j) == Some(x);
      } else {
        assert Hop(lanes, id, k) == Some(x);
      }
    }
    if current !in visited {
      SmallerRest(lanes, current, visited);
    }
  }

  lemma HitMeansCycle(lanes: seq<Lane>, id: LaneId, k: nat, visited: set<LaneId>)
    requires AreHops(lanes, id, k, visited)
    requires Hop(lanes, id, k).Some? && Hop(lanes, id, k).value in visited
    ensures !Ends(lanes, id) && !Acyclic(lanes)
  {
    var x := Hop(lanes, id, k).value;
    var j :| 0 <= j < k && Hop(lanes, id, j) == Some(x);
    forall n: nat ensures Hop(lanes, id, n).Some? { RepeatNeverEnds(lanes, id, j, k, n); }
    RepeatIsCycle(lanes, id, j, k);
  }

  /** The walk of the check from one lane: fails exactly when the chain from it never ends. */
  method CheckChain(lanes: seq<Lane>, id: LaneId) returns (ok: bool)
    ensures ok <==> Ends(lanes, id)
    ensures !ok ==> !Acyclic(lanes)
  {
    var visited: set<LaneId> := {};
    var current := id;
    ghost var k: nat := 0;
    var next := NextLane(lanes, current);
    while next.Some?
      invariant Hop(lanes, id, k) == Some(current) && next == NextLane(lanes, current)
      invariant AreHops(lanes, id, k, visited) && current !in visited
      decreases LaneIds(lanes) - visited
    {
      HopsGrow(lanes, id, k, visited, current);
      visited := visited + {current};
      if next.value in visited {
        HitMeansCycle(lanes, id, k + 1, visited);
        return false;
      }
      current := next.value;
      k := k + 1;
      next := NextLane(lanes, current);
    }
    assert Hop(lanes, id, k + 1).None?;
    ok := true;
  }

  /** The cycle check accepts exactly the acyclic graphs and names the first lane whose chain never ends. */
  method CheckFallbacks(lanes: seq<Lane>) returns (cycle: Option<LaneId>)
    ensures cycle == None <==> Acyclic(lanes)
    ensures cycle == None ==> forall id :: Ends(lanes, id)
    ensures cycle.Some? ==>
              exists i :: 0 <= i < |lanes| && lanes[i].id == cycle.value && !Ends(lanes, lanes[i].id)
                          && forall j :: 0 <= j < i ==> Ends(lanes, lanes[j].id)
  {
    for i := 0 to |lanes|
      invariant forall j :: 0 <= j < i ==> Ends(lanes, lanes[j].id)
    {
      var ok := CheckChain(lanes, lanes[i].id);
      if !ok {
        return Some(lanes[i].id);
      }
    }
    forall id ensures Ends(lanes, id) { AllEnd(lanes, id); }
    AllEndMeansAcyclic(lanes);
    cycle := None;
  }

  lemma AllEnd(lanes: seq<Lane>, id: LaneId)
    requires forall j :: 0 <= j < |lanes| ==> Ends(lanes, lanes[j].id)
    ensures Ends(lanes, id)
  {
    if NextLane(lanes, id).Some? {
      NextIsKnown(lanes, id);
    } else {
      assert Hop(lanes, id, 1).None?;
    }
  }

  lemma AllEndMeansAcyclic(lanes: seq<Lane>)
    requires forall id :: Ends(lanes, id)
    ensures Acyclic(lanes)
  {
    forall id, n: nat | n > 0 && Hop(lanes, id, n) == Some(id)
      ensures false
    {
      assert Ends(lanes, id);
      var m :| Hop(lanes, id, m).None?;
      RepeatNeverEnds(lanes, id, 0, n, m);
    }
  }

  // The chain as a list.

  /** The lanes on the way from id, stopping at the end of the chain or at a lane already seen. */
  function ChainFrom(lanes: seq<Lane>, id: LaneId, seen: set<LaneId>): seq<LaneId>
    decreases LaneIds(lanes) - seen
  {
    if id in seen || id !in LaneIds(lanes) then
      []
    else
      assert id in LaneIds(lanes) - seen && LaneIds(lanes) - (seen + {id}) < LaneIds(lanes) - seen by { SmallerRest(lanes, id, seen); }
      [id] + (match NextLane(lanes, id)
              case None => []
              case Some(next) => ChainFrom(lanes, next, seen + {id}))
  }

  lemma SmallerRest(lanes: seq<Lane>, id: LaneId, seen: set<LaneId>)
    requires id !in seen && id in LaneIds(lanes)
    ensures id in LaneIds(lanes) - seen && LaneIds(lanes) - (seen + {id}) < LaneIds(lanes) - seen
  {
    var rest := LaneIds(lanes) - seen;
    assert LaneIds(lanes) - (seen + {id}) == rest - {id};
  }

  function Chain(lanes: seq<Lane>, id: LaneId): seq<LaneId> {
    ChainFrom(lanes, id, {})
  }

  ghost predicate FallbacksKnown(lanes: seq<Lane>) {
    forall i :: 0 <= i < |lanes| && lanes[i].fallback.Some? ==> HasLane(lanes, lanes[i].fallback.value)
  }

  /** The list is what the hops from n on visit, up to the end of the chain. */
  ghost predicate WholeChain(lanes: seq<Lane>, start: LaneId, n: nat, chain: seq<LaneId>) {
    && chain != []
    && (forall k :: 0 <= k < |chain| ==> Hop(lanes, start, n + k) == Some(chain[k]))
    && Hop(lanes, start, n + |chain|) == None
  }

  lemma ChainGrows(lanes: seq<Lane>, start: LaneId, n: nat, id: LaneId, rest: seq<LaneId>)
    requires Hop(lanes, start, n) == Some(id) && WholeChain(lanes, start, n + 1, rest)
    ensures WholeChain(lanes, start, n, [id] + rest)
  {
    var chain := [id] + rest;
    forall k | 0 <= k < |chain|
      ensures Hop(lanes, start, n + k) == Some(chain[k])
    {
      if k > 0 {
        assert Hop(lanes, start, n + 1 + (k - 1)) == Some(rest[k - 1]);
      }
    }
    assert n + |chain| == n + 1 + |rest|;
  }

  /** In an acyclic graph the list is the whole chain: element k is k hops away, and the last lane has no fallback. */
  lemma ChainIsTheHops(lanes: seq<Lane>, id: LaneId)
    requires Acyclic(lanes) && FallbacksKnown(lanes) && HasLane(lanes, id)
    ensures WholeChain(lanes, id, 0, Chain(lanes, id))
  {
    ChainFromIsTheHops(lanes, id, id, 0, {});
  }

  lemma {:induction false} ChainFromIsTheHops(lanes: seq<Lane>, start: LaneId, id: LaneId, n: nat, seen: set<LaneId>)
    requires Acyclic(lanes) && FallbacksKnown(lanes) && HasLane(lanes, id)
    requires Hop(lanes, start, n) == Some(id)
    requires AreHops(lanes, start, n, seen)
    ensures WholeChain(lanes, start, n, ChainFrom(lanes, id, seen))
    decreases LaneIds(lanes) - seen
  {
    NeverBefore(lanes, start, id, n, seen);
    if NextLane(lanes, id).Some? {
      var next := NextLane(lanes, id).value;
      NextHasLane(lanes, id);
      HopsGrow(lanes, start, n, seen, id);
      ChainFromIsTheHops(lanes, start, next, n + 1, seen + {id});
      ChainGrows(lanes, start, n, id, ChainFrom(lanes, next, seen + {id}));
    } else {
      assert Hop(lanes, start, n + 1) == None;
    }
  }

  lemma NeverBefore(lanes: seq<Lane>, start: LaneId, id: LaneId, n: nat, seen: set<LaneId>)
    requires Acyclic(lanes) && HasLane(lanes, id)
    requires Hop(lanes, start, n) == Some(id) && AreHops(lanes, start, n, seen)
    ensures id !in seen && id in LaneIds(lanes)
    ensures ChainFrom(lanes, id, seen) ==
            if NextLane(lanes, id).None? then [id] else [id] + ChainFrom(lanes, NextLane(lanes, id).value, seen + {id})
    ensures LaneIds(lanes) - (seen + {id}) < LaneIds(lanes) - seen
  {
    LaneIsKnown(lanes, id);
    if id in seen {
      HitMeansCycle(lanes, start, n, seen);
      assert false;
    }
    SmallerRest(lanes, id, seen);
  }

  lemma LaneIsKnown(lanes: seq<Lane>, id: LaneId)
    requires HasLane(lanes, id)
    ensures id in LaneIds(lanes)
  {
  }

  lemma NextHasLane(lanes: seq<Lane>, id: LaneId)
    requires FallbacksKnown(lanes) && NextLane(lanes, id).Some?
    ensures HasLane(lanes, NextLane(lanes, id).value)
  {
    var lane := FindLane(lanes, id).value;
    var i :| 0 <= i < |lanes| && lanes[i] == lane;
  }

  /** Acyclic and all-chains-end are the same property. */
  lemma AcyclicMeansAllEnd(lanes: seq<Lane>, id: LaneId)
    requires Acyclic(lanes) && FallbacksKnown(lanes)
    ensures Ends(lanes, id)
  {
    if HasLane(lanes, id) {
      ChainIsTheHops(lanes, id);
    } else {
      assert Hop(lanes, id, 1) == None;
    }
  }
}
