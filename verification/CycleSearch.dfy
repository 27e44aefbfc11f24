/**
 Depth-first cycle search with a shared visited set and an in-stack set.

 As soon as a cycle has been reported the search unwinds without taking ids off the in-stack set, so the set holds
 stale ids from then on. The invariant therefore speaks of the stack only while nothing has been reported.
 */
module CycleSearch {
  import opened Walks
  import opened Issues

  function Neighbors(adjacency: map<Id, seq<Id>>, u: Id): seq<Id> {
    if u in adjacency then adjacency[u] else []
  }

  function ArcsFrom(adjacency: map<Id, seq<Id>>): Arcs {
    set u, v | u in adjacency && v in adjacency[u] :: (u, v)
  }

  function Universe(adjacency: map<Id, seq<Id>>, roots: set<Id>): set<Id> {
    roots + set u, v | u in adjacency && v in adjacency[u] :: v
  }

  /** Either nothing, or one report that names an id on a cycle that the roots reach. */
  ghost predicate CycleReport(arcs: Arcs, roots: set<Id>, reported: bool, report: seq<Issue>) {
    if reported then
      |report| == 1 && report[0].Cycle? && OnCycle(arcs, report[0].node) && ReachedFrom(arcs, roots, report[0].node)
    else report == []
  }

  lemma PushedStack(arcs: Arcs, roots: set<Id>, stack: seq<Id>, u: Id)
    requires if stack == [] then u in roots
             else Walk(arcs, stack) && stack[0] in roots && (stack[|stack| - 1], u) in arcs
    ensures Walk(arcs, stack + [u]) && (stack + [u])[0] in roots && ReachedFrom(arcs, roots, u)
  {
    var p := stack + [u];
    assert Joins(arcs, p, p[0], u);
    assert Reaches(arcs, p[0], u);
  }

  lemma PoppedStack(arcs: Arcs, stack: seq<Id>, below: seq<Id>, u: Id)
    requires Walk(arcs, stack) && Distinct(stack) && stack == below + [u]
    ensures below != [] ==> Walk(arcs, below) && below[0] == stack[0]
    ensures Distinct(below) && u !in below
    ensures forall x :: x in stack <==> x in below || x == u
  {
    assert forall i :: 0 <= i < |below| ==> below[i] == stack[i];
    assert stack[|below|] == u;
  }

  lemma FinishedGrows(arcs: Arcs, finished: seq<Id>, u: Id)
    requires SuccessorsFirst(arcs, finished) && Distinct(finished) && u !in finished
    requires forall v :: (u, v) in arcs ==> v in finished
    ensures SuccessorsFirst(arcs, finished + [u]) && Distinct(finished + [u])
  {
    var longer := finished + [u];
    forall i, v | 0 <= i < |longer| && (longer[i], v) in arcs
      ensures v in longer[..i]
    {
      assert longer[..i] == finished[..i];
    }
  }

  lemma BackArcClosesCycle(arcs: Arcs, stack: seq<Id>, v: Id)
    requires Walk(arcs, stack) && v in stack && (stack[|stack| - 1], v) in arcs
    ensures OnCycle(arcs, stack[|stack| - 1])
  {
    var u := stack[|stack| - 1];
    var i :| 0 <= i < |stack| && stack[i] == v;
    var loop := [u] + stack[i..];
    assert Joins(arcs, loop, u, u);
  }

  lemma FinishedIsReached(arcs: Arcs, roots: set<Id>, finished: seq<Id>)
    requires SuccessorsFirst(arcs, finished) && Distinct(finished)
    requires forall r :: r in roots ==> r in finished
    ensures forall x :: ReachedFrom(arcs, roots, x) ==> x in finished
    ensures !CycleReachable(arcs, roots)
  {
    forall x | ReachedFrom(arcs, roots, x)
      ensures x in finished && !OnCycle(arcs, x)
    {
      var r :| r in roots && Reaches(arcs, r, x);
      OrderClosed(arcs, finished, r, x);
      NoCycleInOrder(arcs, finished, x);
    }
  }

  class Search {
    const adjacency: map<Id, seq<Id>>
    ghost const roots: set<Id>
    ghost const earlier: seq<Issue>
    var errors: seq<Issue>
    var visited: set<Id>
    var inStack: set<Id>
    var cycleReported: bool
    // The ids being explored, outermost first, and the ids whose exploration ended, in that order.
    ghost var stack: seq<Id>
    ghost var finished: seq<Id>

    ghost function ArcSet(): Arcs {
      ArcsFrom(adjacency)
    }

    ghost predicate Valid()
      reads this
    {
      && visited <= Universe(adjacency, roots)
      && earlier <= errors
      && CycleReport(ArcSet(), roots, cycleReported, errors[|earlier|..])
      && (!cycleReported ==> Exploring())
    }

    /** While no cycle is known: the stack is a walk from a root, and what is finished is closed under arcs. */
    ghost predicate Exploring()
      reads this
    {
      && (forall x :: x in inStack <==> x in stack)
      && (forall x :: x in visited <==> x in stack || x in finished)
      && (forall x :: x in stack ==> x !in finished)
      && Distinct(stack) && Distinct(finished)
      && SuccessorsFirst(ArcSet(), finished)
      && (stack != [] ==> Walk(ArcSet(), stack) && stack[0] in roots)
      && (forall x :: x in visited ==> ReachedFrom(ArcSet(), roots, x))
    }

    /** The id may be explored next: it is a root, or a neighbour of the id on top of the stack. */
    ghost predicate MayEnter(u: Id)
      reads this
    {
      u in Universe(adjacency, roots)
      && (!cycleReported ==> if stack == [] then u in roots else (stack[|stack| - 1], u) in ArcSet())
    }

    constructor (adjacency: map<Id, seq<Id>>, ghost roots: set<Id>, errors: seq<Issue>)
      ensures Valid() && !cycleReported && stack == [] && finished == [] && visited == {}
      ensures this.adjacency == adjacency && this.roots == roots && this.earlier == errors && this.errors == errors
    {
      this.adjacency := adjacency;
      this.roots := roots;
      this.earlier := errors;
      this.errors := errors;
      visited, inStack, cycleReported := {}, {}, false;
      stack, finished := [], [];
    }

    method Enter(nodeId: Id)
      requires Valid() && nodeId !in visited && MayEnter(nodeId)
      modifies this
      ensures Valid() && visited == old(visited) + {nodeId}
      ensures cycleReported == old(cycleReported) && errors == old(errors)
      ensures stack == old(stack) + [nodeId] && finished == old(finished)
    {
      if !cycleReported {
        PushedStack(ArcSet(), roots, stack, nodeId);
      }
      visited := visited + {nodeId};
      inStack := inStack + {nodeId};
      stack := stack + [nodeId];
    }

    method Report(nodeId: Id, neighbor: Id)
      requires Valid() && (nodeId, neighbor) in ArcSet() && neighbor in inStack
      requires !cycleReported ==> stack != [] && stack[|stack| - 1] == nodeId
      modifies this`errors, this`cycleReported
      ensures Valid() && cycleReported
      ensures errors == if old(cycleReported) then old(errors) else old(errors) + [Cycle(nodeId)]
    {
      if !cycleReported {
        BackArcClosesCycle(ArcSet(), stack, neighbor);
        errors := errors + [Cycle(nodeId)];
        cycleReported := true;
      }
    }

    method Leave(nodeId: Id, ghost below: seq<Id>)
      requires Valid() && nodeId in visited
      requires !cycleReported ==> stack == below + [nodeId]
      requires !cycleReported ==> forall v :: (nodeId, v) in ArcSet() ==> v in finished
      modifies this
      ensures Valid() && visited == old(visited)
      ensures cycleReported == old(cycleReported) && errors == old(errors)
      ensures stack == below && finished == old(finished) + [nodeId]
    {
      if !cycleReported {
        PoppedStack(ArcSet(), stack, below, nodeId);
        FinishedGrows(ArcSet(), finished, nodeId);
      }
      inStack := inStack - {nodeId};
      stack := below;
      finished := finished + [nodeId];
    }

    method Dfs(nodeId: Id) returns (found: bool)
      requires Valid() && nodeId !in visited && MayEnter(nodeId)
      modifies this
      ensures Valid() && old(visited) <= visited && nodeId in visited
      ensures found ==> cycleReported
      ensures old(cycleReported) ==> cycleReported && errors == old(errors)
      ensures !old(cycleReported) && !found ==> !cycleReported
      ensures !cycleReported ==> stack == old(stack) && old(finished) <= finished && nodeId in finished
      decreases Universe(adjacency, roots) - visited
    {
      Enter(nodeId);
      var neighbors := Neighbors(adjacency, nodeId);
      for i := 0 to |neighbors|
        invariant Valid() && old(visited) + {nodeId} <= visited
        invariant old(cycleReported) ==> cycleReported && errors == old(errors)
        invariant !old(cycleReported) ==> !cycleReported
        invariant !cycleReported ==> stack == old(stack) + [nodeId] && old(finished) <= finished
        invariant !cycleReported ==> forall j :: 0 <= j < i ==> neighbors[j] in finished
      {
        var neighbor := neighbors[i];
        assert (nodeId, neighbor) in ArcSet();
        if neighbor !in visited {
          var deeper := Dfs(neighbor);
          if deeper {
            return true;
          }
        } else if neighbor in inStack {
          Report(nodeId, neighbor);
          return true;
        }
      }
      Leave(nodeId, old(stack));
      return false;
    }

    /**
     Starts an exploration at every root that is still unvisited. A report is made exactly when the roots reach a cycle;
     otherwise the finishing order lists exactly the ids the roots reach, each after all its successors.
     */
    method Explore(ids: seq<Id>)
      requires Valid() && !cycleReported && stack == [] && finished == []
      requires forall x :: x in roots <==> x in ids
      modifies this
      ensures Valid() && cycleReported == CycleReachable(ArcSet(), roots)
      ensures !cycleReported ==> SuccessorsFirst(ArcSet(), finished) && Distinct(finished)
      ensures !cycleReported ==> forall x :: x in finished <==> ReachedFrom(ArcSet(), roots, x)
    {
      for i := 0 to |ids|
        invariant Valid()
        invariant !cycleReported ==> stack == [] && forall j :: 0 <= j < i ==> ids[j] in finished
      {
        if ids[i] !in visited {
          var _ := Dfs(ids[i]);
        }
      }
      if cycleReported {
        var x := errors[|earlier|..][0].node;
        assert ReachedFrom(ArcSet(), roots, x) && OnCycle(ArcSet(), x);
      } else {
        FinishedIsReached(ArcSet(), roots, finished);
      }
    }
  }
}
