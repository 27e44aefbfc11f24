/** What an accepted graph guarantees to whoever walks along its edges. */
module Execution {
  import opened Outcomes
  import opened Walks
  import opened Graphs
  import opened Validator
  import opened WellFormedness

  ghost predicate EndpointsDeclared(nodes: seq<NodeDict>, edges: seq<EdgeDict>) {
    forall e :: e in edges ==> e.source in Declared(nodes) && e.target in Declared(nodes)
  }

  ghost function TriggerIds(registered: set<string>, nodes: seq<NodeDict>): set<Id> {
    set n | n in nodes && TriggerNode(registered, n) :: n.id
  }

  // ---- cycles ----

  lemma DeclaredIsReached(nodes: seq<NodeDict>, edges: seq<EdgeDict>, x: Id)
    requires x in Declared(nodes)
    ensures ReachedFrom(ArcsOf(edges), Declared(nodes), x)
  {
    ReachesSelf(ArcsOf(edges), x);
  }

  /** With declared endpoints no cycle escapes the search, wherever it lies. */
  lemma EveryCycleIsFound(nodes: seq<NodeDict>, edges: seq<EdgeDict>)
    requires EndpointsDeclared(nodes, edges)
    ensures GraphHasCycle(nodes, edges) <==> exists x :: OnCycle(ArcsOf(edges), x)
  {
    if x :| OnCycle(ArcsOf(edges), x) {
      var p :| Joins(ArcsOf(edges), p, x, x) && |p| > 1;
      assert (p[0], p[1]) in ArcsOf(edges);
      DeclaredIsReached(nodes, edges, x);
    }
  }

  ghost predicate EndpointsIn(edges: seq<EdgeDict>, permitted: set<Id>) {
    forall e :: e in edges ==> e.source in permitted && e.target in permitted
  }

  /** Whatever edges are drawn between permitted ids, a cycle among them is reported if there is one. */
  ghost predicate CyclesAreFound(nodes: seq<NodeDict>, permitted: set<Id>) {
    forall edges :: EndpointsIn(edges, permitted) ==>
      (GraphHasCycle(nodes, edges) <==> exists x :: OnCycle(ArcsOf(edges), x))
  }

  lemma LoopCycle(a: Id, x: Id)
    requires OnCycle({(a, a)}, x)
    ensures x == a
  {
    var p :| Joins({(a, a)}, p, x, x) && |p| > 1;
    assert (p[0], p[1]) in {(a, a)};
  }

  lemma LoopReached(a: Id, r: Id)
    requires Reaches({(a, a)}, r, a)
    ensures r == a
  {
    if r != a {
      LeavesByArc({(a, a)}, r, a);
    }
  }

  /** An edge from an undeclared id to itself is a cycle that is not reported. */
  lemma UndeclaredLoop(nodes: seq<NodeDict>, a: Id)
    requires a !in Declared(nodes)
    ensures OnCycle(ArcsOf([PlainEdge(a, a)]), a) && !GraphHasCycle(nodes, [PlainEdge(a, a)])
  {
    assert PlainEdge(a, a) in [PlainEdge(a, a)];
    assert ArcsOf([PlainEdge(a, a)]) == {(a, a)};
    assert Joins({(a, a)}, [a, a], a, a);
    if GraphHasCycle(nodes, [PlainEdge(a, a)]) {
      var x :| ReachedFrom({(a, a)}, Declared(nodes), x) && OnCycle({(a, a)}, x);
      LoopCycle(a, x);
      var r :| r in Declared(nodes) && Reaches({(a, a)}, r, x);
      LoopReached(a, r);
    }
  }

  /** The search finds every cycle among the permitted ids exactly if all of them are declared. */
  lemma CyclesAreFoundIff(nodes: seq<NodeDict>, permitted: set<Id>)
    ensures CyclesAreFound(nodes, permitted) <==> permitted <= Declared(nodes)
  {
    if permitted <= Declared(nodes) {
      forall edges | EndpointsIn(edges, permitted)
        ensures GraphHasCycle(nodes, edges) <==> exists x :: OnCycle(ArcsOf(edges), x)
      {
        EveryCycleIsFound(nodes, edges);
      }
    } else {
      var a :| a in permitted && a !in Declared(nodes);
      UndeclaredLoop(nodes, a);
      assert EndpointsIn([PlainEdge(a, a)], permitted);
    }
  }

  // ---- reachability from triggers ----

  /** Every declared id without a trigger has an edge coming in from something that declared ids lead to. */
  ghost predicate FedFromWithin(registered: set<string>, nodes: seq<NodeDict>, edges: seq<EdgeDict>) {
    forall v :: v in Declared(nodes) && v !in TriggerIds(registered, nodes) ==>
      exists u :: (u, v) in ArcsOf(edges) && ReachedFrom(ArcsOf(edges), Declared(nodes), u)
  }

  ghost predicate AllTriggered(registered: set<string>, nodes: seq<NodeDict>, edges: seq<EdgeDict>) {
    forall v :: v in Declared(nodes) ==> ReachedFrom(ArcsOf(edges), TriggerIds(registered, nodes), v)
  }

  /** An id reached from a root is a root, or is entered from another id reached from a root. */
  lemma Predecessor(arcs: Arcs, roots: set<Id>, v: Id) returns (u: Id)
    requires ReachedFrom(arcs, roots, v) && v !in roots
    ensures (u, v) in arcs && ReachedFrom(arcs, roots, u)
  {
    var r :| r in roots && Reaches(arcs, r, v);
    var p :| Joins(arcs, p, r, v);
    u := p[|p| - 2];
    ReachesAlong(arcs, p, 0, |p| - 2);
  }

  /** Walking backwards from v must end at a trigger: it cannot repeat an id and it cannot get stuck elsewhere. */
  lemma {:induction false} BackToTrigger(registered: set<string>, nodes: seq<NodeDict>, edges: seq<EdgeDict>,
                                         p: seq<Id>, v: Id,
                                         universe: set<Id>)
    requires !GraphHasCycle(nodes, edges) && FedFromWithin(registered, nodes, edges)
    requires |p| > 0 && Joins(ArcsOf(edges), p, p[0], v) && ReachedFrom(ArcsOf(edges), Declared(nodes), p[0])
    requires universe == Declared(nodes) + set e | e in edges :: e.target
    requires forall x :: x in p ==> x in universe
    ensures ReachedFrom(ArcsOf(edges), TriggerIds(registered, nodes), v)
    decreases |universe| - |p|
  {
    var arcs := ArcsOf(edges);
    var x := p[0];
    if x in TriggerIds(registered, nodes) {
      assert Reaches(arcs, x, v);
    } else {
      var u;
      if x in Declared(nodes) {
        u :| (u, x) in arcs && ReachedFrom(arcs, Declared(nodes), u);
      } else {
        u := Predecessor(arcs, Declared(nodes), x);
      }
      var q := [u] + p;
      assert Walk(arcs, q);
      assert u in universe by {
        if u !in Declared(nodes) {
          var w := Predecessor(arcs, Declared(nodes), u);
        }
      }
      AcyclicWalkIsDistinct(arcs, Declared(nodes), q);
      DistinctFits(q, universe);
      BackToTrigger(registered, nodes, edges, q, v, universe);
    }
  }

  /** In an accepted graph all declared ids can be triggered exactly if each non-trigger id is fed from within. */
  lemma AllTriggeredIff(registered: set<string>, nodes: seq<NodeDict>, edges: seq<EdgeDict>)
    requires WellFormed(registered, nodes, edges)
    ensures AllTriggered(registered, nodes, edges) <==> FedFromWithin(registered, nodes, edges)
  {
    var arcs := ArcsOf(edges);
    if FedFromWithin(registered, nodes, edges) {
      forall v | v in Declared(nodes)
        ensures ReachedFrom(arcs, TriggerIds(registered, nodes), v)
      {
        DeclaredIsReached(nodes, edges, v);
        BackToTrigger(registered, nodes, edges, [v], v, Declared(nodes) + set e | e in edges :: e.target);
      }
    }
    if AllTriggered(registered, nodes, edges) {
      forall v | v in Declared(nodes) && v !in TriggerIds(registered, nodes)
        ensures exists u :: (u, v) in arcs && ReachedFrom(arcs, Declared(nodes), u)
      {
        var u := Predecessor(arcs, TriggerIds(registered, nodes), v);
        var t :| t in TriggerIds(registered, nodes) && Reaches(arcs, t, u);
        assert t in Declared(nodes);
      }
    }
  }

  /** With declared endpoints the orphan check and the cycle check together make every declared node reachable. */
  lemma AcceptedGraphIsTriggered(registered: set<string>, nodes: seq<NodeDict>, edges: seq<EdgeDict>)
    requires WellFormed(registered, nodes, edges) && EndpointsDeclared(nodes, edges)
    ensures AllTriggered(registered, nodes, edges)
  {
    forall v | v in Declared(nodes) && v !in TriggerIds(registered, nodes)
      ensures exists u :: (u, v) in ArcsOf(edges) && ReachedFrom(ArcsOf(edges), Declared(nodes), u)
    {
      var n :| n in nodes && n.id == v;
      var e :| e in edges && e.target == v;
      DeclaredIsReached(nodes, edges, e.source);
      assert (e.source, v) in ArcsOf(edges);
    }
    AllTriggeredIff(registered, nodes, edges);
  }

  function PlainNode(id: Id, t: string): NodeDict {
    NodeDict(id, Some(t), Some(id), Some(Position(0.0, 0.0)), None)
  }

  function PlainEdge(source: Id, target: Id): EdgeDict {
    EdgeDict(Some(source + target), source, target, None, None)
  }

  const SAMPLE_TYPES := {"trigger.manual", "action.http"}
  const SAMPLE_NODES := [PlainNode("t", "trigger.manual"), PlainNode("a", "action.http")]
  const SAMPLE_EDGES := [PlainEdge("x", "y"), PlainEdge("y", "x"), PlainEdge("y", "a")]
  const SAMPLE_ARCS: Arcs := {("x", "y"), ("y", "x"), ("y", "a")}

  lemma SampleReach(x: Id)
    requires ReachedFrom(SAMPLE_ARCS, {"t", "a"}, x)
    ensures !OnCycle(SAMPLE_ARCS, x)
  {
    var order := ["a", "t"];
    assert SuccessorsFirst(SAMPLE_ARCS, order);
    var r :| r in {"t", "a"} && Reaches(SAMPLE_ARCS, r, x);
    assert order[0] == "a" && order[1] == "t";
    OrderClosed(SAMPLE_ARCS, order, r, x);
    NoCycleInOrder(SAMPLE_ARCS, order, x);
  }

  lemma SampleShape()
    ensures ArcsOf(SAMPLE_EDGES) == SAMPLE_ARCS && Declared(SAMPLE_NODES) == {"t", "a"}
    ensures TriggerIds(SAMPLE_TYPES, SAMPLE_NODES) == {"t"}
    ensures TriggerNode(SAMPLE_TYPES, SAMPLE_NODES[0]) && Entered(SAMPLE_EDGES, "a")
  {
    var t, a := SAMPLE_NODES[0], SAMPLE_NODES[1];
    assert t in SAMPLE_NODES && a in SAMPLE_NODES;
    assert forall n :: n in SAMPLE_NODES ==> n == t || n == a;
    assert "trigger." <= "trigger.manual";
    assert "trigger."[0] != "action.http"[0];
    var xy, yx, ya := SAMPLE_EDGES[0], SAMPLE_EDGES[1], SAMPLE_EDGES[2];
    assert xy in SAMPLE_EDGES && yx in SAMPLE_EDGES && ya in SAMPLE_EDGES;
    assert forall e :: e in SAMPLE_EDGES ==> e == xy || e == yx || e == ya;
  }

  lemma SampleAccepted()
    ensures WellFormed(SAMPLE_TYPES, SAMPLE_NODES, SAMPLE_EDGES)
  {
    SampleShape();
    var t, a := SAMPLE_NODES[0], SAMPLE_NODES[1];
    assert t in SAMPLE_NODES;
    assert forall n :: n in SAMPLE_NODES ==> n == t || n == a;
    assert t.nodeType.value[0] == 't' && a.nodeType.value[7] == 'h' && "action.condition"[7] == 'c';
    forall x | ReachedFrom(SAMPLE_ARCS, {"t", "a"}, x)
      ensures !OnCycle(SAMPLE_ARCS, x)
    {
      SampleReach(x);
    }
  }

  lemma SampleCycle()
    ensures OnCycle(SAMPLE_ARCS, "x")
  {
    assert Joins(SAMPLE_ARCS, ["x", "y", "x"], "x", "x");
  }

  lemma SampleUntriggered()
    ensures !ReachedFrom(SAMPLE_ARCS, {"t"}, "a")
  {
    if Reaches(SAMPLE_ARCS, "t", "a") {
      LeavesByArc(SAMPLE_ARCS, "t", "a");
    }
  }

  /**
   Without declared endpoints both promises fail: the sample graph is accepted although its edges contain a cycle,
   through ids that no node declares, and although its action node cannot be triggered.
   */
  lemma UndeclaredEndpointsEscape()
    ensures WellFormed(SAMPLE_TYPES, SAMPLE_NODES, SAMPLE_EDGES)
    ensures exists x :: OnCycle(ArcsOf(SAMPLE_EDGES), x)
    ensures !AllTriggered(SAMPLE_TYPES, SAMPLE_NODES, SAMPLE_EDGES)
  {
    SampleAccepted();
    SampleShape();
    SampleCycle();
    if AllTriggered(SAMPLE_TYPES, SAMPLE_NODES, SAMPLE_EDGES) {
      assert "a" in Declared(SAMPLE_NODES);
      SampleUntriggered();
    }
  }

  // ---- following the branches ----

  /** `ConditionNode.execute`: the value found in the input (None when the lookup fails) against the expected one. */
  function Execute(actual: Option<Json>, expected: Option<Json>): (r: (bool, string))
    ensures r.1 in {"true", "false"} && (r.1 == "true" <==> actual == expected)
  {
    var result := actual == expected;
    (result, if result then "true" else "false")
  }

  ghost predicate IsCondition(nodes: seq<NodeDict>, x: Id) {
    exists n :: n in nodes && n.id == x && n.nodeType == Some("action.condition")
  }

  ghost predicate StepAllowed(nodes: seq<NodeDict>, edges: seq<EdgeDict>, branch: Id -> string, x: Id, y: Id) {
    exists e ::
      e in edges && e.source == x && e.target == y && (IsCondition(nodes, x) ==> e.sourceHandle == Some(branch(x)))
  }

  /** A walk that leaves each condition node along the branch its execution chose. */
  ghost predicate Follows(nodes: seq<NodeDict>, edges: seq<EdgeDict>, branch: Id -> string, p: seq<Id>) {
    |p| > 0 && forall i, j :: 0 <= i && j == i + 1 && j < |p| ==> StepAllowed(nodes, edges, branch, p[i], p[j])
  }

  ghost predicate IsBranchChoice(branch: Id -> string) {
    forall x :: exists actual, expected :: branch(x) == Execute(actual, expected).1
  }

  /** Every walk in an accepted graph visits each id at most once, so it is no longer than the list of nodes. */
  lemma WalksAreShort(registered: set<string>, nodes: seq<NodeDict>, edges: seq<EdgeDict>, p: seq<Id>)
    requires WellFormed(registered, nodes, edges) && EndpointsDeclared(nodes, edges)
    requires Walk(ArcsOf(edges), p) && p[0] in Declared(nodes)
    ensures Distinct(p) && |p| <= |Declared(nodes)|
  {
    DeclaredIsReached(nodes, edges, p[0]);
    AcyclicWalkIsDistinct(ArcsOf(edges), Declared(nodes), p);
    forall x | x in p
      ensures x in Declared(nodes)
    {
      var i :| 0 <= i < |p| && p[i] == x;
      if i > 0 {
        assert (p[i - 1], p[i]) in ArcsOf(edges);
      }
    }
    DistinctFits(p, Declared(nodes));
  }

  lemma FollowingIsShort(registered: set<string>, nodes: seq<NodeDict>, edges: seq<EdgeDict>, branch: Id -> string,
                         p: seq<Id>)
    requires WellFormed(registered, nodes, edges) && EndpointsDeclared(nodes, edges)
    requires Follows(nodes, edges, branch, p) && p[0] in Declared(nodes)
    ensures Distinct(p) && |p| <= |Declared(nodes)|
  {
    assert Walk(ArcsOf(edges), p);
    WalksAreShort(registered, nodes, edges, p);
  }

  /** An accepted graph never strands a condition node: whichever branch it takes, there is an edge for it. */
  lemma ConditionNeverStuck(registered: set<string>, nodes: seq<NodeDict>, edges: seq<EdgeDict>,
                            branch: Id -> string, x: Id)
    requires WellFormed(registered, nodes, edges) && IsBranchChoice(branch)
    requires IsCondition(nodes, x)
    ensures exists e :: e in edges && e.source == x && e.sourceHandle == Some(branch(x))
    ensures exists y :: StepAllowed(nodes, edges, branch, x, y)
  {
    var n :| n in nodes && n.id == x && ConditionNode(n);
    assert LeavesBy(edges, x, branch(x));
    var e :| e in edges && e.source == x && e.sourceHandle == Some(branch(x));
    assert StepAllowed(nodes, edges, branch, x, e.target);
  }

  lemma FollowsFurther(nodes: seq<NodeDict>, edges: seq<EdgeDict>, branch: Id -> string, p: seq<Id>, y: Id)
    requires Follows(nodes, edges, branch, p) && StepAllowed(nodes, edges, branch, p[|p| - 1], y)
    ensures Follows(nodes, edges, branch, p + [y])
  {
  }

  lemma StuckIsSink(registered: set<string>, nodes: seq<NodeDict>, edges: seq<EdgeDict>, branch: Id -> string, x: Id)
    requires WellFormed(registered, nodes, edges) && IsBranchChoice(branch)
    requires forall y :: !StepAllowed(nodes, edges, branch, x, y)
    ensures !IsCondition(nodes, x) && forall e :: e in edges ==> e.source != x
  {
    if IsCondition(nodes, x) {
      ConditionNeverStuck(registered, nodes, edges, branch, x);
    }
    forall e | e in edges
      ensures e.source != x
    {
      assert !StepAllowed(nodes, edges, branch, x, e.target);
    }
  }

  /** Following branches from any point always comes to an end, at an id that no edge leaves. */
  lemma {:induction false} ExecutionCompletes(registered: set<string>, nodes: seq<NodeDict>, edges: seq<EdgeDict>,
                                              branch: Id -> string, p: seq<Id>) returns (q: seq<Id>)
    requires WellFormed(registered, nodes, edges) && EndpointsDeclared(nodes, edges) && IsBranchChoice(branch)
    requires Follows(nodes, edges, branch, p) && p[0] in Declared(nodes)
    ensures p <= q && Follows(nodes, edges, branch, q) && Distinct(q) && |q| <= |Declared(nodes)|
    ensures !IsCondition(nodes, q[|q| - 1]) && forall e :: e in edges ==> e.source != q[|q| - 1]
    decreases |Declared(nodes)| - |p|
  {
    FollowingIsShort(registered, nodes, edges, branch, p);
    var x := p[|p| - 1];
    if y :| StepAllowed(nodes, edges, branch, x, y) {
      var longer := p + [y];
      FollowsFurther(nodes, edges, branch, p, y);
      FollowingIsShort(registered, nodes, edges, branch, longer);
      q := ExecutionCompletes(registered, nodes, edges, branch, longer);
    } else {
      StuckIsSink(registered, nodes, edges, branch, x);
      q := p;
    }
  }
}
