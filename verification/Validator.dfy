/** The workflow graph validator, and the declarative meaning of what it reports. */
module Validator {
  import opened Outcomes
  import opened Walks
  import opened Graphs
  import opened Issues
  import CycleSearch

  datatype MissingKey = MissingKey(key: string)

  const CONDITION := "action.condition"

  predicate StartsWith(s: string, prefix: string) {
    prefix <= s
  }

  function TriggerTypes(registered: set<string>): set<string> {
    set t | t in registered && StartsWith(t, "trigger.")
  }

  predicate IsTrigger(registered: set<string>, n: NodeDict) {
    TypeOf(n) in TriggerTypes(registered)
  }

  ghost predicate HasHandle(edges: seq<EdgeDict>, source: Id, handle: string) {
    exists e :: e in edges && e.source == source && HandleOf(e) == handle
  }

  ghost predicate HasIncoming(edges: seq<EdgeDict>, target: Id) {
    exists e :: e in edges && e.target == target
  }

  // What each check has to say about one node.

  function UnknownOf(registered: set<string>, n: NodeDict): seq<Issue> {
    if TypeOf(n) !in registered then [UnknownType(n.id, TypeOf(n))] else []
  }

  ghost function OrphanOf(registered: set<string>, edges: seq<EdgeDict>, n: NodeDict): seq<Issue> {
    if !IsTrigger(registered, n) && !HasIncoming(edges, n.id) then [Orphaned(n.id)] else []
  }

  ghost function BranchOf(edges: seq<EdgeDict>, n: NodeDict, handle: string, e: Issue): seq<Issue> {
    if HasHandle(edges, n.id, handle) then [] else [e]
  }

  ghost function BranchesOf(edges: seq<EdgeDict>, n: NodeDict): seq<Issue> {
    if n.nodeType != Some(CONDITION) then []
    else BranchOf(edges, n, "true", MissingTrue(n.id)) + BranchOf(edges, n, "false", MissingFalse(n.id))
  }

  ghost function TypeCheck(registered: set<string>): NodeDict -> seq<Issue> {
    n => UnknownOf(registered, n)
  }

  ghost function OrphanCheck(registered: set<string>, edges: seq<EdgeDict>): NodeDict -> seq<Issue> {
    n => OrphanOf(registered, edges, n)
  }

  ghost function BranchCheck(edges: seq<EdgeDict>): NodeDict -> seq<Issue> {
    n => BranchesOf(edges, n)
  }

  /** The reports of one check over all nodes, in node order. */
  ghost function Collect(nodes: seq<NodeDict>, check: NodeDict -> seq<Issue>): seq<Issue> {
    if nodes == [] then [] else Collect(nodes[..|nodes| - 1], check) + check(nodes[|nodes| - 1])
  }

  ghost function UnknownIssues(registered: set<string>, nodes: seq<NodeDict>): seq<Issue> {
    Collect(nodes, TypeCheck(registered))
  }

  ghost function OrphanIssues(registered: set<string>, edges: seq<EdgeDict>, nodes: seq<NodeDict>): seq<Issue> {
    Collect(nodes, OrphanCheck(registered, edges))
  }

  ghost function BranchIssues(edges: seq<EdgeDict>, nodes: seq<NodeDict>): seq<Issue> {
    Collect(nodes, BranchCheck(edges))
  }

  ghost function TriggerIssues(registered: set<string>, nodes: seq<NodeDict>): seq<Issue> {
    if exists n :: n in nodes && IsTrigger(registered, n) then [] else [NoTrigger]
  }

  ghost function EmptyIssues(nodes: seq<NodeDict>): seq<Issue> {
    if nodes == [] then [NoNodes] else []
  }

  ghost predicate GraphHasCycle(nodes: seq<NodeDict>, edges: seq<EdgeDict>) {
    CycleReachable(ArcsOf(edges), Declared(nodes))
  }

  /**
   The whole report: each check's section in turn; only the id named by a cycle report is left to the search order.
   */
  ghost predicate IsReport(registered: set<string>, nodes: seq<NodeDict>, edges: seq<EdgeDict>, errors: seq<Issue>) {
    exists cycle ::
      && CycleSearch.CycleReport(ArcsOf(edges), Declared(nodes), GraphHasCycle(nodes, edges), cycle)
      && errors == UnknownIssues(registered, nodes) + TriggerIssues(registered, nodes) + EmptyIssues(nodes) + cycle
                 + OrphanIssues(registered, edges, nodes) + BranchIssues(edges, nodes)
  }

  // ---- the validator ----

  method Adjacency(nodes: seq<NodeDict>, edges: seq<EdgeDict>) returns (adjacency: map<Id, seq<Id>>)
    ensures CycleSearch.ArcsFrom(adjacency) == ArcsOf(edges)
    ensures Declared(nodes) <= adjacency.Keys
  {
    adjacency := map n | n in Declared(nodes) :: [];
    for i := 0 to |edges|
      invariant Declared(nodes) <= adjacency.Keys
      invariant forall u, v :: (u in adjacency && v in adjacency[u]) <==> (u, v) in ArcsOf(edges[..i])
    {
      var e := edges[i];
      assert edges[..i + 1] == edges[..i] + [e];
      adjacency := adjacency[e.source := CycleSearch.Neighbors(adjacency, e.source) + [e.target]];
    }
    assert edges[..|edges|] == edges;
  }

  lemma OneMoreEdge(edges: seq<EdgeDict>, e: EdgeDict)
    ensures forall u, h ::
      HasHandle(edges + [e], u, h) <==> HasHandle(edges, u, h) || (e.source == u && HandleOf(e) == h)
  {
    forall u, h | HasHandle(edges, u, h)
      ensures HasHandle(edges + [e], u, h)
    {
      var d :| d in edges && d.source == u && HandleOf(d) == h;
      assert d in edges + [e];
    }
    assert e in edges + [e];
  }

  method OutgoingHandles(edges: seq<EdgeDict>) returns (handles: map<Id, set<string>>)
    ensures forall u, h :: (u in handles && h in handles[u]) <==> HasHandle(edges, u, h)
  {
    handles := map[];
    for i := 0 to |edges|
      invariant forall u, h :: (u in handles && h in handles[u]) <==> HasHandle(edges[..i], u, h)
    {
      var e := edges[i];
      assert edges[..i + 1] == edges[..i] + [e];
      OneMoreEdge(edges[..i], e);
      handles := handles[e.source := (if e.source in handles then handles[e.source] else {}) + {HandleOf(e)}];
    }
    assert edges[..|edges|] == edges;
  }

  // Each check appends to the errors collected so far.

  method CheckTypes(registered: set<string>, nodes: seq<NodeDict>, earlier: seq<Issue>) returns (errors: seq<Issue>)
    ensures errors == earlier + UnknownIssues(registered, nodes)
  {
    errors := earlier;
    for i := 0 to |nodes|
      invariant errors == earlier + UnknownIssues(registered, nodes[..i])
    {
      assert nodes[..i + 1][..i] == nodes[..i];
      if TypeOf(nodes[i]) !in registered {
        errors := errors + [UnknownType(nodes[i].id, TypeOf(nodes[i]))];
      }
    }
    assert nodes[..|nodes|] == nodes;
  }

  method CheckTriggers(registered: set<string>, nodes: seq<NodeDict>, earlier: seq<Issue>) returns (errors: seq<Issue>)
    ensures errors == earlier + TriggerIssues(registered, nodes) + EmptyIssues(nodes)
  {
    errors := earlier;
    var triggerIds := set n | n in nodes && TypeOf(n) in TriggerTypes(registered) :: n.id;
    if triggerIds == {} {
      assert forall n :: n in nodes && IsTrigger(registered, n) ==> n.id in triggerIds;
      errors := errors + [NoTrigger];
    } else {
      assert exists id :: id in triggerIds;
    }
    if nodes == [] {
      errors := errors + [NoNodes];
    }
  }

  method CheckCycles(nodes: seq<NodeDict>, edges: seq<EdgeDict>, earlier: seq<Issue>)
    returns (errors: seq<Issue>, ghost finished: seq<Id>)
    ensures earlier <= errors
    ensures CycleSearch.CycleReport(ArcsOf(edges), Declared(nodes), GraphHasCycle(nodes, edges), errors[|earlier|..])
    ensures !GraphHasCycle(nodes, edges) ==>
      && Topological(ArcsOf(edges), Reversed(finished))
      && forall x :: x in finished <==> ReachedFrom(ArcsOf(edges), Declared(nodes), x)
  {
    var adjacency := Adjacency(nodes, edges);
    var search := new CycleSearch.Search(adjacency, Declared(nodes), earlier);
    var ids := seq(|nodes|, i requires 0 <= i < |nodes| => nodes[i].id);
    forall x
      ensures x in Declared(nodes) <==> x in ids
    {
      if x in Declared(nodes) {
        var i :| 0 <= i < |nodes| && nodes[i].id == x;
        assert ids[i] == x;
      }
    }
    search.Explore(ids);
    finished := search.finished;
    if !search.cycleReported {
      ReverseIsTopological(ArcsOf(edges), finished);
    }
    return search.errors, finished;
  }

  method CheckOrphans(registered: set<string>, nodes: seq<NodeDict>, edges: seq<EdgeDict>, earlier: seq<Issue>)
    returns (errors: seq<Issue>)
    ensures errors == earlier + OrphanIssues(registered, edges, nodes)
  {
    errors := earlier;
    var withIncoming := set e | e in edges :: e.target;
    for i := 0 to |nodes|
      invariant errors == earlier + OrphanIssues(registered, edges, nodes[..i])
    {
      assert nodes[..i + 1][..i] == nodes[..i];
      assert nodes[i].id in withIncoming <==> HasIncoming(edges, nodes[i].id);
      if TypeOf(nodes[i]) in TriggerTypes(registered) {
        continue;
      }
      if nodes[i].id !in withIncoming {
        errors := errors + [Orphaned(nodes[i].id)];
      }
    }
    assert nodes[..|nodes|] == nodes;
  }

  method CheckBranches(nodes: seq<NodeDict>, edges: seq<EdgeDict>, earlier: seq<Issue>) returns (errors: seq<Issue>)
    ensures errors == earlier + BranchIssues(edges, nodes)
  {
    errors := earlier;
    var handles := OutgoingHandles(edges);
    for i := 0 to |nodes|
      invariant errors == earlier + BranchIssues(edges, nodes[..i])
    {
      assert nodes[..i + 1][..i] == nodes[..i];
      if nodes[i].nodeType == Some(CONDITION) {
        var id := nodes[i].id;
        var out := if id in handles then handles[id] else {};
        if "true" !in out {
          errors := errors + [MissingTrue(id)];
        }
        if "false" !in out {
          errors := errors + [MissingFalse(id)];
        }
      }
    }
    assert nodes[..|nodes|] == nodes;
  }

  method CheckNodes(registered: set<string>, nodes: seq<NodeDict>) returns (errors: seq<Issue>)
    ensures errors == UnknownIssues(registered, nodes) + TriggerIssues(registered, nodes) + EmptyIssues(nodes)
  {
    errors := CheckTypes(registered, nodes, []);
    errors := CheckTriggers(registered, nodes, errors);
  }

  method CheckGraph(registered: set<string>, nodes: seq<NodeDict>, edges: seq<EdgeDict>) returns (errors: seq<Issue>)
    ensures IsReport(registered, nodes, edges, errors)
  {
    errors := CheckNodes(registered, nodes);
    ghost var front := errors;
    ghost var finished;
    errors, finished := CheckCycles(nodes, edges, errors);
    ghost var cycle := errors[|front|..];
    errors := CheckOrphans(registered, nodes, edges, errors);
    errors := CheckBranches(nodes, edges, errors);
    AssembledReport(registered, nodes, edges, front, cycle, errors);
  }

  method ValidateGraph(registered: set<string>, graph: GraphDict) returns (r: Result<seq<Issue>, MissingKey>)
    ensures graph.nodes.None? ==> r == Failure(MissingKey("nodes"))
    ensures graph.nodes.Some? && graph.edges.None? ==> r == Failure(MissingKey("edges"))
    ensures graph.nodes.Some? && graph.edges.Some? ==>
      r.Success? && IsReport(registered, graph.nodes.value, graph.edges.value, r.value)
  {
    if graph.nodes.None? {
      return Failure(MissingKey("nodes"));
    }
    if graph.edges.None? {
      return Failure(MissingKey("edges"));
    }
    var errors := CheckGraph(registered, graph.nodes.value, graph.edges.value);
    return Success(errors);
  }

  lemma AssembledReport(registered: set<string>, nodes: seq<NodeDict>, edges: seq<EdgeDict>, front: seq<Issue>,
                        cycle: seq<Issue>,
                        errors: seq<Issue>)
    requires front == UnknownIssues(registered, nodes) + TriggerIssues(registered, nodes) + EmptyIssues(nodes)
    requires CycleSearch.CycleReport(ArcsOf(edges), Declared(nodes), GraphHasCycle(nodes, edges), cycle)
    requires errors == front + cycle + OrphanIssues(registered, edges, nodes) + BranchIssues(edges, nodes)
    ensures IsReport(registered, nodes, edges, errors)
  {
  }
}
