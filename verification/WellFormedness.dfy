/** What an empty report promises, what a non-empty one says, and what both survive. */
module WellFormedness {
  import opened Outcomes
  import opened Walks
  import opened Graphs
  import opened Issues
  import opened Validator
  import CycleSearch

  // ---- what the fields of nodes and edges say ----

  /** The node's type, or the empty one if it has none. */
  predicate Typed(n: NodeDict, t: string) {
    n.nodeType == Some(t) || (n.nodeType == None && t == "")
  }

  predicate TriggerNode(registered: set<string>, n: NodeDict) {
    n.nodeType.Some? && n.nodeType.value in registered && "trigger." <= n.nodeType.value
  }

  predicate ConditionNode(n: NodeDict) {
    n.nodeType == Some("action.condition")
  }

  ghost predicate Entered(edges: seq<EdgeDict>, id: Id) {
    exists e :: e in edges && e.target == id
  }

  /** An edge leaves the id by the branch. */
  ghost predicate LeavesBy(edges: seq<EdgeDict>, id: Id, branch: string) {
    exists e :: e in edges && e.source == id && e.sourceHandle == Some(branch)
  }

  /** How the validator reads nodes and edges: a handle that is not given is neither of the two branches. */
  lemma Readings(registered: set<string>, edges: seq<EdgeDict>, n: NodeDict)
    ensures forall t :: Typed(n, t) <==> TypeOf(n) == t
    ensures IsTrigger(registered, n) <==> TriggerNode(registered, n)
    ensures n.nodeType == Some(CONDITION) <==> ConditionNode(n)
    ensures HasIncoming(edges, n.id) <==> Entered(edges, n.id)
    ensures forall branch :: branch == "true" || branch == "false" ==>
      (HasHandle(edges, n.id, branch) <==> LeavesBy(edges, n.id, branch))
  {
    forall branch | branch == "true" || branch == "false"
      ensures HasHandle(edges, n.id, branch) <==> LeavesBy(edges, n.id, branch)
    {
      HandleRead(edges, n.id, branch);
    }
  }

  lemma HandleRead(edges: seq<EdgeDict>, id: Id, branch: string)
    requires branch == "true" || branch == "false"
    ensures HasHandle(edges, id, branch) <==> LeavesBy(edges, id, branch)
  {
    assert "output"[0] != branch[0];
    if HasHandle(edges, id, branch) {
      var e :| e in edges && e.source == id && HandleOf(e) == branch;
      assert e.sourceHandle == Some(branch);
    }
    if LeavesBy(edges, id, branch) {
      var e :| e in edges && e.source == id && e.sourceHandle == Some(branch);
      assert HandleOf(e) == branch;
    }
  }

  ghost predicate WellFormed(registered: set<string>, nodes: seq<NodeDict>, edges: seq<EdgeDict>) {
    && (forall n, t :: n in nodes && Typed(n, t) ==> t in registered)
    && (exists n :: n in nodes && TriggerNode(registered, n))
    && nodes != []
    && !GraphHasCycle(nodes, edges)
    && (forall n :: n in nodes && !TriggerNode(registered, n) ==> Entered(edges, n.id))
    && (forall n :: n in nodes && ConditionNode(n) ==> LeavesBy(edges, n.id, "true") && LeavesBy(edges, n.id, "false"))
  }

  predicate IsNodeIssue(e: Issue) {
    e.UnknownType? || e.Orphaned? || e.MissingTrue? || e.MissingFalse?
  }

  /** The node is at fault in the way the report says. */
  ghost predicate Offends(registered: set<string>, edges: seq<EdgeDict>, n: NodeDict, e: Issue) {
    match e
    case UnknownType(id, t) => n.id == id && Typed(n, t) && t !in registered
    case Orphaned(id) => n.id == id && !TriggerNode(registered, n) && !Entered(edges, id)
    case MissingTrue(id) => n.id == id && ConditionNode(n) && !LeavesBy(edges, id, "true")
    case MissingFalse(id) => n.id == id && ConditionNode(n) && !LeavesBy(edges, id, "false")
    case _ => false
  }

  ghost function Offenders(registered: set<string>, nodes: seq<NodeDict>, edges: seq<EdgeDict>, e: Issue): nat {
    if nodes == [] then 0 else
      Offenders(registered, nodes[..|nodes| - 1], edges, e)
      + (if Offends(registered, edges, nodes[|nodes| - 1], e) then 1 else 0)
  }

  lemma {:induction false} OffendersPositive(registered: set<string>, nodes: seq<NodeDict>, edges: seq<EdgeDict>,
                                             e: Issue)
    ensures Offenders(registered, nodes, edges, e) > 0 <==> exists n :: n in nodes && Offends(registered, edges, n, e)
  {
    if nodes != [] {
      var front, last := nodes[..|nodes| - 1], nodes[|nodes| - 1];
      assert nodes == front + [last];
      OffendersPositive(registered, front, edges, e);
      if exists n :: n in nodes && Offends(registered, edges, n, e) {
        var n :| n in nodes && Offends(registered, edges, n, e);
        assert n in front || n == last;
      }
    }
  }

  lemma {:induction false} CollectCounts(registered: set<string>, nodes: seq<NodeDict>, edges: seq<EdgeDict>,
                                         check: NodeDict -> seq<Issue>, e: Issue)
    requires forall n :: multiset(check(n))[e] == if Offends(registered, edges, n, e) then 1 else 0
    ensures multiset(Collect(nodes, check))[e] == Offenders(registered, nodes, edges, e)
  {
    if nodes != [] {
      CollectCounts(registered, nodes[..|nodes| - 1], edges, check, e);
    }
  }

  lemma {:induction false} CollectSkips(nodes: seq<NodeDict>, check: NodeDict -> seq<Issue>, e: Issue)
    requires forall n :: e !in check(n)
    ensures e !in Collect(nodes, check)
  {
    if nodes != [] {
      CollectSkips(nodes[..|nodes| - 1], check, e);
    }
  }

  ghost function Expected(registered: set<string>, nodes: seq<NodeDict>, edges: seq<EdgeDict>, e: Issue,
                          mine: bool): nat
  {
    if mine then Offenders(registered, nodes, edges, e) else 0
  }

  lemma TypeSection(registered: set<string>, nodes: seq<NodeDict>, edges: seq<EdgeDict>, e: Issue)
    ensures multiset(UnknownIssues(registered, nodes))[e] == Expected(registered, nodes, edges, e, e.UnknownType?)
  {
    if e.UnknownType? {
      forall n
        ensures multiset(TypeCheck(registered)(n))[e] == if Offends(registered, edges, n, e) then 1 else 0
      {
        Readings(registered, edges, n);
      }
      CollectCounts(registered, nodes, edges, TypeCheck(registered), e);
    } else {
      CollectSkips(nodes, TypeCheck(registered), e);
    }
  }

  lemma OrphanSection(registered: set<string>, nodes: seq<NodeDict>, edges: seq<EdgeDict>, e: Issue)
    ensures multiset(OrphanIssues(registered, edges, nodes))[e] == Expected(registered, nodes, edges, e, e.Orphaned?)
  {
    if e.Orphaned? {
      forall n
        ensures multiset(OrphanCheck(registered, edges)(n))[e] == if Offends(registered, edges, n, e) then 1 else 0
      {
        Readings(registered, edges, n);
      }
      CollectCounts(registered, nodes, edges, OrphanCheck(registered, edges), e);
    } else {
      CollectSkips(nodes, OrphanCheck(registered, edges), e);
    }
  }

  lemma BranchesOfOne(registered: set<string>, edges: seq<EdgeDict>, n: NodeDict, e: Issue)
    requires e.MissingTrue? || e.MissingFalse?
    ensures multiset(BranchesOf(edges, n))[e] == if Offends(registered, edges, n, e) then 1 else 0
  {
    HandleRead(edges, n.id, if e.MissingTrue? then "true" else "false");
    var t := BranchOf(edges, n, "true", MissingTrue(n.id));
    var f := BranchOf(edges, n, "false", MissingFalse(n.id));
    assert multiset(t + f)[e] == multiset(t)[e] + multiset(f)[e];
  }

  lemma BranchSection(registered: set<string>, nodes: seq<NodeDict>, edges: seq<EdgeDict>, e: Issue)
    ensures multiset(BranchIssues(edges, nodes))[e]
       == Expected(registered, nodes, edges, e, e.MissingTrue? || e.MissingFalse?)
  {
    if e.MissingTrue? || e.MissingFalse? {
      forall n
        ensures multiset(BranchCheck(edges)(n))[e] == if Offends(registered, edges, n, e) then 1 else 0
      {
        BranchesOfOne(registered, edges, n, e);
      }
      CollectCounts(registered, nodes, edges, BranchCheck(edges), e);
    } else {
      CollectSkips(nodes, BranchCheck(edges), e);
    }
  }

  /** The number of times a report without a free choice appears in the list. */
  ghost function Multiplicity(registered: set<string>, nodes: seq<NodeDict>, edges: seq<EdgeDict>, e: Issue): nat
    requires !e.Cycle?
  {
    match e
    case NoTrigger => if exists n :: n in nodes && TriggerNode(registered, n) then 0 else 1
    case NoNodes => if nodes == [] then 1 else 0
    case _ => Offenders(registered, nodes, edges, e)
  }

  lemma WholeGraphSections(registered: set<string>, nodes: seq<NodeDict>, edges: seq<EdgeDict>, e: Issue)
    ensures e.Cycle? ==> multiset(TriggerIssues(registered, nodes))[e] == multiset(EmptyIssues(nodes))[e] == 0
    ensures !e.Cycle? ==>
      multiset(TriggerIssues(registered, nodes))[e] + multiset(EmptyIssues(nodes))[e]
      + Expected(registered, nodes, edges, e, IsNodeIssue(e)) == Multiplicity(registered, nodes, edges, e)
  {
    forall n
      ensures IsTrigger(registered, n) <==> TriggerNode(registered, n)
    {
      Readings(registered, edges, n);
    }
  }

  lemma ReportCount(registered: set<string>, nodes: seq<NodeDict>, edges: seq<EdgeDict>, cycle: seq<Issue>, e: Issue)
    ensures var errors := UnknownIssues(registered, nodes) + TriggerIssues(registered, nodes) + EmptyIssues(nodes)
                            + cycle
                        + OrphanIssues(registered, edges, nodes) + BranchIssues(edges, nodes);
      multiset(errors)[e] == multiset(cycle)[e] + (if e.Cycle? then 0 else Multiplicity(registered, nodes, edges, e))
  {
    TypeSection(registered, nodes, edges, e);
    OrphanSection(registered, nodes, edges, e);
    BranchSection(registered, nodes, edges, e);
    WholeGraphSections(registered, nodes, edges, e);
  }

  /** How often each report occurs, with the cycle section kept apart. */
  ghost predicate Counted(registered: set<string>, nodes: seq<NodeDict>, edges: seq<EdgeDict>, errors: seq<Issue>,
                          cycle: seq<Issue>)
  {
    && CycleSearch.CycleReport(ArcsOf(edges), Declared(nodes), GraphHasCycle(nodes, edges), cycle)
    && (forall e: Issue :: !e.Cycle? ==> multiset(errors)[e] == Multiplicity(registered, nodes, edges, e))
    && (forall x :: multiset(errors)[Cycle(x)] == if cycle == [Cycle(x)] then 1 else 0)
  }

  lemma CycleCountedOnce(registered: set<string>, nodes: seq<NodeDict>, edges: seq<EdgeDict>, errors: seq<Issue>,
                         cycle: seq<Issue>)
    requires CycleSearch.CycleReport(ArcsOf(edges), Declared(nodes), GraphHasCycle(nodes, edges), cycle)
    requires forall e: Issue ::
      multiset(errors)[e] == multiset(cycle)[e] + (if e.Cycle? then 0 else Multiplicity(registered, nodes, edges, e))
    ensures Counted(registered, nodes, edges, errors, cycle)
  {
  }

  lemma ReportCounts(registered: set<string>, nodes: seq<NodeDict>, edges: seq<EdgeDict>, errors: seq<Issue>)
    returns (cycle: seq<Issue>)
    requires IsReport(registered, nodes, edges, errors)
    ensures Counted(registered, nodes, edges, errors, cycle)
  {
    cycle :| CycleSearch.CycleReport(ArcsOf(edges), Declared(nodes), GraphHasCycle(nodes, edges), cycle)
      && errors == UnknownIssues(registered, nodes) + TriggerIssues(registered, nodes) + EmptyIssues(nodes) + cycle
                 + OrphanIssues(registered, edges, nodes) + BranchIssues(edges, nodes);
    forall e: Issue
      ensures multiset(errors)[e] == multiset(cycle)[e]
               + (if e.Cycle? then 0 else Multiplicity(registered, nodes, edges, e))
    {
      ReportCount(registered, nodes, edges, cycle, e);
    }
    CycleCountedOnce(registered, nodes, edges, errors, cycle);
  }

  /**
   What a report contains: a node check lists every offending node once, whatever the other checks found; there is at
   most one cycle report, there is one exactly when declared ids reach a cycle, and it names an id on such a cycle.
   */
  lemma ReportContents(registered: set<string>, nodes: seq<NodeDict>, edges: seq<EdgeDict>, errors: seq<Issue>)
    requires IsReport(registered, nodes, edges, errors)
    ensures forall e: Issue :: !e.Cycle? ==> multiset(errors)[e] == Multiplicity(registered, nodes, edges, e)
    ensures !GraphHasCycle(nodes, edges) ==> forall x :: multiset(errors)[Cycle(x)] == 0
    ensures GraphHasCycle(nodes, edges) ==> exists x ::
      && OnCycle(ArcsOf(edges), x) && ReachedFrom(ArcsOf(edges), Declared(nodes), x)
      && forall y :: multiset(errors)[Cycle(y)] == if y == x then 1 else 0
  {
    var cycle := ReportCounts(registered, nodes, edges, errors);
  }

  /** The validator returns an empty list exactly for the well-formed graphs. */
  lemma EmptyReportIffWellFormed(registered: set<string>, nodes: seq<NodeDict>, edges: seq<EdgeDict>,
                                 errors: seq<Issue>)
    requires IsReport(registered, nodes, edges, errors)
    ensures errors == [] <==> WellFormed(registered, nodes, edges)
  {
    var cycle := ReportCounts(registered, nodes, edges, errors);
    if errors == [] {
      NothingIsWellFormed(registered, nodes, edges, cycle);
    } else {
      SomethingIsNot(registered, nodes, edges, errors, cycle);
    }
  }

  lemma NothingIsWellFormed(registered: set<string>, nodes: seq<NodeDict>, edges: seq<EdgeDict>, cycle: seq<Issue>)
    requires Counted(registered, nodes, edges, [], cycle)
    ensures WellFormed(registered, nodes, edges)
  {
    var none: seq<Issue> := [];
    assert multiset(none)[NoTrigger] == multiset(none)[NoNodes] == 0;
    forall n, t | n in nodes && Typed(n, t)
      ensures t in registered
    {
      NotAtFault(registered, nodes, edges, cycle, n, UnknownType(n.id, t));
    }
    forall n | n in nodes
      ensures !TriggerNode(registered, n) ==> Entered(edges, n.id)
      ensures ConditionNode(n) ==> LeavesBy(edges, n.id, "true") && LeavesBy(edges, n.id, "false")
    {
      NotAtFault(registered, nodes, edges, cycle, n, Orphaned(n.id));
      NotAtFault(registered, nodes, edges, cycle, n, MissingTrue(n.id));
      NotAtFault(registered, nodes, edges, cycle, n, MissingFalse(n.id));
    }
  }

  lemma NotAtFault(registered: set<string>, nodes: seq<NodeDict>, edges: seq<EdgeDict>, cycle: seq<Issue>,
                   n: NodeDict, e: Issue)
    requires Counted(registered, nodes, edges, [], cycle) && n in nodes && IsNodeIssue(e)
    ensures !Offends(registered, edges, n, e)
  {
    var none: seq<Issue> := [];
    assert multiset(none)[e] == 0;
    OffendersPositive(registered, nodes, edges, e);
  }

  lemma SomethingIsNot(registered: set<string>, nodes: seq<NodeDict>, edges: seq<EdgeDict>, errors: seq<Issue>,
                       cycle: seq<Issue>)
    requires Counted(registered, nodes, edges, errors, cycle) && errors != []
    ensures !WellFormed(registered, nodes, edges)
  {
    var e := errors[0];
    assert multiset(errors)[e] > 0;
    if e.Cycle? {
      assert cycle == [e];
    } else {
      OffendersPositive(registered, nodes, edges, e);
    }
  }

  // ---- the branch reports, in so many words ----

  /** How many nodes of the condition type have the id. */
  function ConditionNodes(nodes: seq<NodeDict>, id: Id): nat {
    if nodes == [] then 0
    else
      ConditionNodes(nodes[..|nodes| - 1], id)
      + (if nodes[|nodes| - 1].id == id && nodes[|nodes| - 1].nodeType == Some("action.condition") then 1 else 0)
  }

  lemma {:induction false} ConditionOffenders(registered: set<string>, nodes: seq<NodeDict>, edges: seq<EdgeDict>,
                                              id: Id, branch: string, e: Issue)
    requires (branch == "true" && e == MissingTrue(id)) || (branch == "false" && e == MissingFalse(id))
    ensures Offenders(registered, nodes, edges, e)
         == if LeavesBy(edges, id, branch) then 0 else ConditionNodes(nodes, id)
  {
    if nodes != [] {
      ConditionOffenders(registered, nodes[..|nodes| - 1], edges, id, branch, e);
    }
  }

  lemma CountedAs(registered: set<string>, nodes: seq<NodeDict>, edges: seq<EdgeDict>, errors: seq<Issue>, e: Issue)
    requires IsReport(registered, nodes, edges, errors) && IsNodeIssue(e)
    ensures multiset(errors)[e] == Offenders(registered, nodes, edges, e)
  {
    ReportContents(registered, nodes, edges, errors);
  }

  /**
   A branch is reported missing once per condition node of the id if no edge with that source handle leaves the id, and
   otherwise not at all; whatever the target handles are.
   */
  lemma BranchReports(registered: set<string>, nodes: seq<NodeDict>, edges: seq<EdgeDict>, errors: seq<Issue>, id: Id)
    requires IsReport(registered, nodes, edges, errors)
    ensures multiset(errors)[MissingTrue(id)] == if LeavesBy(edges, id, "true") then 0 else ConditionNodes(nodes, id)
    ensures multiset(errors)[MissingFalse(id)] == if LeavesBy(edges, id, "false") then 0 else ConditionNodes(nodes, id)
  {
    CountedAs(registered, nodes, edges, errors, MissingTrue(id));
    CountedAs(registered, nodes, edges, errors, MissingFalse(id));
    ConditionOffenders(registered, nodes, edges, id, "true", MissingTrue(id));
    ConditionOffenders(registered, nodes, edges, id, "false", MissingFalse(id));
  }

  /** Registering more node types never invalidates an accepted graph. */
  lemma GrowthKeepsWellFormed(registered: set<string>, larger: set<string>, nodes: seq<NodeDict>, edges: seq<EdgeDict>)
    requires registered <= larger && WellFormed(registered, nodes, edges)
    ensures WellFormed(larger, nodes, edges)
  {
    var t :| t in nodes && TriggerNode(registered, t);
    assert TriggerNode(larger, t);
    forall n | n in nodes && !TriggerNode(larger, n)
      ensures Entered(edges, n.id)
    {
      assert !TriggerNode(registered, n);
    }
  }
}
