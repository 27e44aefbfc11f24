/** The workflow service: each operation reads and updates the tables step by step. */
module WorkflowService {
  import opened Outcomes
  import opened Graphs
  import opened Issues
  import opened WellFormedness
  import opened WorkflowStore
  import Validator

  class Service {
    var registered: set<string>
    var workflows: map<Uuid, WorkflowRow>
    var versions: map<Uuid, VersionRow>
    var nodeRows: map<Uuid, seq<NodeRow>>
    var edgeRows: map<Uuid, seq<EdgeRow>>

    function State(): Store
      reads this
    {
      Store(workflows, versions, nodeRows, edgeRows)
    }

    constructor (registered: set<string>)
      ensures State() == Store(map[], map[], map[], map[]) && this.registered == registered
    {
      this.registered := registered;
      workflows, versions, nodeRows, edgeRows := map[], map[], map[], map[];
    }

    method CreateWorkflow(org: Uuid, id: Uuid, name: string, description: Option<string>) returns (r: Response)
      modifies this`workflows
      ensures (State(), r) == Exec(registered, old(State()), org, Create(id, name, description))
    {
      if id in workflows {
        return Refused(IntegrityError);
      }
      var wf := WorkflowRow(org, name, description, Draft, None, None, None);
      workflows := workflows[id := wf];
      return OneWorkflow(id, wf);
    }

    method GetWorkflow(org: Uuid, id: Uuid) returns (wf: Option<WorkflowRow>)
      ensures wf == Lookup(State(), id, org)
    {
      if id !in workflows || workflows[id].org != org {
        return None;
      }
      return Some(workflows[id]);
    }

    method UpdateWorkflow(org: Uuid, id: Uuid, name: Option<string>, description: Option<string>,
                          definition: Option<WorkflowGraph>)
      returns (r: Response)
      modifies this`workflows
      ensures (State(), r) == UpdateIn(old(State()), org, id, name, description, definition)
    {
      var found := GetWorkflow(org, id);
      if found.None? {
        return Refused(NotFound);
      }
      var wf := found.value;
      if name.Some? {
        wf := wf.(name := name.value);
      }
      if description.Some? {
        wf := wf.(description := description);
      }
      if definition.Some? {
        wf := wf.(draft := Some(Dump(definition.value)));
      }
      workflows := workflows[id := wf];
      return OneWorkflow(id, wf);
    }

    method DeleteWorkflow(org: Uuid, id: Uuid) returns (r: Response)
      modifies this`workflows, this`versions, this`nodeRows, this`edgeRows
      ensures (State(), r) == Exec(registered, old(State()), org, Delete(id))
    {
      var found := GetWorkflow(org, id);
      if found.None? {
        return Refused(NotFound);
      }
      var gone := VersionsOf(versions, id).Keys;
      workflows := workflows - {id};
      versions := versions - gone;
      nodeRows := nodeRows - gone;
      edgeRows := edgeRows - gone;
      return Done;
    }

    method NextVersionNumber(workflowId: Uuid) returns (next: int)
      ensures next == MaxNumber(versions, workflowId) + 1
    {
      var numbers := Numbers(versions, workflowId);
      var rest := numbers;
      var best: Option<int> := None;
      while rest != {}
        invariant rest <= numbers
        invariant best.None? ==> rest == numbers
        invariant best.Some? ==> best.value in numbers && forall k :: k in numbers && k !in rest ==> k <= best.value
        decreases rest
      {
        var k :| k in rest;
        if best.None? || best.value < k {
          best := Some(k);
        }
        rest := rest - {k};
      }
      return (if best.None? then 0 else best.value) + 1;
    }

    method PersistGraphRows(versionId: Uuid, graph: WorkflowGraph)
      modifies this`nodeRows, this`edgeRows
      ensures nodeRows == old(nodeRows)[versionId := NodeRowsOf(graph)]
      ensures edgeRows == old(edgeRows)[versionId := EdgeRowsOf(graph)]
    {
      var ns: seq<NodeRow> := [];
      for i := 0 to |graph.nodes|
        invariant ns == NodeRowsOf(graph)[..i]
      {
        var n := graph.nodes[i];
        ns := ns + [NodeRow(n.id, n.nodeType, n.nodeLabel, Truncate(n.position.x), Truncate(n.position.y), n.config)];
      }
      var es: seq<EdgeRow> := [];
      for i := 0 to |graph.edges|
        invariant es == EdgeRowsOf(graph)[..i]
      {
        var e := graph.edges[i];
        es := es + [EdgeRow(e.id, e.source, e.target, e.sourceHandle, e.targetHandle)];
      }
      assert ns == NodeRowsOf(graph) && es == EdgeRowsOf(graph);
      nodeRows := nodeRows[versionId := ns];
      edgeRows := edgeRows[versionId := es];
    }

    method ChooseGraph(wf: WorkflowRow, definition: Option<WorkflowGraph>) returns (r: Result<WorkflowGraph,
                       ServiceError>)
      ensures r == Chosen(wf, definition)
    {
      if definition.Some? {
        return Success(definition.value);
      } else if wf.draft.Some? {
        var parsed := Parse(wf.draft.value);
        if parsed.None? {
          return Failure(MalformedDefinition);
        }
        return Success(parsed.value);
      } else {
        return Failure(NoDefinition);
      }
    }

    method Validate(graph: WorkflowGraph) returns (errors: seq<Issue>)
      ensures errors == [] <==> Publishable(registered, graph)
      ensures Validator.IsReport(registered, Dump(graph).nodes.value, Dump(graph).edges.value, errors)
    {
      var graphDict := Dump(graph);
      var validated := Validator.ValidateGraph(registered, graphDict);
      EmptyReportIffWellFormed(registered, graphDict.nodes.value, graphDict.edges.value, validated.value);
      return validated.value;
    }

    /** The first part of publishing, up to the validation of the chosen graph. */
    method OpenPublication(org: Uuid, user: Uuid, id: Uuid, versionId: Uuid, definition: Option<WorkflowGraph>)
      returns (open: Result<Opened, ServiceError>, errors: seq<Issue>)
      ensures open == Open(registered, State(), org, user, id, versionId, definition)
      ensures open == Failure(InvalidGraph) <==> errors != []
      ensures errors != [] ==> id in workflows && RefusedWith(workflows[id], definition, errors)
    {
      var found := GetWorkflow(org, id);
      if found.None? {
        return Failure(NotFound), [];
      }
      var graph := ChooseGraph(found.value, definition);
      if graph.Failure? {
        return Failure(graph.error), [];
      }
      errors := Validate(graph.value);
      if errors != [] {
        return Failure(InvalidGraph), errors;
      }
      return Success(Opened(id, found.value, graph.value, versionId, user)), [];
    }

    /** The errors are the validator's report on the graph that was chosen. */
    ghost predicate RefusedWith(row: WorkflowRow, definition: Option<WorkflowGraph>, errors: seq<Issue>)
      reads this`registered
    {
      && Chosen(row, definition).Success?
      && var g := Dump(Chosen(row, definition).value);
         Validator.IsReport(registered, g.nodes.value, g.edges.value, errors)
    }

    /**
     The last part: the row may have changed, or be gone, since it was loaded. Unchanged attributes are not written.
     */
    method InsertVersion(p: Pending) returns (r: Response)
      modifies this`workflows, this`versions, this`nodeRows, this`edgeRows
      ensures (State(), r) == Finish(old(State()), p)
    {
      if p.workflowId !in workflows || p.versionId in versions || p.number in Numbers(versions, p.workflowId) {
        return Refused(IntegrityError);
      }
      var version := VersionRow(p.workflowId, p.number, Dump(p.graph), p.user);
      versions := versions[p.versionId := version];
      PersistGraphRows(p.versionId, p.graph);
      var row := workflows[p.workflowId];
      if p.loaded.currentVersion != Some(p.number) {
        row := row.(currentVersion := Some(p.number));
      }
      if p.loaded.activeVersionId != Some(p.versionId) {
        row := row.(activeVersionId := Some(p.versionId));
      }
      if p.loaded.status != Published {
        row := row.(status := Published);
      }
      if p.loaded.draft.Some? {
        row := row.(draft := None);
      }
      workflows := workflows[p.workflowId := row];
      return NewVersion(p.workflowId, row, p.versionId, version);
    }

    /** Publishes in one go; the errors are the validator's report on the chosen graph, when that graph is refused. */
    method PublishWorkflow(org: Uuid, user: Uuid, id: Uuid, versionId: Uuid, definition: Option<WorkflowGraph>)
      returns (r: Response, errors: seq<Issue>)
      modifies this`workflows, this`versions, this`nodeRows, this`edgeRows
      ensures (State(), r) == PublishIn(registered, old(State()), org, user, id, versionId, definition)
      ensures r == Refused(InvalidGraph) <==> errors != []
      ensures errors != [] ==> id in old(workflows) && RefusedWith(old(workflows)[id], definition, errors)
    {
      var open;
      open, errors := OpenPublication(org, user, id, versionId, definition);
      if open.Failure? {
        return Refused(open.error), errors;
      }
      var o := open.value;
      var nextVer := NextVersionNumber(o.workflowId);
      r := InsertVersion(Pending(o.workflowId, o.loaded, o.graph, nextVer, o.versionId, o.user));
    }

    method RevertWorkflow(org: Uuid, user: Uuid, id: Uuid, versionId: Uuid, number: int) returns (r: Response)
      requires UniqueNumbers(versions)
      modifies this`workflows, this`versions, this`nodeRows, this`edgeRows
      ensures (State(), r) == RevertIn(registered, old(State()), org, user, id, versionId, number)
    {
      var source := GetVersionByNumber(org, id, number);
      if source.Refused? {
        return source;
      }
      var graph := Parse(source.version.definition);
      if graph.None? {
        return Refused(MalformedDefinition);
      }
      var errors;
      r, errors := PublishWorkflow(org, user, id, versionId, graph);
    }

    method GetVersionByNumber(org: Uuid, id: Uuid, number: int) returns (r: Response)
      requires UniqueNumbers(versions)
      ensures r == GetVersionIn(State(), org, id, number)
    {
      var found := GetWorkflow(org, id);
      if found.None? {
        return Refused(NotFound);
      }
      var matching := set v | v in versions && IsVersion(versions, v, id, number);
      assert forall v :: IsVersion(versions, v, id, number) ==> v in matching;
      if matching == {} {
        return Refused(NotFound);
      }
      var v :| v in matching;
      return OneVersion(v, versions[v]);
    }

    method DuplicateWorkflow(org: Uuid, id: Uuid, newId: Uuid, name: string) returns (r: Response)
      modifies this`workflows
      ensures (State(), r) == DuplicateIn(old(State()), org, id, newId, name)
    {
      var source := GetWorkflow(org, id);
      if source.None? {
        return Refused(NotFound);
      }
      if newId in workflows {
        return Refused(IntegrityError);
      }
      var wf := WorkflowRow(org, name, source.value.description, Draft, None, None, source.value.draft);
      workflows := workflows[newId := wf];
      return OneWorkflow(newId, wf);
    }

    method ArchiveWorkflow(org: Uuid, id: Uuid) returns (r: Response)
      modifies this`workflows
      ensures (State(), r) == ArchiveIn(old(State()), org, id)
    {
      var found := GetWorkflow(org, id);
      if found.None? {
        return Refused(NotFound);
      }
      if found.value.status == Archived {
        return Refused(AlreadyArchived);
      }
      var wf := found.value.(status := Archived);
      workflows := workflows[id := wf];
      return OneWorkflow(id, wf);
    }
  }
}
