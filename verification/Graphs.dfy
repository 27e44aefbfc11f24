/** Workflow graphs: the plain dictionaries the validator reads, and the typed schema the API parses. */
module Graphs {
  import opened Outcomes
  import opened Walks

  /** An arbitrary JSON value; nothing in the model looks inside it. */
  datatype Json = Json(text: string)

  const EMPTY_CONFIG := Json("{}")

  datatype Position = Position(x: real, y: real)

  // The dictionaries: a key that `dict.get` may miss is an Option.

  datatype NodeDict = NodeDict(id: Id, nodeType: Option<string>, nodeLabel: Option<string>,
                               position: Option<Position>, config: Option<Json>)

  datatype EdgeDict = EdgeDict(id: Option<string>, source: Id, target: Id,
                               sourceHandle: Option<string>, targetHandle: Option<string>)

  datatype GraphDict = GraphDict(nodes: Option<seq<NodeDict>>, edges: Option<seq<EdgeDict>>)

  function TypeOf(n: NodeDict): string {
    if n.nodeType.Some? then n.nodeType.value else ""
  }

  function HandleOf(e: EdgeDict): string {
    if e.sourceHandle.Some? then e.sourceHandle.value else "output"
  }

  function ArcsOf(edges: seq<EdgeDict>): Arcs {
    set e | e in edges :: (e.source, e.target)
  }

  function Declared(nodes: seq<NodeDict>): set<Id> {
    set n | n in nodes :: n.id
  }

  // The typed schema.

  datatype GraphNode = GraphNode(id: Id, nodeType: string, nodeLabel: string, position: Position, config: Json)

  datatype GraphEdge = GraphEdge(id: string, source: Id, target: Id, sourceHandle: string, targetHandle: string)

  datatype WorkflowGraph = WorkflowGraph(nodes: seq<GraphNode>, edges: seq<GraphEdge>)

  function DumpNode(n: GraphNode): NodeDict {
    NodeDict(n.id, Some(n.nodeType), Some(n.nodeLabel), Some(n.position), Some(n.config))
  }

  function DumpEdge(e: GraphEdge): EdgeDict {
    EdgeDict(Some(e.id), e.source, e.target, Some(e.sourceHandle), Some(e.targetHandle))
  }

  /** `model_dump`: every field of the schema is written out. */
  function Dump(g: WorkflowGraph): GraphDict {
    GraphDict(Some(seq(|g.nodes|, i requires 0 <= i < |g.nodes| => DumpNode(g.nodes[i]))),
              Some(seq(|g.edges|, i requires 0 <= i < |g.edges| => DumpEdge(g.edges[i]))))
  }

  predicate NodeParses(n: NodeDict) {
    n.nodeType.Some? && n.nodeLabel.Some? && n.position.Some?
  }

  predicate EdgeParses(e: EdgeDict) {
    e.id.Some?
  }

  function ParseNode(n: NodeDict): GraphNode
    requires NodeParses(n)
  {
    GraphNode(n.id, n.nodeType.value, n.nodeLabel.value, n.position.value,
              if n.config.Some? then n.config.value else EMPTY_CONFIG)
  }

  function ParseEdge(e: EdgeDict): GraphEdge
    requires EdgeParses(e)
  {
    GraphEdge(e.id.value, e.source, e.target,
              if e.sourceHandle.Some? then e.sourceHandle.value else "output",
              if e.targetHandle.Some? then e.targetHandle.value else "input")
  }

  /** `model_validate`: required fields must be present, the others take their defaults. */
  function Parse(d: GraphDict): Option<WorkflowGraph> {
    if d.nodes.None? || d.edges.None? then None
    else if (exists n :: n in d.nodes.value && !NodeParses(n))
         || (exists e :: e in d.edges.value && !EdgeParses(e)) then None
    else
      var nodes, edges := d.nodes.value, d.edges.value;
      Some(WorkflowGraph(
        seq(|nodes|, i requires 0 <= i < |nodes| => ParseNode(nodes[i])),
        seq(|edges|, i requires 0 <= i < |edges| => ParseEdge(edges[i]))))
  }

  /** What was dumped parses back to the same graph. */
  lemma ParseDump(g: WorkflowGraph)
    ensures Parse(Dump(g)) == Some(g)
  {
    var d := Dump(g);
    assert forall n :: n in d.nodes.value ==> NodeParses(n);
    assert forall e :: e in d.edges.value ==> EdgeParses(e);
    var back := Parse(d).value;
    assert forall i :: 0 <= i < |g.nodes| ==> back.nodes[i] == ParseNode(DumpNode(g.nodes[i]));
    assert back.nodes == g.nodes;
    assert forall i :: 0 <= i < |g.edges| ==> back.edges[i] == ParseEdge(DumpEdge(g.edges[i]));
    assert back.edges == g.edges;
  }

  /** A dumped graph has every field of every node and edge under its own name. */
  lemma DumpFields(g: WorkflowGraph)
    ensures var d := Dump(g);
      && d.nodes.Some? && d.edges.Some? && |d.nodes.value| == |g.nodes| && |d.edges.value| == |g.edges|
      && (forall i :: 0 <= i < |g.nodes| ==>
        var n, m := g.nodes[i], d.nodes.value[i];
        && m.id == n.id && m.nodeType == Some(n.nodeType) && m.nodeLabel == Some(n.nodeLabel)
        && m.position == Some(n.position) && m.config == Some(n.config))
      && (forall i :: 0 <= i < |g.edges| ==>
        var e, f := g.edges[i], d.edges.value[i];
        && f.id == Some(e.id) && f.source == e.source && f.target == e.target
        && f.sourceHandle == Some(e.sourceHandle) && f.targetHandle == Some(e.targetHandle))
  {
  }

  /** A dictionary parses exactly if the fields without a default are there; the others get their defaults. */
  lemma ParseFields(d: GraphDict)
    ensures Parse(d).Some? <==>
      && d.nodes.Some? && d.edges.Some?
      && (forall n :: n in d.nodes.value ==> n.nodeType.Some? && n.nodeLabel.Some? && n.position.Some?)
      && (forall e :: e in d.edges.value ==> e.id.Some?)
    ensures Parse(d).Some? ==>
      var g := Parse(d).value;
      && |g.nodes| == |d.nodes.value| && |g.edges| == |d.edges.value|
      && (forall i :: 0 <= i < |g.nodes| ==>
        var n, m := g.nodes[i], d.nodes.value[i];
        && n.id == m.id && Some(n.nodeType) == m.nodeType && Some(n.nodeLabel) == m.nodeLabel
        && Some(n.position) == m.position
        && (m.config == Some(n.config) || (m.config == None && n.config == Json("{}"))))
      && (forall i :: 0 <= i < |g.edges| ==>
        var e, f := g.edges[i], d.edges.value[i];
        && Some(e.id) == f.id && e.source == f.source && e.target == f.target
        && (f.sourceHandle == Some(e.sourceHandle) || (f.sourceHandle == None && e.sourceHandle == "output"))
        && (f.targetHandle == Some(e.targetHandle) || (f.targetHandle == None && e.targetHandle == "input")))
  {
    if d.nodes.Some? && d.edges.Some? {
      assert forall n :: n in d.nodes.value ==>
        (NodeParses(n) <==> n.nodeType.Some? && n.nodeLabel.Some? && n.position.Some?);
      assert forall e :: e in d.edges.value ==> (EdgeParses(e) <==> e.id.Some?);
    }
  }
}
