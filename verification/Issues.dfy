/** What the validator can report, and how it words a report. */
module Issues {
  import opened Walks

  datatype Issue =
    | UnknownType(node: Id, nodeType: string)
    | NoTrigger
    | NoNodes
    | Cycle(node: Id)
    | Orphaned(node: Id)
    | MissingTrue(node: Id)
    | MissingFalse(node: Id)

  /** The `node_id` entry of a report; it is empty when the report is about the whole graph. */
  function NodeId(e: Issue): Id {
    if e.NoTrigger? || e.NoNodes? then "" else e.node
  }

  const AT_LEAST_ONE := "Graph must contain at least one "

  function MissingBranch(branch: string): string {
    "Condition node missing '" + branch + "' outgoing edge"
  }

  /** The `message` entry of a report. */
  function Message(e: Issue): string {
    match e
    case UnknownType(_, t) => "Unknown node type '" + t + "'"
    case NoTrigger => AT_LEAST_ONE + "trigger node"
    case NoNodes => AT_LEAST_ONE + "node"
    case Cycle(_) => "Graph contains a cycle"
    case Orphaned(id) => "Node '" + id + "' is orphaned (no incoming edge)"
    case MissingTrue(_) => MissingBranch("true")
    case MissingFalse(_) => MissingBranch("false")
  }

  /** Length and letters tell the kinds of message apart. */
  lemma MessageShape(e: Issue)
    ensures match e
      case UnknownType(_, _) => Message(e)[0] == 'U'
      case NoTrigger => Message(e)[0] == 'G' && |Message(e)| == 44
      case NoNodes => Message(e)[0] == 'G' && |Message(e)| == 36
      case Cycle(_) => Message(e)[0] == 'G' && |Message(e)| == 22
      case Orphaned(_) => Message(e)[0] == 'N'
      case MissingTrue(_) => Message(e)[0] == 'C' && |Message(e)| == 43
      case MissingFalse(_) => Message(e)[0] == 'C' && |Message(e)| == 44
  {
    assert "Unknown node type '"[0] == 'U' && "Node '"[0] == 'N';
    if e.UnknownType? {
      assert Message(e) == "Unknown node type '" + (e.nodeType + "'");
    }
    if e.Orphaned? {
      assert Message(e) == "Node '" + (e.node + "' is orphaned (no incoming edge)");
    }
  }

  /** No two reports read the same. */
  lemma ReportsAreDistinguishable(a: Issue, b: Issue)
    requires NodeId(a) == NodeId(b) && Message(a) == Message(b)
    ensures a == b
  {
    MessageShape(a);
    MessageShape(b);
    if a.UnknownType? {
      var pre := "Unknown node type '";
      assert Message(a) == pre + (a.nodeType + "'") && Message(b) == pre + (b.nodeType + "'");
      assert Message(a)[|pre|..|Message(a)| - 1] == a.nodeType;
      assert Message(b)[|pre|..|Message(b)| - 1] == b.nodeType;
    }
  }
}
