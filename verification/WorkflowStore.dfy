/** The workflow tables, and what each service operation does to them. */
module WorkflowStore {
  import opened Outcomes
  import opened Graphs
  import opened WellFormedness

  type Uuid = string

  datatype Status = Draft | Published | Archived

  datatype WorkflowRow = WorkflowRow(org: Uuid, name: string, description: Option<string>, status: Status,
                                     currentVersion: Option<int>, activeVersionId: Option<Uuid>,
                                     draft: Option<GraphDict>)

  datatype VersionRow = VersionRow(workflowId: Uuid, number: int, definition: GraphDict, createdBy: Uuid)

  datatype NodeRow = NodeRow(nodeId: string, nodeType: string, nodeLabel: string, positionX: int, positionY: int,
                             config: Json)

  datatype EdgeRow = EdgeRow(edgeId: string, source: string, target: string, sourceHandle: string, targetHandle: string)

  /** The four tables; node and edge rows are grouped by the version they belong to. */
  datatype Store = Store(workflows: map<Uuid, WorkflowRow>, versions: map<Uuid, VersionRow>,
                         nodeRows: map<Uuid, seq<NodeRow>>, edgeRows: map<Uuid, seq<EdgeRow>>)

  datatype ServiceError = NotFound | NoDefinition | MalformedDefinition | InvalidGraph | AlreadyArchived
                        | IntegrityError

  datatype Response =
    | OneWorkflow(id: Uuid, workflow: WorkflowRow)
    | ManyWorkflows(workflows: map<Uuid, WorkflowRow>)
    | OneVersion(versionId: Uuid, version: VersionRow)
    | ManyVersions(versions: map<Uuid, VersionRow>)
    | NewVersion(id: Uuid, workflow: WorkflowRow, versionId: Uuid, version: VersionRow)
    | Done
    | Refused(error: ServiceError)

  // ---- queries ----

  function Lookup(s: Store, id: Uuid, org: Uuid): Option<WorkflowRow> {
    if id in s.workflows && s.workflows[id].org == org then Some(s.workflows[id]) else None
  }

  function VersionsOf(versions: map<Uuid, VersionRow>, workflowId: Uuid): map<Uuid, VersionRow> {
    map v | v in versions && versions[v].workflowId == workflowId :: versions[v]
  }

  function Numbers(versions: map<Uuid, VersionRow>, workflowId: Uuid): set<int> {
    set v | v in versions && versions[v].workflowId == workflowId :: versions[v].number
  }

  lemma Inhabited(s: set<int>)
    ensures (forall x :: x !in s) ==> s == {}
  {
    if forall x :: x !in s {
      assert s == {};
    }
  }

  ghost function Maximum(s: set<int>): (m: int)
    requires s != {}
    ensures m in s && forall k :: k in s ==> k <= m
  {
    Inhabited(s);
    var x :| x in s;
    if s == {x} then x
    else
      assert s == {x} + (s - {x});
      assert s - {x} != {};
      var y := Maximum(s - {x});
      if x < y then y else x
  }

  /** `MAX(version_number)` of the workflow, 0 when it has no version. */
  ghost function MaxNumber(versions: map<Uuid, VersionRow>, workflowId: Uuid): int {
    var numbers := Numbers(versions, workflowId);
    if numbers == {} then 0 else Maximum(numbers)
  }

  predicate IsVersion(versions: map<Uuid, VersionRow>, v: Uuid, workflowId: Uuid, number: int) {
    v in versions && versions[v].workflowId == workflowId && versions[v].number == number
  }

  /** The unique key (workflow_id, version_number). */
  ghost predicate UniqueNumbers(versions: map<Uuid, VersionRow>) {
    forall v, w, id, k :: IsVersion(versions, v, id, k) && IsVersion(versions, w, id, k) ==> v == w
  }

  ghost function FindVersion(versions: map<Uuid, VersionRow>, workflowId: Uuid, number: int): (r: Option<Uuid>)
    ensures r.Some? ==> IsVersion(versions, r.value, workflowId, number)
    ensures r.None? ==> forall v :: !IsVersion(versions, v, workflowId, number)
  {
    if exists v :: IsVersion(versions, v, workflowId, number)
    then var v :| IsVersion(versions, v, workflowId, number); Some(v) else None
  }

  // ---- denormalised rows ----

  /** Python's `int` on a float: towards zero. */
  function Truncate(x: real): int {
    if x >= 0.0 then x.Floor else -((-x).Floor)
  }

  function NodeRowOf(n: GraphNode): NodeRow {
    NodeRow(n.id, n.nodeType, n.nodeLabel, Truncate(n.position.x), Truncate(n.position.y), n.config)
  }

  function EdgeRowOf(e: GraphEdge): EdgeRow {
    EdgeRow(e.id, e.source, e.target, e.sourceHandle, e.targetHandle)
  }

  function NodeRowsOf(g: WorkflowGraph): seq<NodeRow> {
    seq(|g.nodes|, i requires 0 <= i < |g.nodes| => NodeRowOf(g.nodes[i]))
  }

  function EdgeRowsOf(g: WorkflowGraph): seq<EdgeRow> {
    seq(|g.edges|, i requires 0 <= i < |g.edges| => EdgeRowOf(g.edges[i]))
  }

  // ---- publishing, in three parts ----

  /** A publisher that has loaded the row and validated the graph it means to publish. */
  datatype Opened = Opened(workflowId: Uuid, loaded: WorkflowRow, graph: WorkflowGraph, versionId: Uuid, user: Uuid)

  /** A publisher that has also read the next version number. */
  datatype Pending = Pending(workflowId: Uuid, loaded: WorkflowRow, graph: WorkflowGraph, number: int,
                             versionId: Uuid, user: Uuid)

  ghost predicate Publishable(registered: set<string>, g: WorkflowGraph) {
    WellFormed(registered, Dump(g).nodes.value, Dump(g).edges.value)
  }

  /** The graph in the request takes priority over the stored draft. */
  function Chosen(row: WorkflowRow, definition: Option<WorkflowGraph>): Result<WorkflowGraph, ServiceError> {
    if definition.Some? then Success(definition.value)
    else if row.draft.None? then Failure(NoDefinition)
    else if Parse(row.draft.value).None? then Failure(MalformedDefinition)
    else Success(Parse(row.draft.value).value)
  }

  /** Load the workflow, choose and validate the graph. */
  ghost function Open(registered: set<string>, s: Store, org: Uuid, user: Uuid, id: Uuid, versionId: Uuid,
                      definition: Option<WorkflowGraph>): Result<Opened, ServiceError>
  {
    var wf := Lookup(s, id, org);
    if wf.None? then Failure(NotFound)
    else
      match Chosen(wf.value, definition)
      case Failure(e) => Failure(e)
      case Success(graph) =>
        if !Publishable(registered, graph) then Failure(InvalidGraph)
        else Success(Opened(id, wf.value, graph, versionId, user))
  }

  /** Read the next version number. */
  ghost function Number(s: Store, o: Opened): Pending {
    Pending(o.workflowId, o.loaded, o.graph, MaxNumber(s.versions, o.workflowId) + 1, o.versionId, o.user)
  }

  /** Only attributes that differ from what was loaded are written back. */
  function Written<T(==)>(loaded: T, given: T, stored: T): T {
    if loaded == given then stored else given
  }

  function PublishedRow(p: Pending, stored: WorkflowRow): WorkflowRow {
    stored.(currentVersion := Written(p.loaded.currentVersion, Some(p.number), stored.currentVersion),
            activeVersionId := Written(p.loaded.activeVersionId, Some(p.versionId), stored.activeVersionId),
            status := Written(p.loaded.status, Published, stored.status),
            draft := Written(p.loaded.draft, None, stored.draft))
  }

  function VersionOf(p: Pending): VersionRow {
    VersionRow(p.workflowId, p.number, Dump(p.graph), p.user)
  }

  /** The keys of the version table admit the insert. */
  predicate Insertable(s: Store, p: Pending) {
    && p.workflowId in s.workflows
    && p.versionId !in s.versions
    && p.number !in Numbers(s.versions, p.workflowId)
  }

  /** Insert the version and its rows, update the workflow; a violated key aborts everything. */
  function Finish(s: Store, p: Pending): (Store, Response) {
    if !Insertable(s, p) then (s, Refused(IntegrityError))
    else
      var row := PublishedRow(p, s.workflows[p.workflowId]);
      (Store(s.workflows[p.workflowId := row], s.versions[p.versionId := VersionOf(p)],
             s.nodeRows[p.versionId := NodeRowsOf(p.graph)], s.edgeRows[p.versionId := EdgeRowsOf(p.graph)]),
       NewVersion(p.workflowId, row, p.versionId, VersionOf(p)))
  }

  // ---- the operations ----

  datatype Operation =
    | Create(id: Uuid, name: string, description: Option<string>)
    | List
    | Get(id: Uuid)
    | Update(id: Uuid, newName: Option<string>, newDescription: Option<string>, definition: Option<WorkflowGraph>)
    | Delete(id: Uuid)
    | Publish(id: Uuid, versionId: Uuid, user: Uuid, definition: Option<WorkflowGraph>)
    | ListVersions(id: Uuid)
    | GetVersion(id: Uuid, number: int)
    | Revert(id: Uuid, versionId: Uuid, user: Uuid, number: int)
    | Duplicate(id: Uuid, newId: Uuid, name: string)
    | Archive(id: Uuid)

  function FreshRow(org: Uuid, name: string, description: Option<string>, draft: Option<GraphDict>): WorkflowRow {
    WorkflowRow(org, name, description, Draft, None, None, draft)
  }

  function UpdatedRow(row: WorkflowRow, name: Option<string>, description: Option<string>,
                      definition: Option<WorkflowGraph>): WorkflowRow
  {
    row.(name := if name.Some? then name.value else row.name,
         description := if description.Some? then description else row.description,
         draft := if definition.Some? then Some(Dump(definition.value)) else row.draft)
  }

  function Insert(s: Store, id: Uuid, row: WorkflowRow): (Store, Response) {
    if id in s.workflows then (s, Refused(IntegrityError))
    else (s.(workflows := s.workflows[id := row]), OneWorkflow(id, row))
  }

  function WithRow(s: Store, id: Uuid, row: WorkflowRow): (Store, Response) {
    (s.(workflows := s.workflows[id := row]), OneWorkflow(id, row))
  }

  /** Deleting a workflow takes its versions and their rows with it. */
  function WithoutWorkflow(s: Store, id: Uuid): Store {
    var gone := VersionsOf(s.versions, id).Keys;
    Store(s.workflows - {id}, s.versions - gone, s.nodeRows - gone, s.edgeRows - gone)
  }

  ghost function PublishIn(registered: set<string>, s: Store, org: Uuid, user: Uuid, id: Uuid, versionId: Uuid,
                           definition: Option<WorkflowGraph>): (Store, Response)
  {
    match Open(registered, s, org, user, id, versionId, definition)
    case Failure(e) => (s, Refused(e))
    case Success(o) => Finish(s, Number(s, o))
  }

  /** Revert: publish the graph stored under an earlier number. */
  ghost function RevertIn(registered: set<string>, s: Store, org: Uuid, user: Uuid, id: Uuid, versionId: Uuid,
                          number: int): (Store, Response)
  {
    if Lookup(s, id, org).None? then (s, Refused(NotFound))
    else
      var v := FindVersion(s.versions, id, number);
      if v.None? then (s, Refused(NotFound))
      else
        var g := Parse(s.versions[v.value].definition);
        if g.None? then (s, Refused(MalformedDefinition)) else PublishIn(registered, s, org, user, id, versionId, g)
  }

  ghost function GetVersionIn(s: Store, org: Uuid, id: Uuid, number: int): Response {
    if Lookup(s, id, org).None? then Refused(NotFound)
    else
      var v := FindVersion(s.versions, id, number);
      if v.None? then Refused(NotFound) else OneVersion(v.value, s.versions[v.value])
  }

  function UpdateIn(s: Store, org: Uuid, id: Uuid, name: Option<string>, description: Option<string>,
                    definition: Option<WorkflowGraph>): (Store, Response)
  {
    var row := Lookup(s, id, org);
    if row.None? then (s, Refused(NotFound)) else WithRow(s, id, UpdatedRow(row.value, name, description, definition))
  }

  function DuplicateIn(s: Store, org: Uuid, id: Uuid, newId: Uuid, name: string): (Store, Response) {
    var row := Lookup(s, id, org);
    if row.None? then (s, Refused(NotFound))
    else Insert(s, newId, FreshRow(org, name, row.value.description, row.value.draft))
  }

  function ArchiveIn(s: Store, org: Uuid, id: Uuid): (Store, Response) {
    var row := Lookup(s, id, org);
    if row.None? then (s, Refused(NotFound))
    else if row.value.status == Archived then (s, Refused(AlreadyArchived))
    else WithRow(s, id, row.value.(status := Archived))
  }

  ghost function Exec(registered: set<string>, s: Store, org: Uuid, op: Operation): (Store, Response) {
    match op
    case Create(id, name, description) => Insert(s, id, FreshRow(org, name, description, None))
    case List => (s, ManyWorkflows(map w | w in s.workflows && s.workflows[w].org == org :: s.workflows[w]))
    case Get(id) => (s, if Lookup(s, id, org).None? then Refused(NotFound) else OneWorkflow(id, s.workflows[id]))
    case Update(id, name, description, definition) => UpdateIn(s, org, id, name, description, definition)
    case Delete(id) => if Lookup(s, id, org).None? then (s, Refused(NotFound)) else (WithoutWorkflow(s, id), Done)
    case Publish(id, versionId, user, definition) => PublishIn(registered, s, org, user, id, versionId, definition)
    case ListVersions(id) =>
      (s, if Lookup(s, id, org).None? then Refused(NotFound) else ManyVersions(VersionsOf(s.versions, id)))
    case GetVersion(id, number) => (s, GetVersionIn(s, org, id, number))
    case Revert(id, versionId, user, number) => RevertIn(registered, s, org, user, id, versionId, number)
    case Duplicate(id, newId, name) => DuplicateIn(s, org, id, newId, name)
    case Archive(id) => ArchiveIn(s, org, id)
  }
}
