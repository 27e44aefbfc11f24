/** Organizations cannot observe one another through the workflow service. */
module Tenancy {
  import opened Outcomes
  import opened Graphs
  import opened WorkflowStore
  import opened WorkflowHistory
  import opened WorkflowRuns

  // ---- restricting a map to some keys ----

  function Restrict<T>(m: map<Uuid, T>, keys: set<Uuid>): map<Uuid, T> {
    map k | k in m && k in keys :: m[k]
  }

  lemma RestrictInsert<T>(m: map<Uuid, T>, keys: set<Uuid>, k: Uuid, x: T)
    ensures Restrict(m[k := x], keys + {k}) == Restrict(m, keys)[k := x]
  {
  }

  lemma RestrictElsewhere<T>(m: map<Uuid, T>, keys: set<Uuid>, k: Uuid, x: T)
    requires k !in keys
    ensures Restrict(m[k := x], keys) == Restrict(m, keys)
  {
  }

  lemma RestrictMinus<T>(m: map<Uuid, T>, keys: set<Uuid>, gone: set<Uuid>)
    ensures Restrict(m - gone, keys - gone) == Restrict(m, keys) - gone
    ensures keys !! gone ==> Restrict(m - gone, keys) == Restrict(m, keys)
  {
  }

  // ---- one organization's part of the tables ----

  function WorkflowKeys(s: Store, org: Uuid): set<Uuid> {
    set id | id in s.workflows && s.workflows[id].org == org
  }

  predicate Owns(s: Store, org: Uuid, v: Uuid) {
    v in s.versions && s.versions[v].workflowId in WorkflowKeys(s, org)
  }

  function VersionKeys(s: Store, org: Uuid): set<Uuid> {
    set v | v in s.versions && Owns(s, org, v)
  }

  function PartOf(s: Store, workflows: set<Uuid>, versions: set<Uuid>): Store {
    Store(Restrict(s.workflows, workflows), Restrict(s.versions, versions),
          Restrict(s.nodeRows, versions), Restrict(s.edgeRows, versions))
  }

  function Part(s: Store, org: Uuid): Store {
    PartOf(s, WorkflowKeys(s, org), VersionKeys(s, org))
  }

  predicate Mine(s: Store, org: Uuid, id: Uuid) {
    id in s.workflows && s.workflows[id].org == org
  }

  // ---- reads ----

  lemma PartVersions(s: Store, org: Uuid, id: Uuid)
    requires Mine(s, org, id)
    ensures VersionsOf(Part(s, org).versions, id) == VersionsOf(s.versions, id)
    ensures Numbers(Part(s, org).versions, id) == Numbers(s.versions, id)
    ensures forall v, k :: IsVersion(Part(s, org).versions, v, id, k) <==> IsVersion(s.versions, v, id, k)
  {
    var part := Part(s, org).versions;
    assert forall v :: v in s.versions && s.versions[v].workflowId == id ==> v in part && part[v] == s.versions[v];
    forall k | k in Numbers(s.versions, id)
      ensures k in Numbers(part, id)
    {
      var v :| v in s.versions && s.versions[v].workflowId == id && s.versions[v].number == k;
      assert part[v].number == k;
    }
  }

  lemma PartFind(s: Store, org: Uuid, id: Uuid, number: int)
    requires Mine(s, org, id) && UniqueNumbers(s.versions)
    ensures FindVersion(Part(s, org).versions, id, number) == FindVersion(s.versions, id, number)
  {
    PartVersions(s, org, id);
    var a, b := FindVersion(Part(s, org).versions, id, number), FindVersion(s.versions, id, number);
    if a.Some? && b.Some? {
      assert IsVersion(s.versions, a.value, id, number) && IsVersion(s.versions, b.value, id, number);
    }
  }

  lemma PartOpen(registered: set<string>, s: Store, org: Uuid, user: Uuid, id: Uuid, versionId: Uuid,
                 definition: Option<WorkflowGraph>)
    ensures Open(registered, Part(s, org), org, user, id, versionId, definition)
         == Open(registered, s, org, user, id, versionId, definition)
  {
  }

  /** The workflow is the organization's, or there is none any more. */
  predicate MineOrGone(s: Store, org: Uuid, id: Uuid) {
    id in s.workflows ==> s.workflows[id].org == org
  }

  lemma PartNumber(s: Store, org: Uuid, o: Opened)
    requires Referential(s) && MineOrGone(s, org, o.workflowId)
    ensures Number(Part(s, org), o) == Number(s, o)
  {
    if o.workflowId in s.workflows {
      PartVersions(s, org, o.workflowId);
    } else {
      assert Numbers(s.versions, o.workflowId) == {} && Numbers(Part(s, org).versions, o.workflowId) == {};
    }
  }

  // ---- writes ----

  lemma KeysAfterFinish(s: Store, p: Pending, org: Uuid)
    requires Insertable(s, p)
    ensures var t := Finish(s, p).0;
      && WorkflowKeys(t, org) == WorkflowKeys(s, org)
      && VersionKeys(t, org) == VersionKeys(s, org) + if s.workflows[p.workflowId].org == org then {p.versionId} else {}
  {
  }

  /** A row and a version with its rows, written together. */
  function Put(s: Store, id: Uuid, row: WorkflowRow, v: Uuid, version: VersionRow, ns: seq<NodeRow>,
               es: seq<EdgeRow>): Store
  {
    Store(s.workflows[id := row], s.versions[v := version], s.nodeRows[v := ns], s.edgeRows[v := es])
  }

  lemma PutInside(s: Store, wk: set<Uuid>, vk: set<Uuid>, id: Uuid, row: WorkflowRow, v: Uuid, version: VersionRow,
                  ns: seq<NodeRow>, es: seq<EdgeRow>)
    ensures PartOf(Put(s, id, row, v, version, ns, es), wk + {id}, vk + {v})
       == Put(PartOf(s, wk, vk), id, row, v, version, ns, es)
  {
    RestrictInsert(s.workflows, wk, id, row);
    RestrictInsert(s.versions, vk, v, version);
    RestrictInsert(s.nodeRows, vk, v, ns);
    RestrictInsert(s.edgeRows, vk, v, es);
  }

  lemma PutElsewhere(s: Store, wk: set<Uuid>, vk: set<Uuid>, id: Uuid, row: WorkflowRow, v: Uuid,
                     version: VersionRow, ns: seq<NodeRow>, es: seq<EdgeRow>)
    requires id !in wk && v !in vk
    ensures PartOf(Put(s, id, row, v, version, ns, es), wk, vk) == PartOf(s, wk, vk)
  {
    RestrictElsewhere(s.workflows, wk, id, row);
    RestrictElsewhere(s.versions, vk, v, version);
    RestrictElsewhere(s.nodeRows, vk, v, ns);
    RestrictElsewhere(s.edgeRows, vk, v, es);
  }

  lemma InsertableLocal(s: Store, org: Uuid, p: Pending)
    requires MineOrGone(s, org, p.workflowId) && p.versionId !in s.versions
    ensures Insertable(Part(s, org), p) <==> Insertable(s, p)
    ensures Insertable(s, p) ==> Part(s, org).workflows[p.workflowId] == s.workflows[p.workflowId]
  {
    if p.workflowId in s.workflows {
      PartVersions(s, org, p.workflowId);
    }
  }

  lemma FinishLocal(s: Store, org: Uuid, p: Pending)
    requires MineOrGone(s, org, p.workflowId) && p.versionId !in s.versions
    ensures Finish(Part(s, org), p) == (Part(Finish(s, p).0, org), Finish(s, p).1)
  {
    InsertableLocal(s, org, p);
    if Insertable(s, p) {
      KeysAfterFinish(s, p, org);
      assert WorkflowKeys(s, org) + {p.workflowId} == WorkflowKeys(s, org);
      PutInside(s, WorkflowKeys(s, org), VersionKeys(s, org), p.workflowId,
                PublishedRow(p, s.workflows[p.workflowId]), p.versionId,
                VersionOf(p), NodeRowsOf(p.graph), EdgeRowsOf(p.graph));
    }
  }

  lemma FinishLeavesOthers(s: Store, org: Uuid, other: Uuid, p: Pending)
    requires MineOrGone(s, org, p.workflowId) && org != other
    ensures Part(Finish(s, p).0, other) == Part(s, other)
  {
    if Insertable(s, p) {
      var wk, vk := WorkflowKeys(s, other), VersionKeys(s, other);
      KeysAfterFinish(s, p, other);
      assert WorkflowKeys(Finish(s, p).0, other) == wk && VersionKeys(Finish(s, p).0, other) == vk;
      PutElsewhere(s, wk, vk, p.workflowId, PublishedRow(p, s.workflows[p.workflowId]),
                   p.versionId, VersionOf(p), NodeRowsOf(p.graph), EdgeRowsOf(p.graph));
    }
  }

  /** Every version belongs to a workflow. */
  ghost predicate Referential(s: Store) {
    forall v :: v in s.versions ==> s.versions[v].workflowId in s.workflows
  }

  lemma RowLocal(s: Store, org: Uuid, id: Uuid, row: WorkflowRow)
    requires Referential(s) && row.org == org && (id in s.workflows ==> s.workflows[id].org == org)
    ensures Part(s.(workflows := s.workflows[id := row]), org)
       == Part(s, org).(workflows := Part(s, org).workflows[id := row])
  {
    var t := s.(workflows := s.workflows[id := row]);
    assert WorkflowKeys(t, org) == WorkflowKeys(s, org) + {id};
    assert VersionKeys(t, org) == VersionKeys(s, org) by {
      assert forall v :: v in s.versions ==> (Owns(t, org, v) <==> Owns(s, org, v));
    }
    RestrictInsert(s.workflows, WorkflowKeys(s, org), id, row);
  }

  lemma RowLeavesOthers(s: Store, org: Uuid, id: Uuid, row: WorkflowRow, other: Uuid)
    requires Referential(s) && row.org == org && (id in s.workflows ==> s.workflows[id].org == org) && other != org
    ensures Part(s.(workflows := s.workflows[id := row]), other) == Part(s, other)
  {
    var t := s.(workflows := s.workflows[id := row]);
    assert WorkflowKeys(t, other) == WorkflowKeys(s, other);
    assert VersionKeys(t, other) == VersionKeys(s, other);
    RestrictElsewhere(s.workflows, WorkflowKeys(s, other), id, row);
  }

  lemma DeleteLocal(s: Store, org: Uuid, id: Uuid, viewer: Uuid)
    requires Mine(s, org, id)
    ensures Part(WithoutWorkflow(s, id), viewer)
         == if viewer == org then WithoutWorkflow(Part(s, org), id) else Part(s, viewer)
  {
    PartVersions(s, org, id);
    var t := WithoutWorkflow(s, id);
    var gone := VersionsOf(s.versions, id).Keys;
    assert WorkflowKeys(t, viewer) == WorkflowKeys(s, viewer) - {id};
    assert VersionKeys(t, viewer) == VersionKeys(s, viewer) - gone;
    RestrictMinus(s.workflows, WorkflowKeys(s, viewer), {id});
    RestrictMinus(s.versions, VersionKeys(s, viewer), gone);
    RestrictMinus(s.nodeRows, VersionKeys(s, viewer), gone);
    RestrictMinus(s.edgeRows, VersionKeys(s, viewer), gone);
    if viewer != org {
      assert VersionKeys(s, viewer) !! gone;
      assert VersionKeys(t, viewer) == VersionKeys(s, viewer);
      assert WorkflowKeys(t, viewer) == WorkflowKeys(s, viewer);
    }
  }

  // ---- one operation ----

  /** Ids an operation brings along are new to the tables. */
  ghost predicate Fresh(s: Store, op: Operation) {
    NewIds(op) !! s.workflows.Keys + s.versions.Keys
  }

  lemma PublishLocal(registered: set<string>, s: Store, org: Uuid, user: Uuid, id: Uuid, versionId: Uuid,
                     definition: Option<WorkflowGraph>)
    requires Referential(s) && versionId !in s.versions
    ensures PublishIn(registered, Part(s, org), org, user, id, versionId, definition)
         == (Part(PublishIn(registered, s, org, user, id, versionId, definition).0, org),
             PublishIn(registered, s, org, user, id, versionId, definition).1)
  {
    PartOpen(registered, s, org, user, id, versionId, definition);
    var open := Open(registered, s, org, user, id, versionId, definition);
    if open.Success? {
      PartNumber(s, org, open.value);
      FinishLocal(s, org, Number(s, open.value));
    }
  }

  lemma PublishLeavesOthers(registered: set<string>, s: Store, org: Uuid, other: Uuid, user: Uuid, id: Uuid,
                            versionId: Uuid,
                            definition: Option<WorkflowGraph>)
    requires org != other
    ensures Part(PublishIn(registered, s, org, user, id, versionId, definition).0, other) == Part(s, other)
  {
    var open := Open(registered, s, org, user, id, versionId, definition);
    if open.Success? {
      FinishLeavesOthers(s, org, other, Number(s, open.value));
    }
  }

  lemma RevertLocal(registered: set<string>, s: Store, org: Uuid, user: Uuid, id: Uuid, versionId: Uuid, number: int)
    requires Referential(s) && versionId !in s.versions && UniqueNumbers(s.versions)
    ensures RevertIn(registered, Part(s, org), org, user, id, versionId, number)
         == (Part(RevertIn(registered, s, org, user, id, versionId, number).0, org),
             RevertIn(registered, s, org, user, id, versionId, number).1)
  {
    if Mine(s, org, id) {
      PartFind(s, org, id, number);
      var v := FindVersion(s.versions, id, number);
      if v.Some? {
        assert Owns(s, org, v.value);
        var g := Parse(s.versions[v.value].definition);
        if g.Some? {
          PublishLocal(registered, s, org, user, id, versionId, g);
        }
      }
    }
  }

  lemma ListLocal(registered: set<string>, s: Store, org: Uuid)
    ensures Exec(registered, Part(s, org), org, List).1 == Exec(registered, s, org, List).1
  {
  }

  lemma GetVersionLocal(s: Store, org: Uuid, id: Uuid, number: int)
    requires UniqueNumbers(s.versions)
    ensures GetVersionIn(Part(s, org), org, id, number) == GetVersionIn(s, org, id, number)
  {
    if Mine(s, org, id) {
      PartFind(s, org, id, number);
      if FindVersion(s.versions, id, number).Some? {
        assert Owns(s, org, FindVersion(s.versions, id, number).value);
      }
    }
  }

  lemma UpdateLocal(s: Store, org: Uuid, id: Uuid, name: Option<string>, description: Option<string>,
                    definition: Option<WorkflowGraph>)
    requires Referential(s)
    ensures UpdateIn(Part(s, org), org, id, name, description, definition)
         == (Part(UpdateIn(s, org, id, name, description, definition).0, org),
             UpdateIn(s, org, id, name, description, definition).1)
  {
    if Mine(s, org, id) {
      RowLocal(s, org, id, UpdatedRow(s.workflows[id], name, description, definition));
    }
  }

  lemma ArchiveLocal(s: Store, org: Uuid, id: Uuid)
    requires Referential(s)
    ensures ArchiveIn(Part(s, org), org, id) == (Part(ArchiveIn(s, org, id).0, org), ArchiveIn(s, org, id).1)
  {
    if Mine(s, org, id) {
      RowLocal(s, org, id, s.workflows[id].(status := Archived));
    }
  }

  lemma InsertLocal(s: Store, org: Uuid, id: Uuid, row: WorkflowRow)
    requires Referential(s) && id !in s.workflows && row.org == org
    ensures Insert(Part(s, org), id, row) == (Part(Insert(s, id, row).0, org), Insert(s, id, row).1)
  {
    RowLocal(s, org, id, row);
  }

  lemma DuplicateLocal(s: Store, org: Uuid, id: Uuid, newId: Uuid, name: string)
    requires Referential(s) && newId !in s.workflows
    ensures DuplicateIn(Part(s, org), org, id, newId, name)
         == (Part(DuplicateIn(s, org, id, newId, name).0, org), DuplicateIn(s, org, id, newId, name).1)
  {
    if Mine(s, org, id) {
      InsertLocal(s, org, newId, FreshRow(org, name, s.workflows[id].description, s.workflows[id].draft));
    }
  }

  lemma RemoveLocal(registered: set<string>, s: Store, org: Uuid, id: Uuid)
    ensures Exec(registered, Part(s, org), org, Delete(id))
         == (Part(Exec(registered, s, org, Delete(id)).0, org), Exec(registered, s, org, Delete(id)).1)
  {
    if Mine(s, org, id) {
      DeleteLocal(s, org, id, org);
    }
  }

  lemma ReadsLocal(registered: set<string>, s: Store, org: Uuid, op: Operation)
    requires UniqueNumbers(s.versions) && (op.List? || op.Get? || op.ListVersions? || op.GetVersion?)
    ensures Exec(registered, Part(s, org), org, op) == (Part(s, org), Exec(registered, s, org, op).1)
    ensures Exec(registered, s, org, op).0 == s
  {
    match op
    case List => ListLocal(registered, s, org);
    case Get(id) =>
    case ListVersions(id) =>
      if Mine(s, org, id) {
        PartVersions(s, org, id);
      }
    case GetVersion(id, number) => GetVersionLocal(s, org, id, number);
  }

  /**
   What an organization's request answers and does can be computed from that organization's part of the tables alone.
   */
  lemma ExecLocal(registered: set<string>, s: Store, org: Uuid, op: Operation)
    requires Inv(registered, s) && Fresh(s, op)
    ensures Exec(registered, Part(s, org), org, op)
         == (Part(Exec(registered, s, org, op).0, org), Exec(registered, s, org, op).1)
  {
    ReferencesExist(registered, s);
    match op
    case Create(id, name, description) => InsertLocal(s, org, id, FreshRow(org, name, description, None));
    case List => ReadsLocal(registered, s, org, op);
    case Get(id) => ReadsLocal(registered, s, org, op);
    case Update(id, name, description, definition) => UpdateLocal(s, org, id, name, description, definition);
    case Delete(id) => RemoveLocal(registered, s, org, id);
    case Publish(id, versionId, user, definition) => PublishLocal(registered, s, org, user, id, versionId, definition);
    case ListVersions(id) => ReadsLocal(registered, s, org, op);
    case GetVersion(id, number) => ReadsLocal(registered, s, org, op);
    case Revert(id, versionId, user, number) => RevertLocal(registered, s, org, user, id, versionId, number);
    case Duplicate(id, newId, name) => DuplicateLocal(s, org, id, newId, name);
    case Archive(id) => ArchiveLocal(s, org, id);
  }

  /** Tables that agree on an organization's part answer its request alike, and agree on its part afterwards. */
  lemma ExecAgrees(registered: set<string>, s: Store, t: Store, org: Uuid, op: Operation)
    requires Inv(registered, s) && Inv(registered, t) && Fresh(s, op) && Fresh(t, op)
    requires Part(s, org) == Part(t, org)
    ensures Exec(registered, s, org, op).1 == Exec(registered, t, org, op).1
    ensures Part(Exec(registered, s, org, op).0, org) == Part(Exec(registered, t, org, op).0, org)
  {
    ExecLocal(registered, s, org, op);
    ExecLocal(registered, t, org, op);
  }

  lemma RevertLeavesOthers(registered: set<string>, s: Store, org: Uuid, other: Uuid, user: Uuid, id: Uuid,
                           versionId: Uuid, number: int)
    requires org != other
    ensures Part(RevertIn(registered, s, org, user, id, versionId, number).0, other) == Part(s, other)
  {
    if Mine(s, org, id) && FindVersion(s.versions, id, number).Some? {
      var g := Parse(s.versions[FindVersion(s.versions, id, number).value].definition);
      if g.Some? {
        PublishLeavesOthers(registered, s, org, other, user, id, versionId, g);
      }
    }
  }

  lemma InsertLeavesOthers(s: Store, org: Uuid, other: Uuid, id: Uuid, row: WorkflowRow)
    requires Referential(s) && row.org == org != other
    ensures Part(Insert(s, id, row).0, other) == Part(s, other)
  {
    if id !in s.workflows {
      RowLeavesOthers(s, org, id, row, other);
    }
  }

  lemma UpdateLeavesOthers(s: Store, org: Uuid, other: Uuid, id: Uuid, name: Option<string>,
                           description: Option<string>,
                           definition: Option<WorkflowGraph>)
    requires Referential(s) && org != other
    ensures Part(UpdateIn(s, org, id, name, description, definition).0, other) == Part(s, other)
  {
    if Mine(s, org, id) {
      RowLeavesOthers(s, org, id, UpdatedRow(s.workflows[id], name, description, definition), other);
    }
  }

  lemma ArchiveLeavesOthers(s: Store, org: Uuid, other: Uuid, id: Uuid)
    requires Referential(s) && org != other
    ensures Part(ArchiveIn(s, org, id).0, other) == Part(s, other)
  {
    if Mine(s, org, id) {
      RowLeavesOthers(s, org, id, s.workflows[id].(status := Archived), other);
    }
  }

  /** A request changes nothing in any other organization's part. */
  lemma ExecLeavesOthers(registered: set<string>, s: Store, org: Uuid, other: Uuid, op: Operation)
    requires Inv(registered, s) && org != other
    ensures Part(Exec(registered, s, org, op).0, other) == Part(s, other)
  {
    ReferencesExist(registered, s);
    match op
    case Create(id, name, description) => InsertLeavesOthers(s, org, other, id, FreshRow(org, name, description, None));
    case Update(id, name, description, definition) =>
      UpdateLeavesOthers(s, org, other, id, name, description, definition);
    case Delete(id) =>
      if Mine(s, org, id) {
        DeleteLocal(s, org, id, other);
      }
    case Publish(id, versionId, user, definition) =>
      PublishLeavesOthers(registered, s, org, other, user, id, versionId, definition);
    case Revert(id, versionId, user, number) =>
      RevertLeavesOthers(registered, s, org, other, user, id, versionId, number);
    case Duplicate(id, newId, name) =>
      if Mine(s, org, id) {
        InsertLeavesOthers(s, org, other, newId,
                           FreshRow(org, name, s.workflows[id].description, s.workflows[id].draft));
      }
    case Archive(id) => ArchiveLeavesOthers(s, org, other, id);
    case _ =>
  }

  // ---- one step of the interleaved system ----

  function TicketsOf(publishers: map<Ticket, Publisher>, org: Uuid): map<Ticket, Publisher> {
    map t | t in publishers && t.org == org :: publishers[t]
  }

  /** Two worlds look the same to the organization: the registry, its part of the tables, and its publishers. */
  ghost predicate Agree(w: World, v: World, org: Uuid) {
    w.registered == v.registered && Part(w.store, org) == Part(v.store, org)
    && TicketsOf(w.publishers, org) == TicketsOf(v.publishers, org)
  }

  /** The organization on whose behalf a step is taken; registering a node type is nobody's. */
  function ActorOf(step: Step): Option<Uuid> {
    match step
    case Call(org, _) => Some(org)
    case Load(ticket, _, _, _, _) => Some(ticket.org)
    case ReadMax(ticket) => Some(ticket.org)
    case Complete(ticket) => Some(ticket.org)
    case Abandon(ticket) => Some(ticket.org)
    case Register(_) => None
  }

  predicate Concerns(step: Step, org: Uuid) {
    ActorOf(step) == None || ActorOf(step) == Some(org)
  }

  lemma SameTicket(w: World, v: World, org: Uuid, t: Ticket)
    requires TicketsOf(w.publishers, org) == TicketsOf(v.publishers, org) && t.org == org
    ensures t in w.publishers <==> t in v.publishers
    ensures t in w.publishers ==> w.publishers[t] == v.publishers[t]
  {
    assert t in w.publishers <==> t in TicketsOf(w.publishers, org);
    assert t in v.publishers <==> t in TicketsOf(v.publishers, org);
    assert t in w.publishers ==> TicketsOf(w.publishers, org)[t] == w.publishers[t];
  }

  lemma EnabledAlone(w: World, v: World, org: Uuid, step: Step)
    requires Agree(w, v, org) && v.used <= w.used && Concerns(step, org) && Enabled(w, step)
    ensures Enabled(v, step)
  {
    match step
    case ReadMax(ticket) => SameTicket(w, v, org, ticket);
    case Complete(ticket) => SameTicket(w, v, org, ticket);
    case Load(ticket, _, _, _, _) => SameTicket(w, v, org, ticket);
    case _ =>
  }

  lemma PublisherIsMine(w: World, t: Ticket)
    requires WorldInv(w) && t in w.publishers
    ensures Referential(w.store) && MineOrGone(w.store, t.org, WorkflowOf(w.publishers[t]))
    ensures VersionIdOf(w.publishers[t]) !in w.store.versions
  {
    ReferencesExist(w.registered, w.store);
    assert PublisherOk(w.registered, w.store, w.used, t, w.publishers[t]);
  }

  lemma CallAgrees(w: World, v: World, org: Uuid, op: Operation)
    requires WorldInv(w) && WorldInv(v) && Agree(w, v, org) && Enabled(w, Call(org, op)) && Enabled(v, Call(org, op))
    ensures Agree(Apply(w, Call(org, op)).0, Apply(v, Call(org, op)).0, org)
    ensures Apply(w, Call(org, op)).1 == Apply(v, Call(org, op)).1
  {
    ExecAgrees(w.registered, w.store, v.store, org, op);
  }

  lemma LoadAgrees(w: World, v: World, ticket: Ticket, user: Uuid, id: Uuid, versionId: Uuid,
                   definition: Option<WorkflowGraph>)
    requires Agree(w, v, ticket.org)
    ensures Agree(LoadIn(w, ticket, user, id, versionId, definition).0,
                  LoadIn(v, ticket, user, id, versionId, definition).0, ticket.org)
    ensures LoadIn(w, ticket, user, id, versionId, definition).1 == LoadIn(v, ticket, user, id, versionId, definition).1
  {
    PartOpen(w.registered, w.store, ticket.org, user, id, versionId, definition);
    PartOpen(v.registered, v.store, ticket.org, user, id, versionId, definition);
    var open := Open(w.registered, w.store, ticket.org, user, id, versionId, definition);
    if open.Success? {
      TicketSet(w.publishers, ticket, Validated(open.value));
      TicketSet(v.publishers, ticket, Validated(open.value));
    }
  }

  lemma TicketSet(publishers: map<Ticket, Publisher>, t: Ticket, x: Publisher)
    ensures TicketsOf(publishers[t := x], t.org) == TicketsOf(publishers, t.org)[t := x]
  {
  }

  lemma TicketGone(publishers: map<Ticket, Publisher>, t: Ticket, org: Uuid)
    ensures TicketsOf(publishers - {t}, org) == TicketsOf(publishers, org) - {t}
  {
  }

  lemma ReadMaxAgrees(w: World, v: World, ticket: Ticket)
    requires WorldInv(w) && WorldInv(v) && Agree(w, v, ticket.org) && Enabled(w, ReadMax(ticket))
    requires Enabled(v, ReadMax(ticket))
    ensures Agree(Apply(w, ReadMax(ticket)).0, Apply(v, ReadMax(ticket)).0, ticket.org)
  {
    SameTicket(w, v, ticket.org, ticket);
    PublisherIsMine(w, ticket);
    PublisherIsMine(v, ticket);
    var o := w.publishers[ticket].o;
    PartNumber(w.store, ticket.org, o);
    PartNumber(v.store, ticket.org, o);
    TicketSet(w.publishers, ticket, Numbered(Number(w.store, o)));
    TicketSet(v.publishers, ticket, Numbered(Number(w.store, o)));
  }

  lemma CompleteAgrees(w: World, v: World, ticket: Ticket)
    requires WorldInv(w) && WorldInv(v) && Agree(w, v, ticket.org) && Enabled(w, Complete(ticket))
    requires Enabled(v, Complete(ticket))
    ensures Agree(Apply(w, Complete(ticket)).0, Apply(v, Complete(ticket)).0, ticket.org)
    ensures Apply(w, Complete(ticket)).1 == Apply(v, Complete(ticket)).1
  {
    SameTicket(w, v, ticket.org, ticket);
    PublisherIsMine(w, ticket);
    PublisherIsMine(v, ticket);
    var p := w.publishers[ticket].p;
    FinishLocal(w.store, ticket.org, p);
    FinishLocal(v.store, ticket.org, p);
    TicketGone(w.publishers, ticket, ticket.org);
    TicketGone(v.publishers, ticket, ticket.org);
  }

  /**
   An organization's own step, or a registration, has the same answer and the same effect in worlds that look the same
   to it.
   */
  lemma StepAgrees(w: World, v: World, org: Uuid, step: Step)
    requires WorldInv(w) && WorldInv(v) && Agree(w, v, org)
    requires Concerns(step, org) && Enabled(w, step) && Enabled(v, step)
    ensures Agree(Apply(w, step).0, Apply(v, step).0, org)
    ensures Apply(w, step).1 == Apply(v, step).1
  {
    match step
    case Call(_, op) => CallAgrees(w, v, org, op);
    case Load(ticket, user, id, versionId, definition) => LoadAgrees(w, v, ticket, user, id, versionId, definition);
    case ReadMax(ticket) => ReadMaxAgrees(w, v, ticket);
    case Complete(ticket) => CompleteAgrees(w, v, ticket);
    case Abandon(ticket) =>
      TicketGone(w.publishers, ticket, org);
      TicketGone(v.publishers, ticket, org);
    case Register(_) =>
  }

  lemma PublisherLeavesOthers(w: World, org: Uuid, ticket: Ticket, x: Publisher, used: set<Uuid>)
    requires ticket.org != org
    ensures Agree(w.(publishers := w.publishers[ticket := x], used := used), w, org)
    ensures Agree(w.(publishers := w.publishers - {ticket}, used := used), w, org)
  {
  }

  lemma LoadLeavesOthers(w: World, org: Uuid, ticket: Ticket, user: Uuid, id: Uuid, versionId: Uuid,
                         definition: Option<WorkflowGraph>)
    requires ticket.org != org
    ensures Agree(LoadIn(w, ticket, user, id, versionId, definition).0, w, org)
  {
    var open := Open(w.registered, w.store, ticket.org, user, id, versionId, definition);
    if open.Success? {
      PublisherLeavesOthers(w, org, ticket, Validated(open.value), w.used + {versionId});
    }
  }

  lemma CompleteLeavesOthers(w: World, org: Uuid, ticket: Ticket)
    requires WorldInv(w) && Enabled(w, Complete(ticket)) && ticket.org != org
    ensures Agree(Apply(w, Complete(ticket)).0, w, org)
  {
    PublisherIsMine(w, ticket);
    FinishLeavesOthers(w.store, ticket.org, org, w.publishers[ticket].p);
    PublisherLeavesOthers(w, org, ticket, w.publishers[ticket], w.used);
  }

  lemma CallLeavesOthers(w: World, org: Uuid, actor: Uuid, op: Operation)
    requires WorldInv(w) && Enabled(w, Call(actor, op)) && actor != org
    ensures Agree(Apply(w, Call(actor, op)).0, w, org)
  {
    ExecLeavesOthers(w.registered, w.store, actor, org, op);
  }

  lemma ReadMaxLeavesOthers(w: World, org: Uuid, ticket: Ticket)
    requires Enabled(w, ReadMax(ticket)) && ticket.org != org
    ensures Agree(Apply(w, ReadMax(ticket)).0, w, org)
  {
    PublisherLeavesOthers(w, org, ticket, Numbered(Number(w.store, w.publishers[ticket].o)), w.used);
  }

  lemma AbandonLeavesOthers(w: World, org: Uuid, ticket: Ticket)
    requires ticket.org != org
    ensures Agree(Apply(w, Abandon(ticket)).0, w, org)
  {
    TicketGone(w.publishers, ticket, org);
  }

  /** A step on behalf of somebody else changes nothing the organization can see. */
  lemma StepLeavesOthers(w: World, org: Uuid, step: Step)
    requires WorldInv(w) && Enabled(w, step) && !Concerns(step, org)
    ensures Agree(Apply(w, step).0, w, org)
  {
    match step
    case Call(actor, op) => CallLeavesOthers(w, org, actor, op);
    case Load(ticket, user, id, versionId, definition) =>
      LoadLeavesOthers(w, org, ticket, user, id, versionId, definition);
    case ReadMax(ticket) => ReadMaxLeavesOthers(w, org, ticket);
    case Complete(ticket) => CompleteLeavesOthers(w, org, ticket);
    case Abandon(ticket) => AbandonLeavesOthers(w, org, ticket);
  }

  // ---- whole runs ----

  datatype Answer = Answer(org: Uuid, response: Response)

  /** A schedule of steps that can be taken one after the other. */
  ghost predicate Feasible(w: World, steps: seq<Step>)
    decreases |steps|
  {
    steps == [] || (Enabled(w, steps[0]) && Feasible(Apply(w, steps[0]).0, steps[1..]))
  }

  function AnswerOf(step: Step, response: Option<Response>): seq<Answer> {
    if response.Some? && ActorOf(step).Some? then [Answer(ActorOf(step).value, response.value)] else []
  }

  ghost function Serve(w: World, steps: seq<Step>): (World, seq<Answer>)
    requires Feasible(w, steps)
    decreases |steps|
  {
    if steps == [] then (w, [])
    else
      var (v, response) := Apply(w, steps[0]);
      var (end, answers) := Serve(v, steps[1..]);
      (end, AnswerOf(steps[0], response) + answers)
  }

  /** The schedule without the other organizations' steps. */
  function Only(steps: seq<Step>, org: Uuid): seq<Step> {
    if steps == [] then [] else (if Concerns(steps[0], org) then [steps[0]] else []) + Only(steps[1..], org)
  }

  function AnswersTo(answers: seq<Answer>, org: Uuid): seq<Answer> {
    if answers == [] then []
    else (if answers[0].org == org then [answers[0]] else []) + AnswersTo(answers[1..], org)
  }

  lemma AnswersToConcat(a: seq<Answer>, b: seq<Answer>, org: Uuid)
    requires |a| <= 1
    ensures AnswersTo(a + b, org) == AnswersTo(a, org) + AnswersTo(b, org)
  {
    if a == [] {
      assert a + b == b;
    } else {
      var all := a + b;
      assert all[0] == a[0] && all[1..] == b && a[1..] == [];
    }
  }

  lemma AnswersToFirst(w: World, step: Step, org: Uuid)
    requires Enabled(w, step)
    ensures var answer := AnswerOf(step, Apply(w, step).1);
      AnswersTo(answer, org) == if Concerns(step, org) then answer else []
  {
  }

  lemma UsedGrows(w: World, v: World, step: Step)
    requires v.used <= w.used && Enabled(w, step)
    ensures v.used <= Apply(w, step).0.used
    ensures Enabled(v, step) ==> Apply(v, step).0.used <= Apply(w, step).0.used
  {
  }

  /**
   Non-interference over any interleaving, publishers between their steps included: taking every other organization's
   steps out of the schedule leaves a schedule that can be taken, changes no answer this organization gets, and
   changes nothing it can see at the end.
   */
  lemma {:induction false} Noninterference(w: World, alone: World, steps: seq<Step>, org: Uuid)
    requires WorldInv(w) && WorldInv(alone) && Agree(w, alone, org) && alone.used <= w.used && Feasible(w, steps)
    ensures Feasible(alone, Only(steps, org))
    ensures AnswersTo(Serve(w, steps).1, org) == Serve(alone, Only(steps, org)).1
    ensures Agree(Serve(w, steps).0, Serve(alone, Only(steps, org)).0, org)
    decreases |steps|
  {
    if steps != [] {
      var first, rest := steps[0], steps[1..];
      var v := Apply(w, first).0;
      StepKeeps(w, first);
      UsedGrows(w, alone, first);
      AnswersToFirst(w, first, org);
      AnswersToConcat(AnswerOf(first, Apply(w, first).1), Serve(v, rest).1, org);
      if Concerns(first, org) {
        EnabledAlone(w, alone, org, first);
        StepAgrees(w, alone, org, first);
        StepKeeps(alone, first);
        UsedGrows(w, alone, first);
        Noninterference(v, Apply(alone, first).0, rest, org);
        assert Only(steps, org)[0] == first && Only(steps, org)[1..] == Only(rest, org);
      } else {
        StepLeavesOthers(w, org, first);
        Noninterference(v, alone, rest, org);
        assert Only(steps, org) == Only(rest, org);
      }
    }
  }
}
