/** What the caller of a workflow operation is answered and finds afterwards, in terms of the rows themselves. */
module WorkflowLaws {
  import opened Outcomes
  import opened Graphs
  import opened WellFormedness
  import opened WorkflowStore
  import opened WorkflowHistory
  import opened WorkflowRuns

  predicate Owned(s: Store, org: Uuid, id: Uuid) {
    id in s.workflows && s.workflows[id].org == org
  }

  /** Everything is as it was, except perhaps the row of one workflow. */
  ghost predicate OnlyRow(s: Store, t: Store, id: Uuid) {
    && t.versions == s.versions && t.nodeRows == s.nodeRows && t.edgeRows == s.edgeRows
    && (forall w :: w != id ==> (w in t.workflows <==> w in s.workflows))
    && (forall w :: w != id && w in s.workflows ==> t.workflows[w] == s.workflows[w])
  }

  // ---- creating, reading ----

  lemma CreateTakesEffect(registered: set<string>, s: Store, org: Uuid, id: Uuid, name: string,
                          description: Option<string>)
    requires id !in s.workflows
    ensures var (t, r) := Exec(registered, s, org, Create(id, name, description));
      && OnlyRow(s, t, id) && id in t.workflows && r == OneWorkflow(id, t.workflows[id])
      && t.workflows[id].org == org && t.workflows[id].name == name && t.workflows[id].description == description
      && t.workflows[id].status == Draft && t.workflows[id].draft == None
      && t.workflows[id].currentVersion == None && t.workflows[id].activeVersionId == None
  {
  }

  /** Reading one workflow: the row to its owner, and not found to anybody else. */
  lemma GetAnswers(registered: set<string>, s: Store, org: Uuid, id: Uuid)
    ensures var (t, r) := Exec(registered, s, org, Get(id));
      t == s && r == if Owned(s, org, id) then OneWorkflow(id, s.workflows[id]) else Refused(NotFound)
  {
  }

  /** The list has exactly the organization's own workflows. */
  lemma ListAnswers(registered: set<string>, s: Store, org: Uuid)
    ensures var (t, r) := Exec(registered, s, org, List);
      && t == s && r.ManyWorkflows?
      && (forall id :: id in r.workflows <==> Owned(s, org, id))
      && (forall id :: id in r.workflows ==> r.workflows[id] == s.workflows[id])
  {
  }

  /** The list of versions has exactly the workflow's own ones. */
  lemma ListVersionsAnswers(registered: set<string>, s: Store, org: Uuid, id: Uuid)
    ensures var (t, r) := Exec(registered, s, org, ListVersions(id));
      && t == s && (!Owned(s, org, id) ==> r == Refused(NotFound))
      && (Owned(s, org, id) ==>
            && r.ManyVersions?
            && (forall v :: v in r.versions <==> v in s.versions && s.versions[v].workflowId == id)
            && (forall v :: v in r.versions ==> r.versions[v] == s.versions[v]))
  {
  }

  /** One version by its number. */
  lemma GetVersionAnswers(registered: set<string>, s: Store, org: Uuid, id: Uuid, number: int, v: Uuid)
    requires UniqueNumbers(s.versions)
    requires v in s.versions && s.versions[v].workflowId == id && s.versions[v].number == number
    ensures Exec(registered, s, org, GetVersion(id, number))
         == (s, if Owned(s, org, id) then OneVersion(v, s.versions[v]) else Refused(NotFound))
  {
    assert IsVersion(s.versions, v, id, number);
  }

  lemma NoSuchVersion(registered: set<string>, s: Store, org: Uuid, id: Uuid, number: int)
    requires forall v :: v in s.versions && s.versions[v].workflowId == id ==> s.versions[v].number != number
    ensures Exec(registered, s, org, GetVersion(id, number)) == (s, Refused(NotFound))
  {
  }

  // ---- changing ----

  /** Fields that are given change, a definition becomes the draft, and nothing else changes. */
  lemma UpdateTakesEffect(registered: set<string>, s: Store, org: Uuid, id: Uuid, name: Option<string>,
                          description: Option<string>, definition: Option<WorkflowGraph>)
    ensures var (t, r) := Exec(registered, s, org, Update(id, name, description, definition));
      if !Owned(s, org, id) then t == s && r == Refused(NotFound)
      else
        && OnlyRow(s, t, id) && id in t.workflows && r == OneWorkflow(id, t.workflows[id])
        && var row, after := s.workflows[id], t.workflows[id];
           && after.name == (if name.Some? then name.value else row.name)
           && after.description == (if description.Some? then description else row.description)
           && after.draft == (if definition.Some? then Some(Dump(definition.value)) else row.draft)
           && after.org == row.org && after.status == row.status
           && after.currentVersion == row.currentVersion && after.activeVersionId == row.activeVersionId
  {
  }

  /** An archived workflow is archived, and nothing else about it changes; archiving twice is refused. */
  lemma ArchiveTakesEffect(registered: set<string>, s: Store, org: Uuid, id: Uuid)
    ensures var (t, r) := Exec(registered, s, org, Archive(id));
      if !Owned(s, org, id) then t == s && r == Refused(NotFound)
      else if s.workflows[id].status == Archived then t == s && r == Refused(AlreadyArchived)
      else
        && OnlyRow(s, t, id) && id in t.workflows && r == OneWorkflow(id, t.workflows[id])
        && t.workflows[id].status == Archived
        && t.workflows[id] == s.workflows[id].(status := Archived)
  {
  }

  /** A duplicate carries the source's description and draft, and starts without versions. */
  lemma DuplicateTakesEffect(registered: set<string>, s: Store, org: Uuid, id: Uuid, newId: Uuid, name: string)
    requires newId !in s.workflows
    ensures var (t, r) := Exec(registered, s, org, Duplicate(id, newId, name));
      if !Owned(s, org, id) then t == s && r == Refused(NotFound)
      else
        && OnlyRow(s, t, newId) && newId in t.workflows && r == OneWorkflow(newId, t.workflows[newId])
        && var copy := t.workflows[newId];
           && copy.org == org && copy.name == name && copy.status == Draft
           && copy.description == s.workflows[id].description && copy.draft == s.workflows[id].draft
           && copy.currentVersion == None && copy.activeVersionId == None
  {
  }

  /** A deleted workflow is gone for everybody, with its versions and their rows; all others are as they were. */
  lemma DeleteTakesEffect(registered: set<string>, s: Store, org: Uuid, id: Uuid, reader: Uuid)
    ensures var (t, r) := Exec(registered, s, org, Delete(id));
      if !Owned(s, org, id) then t == s && r == Refused(NotFound)
      else
        && r == Done && Exec(registered, t, reader, Get(id)).1 == Refused(NotFound)
        && (forall v :: v in t.versions <==> v in s.versions && s.versions[v].workflowId != id)
        && (forall v :: v in t.versions ==> t.versions[v] == s.versions[v])
        && (forall v :: v in t.nodeRows <==> v in s.nodeRows && !(v in s.versions && s.versions[v].workflowId == id))
        && (forall v :: v in t.edgeRows <==> v in s.edgeRows && !(v in s.versions && s.versions[v].workflowId == id))
        && (forall w :: w in t.workflows <==> w in s.workflows && w != id)
        && (forall w :: w in t.workflows ==> t.workflows[w] == s.workflows[w])
  {
  }

  // ---- publishing ----

  /** The version is the next one, holds the graph, and is the active one of a published workflow without a draft. */
  ghost predicate PublishedAs(s: Store, t: Store, r: Response, id: Uuid, versionId: Uuid, user: Uuid, g: WorkflowGraph)
    requires id in s.workflows
  {
    && r.NewVersion? && r.id == id && r.versionId == versionId
    && versionId in t.versions && t.versions[versionId] == r.version
    && id in t.workflows && t.workflows[id] == r.workflow
    && r.version.workflowId == id && r.version.number == Latest(s.workflows[id]) + 1
    && r.version.definition == Dump(g) && r.version.createdBy == user
    && r.workflow.currentVersion == Some(r.version.number) && r.workflow.activeVersionId == Some(versionId)
    && r.workflow.status == Published && r.workflow.draft == None
  }

  /** Every answer to a publication of the stored draft. */
  lemma PublishDraftAnswers(registered: set<string>, s: Store, org: Uuid, user: Uuid, id: Uuid, versionId: Uuid)
    requires Inv(registered, s) && versionId !in s.versions
    ensures var (t, r) := Exec(registered, s, org, Publish(id, versionId, user, None));
      && (r == Refused(NotFound) <==> !Owned(s, org, id))
      && (r == Refused(NoDefinition) <==> Owned(s, org, id) && s.workflows[id].draft == None)
      && (r.Refused? ==> t == s)
      && (Owned(s, org, id) ==> forall g :: s.workflows[id].draft == Some(Dump(g)) ==>
            if Publishable(registered, g) then PublishedAs(s, t, r, id, versionId, user, g)
            else r == Refused(InvalidGraph))
  {
    if Owned(s, org, id) {
      assert RowOk(s, id);
      if s.workflows[id].draft.Some? {
        var g :| s.workflows[id].draft.value == Dump(g);
        DraftIsTheGraph(s.workflows[id], g);
        PublishGraphAnswers(registered, s, org, user, id, versionId, g);
        forall h | s.workflows[id].draft == Some(Dump(h))
          ensures h == g
        {
          ParseDump(h);
          ParseDump(g);
        }
      }
    }
  }

  /** A stored draft stands for the graph that was saved. */
  lemma DraftIsTheGraph(row: WorkflowRow, g: WorkflowGraph)
    requires row.draft == Some(Dump(g))
    ensures Chosen(row, None) == Success(g) == Chosen(row, Some(g))
  {
    ParseDump(g);
  }

  /** Every answer to a publication of a graph in the request. */
  lemma PublishGraphAnswers(registered: set<string>, s: Store, org: Uuid, user: Uuid, id: Uuid, versionId: Uuid,
                            g: WorkflowGraph)
    requires Inv(registered, s) && versionId !in s.versions
    ensures var (t, r) := Exec(registered, s, org, Publish(id, versionId, user, Some(g)));
      if !Owned(s, org, id) then t == s && r == Refused(NotFound)
      else if !Publishable(registered, g) then t == s && r == Refused(InvalidGraph)
      else PublishedAs(s, t, r, id, versionId, user, g)
  {
    if Owned(s, org, id) && Publishable(registered, g) {
      PublishSucceeds(registered, s, org, user, id, versionId, g);
    }
  }

  /** What was saved as a draft is what a later publication without a graph publishes. */
  lemma SaveThenPublish(registered: set<string>, s: Store, org: Uuid, user: Uuid, id: Uuid, versionId: Uuid,
                        name: Option<string>, description: Option<string>, g: WorkflowGraph)
    requires Inv(registered, s) && Owned(s, org, id) && versionId !in s.versions
    ensures var saved := Exec(registered, s, org, Update(id, name, description, Some(g))).0;
      var (t, r) := Exec(registered, saved, org, Publish(id, versionId, user, None));
      if Publishable(registered, g) then PublishedAs(s, t, r, id, versionId, user, g)
      else t == saved && r == Refused(InvalidGraph)
  {
    var saved := Exec(registered, s, org, Update(id, name, description, Some(g))).0;
    ExecKeeps(registered, s, org, Update(id, name, description, Some(g)));
    UpdateTakesEffect(registered, s, org, id, name, description, Some(g));
    PublishDraftAnswers(registered, saved, org, user, id, versionId);
    assert saved.workflows[id].draft == Some(Dump(g));
  }

  /** Reverting is refused exactly if the workflow is not the caller's or has no such number. */
  lemma RevertAnswers(registered: set<string>, s: Store, org: Uuid, user: Uuid, id: Uuid, versionId: Uuid, number: int)
    requires Inv(registered, s) && versionId !in s.versions
    ensures var (t, r) := Exec(registered, s, org, Revert(id, versionId, user, number));
      if Owned(s, org, id) && 1 <= number <= Latest(s.workflows[id])
      then r.NewVersion? && r.version.createdBy == user && r.version.workflowId == id
      else t == s && r == Refused(NotFound)
  {
    if Owned(s, org, id) {
      assert RowOk(s, id);
      if 1 <= number <= Latest(s.workflows[id]) {
        RevertSucceeds(registered, s, org, user, id, versionId, number);
      } else {
        assert number !in Numbers(s.versions, id);
        assert forall v :: !IsVersion(s.versions, v, id, number);
      }
    }
  }

  // ---- publishing in parts ----

  /** The three parts of a publication with nothing in between are the publication. */
  lemma PublishInParts(w: World, ticket: Ticket, user: Uuid, id: Uuid, versionId: Uuid,
                       definition: Option<WorkflowGraph>)
    requires Enabled(w, Load(ticket, user, id, versionId, definition))
    ensures var (w1, r1) := Apply(w, Load(ticket, user, id, versionId, definition));
      var (t, r) := Exec(w.registered, w.store, ticket.org, Publish(id, versionId, user, definition));
      if r1.Some? then r1 == Some(r) && w1.store == w.store == t && w1.publishers == w.publishers
      else
        && Enabled(w1, ReadMax(ticket))
        && var (w2, r2) := Apply(w1, ReadMax(ticket));
           && r2 == None && Enabled(w2, Complete(ticket))
           && var (w3, r3) := Apply(w2, Complete(ticket));
              r3 == Some(r) && w3.store == t && w3.publishers == w.publishers
  {
    var open := Open(w.registered, w.store, ticket.org, user, id, versionId, definition);
    if open.Success? {
      var p := Number(w.store, open.value);
      assert w.publishers[ticket := Validated(open.value)][ticket := Numbered(p)] - {ticket} == w.publishers;
    }
  }

  /** A late insert overwrites what publishing is about, unless it found it that way; it leaves everything else. */
  lemma LateInsertWrites(s: Store, p: Pending)
    requires p.workflowId in s.workflows && p.versionId !in s.versions
    requires forall v :: v in s.versions && s.versions[v].workflowId == p.workflowId ==>
      s.versions[v].number != p.number
    requires p.loaded.currentVersion != Some(p.number) && p.loaded.activeVersionId != Some(p.versionId)
    ensures var (t, r) := Finish(s, p);
      var row, after := s.workflows[p.workflowId], t.workflows[p.workflowId];
      && r.NewVersion? && r.workflow == after && t.workflows == s.workflows[p.workflowId := after]
      && after.org == row.org && after.name == row.name && after.description == row.description
      && after.currentVersion == Some(p.number) && after.activeVersionId == Some(p.versionId)
      && after.status == (if p.loaded.status == Published then row.status else Published)
      && after.draft == (if p.loaded.draft == None then row.draft else None)
      && t.versions == s.versions[p.versionId := VersionRow(p.workflowId, p.number, Dump(p.graph), p.user)]
  {
  }

  // ---- the rows of a version ----

  predicate TowardsZero(x: real, n: int) {
    if x >= 0.0 then 0 <= n && n as real <= x < n as real + 1.0 else n <= 0 && n as real - 1.0 < x <= n as real
  }

  lemma TruncatesTowardsZero(x: real)
    ensures TowardsZero(x, Truncate(x))
  {
  }

  predicate NodeMirrored(m: NodeDict, row: NodeRow) {
    && row.nodeId == m.id && m.nodeType == Some(row.nodeType) && m.nodeLabel == Some(row.nodeLabel)
    && m.config == Some(row.config) && m.position.Some?
    && TowardsZero(m.position.value.x, row.positionX) && TowardsZero(m.position.value.y, row.positionY)
  }

  predicate EdgeMirrored(f: EdgeDict, row: EdgeRow) {
    && f.id == Some(row.edgeId) && f.source == row.source && f.target == row.target
    && f.sourceHandle == Some(row.sourceHandle) && f.targetHandle == Some(row.targetHandle)
  }

  /** The rows of a stored version say, field by field and in order, what its definition says. */
  lemma RowsMirrorDefinition(registered: set<string>, s: Store, v: Uuid)
    requires Inv(registered, s) && v in s.versions
    ensures var d := s.versions[v].definition;
      && d.nodes.Some? && d.edges.Some? && v in s.nodeRows && v in s.edgeRows
      && |s.nodeRows[v]| == |d.nodes.value| && |s.edgeRows[v]| == |d.edges.value|
      && (forall i :: 0 <= i < |d.nodes.value| ==> NodeMirrored(d.nodes.value[i], s.nodeRows[v][i]))
      && (forall i :: 0 <= i < |d.edges.value| ==> EdgeMirrored(d.edges.value[i], s.edgeRows[v][i]))
  {
    assert VersionOk(registered, s, v);
    var g :| StoredAs(s, v, g) && Publishable(registered, g);
    DumpFields(g);
    forall i | 0 <= i < |g.nodes|
      ensures NodeMirrored(Dump(g).nodes.value[i], s.nodeRows[v][i])
    {
      TruncatesTowardsZero(g.nodes[i].position.x);
      TruncatesTowardsZero(g.nodes[i].position.y);
    }
  }
}
