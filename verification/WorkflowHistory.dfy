/** Version history over whole runs, with any number of publishers between reading and writing at once. */
module WorkflowHistory {
  import opened Outcomes
  import opened Graphs
  import opened WorkflowStore

  // ---- the invariant of the tables ----

  function Latest(row: WorkflowRow): int {
    if row.currentVersion.None? then 0 else row.currentVersion.value
  }

  /** The version numbers are exactly 1..n for the n the row records, and the status agrees with whether n is 0. */
  ghost predicate Contiguous(row: WorkflowRow, numbers: set<int>) {
    && (row.currentVersion.Some? ==> row.currentVersion.value >= 1)
    && (forall k :: k in numbers <==> 1 <= k <= Latest(row))
    && (row.status == Draft ==> Latest(row) == 0)
    && (row.status == Published ==> Latest(row) >= 1)
  }

  /** The row points at its latest version. */
  ghost predicate PointsAtLatest(row: WorkflowRow, versions: map<Uuid, VersionRow>, id: Uuid) {
    if row.activeVersionId.None? then Latest(row) == 0
    else Latest(row) >= 1 && IsVersion(versions, row.activeVersionId.value, id, Latest(row))
  }

  ghost predicate DraftOk(row: WorkflowRow) {
    row.draft.Some? ==> exists g :: row.draft.value == Dump(g)
  }

  ghost predicate RowOk(s: Store, id: Uuid)
    requires id in s.workflows
  {
    && Contiguous(s.workflows[id], Numbers(s.versions, id))
    && PointsAtLatest(s.workflows[id], s.versions, id)
    && DraftOk(s.workflows[id])
  }

  /** The version's definition is a dumped graph, and the denormalised rows are that graph's. */
  ghost predicate StoredAs(s: Store, v: Uuid, g: WorkflowGraph) {
    && v in s.versions && s.versions[v].definition == Dump(g)
    && v in s.nodeRows && s.nodeRows[v] == NodeRowsOf(g)
    && v in s.edgeRows && s.edgeRows[v] == EdgeRowsOf(g)
  }

  ghost predicate VersionOk(registered: set<string>, s: Store, v: Uuid)
    requires v in s.versions
  {
    && s.versions[v].workflowId in s.workflows
    && exists g :: StoredAs(s, v, g) && Publishable(registered, g)
  }

  ghost predicate RowsOk(s: Store) {
    forall id {:trigger RowOk(s, id)} :: id in s.workflows ==> RowOk(s, id)
  }

  ghost predicate VersionsOk(registered: set<string>, s: Store) {
    forall v {:trigger VersionOk(registered, s, v)} :: v in s.versions ==> VersionOk(registered, s, v)
  }

  ghost predicate Inv(registered: set<string>, s: Store) {
    && UniqueNumbers(s.versions)
    && RowsOk(s)
    && VersionsOk(registered, s)
    && s.nodeRows.Keys == s.versions.Keys && s.edgeRows.Keys == s.versions.Keys
  }

  lemma MaxOfContiguous(row: WorkflowRow, versions: map<Uuid, VersionRow>, id: Uuid)
    requires Contiguous(row, Numbers(versions, id))
    ensures MaxNumber(versions, id) == Latest(row)
  {
    var numbers := Numbers(versions, id);
    if numbers == {} {
      assert 1 !in numbers;
    } else {
      assert Maximum(numbers) in numbers;
      assert Latest(row) in numbers;
    }
  }

  // ---- keeping the versions in order ----

  lemma VersionsStand(registered: set<string>, s: Store, t: Store)
    requires VersionsOk(registered, s)
    requires forall v :: v in t.versions ==>
      && v in s.versions && t.versions[v] == s.versions[v] && t.versions[v].workflowId in t.workflows
      && (v in s.nodeRows ==> v in t.nodeRows && t.nodeRows[v] == s.nodeRows[v])
      && (v in s.edgeRows ==> v in t.edgeRows && t.edgeRows[v] == s.edgeRows[v])
    ensures VersionsOk(registered, t)
  {
    forall v | v in t.versions
      ensures VersionOk(registered, t, v)
    {
      assert VersionOk(registered, s, v);
      var g :| StoredAs(s, v, g) && Publishable(registered, g);
      assert StoredAs(t, v, g);
    }
  }

  // ---- one row ----

  /** Changing a row but not its version pointers keeps the tables in order. */
  lemma RowChangeKeeps(registered: set<string>, s: Store, id: Uuid, row: WorkflowRow)
    requires Inv(registered, s) && id in s.workflows
    requires row.currentVersion == s.workflows[id].currentVersion
    requires row.activeVersionId == s.workflows[id].activeVersionId
    requires row.status == s.workflows[id].status || row.status == Archived
    requires DraftOk(row)
    ensures Inv(registered, s.(workflows := s.workflows[id := row]))
  {
    var t := s.(workflows := s.workflows[id := row]);
    assert RowOk(s, id);
    OneRowChanges(s, t, id);
    ReferencesExist(registered, s);
    VersionsStand(registered, s, t);
  }

  lemma OneRowChanges(s: Store, t: Store, id: Uuid)
    requires RowsOk(s) && t.versions == s.versions && id in t.workflows
    requires t.workflows == s.workflows[id := t.workflows[id]]
    requires RowOk(t, id)
    ensures RowsOk(t)
  {
    forall w | w in t.workflows
      ensures RowOk(t, w)
    {
      if w != id {
        assert RowOk(s, w);
      }
    }
  }

  lemma ReferencesExist(registered: set<string>, s: Store)
    requires VersionsOk(registered, s)
    ensures forall v :: v in s.versions ==> s.versions[v].workflowId in s.workflows
  {
    forall v | v in s.versions
      ensures s.versions[v].workflowId in s.workflows
    {
      assert VersionOk(registered, s, v);
    }
  }

  lemma InsertKeeps(registered: set<string>, s: Store, id: Uuid, row: WorkflowRow)
    requires Inv(registered, s) && id !in s.workflows
    requires row.currentVersion == None && row.activeVersionId == None && row.status == Draft && DraftOk(row)
    ensures Inv(registered, s.(workflows := s.workflows[id := row]))
  {
    var t := s.(workflows := s.workflows[id := row]);
    ReferencesExist(registered, s);
    assert Numbers(s.versions, id) == {};
    OneRowChanges(s, t, id);
    VersionsStand(registered, s, t);
  }

  lemma NumbersAfterDelete(s: Store, id: Uuid, w: Uuid)
    requires w != id
    ensures Numbers(WithoutWorkflow(s, id).versions, w) == Numbers(s.versions, w)
    ensures forall v, k :: IsVersion(WithoutWorkflow(s, id).versions, v, w, k) <==> IsVersion(s.versions, v, w, k)
  {
    var t := WithoutWorkflow(s, id);
    forall k | k in Numbers(s.versions, w)
      ensures k in Numbers(t.versions, w)
    {
      var v :| v in s.versions && s.versions[v].workflowId == w && s.versions[v].number == k;
      assert v in t.versions;
    }
  }

  lemma RowsAfterDelete(s: Store, id: Uuid)
    requires RowsOk(s)
    ensures RowsOk(WithoutWorkflow(s, id))
  {
    var t := WithoutWorkflow(s, id);
    forall w | w in t.workflows
      ensures RowOk(t, w)
    {
      assert RowOk(s, w);
      NumbersAfterDelete(s, id, w);
    }
  }

  lemma DeleteKeeps(registered: set<string>, s: Store, id: Uuid)
    requires Inv(registered, s) && id in s.workflows
    ensures Inv(registered, WithoutWorkflow(s, id))
  {
    var t := WithoutWorkflow(s, id);
    RowsAfterDelete(s, id);
    ReferencesExist(registered, s);
    VersionsStand(registered, s, t);
    assert forall v, i, k :: IsVersion(t.versions, v, i, k) ==> IsVersion(s.versions, v, i, k);
  }

  // ---- publishing ----

  /** What stays true of a publisher after it loaded its row, whatever others do meanwhile. */
  ghost predicate OpenedOk(registered: set<string>, s: Store, o: Opened) {
    && Publishable(registered, o.graph)
    && o.loaded.activeVersionId != Some(o.versionId)
    && (o.workflowId in s.workflows ==>
      && s.workflows[o.workflowId].org == o.loaded.org
      && Latest(o.loaded) <= Latest(s.workflows[o.workflowId])
      && (o.loaded.status == Published ==> s.workflows[o.workflowId].status != Draft))
  }

  /** What stays true of it after it read a number. */
  ghost predicate PendingOk(registered: set<string>, s: Store, p: Pending) {
    && Publishable(registered, p.graph)
    && p.number >= 1
    && p.loaded.activeVersionId != Some(p.versionId)
    && (p.workflowId in s.workflows ==>
      && s.workflows[p.workflowId].org == p.loaded.org
      && p.loaded.currentVersion != Some(p.number)
      && p.number <= Latest(s.workflows[p.workflowId]) + 1
      && (p.loaded.status == Published ==> s.workflows[p.workflowId].status != Draft))
  }

  /** Only the publisher that holds the next number is let through. */
  lemma NextIsFree(registered: set<string>, s: Store, p: Pending)
    requires PendingOk(registered, s, p) && Insertable(s, p) && RowOk(s, p.workflowId)
    ensures p.number == Latest(s.workflows[p.workflowId]) + 1
  {
  }

  lemma NumbersAfterFinish(s: Store, p: Pending, w: Uuid)
    requires Insertable(s, p)
    ensures Numbers(Finish(s, p).0.versions, w) == Numbers(s.versions, w) + if w == p.workflowId then {p.number} else {}
    ensures forall v, k :: IsVersion(s.versions, v, w, k) ==> IsVersion(Finish(s, p).0.versions, v, w, k)
  {
    var t := Finish(s, p).0;
    forall k | k in Numbers(s.versions, w)
      ensures k in Numbers(t.versions, w)
    {
      var v :| v in s.versions && s.versions[v].workflowId == w && s.versions[v].number == k;
      assert t.versions[v] == s.versions[v];
    }
    assert t.versions[p.versionId] == VersionOf(p);
  }

  lemma FinishKeepsRow(registered: set<string>, s: Store, p: Pending, w: Uuid)
    requires PendingOk(registered, s, p) && Insertable(s, p)
    requires w in s.workflows && RowOk(s, w)
    ensures RowOk(Finish(s, p).0, w)
  {
    NumbersAfterFinish(s, p, w);
    if w == p.workflowId {
      NextIsFree(registered, s, p);
    }
  }

  lemma RowsAfterFinish(registered: set<string>, s: Store, p: Pending)
    requires PendingOk(registered, s, p) && Insertable(s, p) && RowsOk(s)
    ensures RowsOk(Finish(s, p).0)
  {
    var t := Finish(s, p).0;
    forall w | w in t.workflows
      ensures RowOk(t, w)
    {
      assert RowOk(s, w);
      FinishKeepsRow(registered, s, p, w);
    }
  }

  lemma FinishKeepsVersions(registered: set<string>, s: Store, p: Pending)
    requires VersionsOk(registered, s) && PendingOk(registered, s, p) && Insertable(s, p)
    ensures VersionsOk(registered, Finish(s, p).0)
  {
    var t := Finish(s, p).0;
    forall v | v in t.versions
      ensures VersionOk(registered, t, v)
    {
      if v == p.versionId {
        assert StoredAs(t, v, p.graph);
      } else {
        assert VersionOk(registered, s, v);
        var g :| StoredAs(s, v, g) && Publishable(registered, g);
        assert StoredAs(t, v, g);
      }
    }
  }

  lemma FinishKeepsUnique(s: Store, p: Pending)
    requires UniqueNumbers(s.versions) && Insertable(s, p)
    ensures UniqueNumbers(Finish(s, p).0.versions)
  {
    var t := Finish(s, p).0;
    forall v, w, id, k | IsVersion(t.versions, v, id, k) && IsVersion(t.versions, w, id, k)
      ensures v == w
    {
      if v != p.versionId {
        assert IsVersion(s.versions, v, id, k);
        assert k in Numbers(s.versions, id);
      }
      if w != p.versionId {
        assert IsVersion(s.versions, w, id, k);
        assert k in Numbers(s.versions, id);
      }
    }
  }

  lemma FinishKeeps(registered: set<string>, s: Store, p: Pending)
    requires Inv(registered, s) && PendingOk(registered, s, p)
    ensures Inv(registered, Finish(s, p).0)
  {
    if Insertable(s, p) {
      RowsAfterFinish(registered, s, p);
      FinishKeepsVersions(registered, s, p);
      FinishKeepsUnique(s, p);
    }
  }

  lemma OpenedIsOk(registered: set<string>, s: Store, org: Uuid, user: Uuid, id: Uuid, versionId: Uuid,
                   definition: Option<WorkflowGraph>)
    requires Inv(registered, s) && versionId !in s.versions
    requires Open(registered, s, org, user, id, versionId, definition).Success?
    ensures OpenedOk(registered, s, Open(registered, s, org, user, id, versionId, definition).value)
  {
    assert RowOk(s, id);
  }

  /** The number read is positive, and new to the row that was loaded, also if the workflow has gone in the meantime. */
  lemma NumberedIsOk(registered: set<string>, s: Store, o: Opened)
    requires Inv(registered, s) && OpenedOk(registered, s, o)
    ensures PendingOk(registered, s, Number(s, o))
  {
    if o.workflowId in s.workflows {
      assert RowOk(s, o.workflowId);
      MaxOfContiguous(s.workflows[o.workflowId], s.versions, o.workflowId);
    } else {
      ReferencesExist(registered, s);
      assert Numbers(s.versions, o.workflowId) == {};
    }
  }

  /** A number that is taken stays taken: whoever comes with it later is turned away and changes nothing. */
  lemma TakenIsRefused(s: Store, v: Uuid, p: Pending)
    requires v in s.versions && s.versions[v].workflowId == p.workflowId && s.versions[v].number == p.number
    ensures Finish(s, p) == (s, Refused(IntegrityError))
  {
  }

  /** Of two publishers that read the same number, exactly the one that inserts first gets through. */
  lemma OneOfTwoPublishers(s: Store, p: Pending, q: Pending)
    requires Insertable(s, p) && q.workflowId == p.workflowId && q.number == p.number
    ensures var (t, r) := Finish(s, p);
      r.NewVersion? && r.version.number == p.number && Finish(t, q) == (t, Refused(IntegrityError))
  {
    TakenIsRefused(Finish(s, p).0, p.versionId, q);
  }
}
