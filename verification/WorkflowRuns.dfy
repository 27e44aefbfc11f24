/** Whole runs of the workflow service: requests of every organization, and publishers caught between their steps. */
module WorkflowRuns {
  import opened Outcomes
  import opened Graphs
  import opened WellFormedness
  import opened WorkflowStore
  import opened WorkflowHistory

  lemma PublishKeeps(registered: set<string>, s: Store, org: Uuid, user: Uuid, id: Uuid, versionId: Uuid,
                     definition: Option<WorkflowGraph>)
    requires Inv(registered, s)
    ensures Inv(registered, PublishIn(registered, s, org, user, id, versionId, definition).0)
  {
    var open := Open(registered, s, org, user, id, versionId, definition);
    if open.Success? && versionId !in s.versions {
      OpenedIsOk(registered, s, org, user, id, versionId, definition);
      NumberedIsOk(registered, s, open.value);
      FinishKeeps(registered, s, Number(s, open.value));
    }
  }

  lemma RevertKeeps(registered: set<string>, s: Store, org: Uuid, user: Uuid, id: Uuid, versionId: Uuid, number: int)
    requires Inv(registered, s)
    ensures Inv(registered, RevertIn(registered, s, org, user, id, versionId, number).0)
  {
    if Lookup(s, id, org).Some? && FindVersion(s.versions, id, number).Some? {
      var g := Parse(s.versions[FindVersion(s.versions, id, number).value].definition);
      if g.Some? {
        PublishKeeps(registered, s, org, user, id, versionId, g);
      }
    }
  }

  lemma UpdateKeeps(registered: set<string>, s: Store, org: Uuid, id: Uuid, name: Option<string>,
                    description: Option<string>,
                    definition: Option<WorkflowGraph>)
    requires Inv(registered, s)
    ensures Inv(registered, UpdateIn(s, org, id, name, description, definition).0)
  {
    if Lookup(s, id, org).Some? {
      assert RowOk(s, id);
      RowChangeKeeps(registered, s, id, UpdatedRow(s.workflows[id], name, description, definition));
    }
  }

  lemma DuplicateKeeps(registered: set<string>, s: Store, org: Uuid, id: Uuid, newId: Uuid, name: string)
    requires Inv(registered, s)
    ensures Inv(registered, DuplicateIn(s, org, id, newId, name).0)
  {
    if Lookup(s, id, org).Some? && newId !in s.workflows {
      assert RowOk(s, id);
      InsertKeeps(registered, s, newId, FreshRow(org, name, s.workflows[id].description, s.workflows[id].draft));
    }
  }

  lemma ArchiveKeeps(registered: set<string>, s: Store, org: Uuid, id: Uuid)
    requires Inv(registered, s)
    ensures Inv(registered, ArchiveIn(s, org, id).0)
  {
    if Lookup(s, id, org).Some? && s.workflows[id].status != Archived {
      assert RowOk(s, id);
      RowChangeKeeps(registered, s, id, s.workflows[id].(status := Archived));
    }
  }

  /** Every operation keeps the tables in order. */
  lemma ExecKeeps(registered: set<string>, s: Store, org: Uuid, op: Operation)
    requires Inv(registered, s)
    ensures Inv(registered, Exec(registered, s, org, op).0)
  {
    match op
    case Create(id, name, description) =>
      if id !in s.workflows {
        InsertKeeps(registered, s, id, FreshRow(org, name, description, None));
      }
    case Update(id, name, description, definition) =>
      UpdateKeeps(registered, s, org, id, name, description, definition);
    case Delete(id) =>
      if Lookup(s, id, org).Some? {
        DeleteKeeps(registered, s, id);
      }
    case Publish(id, versionId, user, definition) => PublishKeeps(registered, s, org, user, id, versionId, definition);
    case Revert(id, versionId, user, number) => RevertKeeps(registered, s, org, user, id, versionId, number);
    case Duplicate(id, newId, name) => DuplicateKeeps(registered, s, org, id, newId, name);
    case Archive(id) => ArchiveKeeps(registered, s, org, id);
    case _ =>
  }

  // ---- what an operation may do to a row and its versions ----

  /**
   A workflow that is still there kept its organization and its versions, moved its number forward only, and is no
   draft again.
   */
  ghost predicate Grew(s: Store, t: Store, id: Uuid)
    requires id in s.workflows && id in t.workflows
  {
    && t.workflows[id].org == s.workflows[id].org
    && Latest(s.workflows[id]) <= Latest(t.workflows[id])
    && (s.workflows[id].status != Draft ==> t.workflows[id].status != Draft)
    && (forall v :: v in s.versions && s.versions[v].workflowId == id ==>
          v in t.versions && t.versions[v] == s.versions[v])
  }

  ghost predicate AllGrew(s: Store, t: Store) {
    forall id {:trigger Grew(s, t, id)} :: id in s.workflows && id in t.workflows ==> Grew(s, t, id)
  }

  function NewIds(op: Operation): set<Uuid> {
    match op
    case Create(id, _, _) => {id}
    case Publish(_, versionId, _, _) => {versionId}
    case Revert(_, versionId, _, _) => {versionId}
    case Duplicate(_, newId, _) => {newId}
    case _ => {}
  }

  lemma FinishGrows(registered: set<string>, s: Store, p: Pending)
    requires Inv(registered, s) && PendingOk(registered, s, p)
    ensures AllGrew(s, Finish(s, p).0) && Finish(s, p).0.workflows.Keys == s.workflows.Keys
  {
    if Insertable(s, p) {
      assert RowOk(s, p.workflowId);
      NextIsFree(registered, s, p);
    }
  }

  lemma PublishGrows(registered: set<string>, s: Store, org: Uuid, user: Uuid, id: Uuid, versionId: Uuid,
                     definition: Option<WorkflowGraph>)
    requires Inv(registered, s)
    ensures var t := PublishIn(registered, s, org, user, id, versionId, definition).0;
      AllGrew(s, t) && t.workflows.Keys == s.workflows.Keys
  {
    var open := Open(registered, s, org, user, id, versionId, definition);
    if open.Success? && versionId !in s.versions {
      OpenedIsOk(registered, s, org, user, id, versionId, definition);
      NumberedIsOk(registered, s, open.value);
      FinishGrows(registered, s, Number(s, open.value));
    }
  }

  lemma DeleteGrows(s: Store, id: Uuid)
    ensures AllGrew(s, WithoutWorkflow(s, id))
  {
  }

  lemma RowChangeGrows(s: Store, id: Uuid, row: WorkflowRow)
    requires id in s.workflows ==>
      && row.org == s.workflows[id].org && row.currentVersion == s.workflows[id].currentVersion
      && (row.status == s.workflows[id].status || row.status == Archived)
    ensures AllGrew(s, s.(workflows := s.workflows[id := row]))
  {
  }

  lemma RevertGrows(registered: set<string>, s: Store, org: Uuid, user: Uuid, id: Uuid, versionId: Uuid, number: int)
    requires Inv(registered, s)
    ensures var t := RevertIn(registered, s, org, user, id, versionId, number).0;
      AllGrew(s, t) && t.workflows.Keys == s.workflows.Keys
  {
    if Lookup(s, id, org).Some? && FindVersion(s.versions, id, number).Some? {
      var g := Parse(s.versions[FindVersion(s.versions, id, number).value].definition);
      if g.Some? {
        PublishGrows(registered, s, org, user, id, versionId, g);
      }
    }
  }

  lemma UpdateGrows(s: Store, org: Uuid, id: Uuid, name: Option<string>, description: Option<string>,
                    definition: Option<WorkflowGraph>)
    ensures AllGrew(s, UpdateIn(s, org, id, name, description, definition).0)
  {
    if Lookup(s, id, org).Some? {
      RowChangeGrows(s, id, UpdatedRow(s.workflows[id], name, description, definition));
    }
  }

  lemma ArchiveGrows(s: Store, org: Uuid, id: Uuid)
    ensures AllGrew(s, ArchiveIn(s, org, id).0)
  {
    if Lookup(s, id, org).Some? {
      RowChangeGrows(s, id, s.workflows[id].(status := Archived));
    }
  }

  lemma InsertGrows(s: Store, id: Uuid, row: WorkflowRow)
    ensures AllGrew(s, Insert(s, id, row).0)
  {
  }

  lemma ExecGrows(registered: set<string>, s: Store, org: Uuid, op: Operation)
    requires Inv(registered, s)
    ensures AllGrew(s, Exec(registered, s, org, op).0)
    ensures Exec(registered, s, org, op).0.workflows.Keys <= s.workflows.Keys + NewIds(op)
  {
    match op
    case Create(id, name, description) => InsertGrows(s, id, FreshRow(org, name, description, None));
    case Publish(id, versionId, user, definition) => PublishGrows(registered, s, org, user, id, versionId, definition);
    case Revert(id, versionId, user, number) => RevertGrows(registered, s, org, user, id, versionId, number);
    case Delete(id) => DeleteGrows(s, id);
    case Update(id, name, description, definition) => UpdateGrows(s, org, id, name, description, definition);
    case Duplicate(id, newId, name) =>
      if Lookup(s, id, org).Some? {
        InsertGrows(s, newId, FreshRow(org, name, s.workflows[id].description, s.workflows[id].draft));
      }
    case Archive(id) => ArchiveGrows(s, org, id);
    case _ =>
  }

  // ---- worlds ----

  /** A publisher's request, numbered within its organization. */
  datatype Ticket = Ticket(org: Uuid, n: nat)

  datatype Publisher = Validated(o: Opened) | Numbered(p: Pending)

  function WorkflowOf(x: Publisher): Uuid {
    if x.Validated? then x.o.workflowId else x.p.workflowId
  }

  function VersionIdOf(x: Publisher): Uuid {
    if x.Validated? then x.o.versionId else x.p.versionId
  }

  function LoadedBy(x: Publisher): WorkflowRow {
    if x.Validated? then x.o.loaded else x.p.loaded
  }

  /** The registry, the tables, the publishers between their steps, and every id ever handed out. */
  datatype World = World(registered: set<string>, store: Store, publishers: map<Ticket, Publisher>, used: set<Uuid>)

  datatype Step =
    | Call(org: Uuid, op: Operation)
    | Load(ticket: Ticket, user: Uuid, id: Uuid, versionId: Uuid, definition: Option<WorkflowGraph>)
    | ReadMax(ticket: Ticket)
    | Complete(ticket: Ticket)
    | Abandon(ticket: Ticket)
    | Register(nodeType: string)

  /** Ids that are generated are new, and a step belongs to the phase its publisher is in. */
  predicate Enabled(w: World, step: Step) {
    match step
    case Call(_, op) => NewIds(op) !! w.used
    case Load(ticket, _, _, versionId, _) => ticket !in w.publishers && versionId !in w.used
    case ReadMax(ticket) => ticket in w.publishers && w.publishers[ticket].Validated?
    case Complete(ticket) => ticket in w.publishers && w.publishers[ticket].Numbered?
    case _ => true
  }

  ghost function LoadIn(w: World, ticket: Ticket, user: Uuid, id: Uuid, versionId: Uuid,
                        definition: Option<WorkflowGraph>): (World, Option<Response>)
  {
    var v := w.(used := w.used + {versionId});
    match Open(w.registered, w.store, ticket.org, user, id, versionId, definition)
    case Failure(e) => (v, Some(Refused(e)))
    case Success(o) => (v.(publishers := w.publishers[ticket := Validated(o)]), None)
  }

  /** The next world, and the answer if the step ends a request. */
  ghost function Apply(w: World, step: Step): (World, Option<Response>)
    requires Enabled(w, step)
  {
    match step
    case Call(org, op) =>
      var (s, r) := Exec(w.registered, w.store, org, op);
      (w.(store := s, used := w.used + NewIds(op)), Some(r))
    case Load(ticket, user, id, versionId, definition) => LoadIn(w, ticket, user, id, versionId, definition)
    case ReadMax(ticket) =>
      (w.(publishers := w.publishers[ticket := Numbered(Number(w.store, w.publishers[ticket].o))]), None)
    case Complete(ticket) =>
      var (s, r) := Finish(w.store, w.publishers[ticket].p);
      (w.(store := s, publishers := w.publishers - {ticket}), Some(r))
    case Abandon(ticket) => (w.(publishers := w.publishers - {ticket}), None)
    case Register(t) => (w.(registered := w.registered + {t}), None)
  }

  ghost predicate Moves(w: World, w': World) {
    exists step :: Enabled(w, step) && w' == Apply(w, step).0
  }

  ghost predicate Initial(w: World) {
    w.store == Store(map[], map[], map[], map[]) && w.publishers == map[]
  }

  ghost predicate HoldsUp(registered: set<string>, s: Store, x: Publisher) {
    match x
    case Validated(o) => OpenedOk(registered, s, o)
    case Numbered(p) => PendingOk(registered, s, p)
  }

  /** The publisher belongs to its ticket's organization, and its version id is kept for it. */
  ghost predicate PublisherOk(registered: set<string>, s: Store, used: set<Uuid>, ticket: Ticket, x: Publisher) {
    && HoldsUp(registered, s, x)
    && LoadedBy(x).org == ticket.org
    && WorkflowOf(x) in used && VersionIdOf(x) in used && VersionIdOf(x) !in s.versions
  }

  ghost predicate PublishersOk(w: World) {
    && (forall t {:trigger w.publishers[t]} :: t in w.publishers ==>
          PublisherOk(w.registered, w.store, w.used, t, w.publishers[t]))
    && (forall t, u {:trigger w.publishers[t], w.publishers[u]} ::
          t in w.publishers && u in w.publishers && VersionIdOf(w.publishers[t]) == VersionIdOf(w.publishers[u]) ==>
            t == u)
  }

  predicate IdsUsed(s: Store, used: set<Uuid>) {
    s.workflows.Keys <= used && s.versions.Keys <= used
  }

  ghost predicate WorldInv(w: World) {
    Inv(w.registered, w.store) && IdsUsed(w.store, w.used) && PublishersOk(w)
  }

  lemma RegisterKeeps(registered: set<string>, larger: set<string>, s: Store)
    requires Inv(registered, s) && registered <= larger
    ensures Inv(larger, s)
  {
    forall v | v in s.versions
      ensures VersionOk(larger, s, v)
    {
      assert VersionOk(registered, s, v);
      var g :| StoredAs(s, v, g) && Publishable(registered, g);
      GrowthKeepsWellFormed(registered, larger, Dump(g).nodes.value, Dump(g).edges.value);
    }
  }

  /**
   A waiting publisher is not disturbed by what others do to the tables, as long as its workflow's id is not handed
   out again.
   */
  lemma PublisherStands(registered: set<string>, s: Store, t: Store, x: Publisher)
    requires HoldsUp(registered, s, x) && AllGrew(s, t)
    requires WorkflowOf(x) in t.workflows ==> WorkflowOf(x) in s.workflows
    ensures HoldsUp(registered, t, x)
  {
    if WorkflowOf(x) in t.workflows {
      assert Grew(s, t, WorkflowOf(x));
    }
  }

  /** What a step may do to the tables without disturbing the publishers. */
  ghost predicate Extends(s: Store, used: set<Uuid>, t: Store, ids: set<Uuid>) {
    && AllGrew(s, t) && ids !! used
    && t.workflows.Keys <= s.workflows.Keys + ids && t.versions.Keys <= s.versions.Keys + ids
  }

  lemma PublishersStand(w: World, t: Store, ids: set<Uuid>)
    requires PublishersOk(w) && Extends(w.store, w.used, t, ids)
    ensures PublishersOk(w.(store := t, used := w.used + ids))
  {
    forall ticket | ticket in w.publishers
      ensures PublisherOk(w.registered, t, w.used + ids, ticket, w.publishers[ticket])
    {
      PublisherStands(w.registered, w.store, t, w.publishers[ticket]);
    }
  }

  lemma VersionIdsUsed(registered: set<string>, s: Store, org: Uuid, op: Operation)
    ensures Exec(registered, s, org, op).0.versions.Keys <= s.versions.Keys + NewIds(op)
  {
  }

  lemma CallKeeps(w: World, org: Uuid, op: Operation)
    requires WorldInv(w) && Enabled(w, Call(org, op))
    ensures WorldInv(Apply(w, Call(org, op)).0)
  {
    ExecKeeps(w.registered, w.store, org, op);
    ExecGrows(w.registered, w.store, org, op);
    VersionIdsUsed(w.registered, w.store, org, op);
    PublishersStand(w, Exec(w.registered, w.store, org, op).0, NewIds(op));
  }

  /** The one publisher whose insert went through is gone; the others' version ids are still free. */
  lemma OthersStand(w: World, ticket: Ticket, t: Store)
    requires PublishersOk(w) && ticket in w.publishers && AllGrew(w.store, t)
    requires t.workflows.Keys <= w.store.workflows.Keys
    requires t.versions.Keys <= w.store.versions.Keys + {VersionIdOf(w.publishers[ticket])}
    ensures PublishersOk(w.(store := t, publishers := w.publishers - {ticket}))
  {
    forall other | other in w.publishers && other != ticket
      ensures PublisherOk(w.registered, t, w.used, other, w.publishers[other])
    {
      PublisherStands(w.registered, w.store, t, w.publishers[other]);
    }
  }

  lemma CompleteKeeps(w: World, ticket: Ticket)
    requires WorldInv(w) && Enabled(w, Complete(ticket))
    ensures WorldInv(Apply(w, Complete(ticket)).0)
  {
    var p := w.publishers[ticket].p;
    FinishKeeps(w.registered, w.store, p);
    FinishGrows(w.registered, w.store, p);
    OthersStand(w, ticket, Finish(w.store, p).0);
  }

  lemma PublisherJoins(w: World, ticket: Ticket, x: Publisher, used: set<Uuid>)
    requires PublishersOk(w) && w.used <= used && PublisherOk(w.registered, w.store, used, ticket, x)
    requires if ticket in w.publishers then VersionIdOf(x) == VersionIdOf(w.publishers[ticket])
             else VersionIdOf(x) !in w.used
    ensures PublishersOk(w.(publishers := w.publishers[ticket := x], used := used))
  {
  }

  lemma LoadKeeps(w: World, ticket: Ticket, user: Uuid, id: Uuid, versionId: Uuid, definition: Option<WorkflowGraph>)
    requires WorldInv(w) && Enabled(w, Load(ticket, user, id, versionId, definition))
    ensures WorldInv(LoadIn(w, ticket, user, id, versionId, definition).0)
  {
    var open := Open(w.registered, w.store, ticket.org, user, id, versionId, definition);
    PublishersStand(w, w.store, {versionId});
    if open.Success? {
      OpenedIsOk(w.registered, w.store, ticket.org, user, id, versionId, definition);
      PublisherJoins(w, ticket, Validated(open.value), w.used + {versionId});
    }
  }

  lemma ReadMaxKeeps(w: World, ticket: Ticket)
    requires WorldInv(w) && Enabled(w, ReadMax(ticket))
    ensures WorldInv(Apply(w, ReadMax(ticket)).0)
  {
    var o := w.publishers[ticket].o;
    NumberedIsOk(w.registered, w.store, o);
    PublisherJoins(w, ticket, Numbered(Number(w.store, o)), w.used);
  }

  lemma RegisterKeepsPublishers(w: World, larger: set<string>)
    requires PublishersOk(w) && w.registered <= larger
    ensures PublishersOk(w.(registered := larger))
  {
    forall ticket | ticket in w.publishers
      ensures HoldsUp(larger, w.store, w.publishers[ticket])
    {
      var x := w.publishers[ticket];
      var g := if x.Validated? then x.o.graph else x.p.graph;
      GrowthKeepsWellFormed(w.registered, larger, Dump(g).nodes.value, Dump(g).edges.value);
    }
  }

  lemma StepKeeps(w: World, step: Step)
    requires WorldInv(w) && Enabled(w, step)
    ensures WorldInv(Apply(w, step).0)
  {
    match step
    case Call(org, op) => CallKeeps(w, org, op);
    case Load(ticket, user, id, versionId, definition) => LoadKeeps(w, ticket, user, id, versionId, definition);
    case ReadMax(ticket) => ReadMaxKeeps(w, ticket);
    case Complete(ticket) => CompleteKeeps(w, ticket);
    case Abandon(ticket) =>
    case Register(t) =>
      RegisterKeeps(w.registered, w.registered + {t}, w.store);
      RegisterKeepsPublishers(w, w.registered + {t});
  }

  // ---- runs ----

  ghost predicate Run(ws: seq<World>) {
    && |ws| > 0 && Initial(ws[0])
    && forall i, j {:trigger Moves(ws[i], ws[j])} :: 0 <= i && j == i + 1 && j < |ws| ==> Moves(ws[i], ws[j])
  }

  lemma InitialIsOk(w: World)
    requires Initial(w)
    ensures WorldInv(w)
  {
  }

  /**
   However requests and half-finished publications interleave, in every state each workflow's version numbers are 1..n
   with `current_version` n, its active version is number n, it is a draft only while n is 0 and published only when n
   is not, every stored definition is a valid graph, and the denormalised rows are those of the stored definition.
   */
  lemma {:induction false} EveryStateInOrder(ws: seq<World>, i: nat)
    requires Run(ws) && i < |ws|
    ensures WorldInv(ws[i])
  {
    if i > 0 {
      EveryStateInOrder(ws, i - 1);
      MoveKeeps(ws[i - 1], ws[i]);
    } else {
      InitialIsOk(ws[0]);
    }
  }

  /** Ids once handed out never come back for another workflow, and a workflow that stays only grows. */
  ghost predicate Evolved(w: World, w': World) {
    && w.used <= w'.used && w.registered <= w'.registered
    && (forall id :: id in w.used && id in w'.store.workflows ==> id in w.store.workflows)
    && AllGrew(w.store, w'.store)
  }

  lemma StepEvolves(w: World, step: Step)
    requires WorldInv(w) && Enabled(w, step)
    ensures Evolved(w, Apply(w, step).0)
  {
    match step
    case Call(org, op) => ExecGrows(w.registered, w.store, org, op);
    case Complete(ticket) => FinishGrows(w.registered, w.store, w.publishers[ticket].p);
    case _ => EvolvedSelf(w);
  }

  lemma EvolvedSelf(w: World)
    ensures Evolved(w, w)
  {
  }

  lemma MoveKeeps(w: World, w': World)
    requires WorldInv(w) && Moves(w, w')
    ensures WorldInv(w') && Evolved(w, w')
  {
    var step :| Enabled(w, step) && w' == Apply(w, step).0;
    StepKeeps(w, step);
    StepEvolves(w, step);
  }

  lemma EvolvedTransitive(a: World, b: World, c: World)
    requires Evolved(a, b) && Evolved(b, c) && a.store.workflows.Keys <= a.used
    ensures Evolved(a, c)
  {
    forall id | id in a.store.workflows && id in c.store.workflows
      ensures Grew(a.store, c.store, id)
    {
      assert Grew(a.store, b.store, id);
      assert Grew(b.store, c.store, id);
    }
  }

  lemma EvolvedOneMore(a: World, b: World, c: World)
    requires WorldInv(a) && WorldInv(b) && Evolved(a, b) && Moves(b, c)
    ensures Evolved(a, c)
  {
    MoveKeeps(b, c);
    EvolvedTransitive(a, b, c);
  }

  lemma {:induction false} EvolvedAlong(ws: seq<World>, i: nat, j: nat)
    requires Run(ws) && i <= j < |ws|
    ensures Evolved(ws[i], ws[j])
    decreases j - i
  {
    if i < j {
      EvolvedAlong(ws, i, j - 1);
      EveryStateInOrder(ws, i);
      EveryStateInOrder(ws, j - 1);
      EvolvedOneMore(ws[i], ws[j - 1], ws[j]);
    } else {
      EvolvedSelf(ws[i]);
    }
  }

  lemma VersionStays(w: World, w': World, v: Uuid)
    requires WorldInv(w) && Evolved(w, w')
    requires v in w.store.versions && w.store.versions[v].workflowId in w'.store.workflows
    ensures v in w'.store.versions && w'.store.versions[v] == w.store.versions[v]
  {
    assert VersionOk(w.registered, w.store, v);
    assert Grew(w.store, w'.store, w.store.versions[v].workflowId);
  }

  /** History is append-only: a version seen once is there, unchanged, for as long as its workflow exists. */
  lemma HistoryIsAppendOnly(ws: seq<World>, i: nat, j: nat, v: Uuid)
    requires Run(ws) && i <= j < |ws|
    requires v in ws[i].store.versions && ws[i].store.versions[v].workflowId in ws[j].store.workflows
    ensures v in ws[j].store.versions && ws[j].store.versions[v] == ws[i].store.versions[v]
  {
    EvolvedAlong(ws, i, j);
    EveryStateInOrder(ws, i);
    VersionStays(ws[i], ws[j], v);
  }

  /**
   A number that was ever published is never published again: a publisher that comes with it is turned away for good.
   */
  lemma NumberIsTakenForGood(ws: seq<World>, i: nat, j: nat, v: Uuid, p: Pending)
    requires Run(ws) && i <= j < |ws|
    requires v in ws[i].store.versions && ws[i].store.versions[v].workflowId == p.workflowId
    requires ws[i].store.versions[v].number == p.number
    ensures Finish(ws[j].store, p) == (ws[j].store, Refused(IntegrityError))
  {
    if p.workflowId in ws[j].store.workflows {
      HistoryIsAppendOnly(ws, i, j, v);
      TakenIsRefused(ws[j].store, v, p);
    }
  }

  // ---- revert ----

  /**
   Reverting to a version that exists is never refused: it adds version n + 1 with the same definition and makes it
   active.
   */
  lemma RevertSucceeds(registered: set<string>, s: Store, org: Uuid, user: Uuid, id: Uuid, versionId: Uuid, number: int)
    requires Inv(registered, s) && Lookup(s, id, org).Some? && versionId !in s.versions
    requires 1 <= number <= Latest(s.workflows[id])
    ensures var source := FindVersion(s.versions, id, number);
      && source.Some?
      && var (t, r) := Exec(registered, s, org, Revert(id, versionId, user, number));
      && r.NewVersion? && r.versionId == versionId && t.versions[versionId] == r.version
      && r.version.number == Latest(s.workflows[id]) + 1 == Latest(t.workflows[id])
      && r.version.definition == s.versions[source.value].definition
      && t.workflows[id].activeVersionId == Some(versionId) && t.workflows[id].status == Published
      && t.workflows[id].draft == None
  {
    VersionParses(registered, s, id, number);
    var g := Parse(s.versions[FindVersion(s.versions, id, number).value].definition).value;
    PublishSucceeds(registered, s, org, user, id, versionId, g);
  }

  /** Every number up to the latest is stored, as a graph that parses back and is valid. */
  lemma VersionParses(registered: set<string>, s: Store, id: Uuid, number: int)
    requires Inv(registered, s) && id in s.workflows && 1 <= number <= Latest(s.workflows[id])
    ensures var source := FindVersion(s.versions, id, number);
      && source.Some?
      && var definition := s.versions[source.value].definition;
         Parse(definition).Some? && Publishable(registered, Parse(definition).value)
         && Dump(Parse(definition).value) == definition
  {
    assert RowOk(s, id);
    assert number in Numbers(s.versions, id);
    var w :| w in s.versions && s.versions[w].workflowId == id && s.versions[w].number == number;
    assert IsVersion(s.versions, w, id, number);
    var v := FindVersion(s.versions, id, number).value;
    assert VersionOk(registered, s, v);
    var g :| StoredAs(s, v, g) && Publishable(registered, g);
    ParseDump(g);
  }

  /** A valid graph under a fresh version id is always published, as the next version. */
  lemma PublishSucceeds(registered: set<string>, s: Store, org: Uuid, user: Uuid, id: Uuid, versionId: Uuid,
                        g: WorkflowGraph)
    requires Inv(registered, s) && Lookup(s, id, org).Some? && versionId !in s.versions && Publishable(registered, g)
    ensures var (t, r) := PublishIn(registered, s, org, user, id, versionId, Some(g));
      && r.NewVersion? && r.versionId == versionId && versionId in t.versions && t.versions[versionId] == r.version
      && r.version == VersionRow(id, Latest(s.workflows[id]) + 1, Dump(g), user)
      && id in t.workflows && t.workflows[id] == s.workflows[id].(currentVersion := Some(r.version.number),
           activeVersionId := Some(versionId), status := Published, draft := None)
  {
    assert RowOk(s, id);
    MaxOfContiguous(s.workflows[id], s.versions, id);
  }

  /**
   Any version that was ever stored can be restored for as long as its workflow exists, by whoever owns the workflow,
   whatever was published, archived or registered in between: the result is the next version, with the same definition.
   */
  lemma EveryVersionCanBeRestored(ws: seq<World>, i: nat, j: nat, v: Uuid, org: Uuid, user: Uuid, versionId: Uuid)
    requires Run(ws) && i <= j < |ws| && v in ws[i].store.versions && versionId !in ws[j].used
    requires Lookup(ws[j].store, ws[i].store.versions[v].workflowId, org).Some?
    ensures var version := ws[i].store.versions[v];
      var (t, r) := Exec(ws[j].registered, ws[j].store, org,
               Revert(version.workflowId, versionId, user, version.number));
      && r.NewVersion? && r.version.definition == version.definition
      && r.version.number == Latest(ws[j].store.workflows[version.workflowId]) + 1
      && t.workflows[version.workflowId].activeVersionId == Some(versionId)
  {
    var s, version := ws[j].store, ws[i].store.versions[v];
    var id := version.workflowId;
    HistoryIsAppendOnly(ws, i, j, v);
    EveryStateInOrder(ws, j);
    assert RowOk(s, id);
    assert version.number in Numbers(s.versions, id);
    assert IsVersion(s.versions, v, id, version.number);
    RevertSucceeds(ws[j].registered, s, org, user, id, versionId, version.number);
  }
}
