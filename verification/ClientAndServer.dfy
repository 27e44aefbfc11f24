/**
 The client and the session protocol together: with one tab and no lost responses, rotation never trips over itself.
 */
module ClientAndServer {
  import opened Outcomes
  import opened ApiClient
  import S = Sessions

  /** `latest` records the last refresh token the server signed for this client. */
  datatype World = World(client: Client, server: S.State, latest: S.RefreshToken)

  datatype Event =
    | NewRequest(r: nat, url: Url)
    | Response(r: nat, status: nat, newRefresh: nat)
    | ServerClaims(p: nat)
    | ServerSigns(p: nat, session: S.SessionId, at: int)
    | ServerStores(p: nat)
    | RefreshArrives(p: nat)
    | Resumes(r: nat)
    | Elsewhere(step: S.Step)

  /** A step of the server on behalf of somebody else: it leaves this client's key and this client's refreshes alone. */
  predicate ForOthers(w: World, step: S.Step) {
    match step
    case SignLogin(pid, _, _, _) => pid !in w.client.refreshes
    case Claim(pid, token) => pid !in w.client.refreshes && S.KeyOf(token) != S.KeyOf(w.latest)
    case SignRefresh(pid, _, _) => pid !in w.client.refreshes
    case StoreKey(pid) => pid !in w.client.refreshes
    case Drop(pid) => pid !in w.client.refreshes
    case Forget(key) => key != S.KeyOf(w.latest)
    case ForgetAll(user) => user != w.latest.user
  }

  predicate CanHappen(w: World, e: Event) {
    match e
    case NewRequest(r, _) => r !in w.client.requests
    case Response(r, _, newRefresh) =>
      && r in w.client.requests && w.client.requests[r].phase == OnWire
      && newRefresh !in w.client.refreshes && newRefresh !in w.server.processes
    case ServerClaims(p) =>
      && p in w.client.refreshes && w.client.refreshes[p].Outgoing?
      && (w.client.refreshes[p].carried.Some? ==> S.Enabled(w.server, S.Claim(p, w.client.refreshes[p].carried.value)))
    case ServerSigns(p, session, at) =>
      p in w.client.refreshes && w.client.refreshes[p].AtServer? && S.Enabled(w.server, S.SignRefresh(p, session, at))
    case ServerStores(p) =>
      p in w.client.refreshes && w.client.refreshes[p].AtServer? && S.Enabled(w.server, S.StoreKey(p))
    case RefreshArrives(p) =>
      p in w.client.refreshes && (w.client.refreshes[p].Granted? || w.client.refreshes[p].Denied?)
    case Resumes(r) =>
      && r in w.client.requests && w.client.requests[r].phase.Awaiting?
      && w.client.requests[r].phase.refresh in w.client.refreshes
      && w.client.refreshes[w.client.requests[r].phase.refresh].Settled?
    case Elsewhere(step) => S.Enabled(w.server, step) && ForOthers(w, step)
  }

  function SetRefresh(c: Client, p: nat, state: Refresh): Client {
    c.(refreshes := c.refreshes[p := state])
  }

  function Happens(w: World, e: Event): World
    requires CanHappen(w, e)
  {
    match e
    case NewRequest(r, url) => w.(client := Send(w.client, r, url))
    case Response(r, status, newRefresh) => w.(client := OnResponse(w.client, r, status, newRefresh))
    case ServerClaims(p) =>
      var cookie := w.client.refreshes[p].carried;
      if cookie.None? then w.(client := SetRefresh(w.client, p, Denied))
      else
        w.(client := SetRefresh(w.client, p, if S.Accepts(w.server, cookie.value) then AtServer else Denied),
           server := S.Apply(w.server, S.Claim(p, cookie.value)))
    case ServerSigns(p, session, at) =>
      w.(server := S.Apply(w.server, S.SignRefresh(p, session, at)),
         latest := S.RefreshToken(w.server.processes[p].user, session, at))
    case ServerStores(p) =>
      w.(client := SetRefresh(w.client, p, Granted(w.server.processes[p].token)),
         server := S.Apply(w.server, S.StoreKey(p)))
    case RefreshArrives(p) => w.(client := OnRefreshed(w.client, p))
    case Resumes(r) => w.(client := Resume(w.client, r))
    case Elsewhere(step) => w.(server := S.Apply(w.server, step))
  }

  // ---- the invariant ----

  predicate LiveLatest(w: World) {
    w.latest in w.server.issued && S.Accepts(w.server, w.latest)
  }

  /** The one refresh in flight, if any, and the place where the latest token is to be found. */
  predicate Synchronised(w: World) {
    if w.client.refreshing.None? then w.client.cookie == Some(w.latest) && LiveLatest(w)
    else
      var p := w.client.refreshing.value;
      && p in w.client.refreshes
      && match w.client.refreshes[p]
         case Outgoing(carried) => carried == Some(w.latest) && LiveLatest(w) && p !in w.server.processes
         case AtServer =>
           && p in w.server.processes
           && (w.server.processes[p].Claimed? ==> w.server.processes[p].user == w.latest.user)
           && (w.server.processes[p].Signed? ==> w.server.processes[p].token == w.latest)
         case Granted(token) => token == w.latest && LiveLatest(w)
         case _ => false
  }

  predicate OthersSettled(c: Client) {
    forall p :: p in c.refreshes && c.refreshing != Some(p) ==> c.refreshes[p] == Settled(true)
  }

  predicate RequestOk(c: Client, r: nat)
    requires r in c.requests
  {
    var q := c.requests[r];
    && 1 <= q.sends <= 2
    && (q.sends == 2 ==> q.retried)
    && (q.phase.OnWire? && q.retried ==> q.sends == 2)
    && (q.phase.Awaiting? ==> q.retried && q.sends == 1 && q.phase.refresh in c.refreshes)
  }

  predicate RequestsOk(c: Client) {
    forall r {:trigger RequestOk(c, r)} :: r in c.requests ==> RequestOk(c, r)
  }

  ghost predicate Inv(w: World) {
    S.Inv(w.server) && Synchronised(w) && OthersSettled(w.client) && RequestsOk(w.client)
  }

  /** Somebody else's step does not reach this client's key. */
  lemma ElsewhereStaysInStep(w: World, step: S.Step)
    requires Synchronised(w) && CanHappen(w, Elsewhere(step))
    requires step.StoreKey? ==> S.ProcessOk(w.server, step.pid)
    ensures Synchronised(Happens(w, Elsewhere(step)))
  {
  }

  lemma ElsewhereKeeps(w: World, step: S.Step)
    requires Inv(w) && CanHappen(w, Elsewhere(step))
    ensures Inv(Happens(w, Elsewhere(step)))
  {
    assert step.StoreKey? ==> S.ProcessOk(w.server, step.pid);
    ElsewhereStaysInStep(w, step);
    S.StepKeeps(w.server, step);
  }

  lemma RequestsStand(c: Client, d: Client)
    requires RequestsOk(c) && d.requests == c.requests && c.refreshes.Keys <= d.refreshes.Keys
    ensures RequestsOk(d)
  {
    forall r | r in d.requests
      ensures RequestOk(d, r)
    {
      assert RequestOk(c, r);
    }
  }

  lemma ServerClaimsKeeps(w: World, e: Event)
    requires Inv(w) && CanHappen(w, e) && e.ServerClaims?
    ensures Inv(Happens(w, e))
  {
    RequestsStand(w.client, Happens(w, e).client);
    S.StepKeeps(w.server, S.Claim(e.p, w.latest));
  }

  lemma ServerSignsKeeps(w: World, e: Event)
    requires Inv(w) && CanHappen(w, e) && e.ServerSigns?
    ensures Inv(Happens(w, e))
  {
    S.StepKeeps(w.server, S.SignRefresh(e.p, e.session, e.at));
  }

  lemma ServerStoresKeeps(w: World, e: Event)
    requires Inv(w) && CanHappen(w, e) && e.ServerStores?
    ensures Inv(Happens(w, e))
  {
    RequestsStand(w.client, Happens(w, e).client);
    assert S.ProcessOk(w.server, e.p);
    S.StepKeeps(w.server, S.StoreKey(e.p));
  }

  predicate IsClientEvent(e: Event) {
    e.NewRequest? || e.Response? || e.RefreshArrives? || e.Resumes?
  }

  lemma ClientKeepsRequests(w: World, e: Event)
    requires RequestsOk(w.client) && OthersSettled(w.client) && CanHappen(w, e) && IsClientEvent(e)
    requires w.client.refreshing.Some? ==> w.client.refreshing.value in w.client.refreshes
    ensures RequestsOk(Happens(w, e).client)
  {
    var d := Happens(w, e).client;
    forall r | r in d.requests
      ensures RequestOk(d, r)
    {
      if r in w.client.requests {
        assert RequestOk(w.client, r);
      }
    }
  }

  lemma ClientStaysInStep(w: World, e: Event)
    requires Synchronised(w) && OthersSettled(w.client) && CanHappen(w, e) && IsClientEvent(e)
    ensures Synchronised(Happens(w, e)) && OthersSettled(Happens(w, e).client)
  {
  }

  lemma ClientKeeps(w: World, e: Event)
    requires Inv(w) && CanHappen(w, e) && IsClientEvent(e)
    ensures Inv(Happens(w, e))
  {
    ClientKeepsRequests(w, e);
    ClientStaysInStep(w, e);
  }

  lemma EventKeeps(w: World, e: Event)
    requires Inv(w) && CanHappen(w, e)
    ensures Inv(Happens(w, e))
  {
    match e
    case Elsewhere(step) => ElsewhereKeeps(w, step);
    case ServerClaims(_) => ServerClaimsKeeps(w, e);
    case ServerSigns(_, _, _) => ServerSignsKeeps(w, e);
    case ServerStores(_) => ServerStoresKeeps(w, e);
    case _ => ClientKeeps(w, e);
  }

  // ---- runs ----

  ghost predicate Moves(w: World, v: World) {
    exists e :: CanHappen(w, e) && v == Happens(w, e)
  }

  ghost predicate Run(ws: seq<World>) {
    |ws| > 0 && forall i, j {:trigger Moves(ws[i], ws[j])} :: 0 <= i && j == i + 1 && j < |ws| ==> Moves(ws[i], ws[j])
  }

  /** Right after a login: the cookie is the token whose key is stored, and nothing has been sent yet. */
  ghost predicate LoggedIn(w: World) {
    && S.Inv(w.server) && LiveLatest(w)
    && w.client == Client(Some(w.latest), true, None, map[], map[])
  }

  /** Every login ends in such a state. */
  lemma LoginStartsInStep(server: S.State, pid: nat, user: S.UserId, session: S.SessionId, at: int)
    requires S.Inv(server) && S.Enabled(server, S.SignLogin(pid, user, session, at))
    ensures var t := S.RefreshToken(user, session, at);
      var signed := S.Apply(server, S.SignLogin(pid, user, session, at));
      LoggedIn(World(Client(Some(t), true, None, map[], map[]), S.Apply(signed, S.StoreKey(pid)), t))
  {
    var signed := S.Apply(server, S.SignLogin(pid, user, session, at));
    S.StepKeeps(server, S.SignLogin(pid, user, session, at));
    S.StepKeeps(signed, S.StoreKey(pid));
  }

  lemma MoveKeeps(w: World, v: World)
    requires Inv(w) && Moves(w, v)
    ensures Inv(v)
  {
    var e :| CanHappen(w, e) && v == Happens(w, e);
    EventKeeps(w, e);
  }

  lemma {:induction false} RunKeeps(ws: seq<World>, i: nat)
    requires Run(ws) && LoggedIn(ws[0]) && i < |ws|
    ensures Inv(ws[i])
  {
    if i > 0 {
      RunKeeps(ws, i - 1);
      MoveKeeps(ws[i - 1], ws[i]);
    }
  }

  /** A refresh on its way always carries the most recently signed token, and the server will accept it. */
  lemma RefreshCarriesLatest(ws: seq<World>, i: nat, p: nat)
    requires Run(ws) && LoggedIn(ws[0]) && i < |ws|
    requires p in ws[i].client.refreshes && ws[i].client.refreshes[p].Outgoing?
    ensures ws[i].client.refreshes[p].carried == Some(ws[i].latest) && S.Accepts(ws[i].server, ws[i].latest)
  {
    RunKeeps(ws, i);
  }

  /** However many requests are answered with 401 at once, one refresh at most is in flight, and none is ever denied. */
  lemma OneRefreshInFlight(ws: seq<World>, i: nat, p: nat, q: nat)
    requires Run(ws) && LoggedIn(ws[0]) && i < |ws|
    requires p in ws[i].client.refreshes && q in ws[i].client.refreshes
    ensures !ws[i].client.refreshes[p].Settled? && !ws[i].client.refreshes[q].Settled? ==> p == q
    ensures !ws[i].client.refreshes[p].Denied? && ws[i].client.refreshes[p] != Settled(false)
  {
    RunKeeps(ws, i);
  }

  lemma SettledIsGranted(w: World, r: nat)
    requires Synchronised(w) && OthersSettled(w.client) && CanHappen(w, Resumes(r))
    ensures w.client.refreshes[w.client.requests[r].phase.refresh] == Settled(true)
  {
  }

  lemma ResumedOnce(w: World, r: nat)
    requires CanHappen(w, Resumes(r)) && RequestOk(w.client, r)
    requires w.client.refreshes[w.client.requests[r].phase.refresh] == Settled(true)
    ensures var d := Happens(w, Resumes(r)).client;
      r in d.requests && d.requests[r].phase == OnWire && d.requests[r].sends == 2
  {
  }

  /** Whenever a waiting request goes on, its refresh has been granted: it goes out a second time. */
  lemma ResumedIsSentAgain(ws: seq<World>, i: nat, r: nat)
    requires Run(ws) && LoggedIn(ws[0]) && i < |ws| && CanHappen(ws[i], Resumes(r))
    ensures var v := Happens(ws[i], Resumes(r));
      r in v.client.requests && v.client.requests[r].phase == OnWire && v.client.requests[r].sends == 2
  {
    RunKeeps(ws, i);
    assert RequestOk(ws[i].client, r);
    SettledIsGranted(ws[i], r);
    ResumedOnce(ws[i], r);
  }

  /** A request is rejected only by an answer of its own: not for want of a refresh, and not by a first 401. */
  lemma RejectedByAnswer(ws: seq<World>, i: nat, e: Event, r: nat)
    requires Run(ws) && LoggedIn(ws[0]) && i < |ws| && CanHappen(ws[i], e)
    requires r in ws[i].client.requests && ws[i].client.requests[r].phase != Rejected
    requires r in Happens(ws[i], e).client.requests && Happens(ws[i], e).client.requests[r].phase == Rejected
    ensures e.Response? && e.r == r && !(200 <= e.status <= 299)
    ensures e.status == 401 ==> ws[i].client.requests[r].retried || ws[i].client.requests[r].url != Resource
  {
    if e.Resumes? {
      ResumedIsSentAgain(ws, i, e.r);
    }
  }
}
