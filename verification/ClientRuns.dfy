/** The client with anything at all around it: a server that grants or denies, other tabs, logouts, lost responses. */
module ClientRuns {
  import opened Outcomes
  import opened ApiClient

  /** A step of the interceptor, or of its surroundings, which never touch the requests themselves. */
  datatype Event =
    | NewRequest(r: nat, url: Url)
    | Response(r: nat, status: nat, newRefresh: nat)
    | RefreshArrives(p: nat)
    | Resumes(r: nat)
    | Surroundings(cookie: Option<Sessions.RefreshToken>, hasAccessToken: bool,
                   refreshing: Option<nat>, refreshes: map<nat, Refresh>)

  predicate CanHappen(c: Client, e: Event) {
    match e
    case NewRequest(r, _) => r !in c.requests
    case Response(r, _, newRefresh) => r in c.requests && c.requests[r].phase == OnWire && newRefresh !in c.refreshes
    case RefreshArrives(p) => p in c.refreshes && (c.refreshes[p].Granted? || c.refreshes[p].Denied?)
    case Resumes(r) =>
      && r in c.requests && c.requests[r].phase.Awaiting?
      && c.requests[r].phase.refresh in c.refreshes && c.refreshes[c.requests[r].phase.refresh].Settled?
    case Surroundings(_, _, _, _) => true
  }

  function Happens(c: Client, e: Event): Client
    requires CanHappen(c, e)
  {
    match e
    case NewRequest(r, url) => Send(c, r, url)
    case Response(r, status, newRefresh) => OnResponse(c, r, status, newRefresh)
    case RefreshArrives(p) => OnRefreshed(c, p)
    case Resumes(r) => Resume(c, r)
    case Surroundings(cookie, hasAccessToken, refreshing, refreshes) =>
      Client(cookie, hasAccessToken, refreshing, refreshes, c.requests)
  }

  ghost predicate Follows(c: Client, e: Event, d: Client) {
    CanHappen(c, e) && d == Happens(c, e)
  }

  ghost predicate Run(cs: seq<Client>, es: seq<Event>) {
    && |cs| == |es| + 1 && cs[0].requests == map[]
    && forall k {:trigger es[k]} :: 0 <= k < |es| ==> Follows(cs[k], es[k], cs[k + 1])
  }

  /** A request that was retried is on its second sending, or waits for it, or has come to its end. */
  predicate SendsOk(q: Request) {
    match q.phase
    case OnWire => q.sends == if q.retried then 2 else 1
    case Awaiting(_) => q.retried && q.sends == 1
    case _ => 1 <= q.sends <= if q.retried then 2 else 1
  }

  lemma {:induction false} RunKeeps(cs: seq<Client>, es: seq<Event>, i: nat)
    requires Run(cs, es) && i < |cs|
    ensures forall r :: r in cs[i].requests ==> SendsOk(cs[i].requests[r])
  {
    if i > 0 {
      RunKeeps(cs, es, i - 1);
      assert Follows(cs[i - 1], es[i - 1], cs[i]);
    }
  }

  /** The k-th event answers the request with 401. */
  predicate Unauthorized(es: seq<Event>, k: nat, r: nat)
    requires k < |es|
  {
    es[k].Response? && es[k].r == r && es[k].status == 401
  }

  lemma RetriedByStep(c: Client, e: Event, r: nat)
    requires CanHappen(c, e) && r in Happens(c, e).requests && Happens(c, e).requests[r].retried
    ensures (r in c.requests && c.requests[r].retried) || (e.Response? && e.r == r && e.status == 401)
  {
  }

  lemma {:induction false} RetriedBecause(cs: seq<Client>, es: seq<Event>, i: nat, r: nat)
    requires Run(cs, es) && i < |cs| && r in cs[i].requests && cs[i].requests[r].retried
    ensures exists k :: 0 <= k < i && Unauthorized(es, k, r)
  {
    assert i > 0;
    assert Follows(cs[i - 1], es[i - 1], cs[i]);
    RetriedByStep(cs[i - 1], es[i - 1], r);
    if Unauthorized(es, i - 1, r) {
      assert 0 <= i - 1 < i;
    } else {
      RetriedBecause(cs, es, i - 1, r);
    }
  }

  /** Whatever happens around the client, a request is sent at most twice, and twice only after a 401. */
  lemma SentAtMostTwice(cs: seq<Client>, es: seq<Event>, i: nat, r: nat)
    requires Run(cs, es) && i < |cs| && r in cs[i].requests
    ensures 1 <= cs[i].requests[r].sends <= 2
    ensures cs[i].requests[r].sends == 2 ==> exists k :: 0 <= k < i && Unauthorized(es, k, r)
  {
    RunKeeps(cs, es, i);
    if cs[i].requests[r].sends == 2 {
      RetriedBecause(cs, es, i, r);
    }
  }

  // ---- what becomes of a request ----

  /** A response ends a request, unless it is a first 401 for a resource: then the request waits for the one refresh. */
  lemma ResponseAnswers(c: Client, r: nat, status: nat, newRefresh: nat)
    requires CanHappen(c, Response(r, status, newRefresh))
    ensures var q, d := c.requests[r], OnResponse(c, r, status, newRefresh);
      && d.requests.Keys == c.requests.Keys && d.cookie == c.cookie && d.hasAccessToken == c.hasAccessToken
      && (forall other :: other != r && other in c.requests ==> d.requests[other] == c.requests[other])
      && d.requests[r].url == q.url && d.requests[r].sends == q.sends
      && (if status == 401 && !q.retried && q.url != AuthRefresh && q.url != AuthLogin
          then
            && d.requests[r].retried && d.refreshing.Some? && d.requests[r].phase == Awaiting(d.refreshing.value)
            && (c.refreshing.Some? ==> d.refreshing == c.refreshing && d.refreshes == c.refreshes)
            && (c.refreshing.None? ==>
                  d.refreshing == Some(newRefresh) && d.refreshes == c.refreshes[newRefresh := Outgoing(c.cookie)])
          else
            && d.requests[r].retried == q.retried && d.refreshing == c.refreshing && d.refreshes == c.refreshes
            && d.requests[r].phase == if 200 <= status <= 299 then Resolved else Rejected)
  {
  }

  /** A refresh's answer: a grant replaces the cookie, either answer settles the refresh and frees the next one. */
  lemma RefreshAnswers(c: Client, p: nat)
    requires CanHappen(c, RefreshArrives(p))
    ensures var d := OnRefreshed(c, p);
      && d.requests == c.requests && d.refreshing == None
      && (forall other :: other != p ==> (other in d.refreshes <==> other in c.refreshes))
      && (forall other :: other != p && other in c.refreshes ==> d.refreshes[other] == c.refreshes[other])
      && (c.refreshes[p] == Denied ==>
            d.refreshes[p] == Settled(false) && d.cookie == c.cookie && !d.hasAccessToken)
      && (forall token :: c.refreshes[p] == Granted(token) ==>
            d.refreshes[p] == Settled(true) && d.cookie == Some(token) && d.hasAccessToken)
  {
  }

  /** A request that waited goes out once more exactly if its refresh was granted; otherwise it is rejected unsent. */
  lemma ResumeAnswers(c: Client, r: nat)
    requires CanHappen(c, Resumes(r))
    ensures var q, d := c.requests[r], Resume(c, r);
      var granted := c.refreshes[q.phase.refresh] == Settled(true);
      && d.requests[r].phase == (if granted then OnWire else Rejected)
      && d.requests[r].sends == (if granted then q.sends + 1 else q.sends)
      && d.requests[r].retried == q.retried && d.requests[r].url == q.url
      && d == c.(requests := c.requests[r := d.requests[r]])
  {
  }

  /** Over every run: a resumed request is on the wire a second time if and only if its refresh was granted. */
  lemma ResumedIffGranted(cs: seq<Client>, es: seq<Event>, k: nat)
    requires Run(cs, es) && k < |es| && es[k].Resumes?
    ensures var r := es[k].r;
      && r in cs[k].requests && cs[k].requests[r].phase.Awaiting? && r in cs[k + 1].requests
      && var p := cs[k].requests[r].phase.refresh;
         && p in cs[k].refreshes
         && var later := cs[k + 1].requests[r];
            && (cs[k].refreshes[p] == Settled(true) <==> later.phase == OnWire && later.sends == 2)
            && (cs[k].refreshes[p] != Settled(true) <==> later.phase == Rejected && later.sends == 1)
  {
    assert Follows(cs[k], es[k], cs[k + 1]);
    RunKeeps(cs, es, k);
    ResumeAnswers(cs[k], es[k].r);
  }

  /** The events of one request that is answered with 401, refreshed, sent again, and answered with 200. */
  function Story(r: nat, p: nat, q: nat, token: Sessions.RefreshToken): seq<Event> {
    [NewRequest(r, Resource), Response(r, 401, p),
     Surroundings(None, true, Some(p), map[p := Granted(token)]),
     RefreshArrives(p), Resumes(r), Response(r, 200, q)]
  }

  /** The client after the events, if they can happen. */
  function After(c: Client, es: seq<Event>): Option<Client>
    decreases |es|
  {
    if es == [] then Some(c) else if CanHappen(c, es[0]) then After(Happens(c, es[0]), es[1..]) else None
  }

  /** The round trip: 401, granted, sent again, 200. The request is resolved after exactly two sends. */
  lemma RetryRoundTrip(c: Client, r: nat, p: nat, q: nat, token: Sessions.RefreshToken)
    requires r !in c.requests && c.refreshes == map[] && c.refreshing == None && p != q
    ensures var d := After(c, Story(r, p, q, token));
      && d.Some? && r in d.value.requests && d.value.requests[r] == Request(Resource, true, 2, Resolved)
      && d.value.cookie == Some(token) && d.value.hasAccessToken && d.value.refreshing == None
      && (forall other :: other != r && other in c.requests ==>
            other in d.value.requests && d.value.requests[other] == c.requests[other])
  {
    var es := Story(r, p, q, token);
    var c1 := Happens(c, es[0]);
    var c2 := Happens(c1, es[1]);
    var c3 := Happens(c2, es[2]);
    var c4 := Happens(c3, es[3]);
    var c5 := Happens(c4, es[4]);
    AfterFrom(c, es, 0);
    AfterFrom(c1, es, 1);
    AfterFrom(c2, es, 2);
    AfterFrom(c3, es, 3);
    AfterFrom(c4, es, 4);
    AfterFrom(c5, es, 5);
    assert es[6..] == [];
  }

  lemma AfterFrom(c: Client, es: seq<Event>, k: nat)
    requires k < |es| && CanHappen(c, es[k])
    ensures After(c, es[k..]) == After(Happens(c, es[k]), es[k + 1..])
  {
    assert es[k..][1..] == es[k + 1..] && es[k..][0] == es[k];
  }
}
