/** The browser's API client: one shared refresh for any number of requests that were answered with 401. */
module ApiClient {
  import opened Outcomes
  import Sessions

  /** Refresh and login answer for themselves: a 401 from them starts no refresh. */
  datatype Url = AuthRefresh | AuthLogin | Resource

  datatype Phase = OnWire | Awaiting(refresh: nat) | Resolved | Rejected

  datatype Request = Request(url: Url, retried: bool, sends: nat, phase: Phase)

  /** A refresh: on its way with the cookie it carries, at the server, on its way back, or settled. */
  datatype Refresh =
    | Outgoing(carried: Option<Sessions.RefreshToken>)
    | AtServer
    | Granted(token: Sessions.RefreshToken)
    | Denied
    | Settled(granted: bool)

  /** The cookie jar holds the refresh token; the access token is only present or absent here. */
  datatype Client = Client(cookie: Option<Sessions.RefreshToken>, hasAccessToken: bool, refreshing: Option<nat>,
                           refreshes: map<nat, Refresh>, requests: map<nat, Request>)

  function Send(c: Client, r: nat, url: Url): Client
    requires r !in c.requests
  {
    c.(requests := c.requests[r := Request(url, false, 1, OnWire)])
  }

  predicate TriggersRefresh(q: Request, status: nat) {
    status == 401 && !q.retried && q.url == Resource
  }

  /** The response interceptor up to its `await`: a first 401 joins the refresh under way, or starts one. */
  function OnResponse(c: Client, r: nat, status: nat, newRefresh: nat): Client
    requires r in c.requests && c.requests[r].phase == OnWire && newRefresh !in c.refreshes
  {
    var q := c.requests[r];
    if TriggersRefresh(q, status) then
      var p := if c.refreshing.Some? then c.refreshing.value else newRefresh;
      c.(refreshing := Some(p),
         refreshes := if c.refreshing.Some? then c.refreshes else c.refreshes[newRefresh := Outgoing(c.cookie)],
         requests := c.requests[r := Request(q.url, true, q.sends, Awaiting(p))])
    else
      c.(requests := c.requests[r := q.(phase := if 200 <= status < 300 then Resolved else Rejected)])
  }

  /** The refresh's answer: it replaces the cookie and the access token, and the shared promise is cleared. */
  function OnRefreshed(c: Client, p: nat): Client
    requires p in c.refreshes && (c.refreshes[p].Granted? || c.refreshes[p].Denied?)
  {
    var granted := c.refreshes[p].Granted?;
    c.(cookie := if granted then Some(c.refreshes[p].token) else c.cookie,
       hasAccessToken := granted, refreshing := None, refreshes := c.refreshes[p := Settled(granted)])
  }

  /** The interceptor after its `await`: send once more with the new token, or give up. */
  function Resume(c: Client, r: nat): Client
    requires r in c.requests && c.requests[r].phase.Awaiting?
    requires c.requests[r].phase.refresh in c.refreshes && c.refreshes[c.requests[r].phase.refresh].Settled?
  {
    var q := c.requests[r];
    if c.refreshes[q.phase.refresh].granted then
      c.(requests := c.requests[r := q.(sends := q.sends + 1, phase := OnWire)])
    else c.(requests := c.requests[r := q.(phase := Rejected)])
  }

  // ---- the client as it is written ----

  class Interceptor {
    var cookie: Option<Sessions.RefreshToken>
    var hasAccessToken: bool
    var refreshing: Option<nat>
    var refreshes: map<nat, Refresh>
    var requests: map<nat, Request>

    function State(): Client
      reads this
    {
      Client(cookie, hasAccessToken, refreshing, refreshes, requests)
    }

    constructor (cookie: Option<Sessions.RefreshToken>)
      ensures State() == Client(cookie, true, None, map[], map[])
    {
      this.cookie := cookie;
      hasAccessToken, refreshing, refreshes, requests := true, None, map[], map[];
    }

    method RefreshAccessToken(p: nat)
      requires p !in refreshes
      modifies this`refreshes
      ensures refreshes == old(refreshes)[p := Outgoing(cookie)]
    {
      refreshes := refreshes[p := Outgoing(cookie)];
    }

    method HandleResponse(r: nat, status: nat, newRefresh: nat)
      requires r in requests && requests[r].phase == OnWire && newRefresh !in refreshes
      modifies this`refreshing, this`refreshes, this`requests
      ensures State() == OnResponse(old(State()), r, status, newRefresh)
    {
      var original := requests[r];
      if 200 <= status < 300 {
        requests := requests[r := original.(phase := Resolved)];
        return;
      }
      if status == 401 && !original.retried && original.url != AuthRefresh && original.url != AuthLogin {
        original := original.(retried := true);
        if refreshing.None? {
          RefreshAccessToken(newRefresh);
          refreshing := Some(newRefresh);
        }
        requests := requests[r := original.(phase := Awaiting(refreshing.value))];
        return;
      }
      requests := requests[r := original.(phase := Rejected)];
    }

    method HandleRefreshed(p: nat)
      requires p in refreshes && (refreshes[p].Granted? || refreshes[p].Denied?)
      modifies this`cookie, this`hasAccessToken, this`refreshing, this`refreshes
      ensures State() == OnRefreshed(old(State()), p)
    {
      if refreshes[p].Granted? {
        cookie := Some(refreshes[p].token);
        hasAccessToken := true;
        refreshes := refreshes[p := Settled(true)];
      } else {
        hasAccessToken := false;
        refreshes := refreshes[p := Settled(false)];
      }
      refreshing := None;
    }

    method HandleResume(r: nat)
      requires r in requests && requests[r].phase.Awaiting?
      requires requests[r].phase.refresh in refreshes && refreshes[requests[r].phase.refresh].Settled?
      modifies this`requests
      ensures State() == Resume(old(State()), r)
    {
      var original := requests[r];
      if refreshes[original.phase.refresh].granted {
        requests := requests[r := original.(sends := original.sends + 1, phase := OnWire)];
      } else {
        requests := requests[r := original.(phase := Rejected)];
      }
    }
  }
}
