/**
 Invalidating all sessions of a user, as it is written: a scan that deletes the keys it meets one by one while other
 requests run in between.

 Redis promises that a scan returns every key that is there from its beginning to its end. What it says of a key that
 comes or goes meanwhile is open: such a key may be deleted or not.
 */
module Scans {
  import S = Sessions

  /** A scan under way: the chains there were when it began, and the keys there have been since then. */
  datatype Scan = Scan(sessions: S.State, user: S.UserId, before: set<S.SessionId>, left: set<S.Key>)

  function Begin(s: S.State, user: S.UserId): Scan {
    Scan(s, user, s.chainOf.Keys, S.AllKeysOf(s.redis, user))
  }

  datatype Step = Delete(key: S.Key) | Meanwhile(step: S.Step)

  predicate Enabled(c: Scan, step: Step) {
    match step
    case Delete(key) => key.user == c.user
    case Meanwhile(other) => S.Enabled(c.sessions, other)
  }

  function StepOf(step: Step): S.Step {
    if step.Delete? then S.Forget(step.key) else step.step
  }

  function Apply(c: Scan, step: Step): Scan
    requires Enabled(c, step)
  {
    var next := S.Apply(c.sessions, StepOf(step));
    c.(sessions := next, left := c.left * next.redis.Keys)
  }

  /** The scan may end once every key that was there all the time has been deleted. */
  predicate Over(c: Scan) {
    c.left == {}
  }

  /** One more refresh of the user begins. */
  predicate StartsRefresh(c: Scan, step: Step) {
    step.Meanwhile? && step.step.Claim? && step.step.token.user == c.user
  }

  // ---- runs; a quiet one begins no further refresh of the user ----

  ghost predicate Moves(c: Scan, d: Scan, quiet: bool) {
    exists step :: Enabled(c, step) && (quiet ==> !StartsRefresh(c, step)) && d == Apply(c, step)
  }

  ghost predicate Run(cs: seq<Scan>, quiet: bool) {
    |cs| > 0 && forall i, j {:trigger Moves(cs[i], cs[j], quiet)} ::
      0 <= i && j == i + 1 && j < |cs| ==> Moves(cs[i], cs[j], quiet)
  }

  ghost predicate Path(cs: seq<Scan>, quiet: bool, c: Scan, d: Scan) {
    Run(cs, quiet) && cs[0] == c && cs[|cs| - 1] == d
  }

  ghost predicate Leads(c: Scan, d: Scan, quiet: bool) {
    exists cs :: Path(cs, quiet, c, d)
  }

  lemma LeadsSelf(c: Scan, quiet: bool)
    ensures Leads(c, c, quiet)
  {
    assert Path([c], quiet, c, c);
  }

  lemma LeadsStep(c: Scan, step: Step, d: Scan, quiet: bool)
    requires Enabled(c, step) && (quiet ==> !StartsRefresh(c, step)) && Leads(Apply(c, step), d, quiet)
    ensures Leads(c, d, quiet)
  {
    var cs :| Path(cs, quiet, Apply(c, step), d);
    assert Moves(c, Apply(c, step), quiet);
    assert Path([c] + cs, quiet, c, d);
  }

  lemma QuietMoveIsMove(c: Scan, d: Scan)
    requires Moves(c, d, true)
    ensures Moves(c, d, false)
  {
  }

  lemma QuietlyLeadsLeads(c: Scan, d: Scan)
    requires Leads(c, d, true)
    ensures Leads(c, d, false)
  {
    var cs :| Path(cs, true, c, d);
    forall i, j | 0 <= i && j == i + 1 && j < |cs|
      ensures Moves(cs[i], cs[j], false)
    {
      assert Moves(cs[i], cs[j], true);
      QuietMoveIsMove(cs[i], cs[j]);
    }
    assert Path(cs, false, c, d);
  }

  // ---- who holds an old chain ----

  ghost predicate NoOldRequest(c: Scan) {
    forall p {:trigger S.HeldByRequest(c.sessions, c.before, c.user, p)} ::
      !S.HeldByRequest(c.sessions, c.before, c.user, p)
  }

  /** Every key of an old chain has been there since the scan began. */
  ghost predicate OldKeysLeft(c: Scan) {
    forall k {:trigger S.HeldByKey(c.sessions, c.before, c.user, k)} ::
      S.HeldByKey(c.sessions, c.before, c.user, k) ==> k in c.left
  }

  ghost predicate Ok(c: Scan) {
    && S.Inv(c.sessions) && c.before <= c.sessions.chainOf.Keys
    && forall k :: k in c.left ==> k in c.sessions.redis && k.user == c.user
  }

  lemma BeginIsOk(s: S.State, user: S.UserId)
    requires S.Inv(s)
    ensures Ok(Begin(s, user)) && OldKeysLeft(Begin(s, user))
  {
  }

  lemma StepKeepsOk(c: Scan, step: Step)
    requires Ok(c) && Enabled(c, step)
    ensures Ok(Apply(c, step))
  {
    S.StepKeeps(c.sessions, StepOf(step));
    S.StepExtends(c.sessions, StepOf(step));
  }

  /** Only a request that holds an old chain can bring a new key into it. */
  lemma StepLeavesOldKeys(c: Scan, step: Step)
    requires Ok(c) && OldKeysLeft(c) && NoOldRequest(c) && Enabled(c, step)
    ensures OldKeysLeft(Apply(c, step))
  {
    var d := Apply(c, step);
    S.SessionsAreKnown(c.sessions);
    forall k | S.HeldByKey(d.sessions, d.before, d.user, k)
      ensures k in d.left
    {
      KeyWasThere(c, step, k);
    }
  }

  lemma KeyWasThere(c: Scan, step: Step, k: S.Key)
    requires S.Inv(c.sessions) && S.SessionsKnown(c.sessions) && NoOldRequest(c) && Enabled(c, step)
    requires c.before <= c.sessions.chainOf.Keys
    requires S.HeldByKey(Apply(c, step).sessions, c.before, c.user, k)
    ensures S.HeldByKey(c.sessions, c.before, c.user, k)
  {
    if StepOf(step).StoreKey? {
      var pid := StepOf(step).pid;
      assert S.ProcessOk(c.sessions, pid);
      assert !S.HeldByRequest(c.sessions, c.before, c.user, pid);
    }
  }

  /** Without a new refresh of the user no request comes to hold an old chain. */
  lemma QuietStepStartsNone(c: Scan, step: Step)
    requires Ok(c) && NoOldRequest(c) && Enabled(c, step) && !StartsRefresh(c, step)
    ensures NoOldRequest(Apply(c, step))
  {
    var d := Apply(c, step);
    forall p
      ensures !S.HeldByRequest(d.sessions, d.before, d.user, p)
    {
      assert !S.HeldByRequest(c.sessions, c.before, c.user, p);
    }
  }

  lemma MoveKeeps(c: Scan, d: Scan)
    requires Ok(c) && OldKeysLeft(c) && NoOldRequest(c) && Moves(c, d, false)
    ensures Ok(d) && OldKeysLeft(d) && d.before == c.before && d.user == c.user
  {
    var step :| Enabled(c, step) && d == Apply(c, step);
    StepKeepsOk(c, step);
    StepLeavesOldKeys(c, step);
  }

  lemma QuietMoveKeeps(c: Scan, d: Scan)
    requires Ok(c) && OldKeysLeft(c) && NoOldRequest(c) && Moves(c, d, true)
    ensures Ok(d) && OldKeysLeft(d) && NoOldRequest(d)
  {
    var step :| Enabled(c, step) && !StartsRefresh(c, step) && d == Apply(c, step);
    StepKeepsOk(c, step);
    StepLeavesOldKeys(c, step);
    QuietStepStartsNone(c, step);
  }

  lemma {:induction false} QuietRunKeeps(cs: seq<Scan>, i: nat)
    requires Run(cs, true) && i < |cs| && Ok(cs[0]) && OldKeysLeft(cs[0]) && NoOldRequest(cs[0])
    ensures Ok(cs[i]) && OldKeysLeft(cs[i]) && NoOldRequest(cs[i])
  {
    if i > 0 {
      QuietRunKeeps(cs, i - 1);
      QuietMoveKeeps(cs[i - 1], cs[i]);
    }
  }

  /** When the scan is over, old keys that were there all the time are gone, so nothing holds an old chain. */
  lemma OverIsDead(c: Scan)
    requires Ok(c) && OldKeysLeft(c) && NoOldRequest(c) && Over(c)
    ensures S.Dead(c.sessions, c.before, c.user)
  {
    forall k
      ensures !S.HeldByKey(c.sessions, c.before, c.user, k)
    {
      assert k !in c.left;
    }
    S.DeadIff(c.sessions, c.before, c.user);
  }

  // ---- a scan by itself ----

  /** The scan can always be brought to its end by its own deletions. */
  lemma {:induction false} DeleteAll(c: Scan) returns (d: Scan)
    requires forall k :: k in c.left ==> k in c.sessions.redis && k.user == c.user
    ensures Leads(c, d, true) && d == c.(sessions := c.sessions.(redis := c.sessions.redis - c.left), left := {})
    decreases |c.left|
  {
    if c.left == {} {
      LeadsSelf(c, true);
      d := c;
      assert c.sessions.redis - c.left == c.sessions.redis;
    } else {
      var k :| k in c.left;
      var next := Apply(c, Delete(k));
      assert next.left == c.left - {k};
      d := DeleteAll(next);
      LeadsStep(c, Delete(k), d, true);
      assert (c.sessions.redis - {k}) - next.left == c.sessions.redis - c.left;
    }
  }

  /** A scan that nothing runs into deletes exactly the user's keys, as if at once. */
  lemma UndisturbedScan(s: S.State, user: S.UserId) returns (d: Scan)
    ensures Leads(Begin(s, user), d, true) && Over(d) && d.sessions == S.Apply(s, S.ForgetAll(user))
  {
    d := DeleteAll(Begin(s, user));
  }

  // ---- what a scan achieves ----

  /**
   However the scan goes on from here, if no further refresh of the user begins in it, all old chains are dead when it
   ends.
   */
  ghost predicate Safe(c: Scan) {
    forall d :: Leads(c, d, true) && Over(d) ==> S.Dead(d.sessions, c.before, c.user)
  }

  lemma SafeIff(c: Scan)
    requires Ok(c) && OldKeysLeft(c)
    ensures Safe(c) <==> NoOldRequest(c)
  {
    if NoOldRequest(c) {
      forall d | Leads(c, d, true) && Over(d)
        ensures S.Dead(d.sessions, c.before, c.user)
      {
        NoOldRequestIsSafe(c, d);
      }
    } else {
      var p :| S.HeldByRequest(c.sessions, c.before, c.user, p);
      OldRequestSurvives(c, p);
    }
  }

  lemma SameScan(c: Scan, d: Scan)
    requires Moves(c, d, true)
    ensures d.before == c.before && d.user == c.user
  {
  }

  lemma {:induction false} SameScanAlong(cs: seq<Scan>, i: nat)
    requires Run(cs, true) && i < |cs|
    ensures cs[i].before == cs[0].before && cs[i].user == cs[0].user
  {
    if i > 0 {
      SameScanAlong(cs, i - 1);
      SameScan(cs[i - 1], cs[i]);
    }
  }

  lemma NoOldRequestIsSafe(c: Scan, d: Scan)
    requires Ok(c) && OldKeysLeft(c) && NoOldRequest(c) && Leads(c, d, true) && Over(d)
    ensures S.Dead(d.sessions, c.before, c.user)
  {
    var cs :| Path(cs, true, c, d);
    QuietRunKeeps(cs, |cs| - 1);
    SameScanAlong(cs, |cs| - 1);
    OverIsDead(d);
  }

  /** A request that holds an old chain while the scan runs can outlast it. */
  lemma OldRequestSurvives(c: Scan, p: nat)
    requires Ok(c) && S.HeldByRequest(c.sessions, c.before, c.user, p)
    ensures exists d :: Leads(c, d, true) && Over(d) && !S.Dead(d.sessions, c.before, c.user)
  {
    var d := DeleteAll(c);
    DeletionKeeps(c, d);
    assert S.HeldByRequest(d.sessions, c.before, c.user, p);
    S.DeadIff(d.sessions, c.before, c.user);
  }

  lemma DeletionKeeps(c: Scan, d: Scan)
    requires Ok(c) && d == c.(sessions := c.sessions.(redis := c.sessions.redis - c.left), left := {})
    ensures Ok(d)
  {
    S.PartsCarryOver(c.sessions, d.sessions);
  }

  lemma {:induction false} OldKeysLeftAlong(cs: seq<Scan>, i: nat)
    requires Run(cs, false) && i < |cs| && Ok(cs[0]) && OldKeysLeft(cs[0])
    requires forall m :: 0 <= m < i ==> NoOldRequest(cs[m])
    ensures Ok(cs[i]) && OldKeysLeft(cs[i]) && cs[i].before == cs[0].before && cs[i].user == cs[0].user
  {
    if i > 0 {
      OldKeysLeftAlong(cs, i - 1);
      MoveKeeps(cs[i - 1], cs[i]);
    }
  }

  lemma {:induction false} SafeSoFar(cs: seq<Scan>, i: nat)
    requires Run(cs, false) && i < |cs| && Ok(cs[0]) && OldKeysLeft(cs[0])
    requires forall m :: 0 <= m <= i ==> Safe(cs[m])
    ensures forall m :: 0 <= m <= i ==> NoOldRequest(cs[m])
  {
    if i > 0 {
      SafeSoFar(cs, i - 1);
    }
    OldKeysLeftAlong(cs, i);
    SafeIff(cs[i]);
  }

  /**
   In any run of a scan among other requests: the scan is safe at every instant exactly when at no instant a request
   of the user under way holds a chain from before the scan.
   */
  lemma ScanIff(cs: seq<Scan>, s: S.State, user: S.UserId)
    requires S.Inv(s) && Run(cs, false) && cs[0] == Begin(s, user)
    ensures (forall m :: 0 <= m < |cs| ==> Safe(cs[m])) <==> (forall m :: 0 <= m < |cs| ==> NoOldRequest(cs[m]))
  {
    BeginIsOk(s, user);
    if forall m :: 0 <= m < |cs| ==> Safe(cs[m]) {
      SafeSoFar(cs, |cs| - 1);
    } else if forall m :: 0 <= m < |cs| ==> NoOldRequest(cs[m]) {
      forall m | 0 <= m < |cs|
        ensures Safe(cs[m])
      {
        OldKeysLeftAlong(cs, m);
        SafeIff(cs[m]);
      }
    }
  }

  /** In particular, a scan during which no such request was under way ends all chains from before it for good. */
  lemma UndisturbedScanEndsAll(cs: seq<Scan>, s: S.State, user: S.UserId)
    requires S.Inv(s) && Run(cs, false) && cs[0] == Begin(s, user) && Over(cs[|cs| - 1])
    requires forall m :: 0 <= m < |cs| ==> NoOldRequest(cs[m])
    ensures S.Dead(cs[|cs| - 1].sessions, s.chainOf.Keys, user)
  {
    BeginIsOk(s, user);
    OldKeysLeftAlong(cs, |cs| - 1);
    OverIsDead(cs[|cs| - 1]);
  }

  // ---- a refresh inside the scan ----

  /** The later state has the same requests under way, and accepts a token of the user in a chain of the earlier one. */
  ghost predicate LivesOn(s: S.State, later: S.State, user: S.UserId, t: S.RefreshToken) {
    && S.Inv(later) && later.processes == s.processes && s.chainOf.Keys <= later.chainOf.Keys
    && S.Accepts(later, t) && t.user == user && S.Chain(later, t.session) in s.chainOf
  }

  /**
   One live key is enough: a refresh that begins after the scan did and is done before the scan is hands the chain on
   to a key that the scan need not return. It is under way neither at the beginning nor at the end.
   */
  lemma RefreshInsideSurvives(s: S.State, k: S.Key) returns (d: Scan, t: S.RefreshToken)
    requires S.Inv(s) && k in s.redis
    ensures Leads(Begin(s, k.user), d, false) && Over(d) && LivesOn(s, d.sessions, k.user, t)
  {
    var previous := TokenOf(s, k);
    var pid := S.UnusedNumber(s.processes.Keys);
    var session := S.UnusedNumber(s.chainOf.Keys);
    t := S.RefreshToken(k.user, session, 0);
    RefreshLivesOn(s, pid, previous, session);
    KnownSession(s, k, session);
    var left;
    d, left := ScanAround(s, pid, previous, session);
    LivesOnWithout(s, S.RefreshAlone(s, pid, previous, session, 0), left, k.user, t);
  }

  lemma TokenOf(s: S.State, k: S.Key) returns (t: S.RefreshToken)
    requires S.Inv(s) && k in s.redis
    ensures t in s.issued && S.Accepts(s, t) && S.KeyOf(t) == k
  {
    assert S.StoredOk(s, k);
    t := s.redis[k].token;
  }

  lemma RefreshLivesOn(s: S.State, pid: nat, previous: S.RefreshToken, session: S.SessionId)
    requires S.Inv(s) && pid !in s.processes && previous in s.issued && session !in s.chainOf && S.Accepts(s, previous)
    ensures LivesOn(s, S.RefreshAlone(s, pid, previous, session, 0),
                    previous.user, S.RefreshToken(previous.user, session, 0))
  {
    S.RotationHandsOver(s, pid, previous, session, 0);
    KnownSession(s, S.KeyOf(previous), session);
    RefreshExtends(s, pid, previous, session);
  }

  lemma KnownSession(s: S.State, k: S.Key, session: S.SessionId)
    requires S.Inv(s) && k in s.redis && session !in s.chainOf
    ensures S.Chain(s, k.session) in s.chainOf && forall l :: l in s.redis ==> l.session != session
  {
    S.SessionsAreKnown(s);
  }

  lemma RefreshExtends(s: S.State, pid: nat, t: S.RefreshToken, session: S.SessionId)
    requires pid !in s.processes && t in s.issued && session !in s.chainOf && S.Accepts(s, t)
    ensures s.chainOf.Keys <= S.RefreshAlone(s, pid, t, session, 0).chainOf.Keys
  {
  }

  lemma LivesOnWithout(s: S.State, later: S.State, left: set<S.Key>, user: S.UserId, t: S.RefreshToken)
    requires LivesOn(s, later, user, t) && S.KeyOf(t) !in left
    ensures LivesOn(s, later.(redis := later.redis - left), user, t)
  {
    var trimmed := later.(redis := later.redis - left);
    assert S.Fewer(later, trimmed);
    S.PartsCarryOver(later, trimmed);
    assert S.KeyOf(t) in trimmed.redis && trimmed.redis[S.KeyOf(t)] == later.redis[S.KeyOf(t)];
  }

  lemma ScanAround(s: S.State, pid: nat, previous: S.RefreshToken, session: S.SessionId) returns (d: Scan,
                   left: set<S.Key>)
    requires S.Inv(s) && pid !in s.processes && previous in s.issued && session !in s.chainOf && S.Accepts(s, previous)
    ensures Leads(Begin(s, previous.user), d, false) && Over(d) && left <= s.redis.Keys
    ensures var after := S.RefreshAlone(s, pid, previous, session, 0);
      d.sessions == after.(redis := after.redis - left)
  {
    var claim, sign, store := Meanwhile(S.Claim(pid, previous)), Meanwhile(S.SignRefresh(pid, session, 0)),
        Meanwhile(S.StoreKey(pid));
    var c0 := Begin(s, previous.user);
    var c1 := Apply(c0, claim);
    var c2 := Apply(c1, sign);
    var c3 := Apply(c2, store);
    left := c3.left;
    d := DeleteAll(c3);
    QuietlyLeadsLeads(c3, d);
    LeadsStep(c2, store, d, false);
    LeadsStep(c1, sign, d, false);
    LeadsStep(c0, claim, d, false);
  }

  /** Whatever runs meanwhile, the scan ends all of the user's chains when it is over. */
  ghost predicate AlwaysEndsAll(s: S.State, user: S.UserId) {
    forall d :: Leads(Begin(s, user), d, false) && Over(d) ==> S.Dead(d.sessions, s.chainOf.Keys, user)
  }

  /**
   The scan can be relied on, with anything running beside it, only for a user who has no session and none in the
   making.
   */
  lemma AlwaysEndsAllIff(s: S.State, user: S.UserId)
    requires S.Inv(s)
    ensures AlwaysEndsAll(s, user) <==> S.NoneHeld(s, s.chainOf.Keys, user)
  {
    if S.NoneHeld(s, s.chainOf.Keys, user) {
      forall d | Leads(Begin(s, user), d, false) && Over(d)
        ensures S.Dead(d.sessions, s.chainOf.Keys, user)
      {
        NoneHeldStaysDead(s, user, d);
      }
    } else if p :| S.HeldByRequest(s, s.chainOf.Keys, user, p) {
      BeginIsOk(s, user);
      OldRequestSurvives(Begin(s, user), p);
      var d :| Leads(Begin(s, user), d, true) && Over(d) && !S.Dead(d.sessions, s.chainOf.Keys, user);
      QuietlyLeadsLeads(Begin(s, user), d);
    } else {
      var k :| S.HeldByKey(s, s.chainOf.Keys, user, k);
      var d, t := RefreshInsideSurvives(s, k);
      assert S.HeldByKey(d.sessions, s.chainOf.Keys, user, S.KeyOf(t));
      S.DeadIff(d.sessions, s.chainOf.Keys, user);
    }
  }

  lemma MoveIsMove(c: Scan, d: Scan)
    requires Moves(c, d, false)
    ensures S.Moves(c.sessions, d.sessions)
  {
    var step :| Enabled(c, step) && d == Apply(c, step);
    assert S.Enabled(c.sessions, StepOf(step));
  }

  ghost predicate Clear(s: S.State, chains: set<S.SessionId>, user: S.UserId) {
    S.Inv(s) && S.NoneHeld(s, chains, user) && chains <= s.chainOf.Keys
  }

  lemma ClearStays(c: Scan, d: Scan, chains: set<S.SessionId>, user: S.UserId)
    requires Clear(c.sessions, chains, user) && Moves(c, d, false)
    ensures Clear(d.sessions, chains, user)
  {
    MoveIsMove(c, d);
    S.NoneHeldMove(c.sessions, d.sessions, chains, user);
  }

  lemma {:induction false} ClearAlong(cs: seq<Scan>, i: nat, chains: set<S.SessionId>, user: S.UserId)
    requires Run(cs, false) && i < |cs| && Clear(cs[0].sessions, chains, user)
    ensures Clear(cs[i].sessions, chains, user)
  {
    if i > 0 {
      ClearAlong(cs, i - 1, chains, user);
      ClearStays(cs[i - 1], cs[i], chains, user);
    }
  }

  lemma NoneHeldStaysDead(s: S.State, user: S.UserId, d: Scan)
    requires S.Inv(s) && S.NoneHeld(s, s.chainOf.Keys, user) && Leads(Begin(s, user), d, false)
    ensures S.Dead(d.sessions, s.chainOf.Keys, user)
  {
    var cs :| Path(cs, false, Begin(s, user), d);
    ClearAlong(cs, |cs| - 1, s.chainOf.Keys, user);
    S.DeadIff(d.sessions, s.chainOf.Keys, user);
  }
}
