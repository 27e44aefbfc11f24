/** Whole runs of the authentication service with its calls one at a time. */
module AccountRuns {
  import opened Outcomes
  import opened Basics
  import opened Accounts
  import S = Sessions

  // ---- one table of one-time tokens ----

  ghost predicate DistinctHashes(rows: seq<OneTime>) {
    forall i, j :: 0 <= i < j < |rows| ==> rows[i].hash != rows[j].hash
  }

  /** No user has two tokens that can still be used. */
  ghost predicate OneUnusedEach(rows: seq<OneTime>) {
    forall i, j :: 0 <= i < j < |rows| && rows[i].user == rows[j].user ==> rows[i].used.Some? || rows[j].used.Some?
  }

  ghost predicate OwnersExist(rows: seq<OneTime>, users: map<UserId, User>) {
    forall i :: 0 <= i < |rows| ==> rows[i].user in users
  }

  ghost predicate TableOk(rows: seq<OneTime>, users: map<UserId, User>) {
    DistinctHashes(rows) && OneUnusedEach(rows) && OwnersExist(rows, users)
  }

  /** Rows are only added, and only ever change from unused to used. */
  ghost predicate Aged(rows: seq<OneTime>, later: seq<OneTime>) {
    && |rows| <= |later|
    && forall i :: 0 <= i < |rows| ==>
      && later[i].user == rows[i].user && later[i].hash == rows[i].hash && later[i].expires == rows[i].expires
      && (rows[i].used.Some? ==> later[i].used == rows[i].used)
  }

  lemma ReissueKeeps(rows: seq<OneTime>, users: map<UserId, User>, user: UserId, plain: nat, now: int, lifetime: int)
    requires TableOk(rows, users) && user in users
    requires forall i :: 0 <= i < |rows| ==> rows[i].hash != Sha256(plain)
    ensures TableOk(Reissue(rows, user, plain, now, lifetime), users)
    ensures Aged(rows, Reissue(rows, user, plain, now, lifetime))
  {
  }

  lemma AddKeeps(rows: seq<OneTime>, users: map<UserId, User>, row: OneTime, user: User)
    requires TableOk(rows, users) && row.user !in users
    requires forall i :: 0 <= i < |rows| ==> rows[i].hash != row.hash
    ensures TableOk(rows + [row], users[row.user := user]) && Aged(rows, rows + [row])
  {
  }

  lemma ConsumeKeeps(rows: seq<OneTime>, users: map<UserId, User>, i: nat, now: int)
    requires TableOk(rows, users) && i < |rows| && rows[i].used.None?
    ensures TableOk(Consume(rows, i, now), users) && Aged(rows, Consume(rows, i, now))
  {
  }

  // ---- the invariant ----

  ghost predicate TablesOk(s: State) {
    UniqueEmails(s.users) && TableOk(s.verifications, s.users) && TableOk(s.resets, s.users)
  }

  ghost predicate Inv(s: State) {
    TablesOk(s) && S.Inv(s.sessions) && s.sessions.processes == map[]
  }

  /** Users stay, keep their email, and stay verified once they are. */
  ghost predicate UsersStay(users: map<UserId, User>, later: map<UserId, User>) {
    forall u :: u in users ==>
      u in later && later[u].email == users[u].email && (users[u].verified ==> later[u].verified)
  }

  ghost predicate TablesGrew(s: State, t: State) {
    UsersStay(s.users, t.users) && Aged(s.verifications, t.verifications) && Aged(s.resets, t.resets)
  }

  // ---- the session part of a call is a run of the session protocol ----

  lemma LeadsSelf(s: S.State)
    ensures S.Leads(s, s)
  {
    assert S.Path([s], s, s);
  }

  lemma LeadsOne(s: S.State, step: S.Step)
    requires S.Enabled(s, step)
    ensures S.Leads(s, S.Apply(s, step))
  {
    LeadsSelf(S.Apply(s, step));
    S.LeadsStep(s, step, S.Apply(s, step));
  }

  lemma LeadsTransitive(s: S.State, t: S.State, u: S.State)
    requires S.Leads(s, t) && S.Leads(t, u)
    ensures S.Leads(s, u)
  {
    var p :| S.Path(p, s, t);
    var q :| S.Path(q, t, u);
    var r := p + q[1..];
    forall i, j | 0 <= i && j == i + 1 && j < |r|
      ensures S.Moves(r[i], r[j])
    {
      if j >= |p| {
        assert r[j] == q[j - |p| + 1] && r[i] == q[i - |p| + 1];
        assert S.Moves(q[i - |p| + 1], q[j - |p| + 1]);
      } else {
        assert S.Moves(p[i], p[j]);
      }
    }
    assert S.Path(r, s, u);
  }

  ghost predicate SessionsGoOn(s: S.State, t: S.State) {
    S.Inv(t) && t.processes == map[] && S.Leads(s, t)
  }

  lemma StepThen(s: S.State, step: S.Step, t: S.State)
    requires S.Enabled(s, step) && SessionsGoOn(S.Apply(s, step), t)
    ensures SessionsGoOn(s, t)
  {
    S.LeadsStep(s, step, t);
  }

  lemma LastStep(s: S.State, step: S.Step)
    requires S.Inv(s) && S.Enabled(s, step) && S.Apply(s, step).processes == map[]
    ensures SessionsGoOn(s, S.Apply(s, step))
  {
    S.StepKeeps(s, step);
    LeadsOne(s, step);
  }

  lemma SignAndStoreOk(s: S.State, sign: S.Step, t: S.State)
    requires S.Inv(s) && (sign.SignLogin? || sign.SignRefresh?) && S.Enabled(s, sign) && s.processes.Keys <= {sign.pid}
    requires t == S.Apply(S.Apply(s, sign), S.StoreKey(sign.pid))
    ensures SessionsGoOn(s, t)
  {
    S.StepKeeps(s, sign);
    LastStep(S.Apply(s, sign), S.StoreKey(sign.pid));
    StepThen(s, sign, t);
  }

  lemma LoginSessionOk(s: S.State, user: UserId, session: S.SessionId, now: int)
    requires S.Inv(s) && s.processes == map[] && session !in s.chainOf
    ensures SessionsGoOn(s, LoginSession(s, user, session, now))
  {
    SignAndStoreOk(s, S.SignLogin(0, user, session, now), LoginSession(s, user, session, now));
  }

  lemma ActiveRefreshOk(s: S.State, token: S.RefreshToken, session: S.SessionId, now: int)
    requires S.Inv(s) && s.processes == map[] && session !in s.chainOf && token in s.issued && S.Accepts(s, token)
    ensures SessionsGoOn(s, S.RefreshAlone(s, 0, token, session, now))
  {
    var claim := S.Claim(0, token);
    S.StepKeeps(s, claim);
    SignAndStoreOk(S.Apply(s, claim), S.SignRefresh(0, session, now), S.RefreshAlone(s, 0, token, session, now));
    StepThen(s, claim, S.RefreshAlone(s, 0, token, session, now));
  }

  lemma DisabledRefreshOk(s: S.State, token: S.RefreshToken)
    requires S.Inv(s) && s.processes == map[] && token in s.issued && S.Accepts(s, token)
    ensures SessionsGoOn(s, S.Apply(S.Apply(s, S.Claim(0, token)), S.Drop(0)))
  {
    var claim := S.Claim(0, token);
    S.StepKeeps(s, claim);
    LastStep(S.Apply(s, claim), S.Drop(0));
    StepThen(s, claim, S.Apply(S.Apply(s, claim), S.Drop(0)));
  }

  lemma RefreshSessionOk(s: State, token: S.RefreshToken, session: S.SessionId, now: int)
    requires S.Inv(s.sessions) && s.sessions.processes == map[] && session !in s.sessions.chainOf
    requires token in s.sessions.issued
    ensures SessionsGoOn(s.sessions, RefreshIn(s, token, session, now).0.sessions)
  {
    if !S.Accepts(s.sessions, token) {
      LastStep(s.sessions, S.Claim(0, token));
    } else if IsActive(s.users, token.user) {
      ActiveRefreshOk(s.sessions, token, session, now);
    } else {
      DisabledRefreshOk(s.sessions, token);
    }
  }

  lemma ForgetOk(s: S.State, step: S.Step)
    requires S.Inv(s) && s.processes == map[] && (step.Forget? || step.ForgetAll?)
    ensures SessionsGoOn(s, S.Apply(s, step))
  {
    LastStep(s, step);
  }

  // ---- one call ----

  lemma RegisterKeeps(s: State, id: UserId, email: string, password: string, invited: bool, plain: nat, now: int)
    requires TablesOk(s) && id !in s.users && Unseen(s, plain)
    ensures var t := RegisterIn(s, id, email, password, invited, plain, now).0;
      TablesOk(t) && TablesGrew(s, t) && t.sessions == s.sessions
  {
    var t := RegisterIn(s, id, email, password, invited, plain, now).0;
    if UserByEmail(s.users, email).None? {
      assert forall u :: u in s.users ==> !HasEmail(s.users, u, email);
      if !invited {
        AddKeeps(s.verifications, s.users, OneTime(id, Sha256(plain), now + 24 * HOUR, None), t.users[id]);
      }
    }
  }

  /** Changing a user's record, but not the email and not back to unverified, keeps the tables in order. */
  lemma UserChangeKeeps(s: State, id: UserId, user: User)
    requires TablesOk(s) && id in s.users
    requires user.email == s.users[id].email && (s.users[id].verified ==> user.verified)
    ensures var t := s.(users := s.users[id := user]); TablesOk(t) && TablesGrew(s, t)
  {
  }

  lemma VerifyKeeps(s: State, plain: nat, now: int)
    requires TablesOk(s)
    ensures var t := VerifyIn(s, plain, now).0; TablesOk(t) && TablesGrew(s, t) && t.sessions == s.sessions
  {
    var i := FindUnused(s.verifications, plain);
    if i.Some? && s.verifications[i.value].expires >= now {
      var row := s.verifications[i.value];
      UserChangeKeeps(s, row.user, s.users[row.user].(verified := true));
      ConsumeKeeps(s.verifications, s.users[row.user := s.users[row.user].(verified := true)], i.value, now);
    }
  }

  lemma ResetKeeps(s: State, plain: nat, password: string, now: int)
    requires TablesOk(s)
    ensures var t := ResetIn(s, plain, password, now).0; TablesOk(t) && TablesGrew(s, t)
  {
    var i := FindUnused(s.resets, plain);
    if i.Some? && s.resets[i.value].expires >= now {
      var row := s.resets[i.value];
      UserChangeKeeps(s, row.user, s.users[row.user].(password := Some(password)));
      ConsumeKeeps(s.resets, s.users[row.user := s.users[row.user].(password := Some(password))], i.value, now);
    }
  }

  lemma ReissuesKeep(s: State, email: string, plain: nat, now: int)
    requires TablesOk(s) && Unseen(s, plain)
    ensures TablesOk(ResendIn(s, email, plain, now)) && TablesGrew(s, ResendIn(s, email, plain, now))
    ensures TablesOk(ForgotIn(s, email, plain, now)) && TablesGrew(s, ForgotIn(s, email, plain, now))
  {
    var id := UserByEmail(s.users, email);
    if id.Some? {
      ReissueKeeps(s.verifications, s.users, id.value, plain, now, 24 * HOUR);
      ReissueKeeps(s.resets, s.users, id.value, plain, now, HOUR);
    }
  }

  predicate IsSessionCall(c: Call) {
    c.Login? || c.RefreshCall? || c.Logout?
  }

  lemma SessionCallLeavesTables(s: State, c: Call)
    requires Possible(s, c) && IsSessionCall(c)
    ensures var t := Exec(s, c).0; t.users == s.users && t.verifications == s.verifications && t.resets == s.resets
  {
  }

  lemma TableCallLeavesSessions(s: State, c: Call)
    requires Possible(s, c) && !IsSessionCall(c) && !c.ResetPassword?
    ensures Exec(s, c).0.sessions == s.sessions
  {
  }

  lemma NothingKeeps(s: State, t: State)
    requires TablesOk(s) && t.users == s.users && t.verifications == s.verifications && t.resets == s.resets
    ensures TablesOk(t) && TablesGrew(s, t)
  {
  }

  lemma CallKeepsTables(s: State, c: Call)
    requires TablesOk(s) && Possible(s, c)
    ensures TablesOk(Exec(s, c).0) && TablesGrew(s, Exec(s, c).0)
  {
    if IsSessionCall(c) {
      SessionCallLeavesTables(s, c);
      NothingKeeps(s, Exec(s, c).0);
    } else {
      match c
      case Register(id, email, password, invited, plain, now) =>
        RegisterKeeps(s, id, email, password, invited, plain, now);
      case VerifyEmail(plain, now) => VerifyKeeps(s, plain, now);
      case ResendVerification(email, plain, now) => ReissuesKeep(s, email, plain, now);
      case ForgotPassword(email, plain, now) => ReissuesKeep(s, email, plain, now);
      case ResetPassword(plain, password, now) => ResetKeeps(s, plain, password, now);
      case SetActive(user, active) =>
        if user in s.users {
          UserChangeKeeps(s, user, s.users[user].(active := active));
        } else {
          NothingKeeps(s, s);
        }
      case Read => NothingKeeps(s, s);
    }
  }

  lemma LoginGoesOn(s: State, email: string, password: string, memberships: seq<Membership>, wanted: Option<nat>,
                    session: S.SessionId, now: int)
    requires S.Inv(s.sessions) && s.sessions.processes == map[] && session !in s.sessions.chainOf
    ensures SessionsGoOn(s.sessions, LoginIn(s, email, password, memberships, wanted, session, now).0.sessions)
  {
    LeadsSelf(s.sessions);
    LoginStartsOne(s, email, password, memberships, wanted, session, now);
    if UserByEmail(s.users, email).Some? {
      LoginSessionOk(s.sessions, UserByEmail(s.users, email).value, session, now);
    }
  }

  lemma LoginStartsOne(s: State, email: string, password: string, memberships: seq<Membership>, wanted: Option<nat>,
                       session: S.SessionId, now: int)
    requires s.sessions.processes == map[] && session !in s.sessions.chainOf
    ensures var t := LoginIn(s, email, password, memberships, wanted, session, now).0.sessions;
      t == s.sessions
      || (&& UserByEmail(s.users, email).Some?
          && t == LoginSession(s.sessions, UserByEmail(s.users, email).value, session, now))
  {
  }

  lemma ResetGoesOn(s: State, plain: nat, password: string, now: int)
    requires S.Inv(s.sessions) && s.sessions.processes == map[]
    ensures SessionsGoOn(s.sessions, ResetIn(s, plain, password, now).0.sessions)
  {
    LeadsSelf(s.sessions);
    var i := FindUnused(s.resets, plain);
    if i.Some? {
      ForgetOk(s.sessions, S.ForgetAll(s.resets[i.value].user));
    }
  }

  lemma CallKeepsSessions(s: State, c: Call)
    requires S.Inv(s.sessions) && Possible(s, c)
    ensures SessionsGoOn(s.sessions, Exec(s, c).0.sessions)
  {
    match c
    case Login(email, password, memberships, wanted, session, now) =>
      LoginGoesOn(s, email, password, memberships, wanted, session, now);
    case RefreshCall(token, session, now) => RefreshSessionOk(s, token, session, now);
    case Logout(user, session) => ForgetOk(s.sessions, S.Forget(S.Key(user, session)));
    case ResetPassword(plain, password, now) => ResetGoesOn(s, plain, password, now);
    case _ =>
      TableCallLeavesSessions(s, c);
      LeadsSelf(s.sessions);
  }

  // ---- runs ----

  ghost predicate Follows(s: State, c: Call, t: State) {
    Possible(s, c) && t == Exec(s, c).0
  }

  /** The calls `cs`, one after the other, lead through the states `ss`. */
  ghost predicate Run(ss: seq<State>, cs: seq<Call>) {
    && |ss| == |cs| + 1 && ss[0] == State(map[], [], [], S.START)
    && forall k {:trigger cs[k]} :: 0 <= k < |cs| ==> Follows(ss[k], cs[k], ss[k + 1])
  }

  lemma FollowsKeeps(s: State, c: Call, t: State)
    requires Inv(s) && Follows(s, c, t)
    ensures TablesOk(t) && TablesGrew(s, t) && SessionsGoOn(s.sessions, t.sessions)
  {
    CallKeepsTables(s, c);
    CallKeepsSessions(s, c);
  }

  /** In every state each user has at most one token of either kind that can still be used, and all hashes differ. */
  lemma {:induction false} EveryStateInOrder(ss: seq<State>, cs: seq<Call>, i: nat)
    requires Run(ss, cs) && i < |ss|
    ensures Inv(ss[i])
  {
    if i == 0 {
      S.StartIsOk();
    } else {
      EveryStateInOrder(ss, cs, i - 1);
      FollowsKeeps(ss[i - 1], cs[i - 1], ss[i]);
    }
  }

  lemma GrewTransitive(s: State, t: State, u: State)
    requires TablesGrew(s, t) && TablesGrew(t, u)
    ensures TablesGrew(s, u)
  {
  }

  lemma {:induction false} GrewAlong(ss: seq<State>, cs: seq<Call>, i: nat, j: nat)
    requires Run(ss, cs) && i <= j < |ss|
    ensures TablesGrew(ss[i], ss[j])
    decreases j - i
  {
    if i < j {
      GrewAlong(ss, cs, i, j - 1);
      GrewNext(ss, cs, i, j - 1);
    } else {
      RowsGrewSelf(ss[i]);
    }
  }

  lemma GrewNext(ss: seq<State>, cs: seq<Call>, i: nat, j: nat)
    requires Run(ss, cs) && i <= j < |cs| && TablesGrew(ss[i], ss[j])
    ensures TablesGrew(ss[i], ss[j + 1])
  {
    EveryStateInOrder(ss, cs, j);
    GrewMore(ss[i], ss[j], cs[j], ss[j + 1]);
  }

  lemma RowsGrewSelf(s: State)
    ensures TablesGrew(s, s)
  {
  }

  lemma GrewMore(s: State, t: State, c: Call, u: State)
    requires TablesGrew(s, t) && Inv(t) && Follows(t, c, u)
    ensures TablesGrew(s, u)
  {
    FollowsKeeps(t, c, u);
    GrewTransitive(s, t, u);
  }

  lemma {:induction false} SessionsAlong(ss: seq<State>, cs: seq<Call>, i: nat, j: nat)
    requires Run(ss, cs) && i <= j < |ss|
    ensures S.Leads(ss[i].sessions, ss[j].sessions)
    decreases j - i
  {
    if i == j {
      LeadsSelf(ss[i].sessions);
    } else {
      SessionsAlong(ss, cs, i, j - 1);
      EveryStateInOrder(ss, cs, j - 1);
      FollowsKeeps(ss[j - 1], cs[j - 1], ss[j]);
      LeadsTransitive(ss[i].sessions, ss[j - 1].sessions, ss[j].sessions);
    }
  }

  /** Once verified, a user stays verified. */
  lemma VerifiedForGood(ss: seq<State>, cs: seq<Call>, i: nat, j: nat, u: UserId)
    requires Run(ss, cs) && i <= j < |ss| && IsVerified(ss[i], u)
    ensures IsVerified(ss[j], u)
  {
    GrewAlong(ss, cs, i, j);
  }

  predicate IsVerified(s: State, u: UserId) {
    u in s.users && s.users[u].verified
  }

  lemma UsedStaysUsed(rows: seq<OneTime>, later: seq<OneTime>, plain: nat, k: nat)
    requires Aged(rows, later) && DistinctHashes(later)
    requires k < |rows| && rows[k].hash == Sha256(plain) && rows[k].used.Some?
    ensures FindUnused(later, plain) == None
  {
  }

  /** A verification token works once: after it did, every later use is answered with "not found". */
  lemma VerificationTokenWorksOnce(ss: seq<State>, cs: seq<Call>, i: nat, j: nat)
    requires Run(ss, cs) && i < j < |cs| && cs[i].VerifyEmail? && cs[j].VerifyEmail? && cs[i].plain == cs[j].plain
    requires VerifyIn(ss[i], cs[i].plain, cs[i].now).1 == Ok
    ensures Follows(ss[j], cs[j], ss[j]) && Exec(ss[j], cs[j]).1 == TokenNotFound
  {
    assert Follows(ss[i], cs[i], ss[i + 1]) && Follows(ss[j], cs[j], ss[j + 1]);
    EveryStateInOrder(ss, cs, j);
    GrewAlong(ss, cs, i + 1, j);
    UsedStaysUsed(ss[i + 1].verifications, ss[j].verifications, cs[i].plain,
                   FindUnused(ss[i].verifications, cs[i].plain).value);
  }

  /** A reset token works once. */
  lemma ResetTokenWorksOnce(ss: seq<State>, cs: seq<Call>, i: nat, j: nat)
    requires Run(ss, cs) && i < j < |cs| && cs[i].ResetPassword? && cs[j].ResetPassword? && cs[i].plain == cs[j].plain
    requires ResetIn(ss[i], cs[i].plain, cs[i].password, cs[i].now).1 == Ok
    ensures Follows(ss[j], cs[j], ss[j]) && Exec(ss[j], cs[j]).1 == TokenNotFound
  {
    assert Follows(ss[i], cs[i], ss[i + 1]) && Follows(ss[j], cs[j], ss[j + 1]);
    EveryStateInOrder(ss, cs, j);
    GrewAlong(ss, cs, i + 1, j);
    UsedStaysUsed(ss[i + 1].resets, ss[j].resets, cs[i].plain, FindUnused(ss[i].resets, cs[i].plain).value);
  }

  /** The user whose unused reset token this is. */
  ghost predicate ResetsUser(s: State, plain: nat, u: UserId) {
    var i := FindUnused(s.resets, plain); i.Some? && s.resets[i.value].user == u
  }

  /** After a password reset no refresh token issued to that user before it is ever accepted again. */
  lemma ResetEndsEarlierSessions(ss: seq<State>, cs: seq<Call>, i: nat, j: nat, t: S.RefreshToken)
    requires Run(ss, cs) && i < j < |ss| && cs[i].ResetPassword?
    requires ResetIn(ss[i], cs[i].plain, cs[i].password, cs[i].now).1 == Ok && ResetsUser(ss[i], cs[i].plain, t.user)
    requires t in ss[i].sessions.issued
    ensures !S.Accepts(ss[j].sessions, t)
  {
    assert Follows(ss[i], cs[i], ss[i + 1]);
    EveryStateInOrder(ss, cs, i);
    SessionsAlong(ss, cs, i + 1, j);
    S.EarlierTokensDead(ss[i].sessions, t.user, ss[j].sessions, t);
  }

  // ---- where tokens come from ----

  /** The call mails a verification token to the user's address, and this is the row it leaves. */
  ghost predicate MailsVerification(s: State, c: Call, row: OneTime) {
    && (c.Register? || c.ResendVerification?) && row.hash == Sha256(c.plain) && row.expires == c.now + 24 * HOUR
    && if c.Register? then c.id == row.user && !c.invited && UserByEmail(s.users, c.email).None?
       else HasEmail(s.users, row.user, c.email)
  }

  ghost predicate MailsReset(s: State, c: Call, row: OneTime) {
    c.ForgotPassword? && row.hash == Sha256(c.plain) && row.expires == c.now + HOUR
    && HasEmail(s.users, row.user, c.email)
  }

  predicate SameToken(row: OneTime, later: OneTime) {
    later.user == row.user && later.hash == row.hash && later.expires == row.expires
  }

  lemma ReissueAdds(rows: seq<OneTime>, user: UserId, plain: nat, now: int, lifetime: int, i: nat)
    requires i < |Reissue(rows, user, plain, now, lifetime)|
    ensures var row := Reissue(rows, user, plain, now, lifetime)[i];
      if i < |rows| then SameToken(rows[i], row) else row == OneTime(user, Sha256(plain), now + lifetime, None)
  {
  }

  lemma VerificationRowComesFrom(s: State, c: Call, i: nat)
    requires Possible(s, c) && i < |Exec(s, c).0.verifications|
    ensures var row := Exec(s, c).0.verifications[i];
      if i < |s.verifications| then SameToken(s.verifications[i], row) else MailsVerification(s, c, row)
  {
    if c.ResendVerification? {
      var id := UserByEmail(s.users, c.email);
      if id.Some? && !s.users[id.value].verified {
        ReissueAdds(s.verifications, id.value, c.plain, c.now, 24 * HOUR, i);
      }
    } else if !c.Register? && !c.VerifyEmail? {
      OthersLeaveVerifications(s, c);
    }
  }

  lemma OthersLeaveVerifications(s: State, c: Call)
    requires Possible(s, c) && !c.Register? && !c.VerifyEmail? && !c.ResendVerification?
    ensures Exec(s, c).0.verifications == s.verifications
  {
  }

  lemma ResetRowComesFrom(s: State, c: Call, i: nat)
    requires Possible(s, c) && i < |Exec(s, c).0.resets|
    ensures var row := Exec(s, c).0.resets[i];
      if i < |s.resets| then SameToken(s.resets[i], row) else MailsReset(s, c, row)
  {
    if c.ForgotPassword? {
      var id := UserByEmail(s.users, c.email);
      if id.Some? && s.users[id.value].active {
        ReissueAdds(s.resets, id.value, c.plain, c.now, HOUR, i);
      }
    } else if !c.ResetPassword? {
      OthersLeaveResets(s, c);
    }
  }

  lemma OthersLeaveResets(s: State, c: Call)
    requires Possible(s, c) && !c.ForgotPassword? && !c.ResetPassword?
    ensures Exec(s, c).0.resets == s.resets
  {
  }

  /** Every verification token was mailed to its user's address by an earlier call. */
  lemma {:induction false} VerificationMailed(ss: seq<State>, cs: seq<Call>, j: nat, i: nat)
    requires Run(ss, cs) && j < |ss| && i < |ss[j].verifications|
    ensures exists k :: 0 <= k < j && MailsVerification(ss[k], cs[k], ss[j].verifications[i])
  {
    assert j > 0;
    assert Follows(ss[j - 1], cs[j - 1], ss[j]);
    VerificationRowComesFrom(ss[j - 1], cs[j - 1], i);
    if i < |ss[j - 1].verifications| {
      VerificationMailed(ss, cs, j - 1, i);
      var k :| 0 <= k < j - 1 && MailsVerification(ss[k], cs[k], ss[j - 1].verifications[i]);
      assert MailsVerification(ss[k], cs[k], ss[j].verifications[i]);
    }
  }

  /** Every reset token was mailed to its user's address by an earlier call. */
  lemma {:induction false} ResetMailed(ss: seq<State>, cs: seq<Call>, j: nat, i: nat)
    requires Run(ss, cs) && j < |ss| && i < |ss[j].resets|
    ensures exists k :: 0 <= k < j && MailsReset(ss[k], cs[k], ss[j].resets[i])
  {
    assert j > 0;
    assert Follows(ss[j - 1], cs[j - 1], ss[j]);
    ResetRowComesFrom(ss[j - 1], cs[j - 1], i);
    if i < |ss[j - 1].resets| {
      ResetMailed(ss, cs, j - 1, i);
      var k :| 0 <= k < j - 1 && MailsReset(ss[k], cs[k], ss[j - 1].resets[i]);
      assert MailsReset(ss[k], cs[k], ss[j].resets[i]);
    }
  }

  // ---- why an account is verified, and why its password is what it is ----

  /** The k-th call presents, in time, a token that the m-th call mailed to the user's address. */
  ghost predicate PresentsMailed(ss: seq<State>, cs: seq<Call>, m: nat, k: nat, u: UserId)
    requires m < k < |cs| < |ss|
  {
    && cs[k].VerifyEmail? && (cs[m].Register? || cs[m].ResendVerification?) && cs[m].plain == cs[k].plain
    && MailsVerification(ss[m], cs[m], OneTime(u, Sha256(cs[k].plain), cs[m].now + 24 * HOUR, None))
    && cs[k].now <= cs[m].now + 24 * HOUR
  }

  /**
   The k-th call makes the user verified: registered with an accepted invitation, or by a token mailed to the user's
   address.
   */
  ghost predicate VerifiedAt(ss: seq<State>, cs: seq<Call>, k: nat, u: UserId)
    requires k < |cs| < |ss|
  {
    && !IsVerified(ss[k], u) && IsVerified(ss[k + 1], u)
    && if cs[k].Register? then cs[k].id == u && cs[k].invited
       else exists m :: 0 <= m < k && PresentsMailed(ss, cs, m, k, u)
  }

  lemma VerifiedAtStep(ss: seq<State>, cs: seq<Call>, k: nat, u: UserId)
    requires Run(ss, cs) && k < |cs| && !IsVerified(ss[k], u) && IsVerified(ss[k + 1], u)
    ensures VerifiedAt(ss, cs, k, u)
  {
    assert Follows(ss[k], cs[k], ss[k + 1]);
    if !cs[k].Register? {
      var i :| Unused(ss[k].verifications, i, cs[k].plain) && ss[k].verifications[i].user == u
        && cs[k].now <= ss[k].verifications[i].expires;
      VerificationMailed(ss, cs, k, i);
      var m :| 0 <= m < k && MailsVerification(ss[m], cs[m], ss[k].verifications[i]);
      assert PresentsMailed(ss, cs, m, k, u);
    }
  }

  /**
   A verified account became so by registering with an accepted invitation, or by a token mailed to it less than a day
   before.
   */
  lemma {:induction false} VerifiedBecause(ss: seq<State>, cs: seq<Call>, j: nat, u: UserId)
    requires Run(ss, cs) && j < |ss| && IsVerified(ss[j], u)
    ensures exists k :: 0 <= k < j && VerifiedAt(ss, cs, k, u)
  {
    assert j > 0;
    if IsVerified(ss[j - 1], u) {
      VerifiedBecause(ss, cs, j - 1, u);
    } else {
      VerifiedAtStep(ss, cs, j - 1, u);
    }
  }

  /**
   The k-th call sets the password, presenting in time a reset token that the m-th call mailed to the user's address.
   */
  ghost predicate ResetsMailed(ss: seq<State>, cs: seq<Call>, m: nat, k: nat, u: UserId, password: Option<string>)
    requires m < k < |cs| < |ss|
  {
    && cs[k].ResetPassword? && password == Some(cs[k].password)
    && cs[m].ForgotPassword? && cs[m].plain == cs[k].plain && HasEmail(ss[m].users, u, cs[m].email)
    && cs[k].now <= cs[m].now + HOUR
  }

  lemma PasswordChangedAt(ss: seq<State>, cs: seq<Call>, k: nat, u: UserId, password: Option<string>)
    requires Run(ss, cs) && k < |cs| && u in ss[k].users && u in ss[k + 1].users
    requires password == ss[k + 1].users[u].password != ss[k].users[u].password
    ensures exists m :: 0 <= m < k && ResetsMailed(ss, cs, m, k, u, password)
  {
    assert Follows(ss[k], cs[k], ss[k + 1]);
    var i :| Unused(ss[k].resets, i, cs[k].plain) && ss[k].resets[i].user == u && cs[k].now <= ss[k].resets[i].expires;
    ResetMailed(ss, cs, k, i);
    var m :| 0 <= m < k && MailsReset(ss[m], cs[m], ss[k].resets[i]);
    assert ResetsMailed(ss, cs, m, k, u, password);
  }

  /**
   If an account's password is not what it was, it is the one given with a reset token, in between, which was mailed
   to the account's address at most an hour before.
   */
  lemma {:induction false} PasswordChangedBecause(ss: seq<State>, cs: seq<Call>, i: nat, j: nat, u: UserId)
    requires Run(ss, cs) && i <= j < |ss| && u in ss[i].users && u in ss[j].users
    requires ss[j].users[u].password != ss[i].users[u].password
    ensures exists m, k :: 0 <= m < k < j && i <= k && ResetsMailed(ss, cs, m, k, u, ss[j].users[u].password)
    decreases j - i
  {
    GrewAlong(ss, cs, i, j - 1);
    if ss[j].users[u].password == ss[j - 1].users[u].password {
      PasswordChangedBecause(ss, cs, i, j - 1, u);
    } else {
      PasswordChangedAt(ss, cs, j - 1, u, ss[j].users[u].password);
    }
  }

  // ---- round trips through the mailbox ----

  lemma ReissuedIsFound(rows: seq<OneTime>, user: UserId, plain: nat, now: int, lifetime: int, other: nat)
    requires forall i :: 0 <= i < |rows| ==> rows[i].hash != Sha256(plain)
    requires DistinctHashes(rows)
    ensures FindUnused(Reissue(rows, user, plain, now, lifetime), plain) == Some(|rows|)
    ensures (exists i :: Unused(rows, i, other) && rows[i].user == user) ==>
      FindUnused(Reissue(rows, user, plain, now, lifetime), other) == None
  {
    var later := Reissue(rows, user, plain, now, lifetime);
    assert forall i :: 0 <= i < |rows| ==> later[i] == Retired(rows[i], user, now);
    assert later[|rows|] == OneTime(user, Sha256(plain), now + lifetime, None);
    assert Unused(later, |rows|, plain);
    if k :| Unused(rows, k, other) && rows[k].user == user {
      forall i
        ensures !Unused(later, i, other)
      {
        assert i == k ==> later[i].used.Some?;
      }
    }
  }

  /** The token of a resent mail verifies the account for 24 hours, and any earlier token of the account is dead. */
  lemma ResendThenVerify(s: State, email: string, plain: nat, now: int, later: int, earlier: nat)
    requires TablesOk(s) && Unseen(s, plain)
    requires UserByEmail(s.users, email).Some? && !s.users[UserByEmail(s.users, email).value].verified
    ensures var t, u := ResendIn(s, email, plain, now), UserByEmail(s.users, email).value;
      && VerifyIn(t, plain, later).1 == (if later <= now + 24 * HOUR then Ok else TokenExpired)
      && (later <= now + 24 * HOUR ==> VerifyIn(t, plain, later).0.users == s.users[u := s.users[u].(verified := true)])
      && ((exists i :: Unused(s.verifications, i, earlier) && s.verifications[i].user == u) ==>
            VerifyIn(t, earlier, later) == (t, TokenNotFound))
  {
    ReissuedIsFound(s.verifications, UserByEmail(s.users, email).value, plain, now, 24 * HOUR, earlier);
  }

  /** The token of a reset mail sets the password for one hour, and any earlier reset token of the account is dead. */
  lemma ForgotThenReset(s: State, email: string, plain: nat, now: int, password: string, later: int, earlier: nat)
    requires TablesOk(s) && Unseen(s, plain)
    requires UserByEmail(s.users, email).Some? && s.users[UserByEmail(s.users, email).value].active
    ensures var t, u := ForgotIn(s, email, plain, now), UserByEmail(s.users, email).value;
      && ResetIn(t, plain, password, later).1 == (if later <= now + HOUR then Ok else TokenExpired)
      && (later <= now + HOUR ==>
            ResetIn(t, plain, password, later).0.users == s.users[u := s.users[u].(password := Some(password))])
      && ((exists i :: Unused(s.resets, i, earlier) && s.resets[i].user == u) ==>
            ResetIn(t, earlier, password, later) == (t, TokenNotFound))
  {
    ReissuedIsFound(s.resets, UserByEmail(s.users, email).value, plain, now, HOUR, earlier);
  }
}
