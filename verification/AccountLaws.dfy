/** What the caller of the authentication service is answered and finds afterwards, in terms of the rows and keys. */
module AccountLaws {
  import opened Outcomes
  import opened Basics
  import opened Accounts
  import opened AccountRuns
  import S = Sessions

  /** An account has the address, in whatever case of letters. */
  predicate Holds(s: State, u: UserId, email: string) {
    u in s.users && SameAddress(s.users[u].email, email)
  }

  lemma AddressIsTaken(s: State, email: string, u: UserId)
    requires UniqueEmails(s.users)
    ensures UserByEmail(s.users, email) == Some(u) <==> Holds(s, u, email)
    ensures UserByEmail(s.users, email).None? ==> !Holds(s, u, email)
  {
    forall v
      ensures HasEmail(s.users, v, email) <==> Holds(s, v, email)
    {
      if v in s.users {
        LowerIff(s.users[v].email, email);
      }
    }
  }

  // ---- registering ----

  /**
   Registering is refused for a taken address; otherwise there is one more account, and a token for an unverified one.
   */
  lemma RegisterAnswers(s: State, id: UserId, email: string, password: string, invited: bool, plain: nat, now: int)
    requires id !in s.users
    ensures var (t, r) := RegisterIn(s, id, email, password, invited, plain, now);
      if exists u :: Holds(s, u, email) then t == s && r == EmailTaken
      else
        && r == Registered(id) && t.resets == s.resets && t.sessions == s.sessions
        && t.users == s.users[id := User(email, Some(password), invited, true)]
        && t.verifications == if invited then s.verifications
                              else s.verifications + [OneTime(id, Sha256(plain), now + 24 * 3600, None)]
  {
    forall u
      ensures HasEmail(s.users, u, email) <==> Holds(s, u, email)
    {
      if u in s.users {
        LowerIff(s.users[u].email, email);
      }
    }
  }

  // ---- the one-time tokens ----

  /** A row with this token that has not been used. */
  predicate Usable(rows: seq<OneTime>, i: int, plain: nat) {
    0 <= i < |rows| && rows[i].hash.plain == plain && rows[i].used == None
  }

  /** Verifying: not found without an unused row, expired after its time, and otherwise the user is verified, once. */
  lemma VerifyAnswers(s: State, plain: nat, now: int)
    requires TablesOk(s)
    ensures var (t, r) := VerifyIn(s, plain, now);
      && (r == TokenNotFound <==> forall i :: !Usable(s.verifications, i, plain))
      && (r.TokenNotFound? || r.TokenExpired? || r.Ok?) && (!r.Ok? ==> t == s)
      && forall i :: Usable(s.verifications, i, plain) ==>
           && (r == TokenExpired <==> s.verifications[i].expires < now)
           && (r == Ok ==>
                 && t.resets == s.resets && t.sessions == s.sessions
                 && t.users == s.users[s.verifications[i].user := s.users[s.verifications[i].user].(verified := true)]
                 && t.verifications == s.verifications[i := s.verifications[i].(used := Some(now))])
  {
    forall i
      ensures Usable(s.verifications, i, plain) <==> Unused(s.verifications, i, plain)
    {
    }
  }

  /** Resetting: likewise, and the password is the new one, and no session of the user is left. */
  lemma ResetAnswers(s: State, plain: nat, password: string, now: int)
    requires TablesOk(s)
    ensures var (t, r) := ResetIn(s, plain, password, now);
      && (r == TokenNotFound <==> forall i :: !Usable(s.resets, i, plain))
      && (r.TokenNotFound? || r.TokenExpired? || r.Ok?) && (!r.Ok? ==> t == s)
      && forall i :: Usable(s.resets, i, plain) ==>
           && (r == TokenExpired <==> s.resets[i].expires < now)
           && (r == Ok ==>
                 && t.verifications == s.verifications
                 && t.users == s.users[s.resets[i].user := s.users[s.resets[i].user].(password := Some(password))]
                 && t.resets == s.resets[i := s.resets[i].(used := Some(now))]
                 && OnlyKeysOfGo(s.sessions, t.sessions, s.resets[i].user))
  {
    forall i
      ensures Usable(s.resets, i, plain) <==> Unused(s.resets, i, plain)
    {
    }
  }

  /** The user's keys are gone, everybody else's are as they were, and nothing was issued. */
  ghost predicate OnlyKeysOfGo(s: S.State, t: S.State, u: UserId) {
    && t.issued == s.issued && t.honoured == s.honoured
    && (forall k :: k in t.redis <==> k in s.redis && k.user != u)
    && (forall k :: k in t.redis ==> t.redis[k] == s.redis[k])
  }

  /** The user's unused tokens are used up, all other rows are as they were, and there is one new row at the end. */
  predicate OneNewToken(rows: seq<OneTime>, later: seq<OneTime>, u: UserId, plain: nat, now: int, lifetime: int) {
    && |later| == |rows| + 1 && later[|rows|] == OneTime(u, Sha256(plain), now + lifetime, None)
    && forall i :: 0 <= i < |rows| ==>
         later[i] == if rows[i].user == u && rows[i].used == None then rows[i].(used := Some(now)) else rows[i]
  }

  /** Asking for another verification mail does something only for an unverified account with that address. */
  lemma ResendAnswers(s: State, email: string, plain: nat, now: int, u: UserId)
    requires UniqueEmails(s.users)
    ensures var t := ResendIn(s, email, plain, now);
      && t == s.(verifications := t.verifications)
      && (Holds(s, u, email) && !s.users[u].verified ==>
            OneNewToken(s.verifications, t.verifications, u, plain, now, 24 * 3600))
      && (Holds(s, u, email) && s.users[u].verified ==> t == s)
      && ((forall v :: !Holds(s, v, email)) ==> t == s)
  {
    forall v: UserId
      ensures UserByEmail(s.users, email) == Some(v) <==> Holds(s, v, email)
    {
      AddressIsTaken(s, email, v);
    }
  }

  /** Asking for a reset mail does something only for an active account with that address. */
  lemma ForgotAnswers(s: State, email: string, plain: nat, now: int, u: UserId)
    requires UniqueEmails(s.users)
    ensures var t := ForgotIn(s, email, plain, now);
      && t == s.(resets := t.resets)
      && (Holds(s, u, email) && s.users[u].active ==> OneNewToken(s.resets, t.resets, u, plain, now, 3600))
      && (Holds(s, u, email) && !s.users[u].active ==> t == s)
      && ((forall v :: !Holds(s, v, email)) ==> t == s)
  {
    forall v: UserId
      ensures UserByEmail(s.users, email) == Some(v) <==> Holds(s, v, email)
    {
      AddressIsTaken(s, email, v);
    }
  }

  // ---- sessions ----

  /** The token works, and so does every token that worked before, except perhaps those of one key. */
  ghost predicate OneTokenMore(s: S.State, t: S.State, token: S.RefreshToken, gone: Option<S.Key>) {
    && token in t.issued && S.Accepts(t, token) && t.issued == s.issued + {token}
    && forall k :: k != S.Key(token.user, token.session) ==>
         && (k in t.redis <==> k in s.redis && gone != Some(k))
         && (k in t.redis ==> t.redis[k] == s.redis[k])
  }

  /** A login that is granted returns a token of that user that is accepted from then on; any other changes nothing. */
  lemma LoginAnswers(s: State, c: Call)
    requires Inv(s) && Possible(s, c) && c.Login?
    ensures var (t, r) := Exec(s, c);
      if r.TokenPair?
      then
        && Holds(s, r.refresh.user, c.email) && s.users[r.refresh.user].password == Some(c.password)
        && s.users[r.refresh.user].active && s.users[r.refresh.user].verified
        && r.refresh.session == c.session && r.refresh !in s.sessions.issued
        && t == s.(sessions := t.sessions) && OneTokenMore(s.sessions, t.sessions, r.refresh, None)
      else t == s
  {
    var id := UserByEmail(s.users, c.email);
    var user := if id.Some? then Some(s.users[id.value]) else None;
    RefusalIsNoToken(user, c.password, c.memberships, c.wanted);
    if id.Some? {
      AddressIsTaken(s, c.email, id.value);
      LoginKeys(s.sessions, id.value, c.session, c.now);
    }
  }

  lemma RefusalIsNoToken(user: Option<User>, password: string, memberships: seq<Membership>, wanted: Option<nat>)
    ensures var d := Decide(user, password, memberships, wanted);
      && (d.Refused? ==> !d.why.TokenPair?)
      && (d.Granted? ==>
            user.Some? && user.value.password == Some(password) && user.value.active && user.value.verified)
  {
    if wanted.Some? {
      FirstOfFinds(memberships, wanted.value);
    }
  }

  lemma LoginKeys(s: S.State, u: UserId, session: S.SessionId, now: int)
    requires S.Inv(s) && s.processes == map[] && session !in s.chainOf
    ensures var token := S.RefreshToken(u, session, now);
      token !in s.issued && OneTokenMore(s, LoginSession(s, u, session, now), token, None)
  {
  }

  /** Credentials of one account, whatever its organizations: what each wrong or missing piece is answered. */
  lemma LoginRefusals(s: State, c: Call, u: UserId)
    requires UniqueEmails(s.users) && Possible(s, c) && c.Login? && Holds(s, u, c.email)
    ensures var r := Exec(s, c).1;
      && (s.users[u].password != Some(c.password) ==> r == InvalidCredentials)
      && (s.users[u].password == Some(c.password) && !s.users[u].active ==> r == AccountDisabled)
      && (s.users[u].password == Some(c.password) && s.users[u].active ==>
            && (!s.users[u].verified ==> r == EmailNotVerified)
            && (s.users[u].verified && c.wanted.None? && |c.memberships| <= 1 ==> r.TokenPair? && r.refresh.user == u))
  {
    AddressIsTaken(s, c.email, u);
  }

  /** Nobody is let in under an address that no account has. */
  lemma UnknownAddress(s: State, c: Call)
    requires Possible(s, c) && c.Login? && forall u :: !Holds(s, u, c.email)
    ensures Exec(s, c) == (s, InvalidCredentials)
  {
    var id := UserByEmail(s.users, c.email);
    if id.Some? {
      LowerIff(s.users[id.value].email, c.email);
      assert Holds(s, id.value, c.email);
    }
  }

  /** Nothing was issued, and keys only went. */
  ghost predicate OnlyLess(s: S.State, t: S.State) {
    t.issued == s.issued && forall k :: k in t.redis ==> k in s.redis && t.redis[k] == s.redis[k]
  }

  /** The three answers to a refresh, and what each leaves behind. */
  lemma RefreshAnswers(s: State, c: Call)
    requires Inv(s) && Possible(s, c) && c.RefreshCall?
    ensures var (t, r) := Exec(s, c);
      var accepted := S.Accepts(s.sessions, c.token);
      var enabled := c.token.user in s.users && s.users[c.token.user].active;
      && t == s.(sessions := t.sessions) && !S.Accepts(t.sessions, c.token)
      && (r == TokenReused <==> !accepted)
      && (r == AccountDisabled <==> accepted && !enabled)
      && (r.TokenPair? <==> accepted && enabled)
      && (!r.TokenPair? ==> OnlyLess(s.sessions, t.sessions))
      && (r.TokenPair? ==>
            && r.refresh.user == c.token.user && r.refresh.session == c.session && r.refresh !in s.sessions.issued
            && OneTokenMore(s.sessions, t.sessions, r.refresh, Some(S.KeyOf(c.token))))
  {
    if !S.Accepts(s.sessions, c.token) {
      ReusedRefresh(s, c.token, c.session, c.now);
    } else if c.token.user in s.users && s.users[c.token.user].active {
      GoodRefresh(s, c.token, c.session, c.now);
    } else {
      DisabledRefresh(s, c.token, c.session, c.now);
    }
  }

  lemma ReusedRefresh(s: State, token: S.RefreshToken, session: S.SessionId, now: int)
    requires s.sessions.processes == map[] && session !in s.sessions.chainOf && token in s.sessions.issued
    requires !S.Accepts(s.sessions, token)
    ensures var (t, r) := RefreshIn(s, token, session, now);
      && t == s.(sessions := t.sessions) && r == TokenReused && OnlyLess(s.sessions, t.sessions)
      && !S.Accepts(t.sessions, token)
  {
  }

  lemma DisabledRefresh(s: State, token: S.RefreshToken, session: S.SessionId, now: int)
    requires s.sessions.processes == map[] && session !in s.sessions.chainOf && token in s.sessions.issued
    requires S.Accepts(s.sessions, token) && !(token.user in s.users && s.users[token.user].active)
    ensures var (t, r) := RefreshIn(s, token, session, now);
      && t == s.(sessions := t.sessions) && r == AccountDisabled && OnlyLess(s.sessions, t.sessions)
      && !S.Accepts(t.sessions, token)
  {
  }

  lemma GoodRefresh(s: State, token: S.RefreshToken, session: S.SessionId, now: int)
    requires S.Inv(s.sessions) && s.sessions.processes == map[] && session !in s.sessions.chainOf
    requires token in s.sessions.issued && S.Accepts(s.sessions, token) && token.user in s.users
    requires s.users[token.user].active
    ensures var (t, r) := RefreshIn(s, token, session, now);
      var next := S.RefreshToken(token.user, session, now);
      && t == s.(sessions := t.sessions) && r == TokenPair(next) && next !in s.sessions.issued
      && OneTokenMore(s.sessions, t.sessions, next, Some(S.KeyOf(token))) && !S.Accepts(t.sessions, token)
  {
    RefreshKeys(s.sessions, token, session, now);
  }

  lemma RefreshIssues(s: S.State, token: S.RefreshToken, session: S.SessionId, now: int)
    requires S.TokensOk(s) && s.processes == map[] && session !in s.chainOf && token in s.issued && S.Accepts(s, token)
    ensures var next := S.RefreshToken(token.user, session, now);
      next !in s.issued && next != token && S.RefreshAlone(s, 0, token, session, now).issued == s.issued + {next}
  {
    S.TokenSessionKnown(s, token);
  }

  lemma RefreshKeys(s: S.State, token: S.RefreshToken, session: S.SessionId, now: int)
    requires S.Inv(s) && s.processes == map[] && session !in s.chainOf && token in s.issued && S.Accepts(s, token)
    ensures var next, t := S.RefreshToken(token.user, session, now), S.RefreshAlone(s, 0, token, session, now);
      && next !in s.issued && !S.Accepts(t, token) && OneTokenMore(s, t, next, Some(S.KeyOf(token)))
  {
    S.RotationHandsOver(s, 0, token, session, now);
    RefreshIssues(s, token, session, now);
    KeyReplaced(s, S.RefreshAlone(s, 0, token, session, now), token, S.RefreshToken(token.user, session, now));
  }

  lemma KeyReplaced(s: S.State, t: S.State, token: S.RefreshToken, next: S.RefreshToken)
    requires t.redis == (s.redis - {S.KeyOf(token)})[S.KeyOf(next) := S.Sha256(next)] && t.issued == s.issued + {next}
    ensures OneTokenMore(s, t, next, Some(S.KeyOf(token)))
  {
  }

  /** A logout ends exactly that session. */
  lemma LogoutAnswers(s: State, c: Call, token: S.RefreshToken)
    requires Possible(s, c) && c.Logout?
    ensures var (t, r) := Exec(s, c);
      && r == Ok && t == s.(sessions := t.sessions) && t.sessions.issued == s.sessions.issued
      && (S.Accepts(t.sessions, token) <==>
            S.Accepts(s.sessions, token) && !(token.user == c.user && token.session == c.session))
  {
  }

  /** Enabling or disabling an account changes that and nothing else. */
  lemma SetActiveAnswers(s: State, c: Call)
    requires Possible(s, c) && c.SetActive?
    ensures var (t, r) := Exec(s, c);
      && t == s.(users := t.users)
      && (c.user !in s.users ==> t == s)
      && (c.user in s.users ==> t.users == s.users[c.user := s.users[c.user].(active := c.active)])
  {
  }

  // ---- over runs ----

  lemma IssuedByStep(s: State, c: Call, token: S.RefreshToken)
    requires Inv(s) && Possible(s, c) && token in Exec(s, c).0.sessions.issued && token !in s.sessions.issued
    ensures (c.Login? || c.RefreshCall?) && Exec(s, c).1 == TokenPair(token)
    ensures token.user in s.users && s.users[token.user].active
  {
    if c.Login? {
      LoginAnswers(s, c);
    } else if c.RefreshCall? {
      RefreshAnswers(s, c);
    } else {
      OthersIssueNothing(s, c);
    }
  }

  lemma OthersIssueNothing(s: State, c: Call)
    requires Possible(s, c) && !c.Login? && !c.RefreshCall?
    ensures Exec(s, c).0.sessions.issued == s.sessions.issued
  {
  }

  /** Every refresh token was the answer to a login or refresh of an account that was active at that moment. */
  lemma {:induction false} IssuedToActive(ss: seq<State>, cs: seq<Call>, j: nat, token: S.RefreshToken)
    requires Run(ss, cs) && j < |ss| && token in ss[j].sessions.issued
    ensures exists k :: 0 <= k < j && IssuedAt(ss, cs, k, token)
  {
    assert j > 0;
    assert Follows(ss[j - 1], cs[j - 1], ss[j]);
    if token in ss[j - 1].sessions.issued {
      IssuedToActive(ss, cs, j - 1, token);
    } else {
      EveryStateInOrder(ss, cs, j - 1);
      IssuedByStep(ss[j - 1], cs[j - 1], token);
      assert IssuedAt(ss, cs, j - 1, token);
    }
  }

  ghost predicate IssuedAt(ss: seq<State>, cs: seq<Call>, k: nat, token: S.RefreshToken)
    requires k < |cs| < |ss|
  {
    && (cs[k].Login? || cs[k].RefreshCall?) && Possible(ss[k], cs[k]) && Exec(ss[k], cs[k]).1 == TokenPair(token)
    && token.user in ss[k].users && ss[k].users[token.user].active
  }

  lemma NoneWhenDisabled(ss: seq<State>, cs: seq<Call>, k: nat, token: S.RefreshToken)
    requires Run(ss, cs) && k < |cs| && token in ss[k + 1].sessions.issued && !IsActive(ss[k].users, token.user)
    ensures token in ss[k].sessions.issued
  {
    assert Follows(ss[k], cs[k], ss[k + 1]);
    EveryStateInOrder(ss, cs, k);
    if token !in ss[k].sessions.issued {
      IssuedByStep(ss[k], cs[k], token);
    }
  }

  /** While an account is disabled it gets no tokens. */
  lemma {:induction false} NothingWhileDisabled(ss: seq<State>, cs: seq<Call>, i: nat, j: nat, token: S.RefreshToken)
    requires Run(ss, cs) && i <= j < |ss| && token in ss[j].sessions.issued
    requires forall k :: i <= k < j ==> !IsActive(ss[k].users, token.user)
    ensures token in ss[i].sessions.issued
    decreases j - i
  {
    if i < j {
      NoneWhenDisabled(ss, cs, j - 1, token);
      NothingWhileDisabled(ss, cs, i, j - 1, token);
    }
  }

  // ---- the whole way in ----

  /**
   Register, verify, log in: the login is refused until the address is verified, and after it succeeds with the password
   that was chosen and no other.
   */
  lemma RegisterVerifyLogin(s: State, id: UserId, email: string, password: string, plain: nat, now: int, later: int,
                            c: Call)
    requires Inv(s) && id !in s.users && Unseen(s, plain) && UserByEmail(s.users, email).None?
    requires later <= now + 24 * 3600 && c.Login? && c.email == email && c.session !in s.sessions.chainOf
    requires c.wanted.None? && |c.memberships| <= 1
    ensures var t := RegisterIn(s, id, email, password, false, plain, now).0;
      var u := VerifyIn(t, plain, later).0;
      && Possible(t, c) && Possible(u, c)
      && Exec(t, c).1 == (if c.password == password then EmailNotVerified else InvalidCredentials)
      && (c.password == password ==> Exec(u, c).1.TokenPair? && Exec(u, c).1.refresh.user == id)
      && (c.password != password ==> Exec(u, c).1 == InvalidCredentials)
  {
    var t := RegisterIn(s, id, email, password, false, plain, now).0;
    RegisterKeeps(s, id, email, password, false, plain, now);
    VerifyKeeps(t, plain, later);
    assert Unused(t.verifications, |s.verifications|, plain);
    assert FindUnused(t.verifications, plain) == Some(|s.verifications|);
    var u := VerifyIn(t, plain, later).0;
    LowerIff(email, email);
    assert Holds(t, id, email) && Holds(u, id, email);
    LoginRefusals(t, c, id);
    LoginRefusals(u, c, id);
  }
}
