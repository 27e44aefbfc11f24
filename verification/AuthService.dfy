/** The authentication service as it is written: it updates rows and Redis keys one after the other. */
module AuthService {
  import opened Outcomes
  import opened Basics
  import opened Accounts
  import Registration
  import OrganizationService
  import Organizations
  import S = Sessions

  class Service {
    var users: map<UserId, User>
    var verifications: seq<OneTime>
    var resets: seq<OneTime>
    var redis: map<S.Key, S.Hash>
    // What has happened so far.
    ghost var issued: set<S.RefreshToken>
    ghost var honoured: seq<S.RefreshToken>
    ghost var chainOf: map<S.SessionId, S.SessionId>

    ghost function Sessions(): S.State
      reads this
    {
      S.State(redis, map[], issued, honoured, chainOf)
    }

    ghost function State(): Accounts.State
      reads this
    {
      Accounts.State(users, verifications, resets, Sessions())
    }

    /** The unique keys on token_hash. */
    ghost predicate UniqueHashes()
      reads this
    {
      && (forall i, j, plain :: Unused(verifications, i, plain) && Unused(verifications, j, plain) ==> i == j)
      && (forall i, j, plain :: Unused(resets, i, plain) && Unused(resets, j, plain) ==> i == j)
    }

    constructor ()
      ensures State() == Accounts.State(map[], [], [], S.START)
    {
      users, verifications, resets, redis := map[], [], [], map[];
      issued, honoured, chainOf := {}, [], map[];
    }

    method GetUserByEmail(email: string) returns (id: Option<UserId>)
      requires UniqueEmails(users)
      ensures id == UserByEmail(users, email)
    {
      var matching := set u | u in users && HasEmail(users, u, email);
      assert forall u :: HasEmail(users, u, email) ==> u in matching;
      if matching == {} {
        return None;
      }
      var u :| u in matching;
      return Some(u);
    }

    method FindToken(rows: seq<OneTime>, plain: nat) returns (i: Option<nat>)
      requires forall i, j :: Unused(rows, i, plain) && Unused(rows, j, plain) ==> i == j
      ensures i == FindUnused(rows, plain)
    {
      for k := 0 to |rows|
        invariant forall j :: 0 <= j < k ==> !Unused(rows, j, plain)
      {
        if rows[k].hash == Sha256(plain) && rows[k].used.None? {
          assert Unused(rows, k, plain);
          return Some(k);
        }
      }
      return None;
    }

    method StoreRefreshToken(token: S.RefreshToken)
      modifies this`redis
      ensures redis == old(redis)[S.KeyOf(token) := S.Sha256(token)]
    {
      redis := redis[S.Key(token.user, token.session) := S.Sha256(token)];
    }

    /** An account is verified at birth when its invitation is accepted, and otherwise gets a verification token. */
    method RegisterUser(organizations: OrganizationService.Service, id: UserId, email: string, password: string,
                        invite: Option<nat>,
                        row: nat, plain: nat, now: int) returns (r: Outcome)
      requires UniqueEmails(users)
      requires Organizations.UniqueMembers(organizations.members)
      requires Organizations.UniqueTokens(organizations.invitations)
      modifies this`users, this`verifications
      modifies organizations`members, organizations`invitations, organizations`joined
      ensures (Registration.World(State(), organizations.State()), r)
           == Registration.RegisterIn(old(Registration.World(State(), organizations.State())),
                                   id, email, password, invite, row, plain, now)
    {
      var existing := GetUserByEmail(email);
      if existing.Some? {
        return EmailTaken;
      }
      var user := User(email, Some(password), false, true);
      var invitationAccepted := false;
      if invite.Some? {
        var answer := organizations.AcceptWhileRegistering(invite.value, row, id, now);
        invitationAccepted := answer == Organizations.Done;
      }
      if invitationAccepted {
        user := user.(verified := true);
      } else {
        verifications := verifications + [OneTime(id, Sha256(plain), now + 24 * HOUR, None)];
      }
      users := users[id := user];
      return Registered(id);
    }

    method LoginUser(email: string, password: string, memberships: seq<Membership>, wanted: Option<nat>,
                     session: S.SessionId, now: int) returns (r: Outcome)
      requires UniqueEmails(users) && session !in chainOf
      modifies this`redis, this`issued, this`chainOf
      ensures (State(), r) == LoginIn(old(State()), email, password, memberships, wanted, session, now)
    {
      var id := GetUserByEmail(email);
      var user := if id.Some? then Some(users[id.value]) else None;
      if user.None? || user.value.password != Some(password) {
        return InvalidCredentials;
      }
      if !user.value.active {
        return AccountDisabled;
      }
      if !user.value.verified {
        return EmailNotVerified;
      }
      if wanted.None? && |memberships| > 1 {
        return PickOrganization;
      }
      if wanted.Some? {
        var found := FindMembership(memberships, wanted.value);
        if !found {
          return InvalidCredentials;
        }
      }
      var token := S.RefreshToken(id.value, session, now);
      issued := issued + {token};
      chainOf := chainOf[session := session];
      StoreRefreshToken(token);
      assert Sessions() == LoginSession(old(Sessions()), id.value, session, now);
      return TokenPair(token);
    }

    method FindMembership(memberships: seq<Membership>, org: nat) returns (found: bool)
      ensures found <==> FirstOf(memberships, org).Granted?
      ensures !found <==> FirstOf(memberships, org) == Refused(InvalidCredentials)
    {
      for k := 0 to |memberships|
        invariant FirstOf(memberships, org) == FirstOf(memberships[k..], org)
      {
        if memberships[k].org == org {
          return true;
        }
        assert memberships[k..][1..] == memberships[k + 1..];
      }
      return false;
    }

    method Refresh(token: S.RefreshToken, session: S.SessionId, now: int) returns (r: Outcome)
      requires token in issued && session !in chainOf
      modifies this`redis, this`issued, this`honoured, this`chainOf
      ensures (State(), r) == RefreshIn(old(State()), token, session, now)
    {
      var key := S.Key(token.user, token.session);
      var stored := if key in redis then Some(redis[key]) else None;
      redis := redis - {key};
      if stored.None? {
        return TokenReused;
      }
      if stored.value != S.Sha256(token) {
        return TokenReused;
      }
      honoured := honoured + [token];
      if token.user !in users || !users[token.user].active {
        assert Sessions() == S.Apply(S.Apply(old(Sessions()), S.Claim(0, token)), S.Drop(0));
        return AccountDisabled;
      }
      var next := S.RefreshToken(token.user, session, now);
      issued := issued + {next};
      chainOf := chainOf[session := S.Chain(old(Sessions()), token.session)];
      StoreRefreshToken(next);
      assert Sessions() == S.RefreshAlone(old(Sessions()), 0, token, session, now);
      return TokenPair(next);
    }

    method LogoutSession(user: UserId, session: S.SessionId)
      modifies this`redis
      ensures Sessions() == S.Apply(old(Sessions()), S.Forget(S.Key(user, session)))
    {
      redis := redis - {S.Key(user, session)};
    }

    method Verify(plain: nat, now: int) returns (r: Outcome)
      requires UniqueHashes()
      modifies this`users, this`verifications
      ensures (State(), r) == VerifyIn(old(State()), plain, now)
    {
      var i := FindToken(verifications, plain);
      if i.None? {
        return TokenNotFound;
      }
      var row := verifications[i.value];
      if row.expires < now {
        return TokenExpired;
      }
      if row.user in users {
        users := users[row.user := users[row.user].(verified := true)];
      }
      verifications := verifications[i.value := row.(used := Some(now))];
      return Ok;
    }

    /** `UPDATE … SET used_at = now WHERE user_id = … AND used_at IS NULL`. */
    method RetireUnused(rows: seq<OneTime>, user: UserId, now: int) returns (retired: seq<OneTime>)
      ensures |retired| == |rows| && forall i :: 0 <= i < |rows| ==> retired[i] == Retired(rows[i], user, now)
    {
      retired := [];
      for i := 0 to |rows|
        invariant |retired| == i && forall j :: 0 <= j < i ==> retired[j] == Retired(rows[j], user, now)
      {
        if rows[i].user == user && rows[i].used.None? {
          retired := retired + [rows[i].(used := Some(now))];
        } else {
          retired := retired + [rows[i]];
        }
      }
    }

    method Resend(email: string, plain: nat, now: int)
      requires UniqueEmails(users)
      modifies this`verifications
      ensures State() == ResendIn(old(State()), email, plain, now)
    {
      var id := GetUserByEmail(email);
      if id.None? || users[id.value].verified {
        return;
      }
      var rows := RetireUnused(verifications, id.value, now);
      verifications := rows + [OneTime(id.value, Sha256(plain), now + 24 * HOUR, None)];
      assert verifications == Reissue(old(verifications), id.value, plain, now, 24 * HOUR);
    }

    method Forgot(email: string, plain: nat, now: int)
      requires UniqueEmails(users)
      modifies this`resets
      ensures State() == ForgotIn(old(State()), email, plain, now)
    {
      var id := GetUserByEmail(email);
      if id.None? || !users[id.value].active {
        return;
      }
      var rows := RetireUnused(resets, id.value, now);
      resets := rows + [OneTime(id.value, Sha256(plain), now + HOUR, None)];
      assert resets == Reissue(old(resets), id.value, plain, now, HOUR);
    }

    /** Scan the user's session keys and delete them one by one. */
    method ForgetSessions(user: UserId)
      modifies this`redis
      ensures redis == old(redis) - S.AllKeysOf(old(redis), user)
    {
      var scanned := S.AllKeysOf(redis, user);
      var rest := scanned;
      while rest != {}
        invariant rest <= scanned
        invariant redis == old(redis) - (scanned - rest)
        decreases rest
      {
        var k :| k in rest;
        redis := redis - {k};
        rest := rest - {k};
      }
      assert scanned - rest == scanned;
    }

    method Reset(plain: nat, password: string, now: int) returns (r: Outcome)
      requires UniqueHashes()
      modifies this`users, this`resets, this`redis
      ensures (State(), r) == ResetIn(old(State()), plain, password, now)
    {
      var i := FindToken(resets, plain);
      if i.None? {
        return TokenNotFound;
      }
      var row := resets[i.value];
      if row.expires < now {
        return TokenExpired;
      }
      if row.user in users {
        users := users[row.user := users[row.user].(password := Some(password))];
      }
      resets := resets[i.value := row.(used := Some(now))];
      ForgetSessions(row.user);
      return Ok;
    }
  }
}
