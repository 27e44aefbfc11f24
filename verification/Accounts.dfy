/** User accounts: registration, login, and the one-time tokens for verification and password reset. */
module Accounts {
  import opened Outcomes
  import opened Basics
  import S = Sessions

  type UserId = S.UserId

  datatype User = User(email: string, password: Option<string>, verified: bool, active: bool)

  datatype OneTime = OneTime(user: UserId, hash: TokenHash, expires: int, used: Option<int>)

  datatype State = State(users: map<UserId, User>, verifications: seq<OneTime>, resets: seq<OneTime>, sessions: S.State)

  datatype Outcome =
    | Ok
    | Registered(id: UserId)
    | TokenPair(refresh: S.RefreshToken)
    | PickOrganization
    | EmailTaken
    | InvalidCredentials
    | AccountDisabled
    | EmailNotVerified
    | TokenNotFound
    | TokenExpired
    | TokenReused

  // ---- queries ----

  predicate HasEmail(users: map<UserId, User>, id: UserId, email: string) {
    id in users && Lower(users[id].email) == Lower(email)
  }

  ghost function UserByEmail(users: map<UserId, User>, email: string): (r: Option<UserId>)
    ensures r.Some? ==> HasEmail(users, r.value, email)
    ensures r.None? ==> forall id :: !HasEmail(users, id, email)
  {
    if exists id :: HasEmail(users, id, email) then var id :| HasEmail(users, id, email); Some(id) else None
  }

  /** The unique index on lower(email). */
  ghost predicate UniqueEmails(users: map<UserId, User>) {
    forall id, other :: id in users && other in users && Lower(users[id].email) == Lower(users[other].email) ==>
      id == other
  }

  predicate Unused(rows: seq<OneTime>, i: int, plain: nat) {
    0 <= i < |rows| && rows[i].hash == Sha256(plain) && rows[i].used.None?
  }

  ghost function FindUnused(rows: seq<OneTime>, plain: nat): (r: Option<nat>)
    ensures r.Some? ==> Unused(rows, r.value, plain)
    ensures r.None? ==> forall i :: !Unused(rows, i, plain)
  {
    if exists i :: Unused(rows, i, plain) then var i :| Unused(rows, i, plain); Some(i) else None
  }

  // ---- changes to a token table ----

  function Retired(row: OneTime, user: UserId, now: int): OneTime {
    if row.user == user && row.used.None? then row.(used := Some(now)) else row
  }

  /** Mark every unused token of the user as used, then add a new one. */
  function Reissue(rows: seq<OneTime>, user: UserId, plain: nat, now: int, lifetime: int): seq<OneTime> {
    seq(|rows|, i requires 0 <= i < |rows| => Retired(rows[i], user, now))
    + [OneTime(user, Sha256(plain), now + lifetime, None)]
  }

  function Consume(rows: seq<OneTime>, i: nat, now: int): seq<OneTime>
    requires i < |rows|
  {
    rows[i := rows[i].(used := Some(now))]
  }

  // ---- login ----

  datatype Membership = Membership(org: nat, role: string)

  datatype LoginDecision = Refused(why: Outcome) | ChooseOrganization | Granted(membership: Option<Membership>)

  /** Credentials first, then the account's state, then which of the active memberships the token is for. */
  function Decide(user: Option<User>, password: string, memberships: seq<Membership>,
                  wanted: Option<nat>): LoginDecision
  {
    if user.None? || user.value.password != Some(password) then Refused(InvalidCredentials)
    else if !user.value.active then Refused(AccountDisabled)
    else if !user.value.verified then Refused(EmailNotVerified)
    else if wanted.None? then
      if |memberships| > 1 then ChooseOrganization
      else Granted(if |memberships| == 1 then Some(memberships[0]) else None)
    else FirstOf(memberships, wanted.value)
  }

  function FirstOf(memberships: seq<Membership>, org: nat): LoginDecision {
    if memberships == [] then Refused(InvalidCredentials)
    else if memberships[0].org == org then Granted(Some(memberships[0]))
    else FirstOf(memberships[1..], org)
  }

  /**
   Credentials, an active account and a verified address are needed; then one membership must be singled out, or none
   exist.
   */
  lemma GrantedIff(user: Option<User>, password: string, memberships: seq<Membership>, wanted: Option<nat>)
    ensures Decide(user, password, memberships, wanted).Granted? <==>
      && user.Some? && user.value.password == Some(password) && user.value.active && user.value.verified
      && if wanted.None? then |memberships| <= 1 else exists m :: m in memberships && m.org == wanted.value
    ensures var d := Decide(user, password, memberships, wanted);
      d.Granted? && d.membership.Some? ==>
        d.membership.value in memberships
        && if wanted.None? then |memberships| == 1 else d.membership.value.org == wanted.value
  {
    if wanted.Some? {
      FirstOfFinds(memberships, wanted.value);
    }
  }

  lemma {:induction false} FirstOfFinds(memberships: seq<Membership>, org: nat)
    ensures FirstOf(memberships, org).Granted? <==> exists m :: m in memberships && m.org == org
    ensures !FirstOf(memberships, org).Granted? ==> FirstOf(memberships, org) == Refused(InvalidCredentials)
    ensures FirstOf(memberships, org).Granted? ==>
      var m := FirstOf(memberships, org).membership; m.Some? && m.value in memberships && m.value.org == org
  {
    if memberships != [] {
      FirstOfFinds(memberships[1..], org);
      assert forall m :: m in memberships <==> m == memberships[0] || m in memberships[1..];
    }
  }

  // ---- the service calls, each as one step ----

  /** `Read` stands for a request that changes nothing here. */
  datatype Call =
    | Register(id: UserId, email: string, password: string, invited: bool, plain: nat, now: int)
    | Login(email: string, password: string, memberships: seq<Membership>, wanted: Option<nat>,
            session: S.SessionId, now: int)
    | RefreshCall(token: S.RefreshToken, session: S.SessionId, now: int)
    | Logout(user: UserId, session: S.SessionId)
    | VerifyEmail(plain: nat, now: int)
    | ResendVerification(email: string, plain: nat, now: int)
    | ForgotPassword(email: string, plain: nat, now: int)
    | ResetPassword(plain: nat, password: string, now: int)
    | SetActive(user: UserId, active: bool)
    | Read

  ghost function RegisterIn(s: State, id: UserId, email: string, password: string, invited: bool, plain: nat,
                            now: int): (State, Outcome)
  {
    if UserByEmail(s.users, email).Some? then (s, EmailTaken)
    else
      (s.(users := s.users[id := User(email, Some(password), invited, true)],
          verifications := if invited then s.verifications
                           else s.verifications + [OneTime(id, Sha256(plain), now + 24 * HOUR, None)]),
       Registered(id))
  }

  /** A login's two session steps with nothing in between. */
  function LoginSession(s: S.State, user: UserId, session: S.SessionId, now: int): S.State
    requires 0 !in s.processes && session !in s.chainOf
  {
    S.Apply(S.Apply(s, S.SignLogin(0, user, session, now)), S.StoreKey(0))
  }

  ghost function LoginIn(s: State, email: string, password: string, memberships: seq<Membership>, wanted: Option<nat>,
                         session: S.SessionId, now: int): (State, Outcome)
    requires 0 !in s.sessions.processes && session !in s.sessions.chainOf
  {
    var id := UserByEmail(s.users, email);
    var user := if id.Some? then Some(s.users[id.value]) else None;
    match Decide(user, password, memberships, wanted)
    case Refused(why) => (s, why)
    case ChooseOrganization => (s, PickOrganization)
    case Granted(_) =>
      (s.(sessions := LoginSession(s.sessions, id.value, session, now)),
       TokenPair(S.RefreshToken(id.value, session, now)))
  }

  predicate IsActive(users: map<UserId, User>, id: UserId) {
    id in users && users[id].active
  }

  /** A refresh: claim, check that the account is still active, sign, store. */
  function RefreshIn(s: State, token: S.RefreshToken, session: S.SessionId, now: int): (State, Outcome)
    requires 0 !in s.sessions.processes && session !in s.sessions.chainOf && token in s.sessions.issued
  {
    var claimed := S.Apply(s.sessions, S.Claim(0, token));
    if !S.Accepts(s.sessions, token) then (s.(sessions := claimed), TokenReused)
    else if !IsActive(s.users, token.user) then (s.(sessions := S.Apply(claimed, S.Drop(0))), AccountDisabled)
    else (s.(sessions := S.RefreshAlone(s.sessions, 0, token, session, now)),
          TokenPair(S.RefreshToken(token.user, session, now)))
  }

  ghost function VerifyIn(s: State, plain: nat, now: int): (State, Outcome) {
    var i := FindUnused(s.verifications, plain);
    if i.None? then (s, TokenNotFound)
    else
      var row := s.verifications[i.value];
      if row.expires < now then (s, TokenExpired)
      else (s.(users := if row.user in s.users then s.users[row.user := s.users[row.user].(verified := true)]
                                    else s.users,
               verifications := Consume(s.verifications, i.value, now)), Ok)
  }

  ghost function ResendIn(s: State, email: string, plain: nat, now: int): State {
    var id := UserByEmail(s.users, email);
    if id.None? || s.users[id.value].verified then s
    else s.(verifications := Reissue(s.verifications, id.value, plain, now, 24 * HOUR))
  }

  ghost function ForgotIn(s: State, email: string, plain: nat, now: int): State {
    var id := UserByEmail(s.users, email);
    if id.None? || !s.users[id.value].active then s
    else s.(resets := Reissue(s.resets, id.value, plain, now, HOUR))
  }

  /** A successful reset changes the password, uses up the token, and forgets every session of the user. */
  ghost function ResetIn(s: State, plain: nat, password: string, now: int): (State, Outcome) {
    var i := FindUnused(s.resets, plain);
    if i.None? then (s, TokenNotFound)
    else
      var row := s.resets[i.value];
      if row.expires < now then (s, TokenExpired)
      else (s.(users := if row.user in s.users then s.users[row.user := s.users[row.user].(password := Some(password))]
                                    else s.users,
               resets := Consume(s.resets, i.value, now),
               sessions := S.Apply(s.sessions, S.ForgetAll(row.user))), Ok)
  }

  /** Generated ids and tokens are new, and only issued refresh tokens decode. */
  predicate Possible(s: State, c: Call) {
    && s.sessions.processes == map[]
    && match c
       case Register(id, _, _, _, plain, _) => id !in s.users && Unseen(s, plain)
       case Login(_, _, _, _, session, _) => session !in s.sessions.chainOf
       case RefreshCall(token, session, _) => token in s.sessions.issued && session !in s.sessions.chainOf
       case ResendVerification(_, plain, _) => Unseen(s, plain)
       case ForgotPassword(_, plain, _) => Unseen(s, plain)
       case _ => true
  }

  predicate Unseen(s: State, plain: nat) {
    && (forall i :: 0 <= i < |s.verifications| ==> s.verifications[i].hash != Sha256(plain))
    && (forall i :: 0 <= i < |s.resets| ==> s.resets[i].hash != Sha256(plain))
  }

  ghost function Exec(s: State, c: Call): (State, Outcome)
    requires Possible(s, c)
  {
    match c
    case Register(id, email, password, invited, plain, now) => RegisterIn(s, id, email, password, invited, plain, now)
    case Login(email, password, memberships, wanted, session, now) =>
      LoginIn(s, email, password, memberships, wanted, session, now)
    case RefreshCall(token, session, now) => RefreshIn(s, token, session, now)
    case Logout(user, session) => (s.(sessions := S.Apply(s.sessions, S.Forget(S.Key(user, session)))), Ok)
    case VerifyEmail(plain, now) => VerifyIn(s, plain, now)
    case ResendVerification(email, plain, now) => (ResendIn(s, email, plain, now), Ok)
    case ForgotPassword(email, plain, now) => (ForgotIn(s, email, plain, now), Ok)
    case ResetPassword(plain, password, now) => ResetIn(s, plain, password, now)
    case SetActive(user, active) =>
      (if user in s.users then s.(users := s.users[user := s.users[user].(active := active)]) else s, Ok)
    case Read => (s, Ok)
  }
}
