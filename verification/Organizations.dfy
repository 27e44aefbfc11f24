/** Organizations, their members and their invitations: what each guarded endpoint does to the tables. */
module Organizations {
  import opened Outcomes
  import opened Basics

  type OrgId = nat
  type UserId = nat

  datatype Role = Owner | Admin | Manager | Analyst | Employee | Viewer

  function Rank(r: Role): nat {
    match r
    case Owner => 6
    case Admin => 5
    case Manager => 4
    case Analyst => 3
    case Employee => 2
    case Viewer => 1
  }

  /** The role as it is stored. */
  function RoleName(r: Role): string {
    match r
    case Owner => "owner"
    case Admin => "admin"
    case Manager => "manager"
    case Analyst => "analyst"
    case Employee => "employee"
    case Viewer => "viewer"
  }

  datatype Org = Org(slug: string, active: bool)

  datatype Member = Member(org: OrgId, user: UserId, role: Role)

  datatype Invitation = Invitation(org: OrgId, email: string, role: Role, hash: TokenHash,
                                   expires: int, accepted: Option<int>)

  /** A membership that an invitation gave rise to. */
  datatype Joined = Joined(invitation: nat, org: OrgId, user: UserId, role: Role)

  /** The tables, and a record of the memberships invitations gave and of the ids handed out. */
  datatype State = State(orgs: map<OrgId, Org>, members: map<nat, Member>, invitations: map<nat, Invitation>,
                         joined: seq<Joined>, everOrgs: set<OrgId>, everInvitations: map<nat, Invitation>)

  const START := State(map[], map[], map[], [], {}, map[])

  datatype Response =
    | Done
    | OrgNotFound
    | OrgSuspended
    | NotAMember
    | InsufficientRole
    | NotFound
    | InvalidRole
    | CannotRemoveOwner
    | ConfirmationMismatch
    | Conflict
    | EmailMismatch
    | NotAccepted

  const INVITATION_TTL_HOURS := 48

  // ---- lookups ----

  predicate IsMember(members: map<nat, Member>, row: nat, org: OrgId, user: UserId) {
    row in members && members[row].org == org && members[row].user == user
  }

  ghost function FindMember(members: map<nat, Member>, org: OrgId, user: UserId): (r: Option<nat>)
    ensures r.Some? ==> IsMember(members, r.value, org, user)
    ensures r.None? ==> forall row :: !IsMember(members, row, org, user)
  {
    if exists row :: IsMember(members, row, org, user)
    then var row :| IsMember(members, row, org, user); Some(row) else None
  }

  /** The unique key on (organization_id, user_id). */
  ghost predicate UniqueMembers(members: map<nat, Member>) {
    forall row, other, org, user :: IsMember(members, row, org, user) && IsMember(members, other, org, user) ==>
      row == other
  }

  predicate Open(invitations: map<nat, Invitation>, i: nat, plain: nat, now: int) {
    i in invitations && invitations[i].hash == Sha256(plain)
    && invitations[i].accepted.None? && invitations[i].expires > now
  }

  ghost function FindOpen(invitations: map<nat, Invitation>, plain: nat, now: int): (r: Option<nat>)
    ensures r.Some? ==> Open(invitations, r.value, plain, now)
    ensures r.None? ==> forall i :: !Open(invitations, i, plain, now)
  {
    if exists i :: Open(invitations, i, plain, now) then var i :| Open(invitations, i, plain, now); Some(i) else None
  }

  /** The unique key on token_hash. */
  ghost predicate UniqueTokens(invitations: map<nat, Invitation>) {
    forall i, j :: i in invitations && j in invitations && invitations[i].hash == invitations[j].hash ==> i == j
  }

  predicate PendingFor(invitations: map<nat, Invitation>, i: nat, org: OrgId, email: string) {
    i in invitations && invitations[i].org == org && invitations[i].email == email && invitations[i].accepted.None?
  }

  // ---- the guards ----

  /** `require_org_member` for the organization in the caller's token, then `require_org_role`. */
  ghost function Guard(s: State, caller: UserId, tokenOrg: OrgId, minimum: Role): Result<nat, Response> {
    if tokenOrg !in s.orgs then Failure(OrgNotFound)
    else if !s.orgs[tokenOrg].active then Failure(OrgSuspended)
    else
      var row := FindMember(s.members, tokenOrg, caller);
      if row.None? then Failure(NotAMember)
      else if Rank(s.members[row.value].role) < Rank(minimum) then Failure(InsufficientRole)
      else Success(row.value)
  }

  // ---- the service functions ----

  function CreateIn(s: State, org: OrgId, row: nat, user: UserId, slug: string): (State, Response) {
    if exists o :: o in s.orgs && s.orgs[o].slug == slug then (s, Conflict)
    else (s.(orgs := s.orgs[org := Org(slug, true)], members := s.members[row := Member(org, user, Owner)],
             everOrgs := s.everOrgs + {org}), Done)
  }

  ghost function UpdateMemberIn(s: State, org: OrgId, target: UserId, role: Role, callerRole: Role): (State, Response) {
    var row := FindMember(s.members, org, target);
    if row.None? then (s, NotFound)
    else if Rank(role) >= Rank(callerRole) then (s, InsufficientRole)
    else (s.(members := s.members[row.value := s.members[row.value].(role := role)]), Done)
  }

  ghost function RemoveMemberIn(s: State, org: OrgId, target: UserId): (State, Response) {
    var row := FindMember(s.members, org, target);
    if row.None? then (s, NotFound)
    else if s.members[row.value].role == Owner then (s, CannotRemoveOwner)
    else (s.(members := s.members - {row.value}), Done)
  }

  /** First the caller becomes an admin, then the new owner an owner; both may be the same row. */
  ghost function TransferIn(s: State, org: OrgId, newOwner: UserId, caller: UserId): (State, Response) {
    var from, to := FindMember(s.members, org, caller), FindMember(s.members, org, newOwner);
    if to.None? then (s, NotFound)
    else
      var demoted := if from.Some? then s.members[from.value := s.members[from.value].(role := Admin)] else s.members;
      (s.(members := demoted[to.value := demoted[to.value].(role := Owner)]), Done)
  }

  function InviteIn(s: State, org: OrgId, id: nat, email: string, role: Role, plain: nat, now: int): (State, Response) {
    if exists i :: i in s.invitations && PendingFor(s.invitations, i, org, email) then (s, Conflict)
    else
      var invitation := Invitation(org, email, role, Sha256(plain), now + INVITATION_TTL_HOURS * HOUR, None);
      (s.(invitations := s.invitations[id := invitation], everInvitations := s.everInvitations[id := invitation]), Done)
  }

  function RevokeIn(s: State, org: OrgId, id: nat): (State, Response) {
    if id !in s.invitations || s.invitations[id].org != org then (s, NotFound)
    else (s.(invitations := s.invitations - {id}), Done)
  }

  function Join(s: State, i: nat, row: nat, user: UserId, now: int): State
    requires i in s.invitations
  {
    var inv := s.invitations[i];
    s.(members := s.members[row := Member(inv.org, user, inv.role)],
       invitations := s.invitations[i := inv.(accepted := Some(now))],
       joined := s.joined + [Joined(i, inv.org, user, inv.role)])
  }

  /** Acceptance by a signed-in user: the address must match, and the user must not be a member yet. */
  ghost function AcceptIn(s: State, plain: nat, row: nat, user: UserId, email: string, now: int): (State, Response) {
    var i := FindOpen(s.invitations, plain, now);
    if i.None? then (s, NotFound)
    else if Lower(s.invitations[i.value].email) != Lower(email) then (s, EmailMismatch)
    else if FindMember(s.members, s.invitations[i.value].org, user).Some? then (s, Conflict)
    else (Join(s, i.value, row, user, now), Done)
  }

  /** Acceptance while registering: no address check; a violated key means "not accepted". */
  ghost function RegisterIn(s: State, plain: nat, row: nat, user: UserId, now: int): (State, Response) {
    var i := FindOpen(s.invitations, plain, now);
    if i.None? || FindMember(s.members, s.invitations[i.value].org, user).Some? then (s, NotAccepted)
    else (Join(s, i.value, row, user, now), Done)
  }

  function SetActiveIn(s: State, org: OrgId, active: bool): (State, Response) {
    if org !in s.orgs then (s, NotFound)
    else (s.(orgs := s.orgs[org := s.orgs[org].(active := active)]), Done)
  }

  /** Deleting an organization takes its members and invitations with it. */
  function DeleteIn(s: State, org: OrgId, confirmation: string): (State, Response) {
    if org !in s.orgs then (s, NotFound)
    else if s.orgs[org].slug != confirmation then (s, ConfirmationMismatch)
    else (s.(orgs := s.orgs - {org},
             members := map r | r in s.members && s.members[r].org != org :: s.members[r],
             invitations := map i | i in s.invitations && s.invitations[i].org != org :: s.invitations[i]), Done)
  }

  // ---- the endpoints ----

  /** `Read` stands for a request that changes nothing here. */
  datatype Call =
    | CreateOrg(org: OrgId, row: nat, user: UserId, slug: string)
    | SetActive(caller: UserId, tokenOrg: OrgId, org: OrgId, active: bool)
    | DeleteOrg(caller: UserId, tokenOrg: OrgId, org: OrgId, confirmation: string)
    | TransferOwnership(caller: UserId, tokenOrg: OrgId, newOwner: UserId)
    | UpdateMember(caller: UserId, tokenOrg: OrgId, org: OrgId, target: UserId, role: Role)
    | RemoveMember(caller: UserId, tokenOrg: OrgId, org: OrgId, target: UserId)
    | Invite(caller: UserId, tokenOrg: OrgId, org: OrgId, id: nat, email: string, role: Role, plain: nat, now: int)
    | Revoke(caller: UserId, tokenOrg: OrgId, org: OrgId, id: nat)
    | Accept(plain: nat, row: nat, user: UserId, email: string, now: int)
    | RegisterWith(plain: nat, row: nat, user: UserId, now: int)
    | Read

  function MinimumRole(c: Call): Role
    requires IsGuarded(c)
  {
    match c
    case SetActive(_, _, _, _) => Admin
    case DeleteOrg(_, _, _, _) => Owner
    case TransferOwnership(_, _, _) => Owner
    case _ => Manager
  }

  predicate IsGuarded(c: Call) {
    !c.CreateOrg? && !c.Accept? && !c.RegisterWith? && !c.Read?
  }

  /** The schemas accept every role but "owner". */
  predicate SchemaAccepts(c: Call) {
    (c.UpdateMember? || c.Invite?) ==> c.role != Owner
  }

  ghost function ExecGuarded(s: State, c: Call, callerRow: nat): (State, Response)
    requires IsGuarded(c) && callerRow in s.members
  {
    match c
    case TransferOwnership(caller, tokenOrg, newOwner) => TransferIn(s, tokenOrg, newOwner, caller)
    case SetActive(_, tokenOrg, org, active) => if org != tokenOrg then (s, NotFound) else SetActiveIn(s, org, active)
    case DeleteOrg(_, tokenOrg, org, confirmation) =>
      if org != tokenOrg then (s, NotFound) else DeleteIn(s, org, confirmation)
    case UpdateMember(_, tokenOrg, org, target, role) =>
      if org != tokenOrg then (s, NotFound) else UpdateMemberIn(s, org, target, role, s.members[callerRow].role)
    case RemoveMember(_, tokenOrg, org, target) =>
      if org != tokenOrg then (s, NotFound) else RemoveMemberIn(s, org, target)
    case Invite(_, tokenOrg, org, id, email, role, plain, now) =>
      if org != tokenOrg then (s, NotFound) else InviteIn(s, org, id, email, role, plain, now)
    case Revoke(_, tokenOrg, org, id) => if org != tokenOrg then (s, NotFound) else RevokeIn(s, org, id)
  }

  ghost function Exec(s: State, c: Call): (State, Response) {
    match c
    case CreateOrg(org, row, user, slug) => CreateIn(s, org, row, user, slug)
    case Accept(plain, row, user, email, now) => AcceptIn(s, plain, row, user, email, now)
    case RegisterWith(plain, row, user, now) => RegisterIn(s, plain, row, user, now)
    case Read => (s, Done)
    case _ =>
      var guard := Guard(s, c.caller, c.tokenOrg, MinimumRole(c));
      if guard.Failure? then (s, guard.error)
      else if !SchemaAccepts(c) then (s, InvalidRole)
      else ExecGuarded(s, c, guard.value)
  }

  /** Ids and tokens that are generated are new. */
  ghost predicate Possible(s: State, c: Call) {
    match c
    case CreateOrg(org, row, _, _) => org !in s.everOrgs && row !in s.members
    case Invite(_, _, _, id, _, _, plain, _) =>
      id !in s.everInvitations && forall i :: i in s.everInvitations ==> s.everInvitations[i].hash != Sha256(plain)
    case Accept(_, row, _, _, _) => row !in s.members
    case RegisterWith(_, row, _, _) => row !in s.members
    case _ => true
  }
}
