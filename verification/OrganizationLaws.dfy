/** When an organization's endpoint does what it is asked, and what the tables hold afterwards, in terms of the rows. */
module OrganizationLaws {
  import opened Outcomes
  import opened Basics
  import opened Organizations
  import opened OrganizationRuns

  const OWNERS := {Owner}
  const ADMINS := {Owner, Admin}
  const MANAGERS := {Owner, Admin, Manager}

  /** One role is below another. */
  predicate Below(a: Role, b: Role) {
    match b
    case Owner => a != Owner
    case Admin => a != Owner && a != Admin
    case Manager => a == Analyst || a == Employee || a == Viewer
    case Analyst => a == Employee || a == Viewer
    case Employee => a == Viewer
    case Viewer => false
  }

  lemma BelowIff(a: Role, b: Role)
    ensures Below(a, b) <==> Rank(a) < Rank(b)
  {
  }

  predicate MemberRow(s: State, row: nat, org: OrgId, u: UserId) {
    row in s.members && s.members[row].org == org && s.members[row].user == u
  }

  /** The user is a member of the active organization, with one of the roles, by this row. */
  predicate Stands(s: State, row: nat, u: UserId, org: OrgId, roles: set<Role>) {
    org in s.orgs && s.orgs[org].active && MemberRow(s, row, org, u) && s.members[row].role in roles
  }

  lemma MemberIff(s: State, org: OrgId, u: UserId, row: nat)
    requires UniqueMembers(s.members)
    ensures FindMember(s.members, org, u) == Some(row) <==> MemberRow(s, row, org, u)
  {
    if MemberRow(s, row, org, u) {
      assert IsMember(s.members, row, org, u);
    }
  }

  lemma GuardIff(s: State, u: UserId, org: OrgId, minimum: Role, roles: set<Role>, row: nat)
    requires UniqueMembers(s.members)
    requires (minimum, roles) in {(Owner, OWNERS), (Admin, ADMINS), (Manager, MANAGERS)}
    ensures Guard(s, u, org, minimum) == Success(row) <==> Stands(s, row, u, org, roles)
  {
    MemberIff(s, org, u, row);
  }

  /** Whom each guarded endpoint admits. */
  function Admitted(c: Call): set<Role>
    requires IsGuarded(c)
  {
    match c
    case SetActive(_, _, _, _) => {Owner, Admin}
    case DeleteOrg(_, _, _, _) => {Owner}
    case TransferOwnership(_, _, _) => {Owner}
    case UpdateMember(_, _, _, _, _) => {Owner, Admin, Manager}
    case RemoveMember(_, _, _, _) => {Owner, Admin, Manager}
    case Invite(_, _, _, _, _, _, _, _) => {Owner, Admin, Manager}
    case Revoke(_, _, _, _) => {Owner, Admin, Manager}
  }

  /** The caller's standing, and a path that names the organization of his token. */
  predicate GetsThrough(s: State, c: Call, row: nat)
    requires IsGuarded(c)
  {
    Stands(s, row, c.caller, c.tokenOrg, Admitted(c)) && (!c.TransferOwnership? ==> c.org == c.tokenOrg)
  }

  lemma ThroughTheGuard(s: State, c: Call, row: nat)
    requires UniqueMembers(s.members) && IsGuarded(c)
    ensures GetsThrough(s, c, row) && SchemaAccepts(c) ==> Exec(s, c) == ExecGuarded(s, c, row)
    ensures Exec(s, c).1 == Done ==> SchemaAccepts(c) && exists r :: GetsThrough(s, c, r)
  {
    GuardIff(s, c.caller, c.tokenOrg, MinimumRole(c), Admitted(c), row);
    var guard := Guard(s, c.caller, c.tokenOrg, MinimumRole(c));
    if guard.Success? {
      GuardIff(s, c.caller, c.tokenOrg, MinimumRole(c), Admitted(c), guard.value);
      if Exec(s, c).1 == Done {
        assert GetsThrough(s, c, guard.value);
      }
    }
  }

  lemma GuardLets(s: State, c: Call)
    requires UniqueMembers(s.members) && IsGuarded(c)
    ensures forall row: nat :: GetsThrough(s, c, row) && SchemaAccepts(c) ==> Exec(s, c) == ExecGuarded(s, c, row)
    ensures Exec(s, c).1 == Done ==> SchemaAccepts(c) && exists r :: GetsThrough(s, c, r)
  {
    ThroughTheGuard(s, c, 0);
    forall row: nat | GetsThrough(s, c, row) && SchemaAccepts(c)
      ensures Exec(s, c) == ExecGuarded(s, c, row)
    {
      ThroughTheGuard(s, c, row);
    }
  }

  lemma MembersFound(s: State, org: OrgId, u: UserId)
    requires UniqueMembers(s.members)
    ensures forall row: nat :: FindMember(s.members, org, u) == Some(row) <==> MemberRow(s, row, org, u)
  {
    forall row: nat
      ensures FindMember(s.members, org, u) == Some(row) <==> MemberRow(s, row, org, u)
    {
      MemberIff(s, org, u, row);
    }
  }

  /** Whoever is refused changes nothing. */
  lemma RefusedChangesNothing(s: State, c: Call)
    ensures Exec(s, c).1 != Done ==> Exec(s, c).0 == s
  {
    if IsGuarded(c) {
      var guard := Guard(s, c.caller, c.tokenOrg, MinimumRole(c));
      if guard.Success? {
        GuardedRefusal(s, c, guard.value);
      }
    }
  }

  lemma GuardedRefusal(s: State, c: Call, row: nat)
    requires IsGuarded(c) && row in s.members
    ensures ExecGuarded(s, c, row).1 != Done ==> ExecGuarded(s, c, row).0 == s
  {
  }

  // ---- members ----

  /**
   A role is changed exactly if the caller may, the target is a member, and the role asked for is below the caller's.
   */
  lemma UpdateMemberIff(s: State, c: Call)
    requires UniqueMembers(s.members) && c.UpdateMember?
    ensures Exec(s, c).1 == Done <==>
      && c.role != Owner && (exists target :: MemberRow(s, target, c.org, c.target))
      && (exists row :: GetsThrough(s, c, row) && Below(c.role, s.members[row].role))
    ensures Exec(s, c).1 == Done ==> forall target :: MemberRow(s, target, c.org, c.target) ==>
      Exec(s, c).0 == s.(members := s.members[target := s.members[target].(role := c.role)])
  {
    GuardLets(s, c);
    if row :| GetsThrough(s, c, row) {
      BelowIff(c.role, s.members[row].role);
      OneStanding(s, c, row);
      UpdateIff(s, c.org, c.target, c.role, s.members[row].role);
    }
  }

  lemma OneStanding(s: State, c: Call, row: nat)
    requires UniqueMembers(s.members) && IsGuarded(c) && GetsThrough(s, c, row)
    ensures forall other :: GetsThrough(s, c, other) ==> other == row
  {
    forall other | GetsThrough(s, c, other)
      ensures other == row
    {
      assert IsMember(s.members, row, c.tokenOrg, c.caller) && IsMember(s.members, other, c.tokenOrg, c.caller);
    }
  }

  lemma UpdateIff(s: State, org: OrgId, target: UserId, role: Role, callerRole: Role)
    requires UniqueMembers(s.members)
    ensures var (t, r) := UpdateMemberIn(s, org, target, role, callerRole);
      && (r == Done <==> Rank(role) < Rank(callerRole) && exists row :: MemberRow(s, row, org, target))
      && (r == Done ==> forall row :: MemberRow(s, row, org, target) ==>
            t == s.(members := s.members[row := s.members[row].(role := role)]))
  {
    MembersFound(s, org, target);
  }

  /** A member is removed exactly if the caller may and the target is a member but not the owner. */
  lemma RemoveMemberIff(s: State, c: Call)
    requires UniqueMembers(s.members) && c.RemoveMember?
    ensures Exec(s, c).1 == Done <==>
      && (exists row :: GetsThrough(s, c, row))
      && (exists target :: MemberRow(s, target, c.org, c.target) && s.members[target].role != Owner)
    ensures Exec(s, c).1 == Done ==>
      && (forall target :: MemberRow(s, target, c.org, c.target) ==>
            Exec(s, c).0 == s.(members := s.members - {target}))
      && (forall row :: !MemberRow(Exec(s, c).0, row, c.org, c.target))
  {
    GuardLets(s, c);
    RemoveIff(s, c.org, c.target);
  }

  lemma RemoveIff(s: State, org: OrgId, target: UserId)
    requires UniqueMembers(s.members)
    ensures var (t, r) := RemoveMemberIn(s, org, target);
      && (r == Done <==> exists row :: MemberRow(s, row, org, target) && s.members[row].role != Owner)
      && (r == Done ==>
            && (forall row :: MemberRow(s, row, org, target) ==> t == s.(members := s.members - {row}))
            && (forall row :: !MemberRow(t, row, org, target)))
  {
    MembersFound(s, org, target);
  }

  /** Ownership is handed on exactly if the caller is the owner and the new owner is a member. */
  lemma TransferIff(s: State, c: Call)
    requires UniqueMembers(s.members) && c.TransferOwnership?
    ensures Exec(s, c).1 == Done <==>
      && (exists row :: Stands(s, row, c.caller, c.tokenOrg, OWNERS))
      && (exists row :: MemberRow(s, row, c.tokenOrg, c.newOwner))
    ensures Exec(s, c).1 == Done ==>
      && Exec(s, c).0 == s.(members := Exec(s, c).0.members) && Exec(s, c).0.members.Keys == s.members.Keys
      && forall row :: row in s.members ==>
        && Exec(s, c).0.members[row].org == s.members[row].org && Exec(s, c).0.members[row].user == s.members[row].user
        && Exec(s, c).0.members[row].role == if MemberRow(s, row, c.tokenOrg, c.newOwner) then Owner
                                             else if MemberRow(s, row, c.tokenOrg, c.caller) then Admin
                                             else s.members[row].role
  {
    GuardLets(s, c);
    TransferDone(s, c.tokenOrg, c.newOwner, c.caller);
    assert forall row :: GetsThrough(s, c, row) <==> Stands(s, row, c.caller, c.tokenOrg, OWNERS);
    if Exec(s, c).1 == Done {
      TransferHandsOver(s, c);
    }
  }

  lemma TransferDone(s: State, org: OrgId, newOwner: UserId, caller: UserId)
    requires UniqueMembers(s.members)
    ensures TransferIn(s, org, newOwner, caller).1 == Done <==> exists row :: MemberRow(s, row, org, newOwner)
  {
    MembersFound(s, org, newOwner);
  }

  // ---- organizations ----

  /** An organization is created exactly if its slug is free; the creator owns it, and it is active. */
  lemma CreateIff(s: State, c: Call)
    requires c.CreateOrg?
    ensures Exec(s, c).1 == Done <==> forall o :: o in s.orgs ==> s.orgs[o].slug != c.slug
    ensures Exec(s, c).1 == Done ==>
      Exec(s, c).0 == s.(orgs := s.orgs[c.org := Org(c.slug, true)], everOrgs := s.everOrgs + {c.org},
                         members := s.members[c.row := Member(c.org, c.user, Owner)])
  {
  }

  lemma SetActiveIff(s: State, c: Call)
    requires UniqueMembers(s.members) && c.SetActive?
    ensures Exec(s, c).1 == Done <==> exists row :: GetsThrough(s, c, row)
    ensures Exec(s, c).1 == Done ==>
      c.org in s.orgs && Exec(s, c).0 == s.(orgs := s.orgs[c.org := s.orgs[c.org].(active := c.active)])
  {
    GuardLets(s, c);
  }

  /** Deleted exactly by its owner on the right confirmation, with its members and invitations and nobody else's. */
  lemma DeleteIff(s: State, c: Call)
    requires UniqueMembers(s.members) && c.DeleteOrg?
    ensures Exec(s, c).1 == Done <==> (exists row :: GetsThrough(s, c, row)) && s.orgs[c.org].slug == c.confirmation
    ensures Exec(s, c).1 == Done ==> var t := Exec(s, c).0;
      && t.orgs == s.orgs - {c.org}
      && (forall row :: row in t.members <==> row in s.members && s.members[row].org != c.org)
      && (forall row :: row in t.members ==> t.members[row] == s.members[row])
      && (forall i :: i in t.invitations <==> i in s.invitations && s.invitations[i].org != c.org)
      && (forall i :: i in t.invitations ==> t.invitations[i] == s.invitations[i])
  {
    GuardLets(s, c);
  }

  // ---- invitations ----

  predicate Waiting(s: State, i: nat, org: OrgId, email: string) {
    && i in s.invitations && s.invitations[i].org == org && s.invitations[i].email == email
    && s.invitations[i].accepted == None
  }

  /**
   An invitation is made exactly if the caller may, the role is not the owner's, and none to that address is waiting.
   */
  lemma InviteIff(s: State, c: Call)
    requires UniqueMembers(s.members) && c.Invite?
    ensures Exec(s, c).1 == Done <==>
      && c.role != Owner && (exists row :: GetsThrough(s, c, row)) && (forall i :: !Waiting(s, i, c.org, c.email))
    ensures Exec(s, c).1 == Done ==> var t := Exec(s, c).0;
      && c.id in t.invitations && t.invitations == s.invitations[c.id := t.invitations[c.id]] && t.members == s.members
      && t.invitations[c.id] == Invitation(c.org, c.email, c.role, Sha256(c.plain), c.now + 48 * 3600, None)
  {
    GuardLets(s, c);
    assert forall i :: Waiting(s, i, c.org, c.email) <==> PendingFor(s.invitations, i, c.org, c.email);
  }

  /** An invitation is taken back exactly if the caller may and it is one of the organization. */
  lemma RevokeIff(s: State, c: Call)
    requires UniqueMembers(s.members) && c.Revoke?
    ensures Exec(s, c).1 == Done <==>
      (exists row :: GetsThrough(s, c, row)) && c.id in s.invitations && s.invitations[c.id].org == c.org
    ensures Exec(s, c).1 == Done ==> Exec(s, c).0 == s.(invitations := s.invitations - {c.id})
  {
    GuardLets(s, c);
  }

  /** The invitation has the token, has not been accepted, and has not expired. */
  predicate Presents(s: State, i: nat, plain: nat, now: int) {
    && i in s.invitations && s.invitations[i].hash.plain == plain && s.invitations[i].accepted == None
    && now < s.invitations[i].expires
  }

  /**
   An invitation is accepted exactly if it is presented in time by somebody who is not a member yet; a signed-in user
   must have its address, up to capitals, and a registration need not.
   */
  lemma AcceptIff(s: State, c: Call)
    requires UniqueTokens(s.invitations) && UniqueMembers(s.members) && IsAcceptance(c)
    ensures Exec(s, c).1 == Done <==> exists i ::
      && Presents(s, i, c.plain, c.now) && (forall row :: !MemberRow(s, row, s.invitations[i].org, c.user))
      && (c.Accept? ==> SameAddress(s.invitations[i].email, c.email))
    ensures Exec(s, c).1 == Done ==> forall i :: Presents(s, i, c.plain, c.now) ==>
      var inv, t := s.invitations[i], Exec(s, c).0;
      && t.members == s.members[c.row := Member(inv.org, c.user, inv.role)] && t.orgs == s.orgs
      && t.invitations == s.invitations[i := inv.(accepted := Some(c.now))]
  {
    forall i: nat
      ensures FindOpen(s.invitations, c.plain, c.now) == Some(i) <==> Presents(s, i, c.plain, c.now)
    {
      assert Presents(s, i, c.plain, c.now) <==> Open(s.invitations, i, c.plain, c.now);
    }
    var i := FindOpen(s.invitations, c.plain, c.now);
    if i.Some? {
      if c.Accept? {
        LowerIff(s.invitations[i.value].email, c.email);
      }
      var org := s.invitations[i.value].org;
      assert forall row :: IsMember(s.members, row, org, c.user) <==> MemberRow(s, row, org, c.user);
    }
  }
}
