/** Whole runs of the organization endpoints, and who owns an organization. */
module OrganizationRuns {
  import opened Outcomes
  import opened Basics
  import opened Organizations

  // ---- the invariant ----

  predicate OwnerRow(members: map<nat, Member>, row: nat, org: OrgId) {
    row in members && members[row].org == org && members[row].role == Owner
  }

  ghost predicate OneOwner(members: map<nat, Member>) {
    forall row, other, org :: OwnerRow(members, row, org) && OwnerRow(members, other, org) ==> row == other
  }

  ghost predicate OnePending(invitations: map<nat, Invitation>) {
    forall i, j, org, email :: PendingFor(invitations, i, org, email) && PendingFor(invitations, j, org, email) ==>
      i == j
  }

  predicate MembersIn(members: map<nat, Member>, orgs: map<OrgId, Org>) {
    forall row :: row in members ==> members[row].org in orgs
  }

  ghost predicate MembersOk(members: map<nat, Member>, orgs: map<OrgId, Org>) {
    UniqueMembers(members) && OneOwner(members) && MembersIn(members, orgs)
  }

  predicate OrgsOk(s: State) {
    && (forall org :: org in s.orgs ==> org in s.everOrgs)
    && (forall a, b :: a in s.orgs && b in s.orgs && s.orgs[a].slug == s.orgs[b].slug ==> a == b)
  }

  /** A stored invitation is as it was sent, apart from the mark that it has been accepted. */
  predicate InvitationOk(s: State, i: nat) {
    && i in s.invitations && i in s.everInvitations
    && s.everInvitations[i] == s.invitations[i].(accepted := None)
    && s.invitations[i].org in s.orgs
  }

  ghost predicate InvitationsOk(s: State) {
    && UniqueTokens(s.everInvitations) && OnePending(s.invitations)
    && (forall i :: i in s.everInvitations ==> s.everInvitations[i].role != Owner)
    && (forall i {:trigger InvitationOk(s, i)} :: i in s.invitations ==> InvitationOk(s, i))
  }

  /** An invitation that was sent and that nobody can accept any more: it has been accepted or is gone. */
  predicate Spent(s: State, i: nat) {
    i in s.everInvitations && (i in s.invitations ==> s.invitations[i].accepted.Some?)
  }

  predicate JoinedAsInvited(s: State, k: nat)
    requires k < |s.joined|
  {
    var j := s.joined[k];
    Spent(s, j.invitation) && s.everInvitations[j.invitation].org == j.org
    && s.everInvitations[j.invitation].role == j.role
  }

  ghost predicate JoinedOk(s: State) {
    && (forall k {:trigger JoinedAsInvited(s, k)} :: 0 <= k < |s.joined| ==> JoinedAsInvited(s, k))
    && (forall k, l :: 0 <= k < l < |s.joined| ==> s.joined[k].invitation != s.joined[l].invitation)
  }

  ghost predicate Inv(s: State) {
    MembersOk(s.members, s.orgs) && OrgsOk(s) && InvitationsOk(s) && JoinedOk(s)
  }

  // ---- the members table ----

  lemma InsertMemberKeeps(members: map<nat, Member>, orgs: map<OrgId, Org>, row: nat, m: Member)
    requires MembersOk(members, orgs) && row !in members && m.org in orgs
    requires forall r :: !IsMember(members, r, m.org, m.user)
    requires m.role == Owner ==> forall r :: !OwnerRow(members, r, m.org)
    ensures MembersOk(members[row := m], orgs)
  {
    var later := members[row := m];
    assert forall r, org, user :: IsMember(later, r, org, user) && r != row ==> IsMember(members, r, org, user);
    assert forall r, org :: OwnerRow(later, r, org) && r != row ==> OwnerRow(members, r, org);
  }

  lemma RemovalKeeps(members: map<nat, Member>, later: map<nat, Member>, orgs: map<OrgId, Org>)
    requires UniqueMembers(members) && OneOwner(members) && MembersIn(later, orgs)
    requires forall r :: r in later ==> r in members && later[r] == members[r]
    ensures MembersOk(later, orgs)
  {
    assert forall r, org, user :: IsMember(later, r, org, user) ==> IsMember(members, r, org, user);
    assert forall r, org :: OwnerRow(later, r, org) ==> OwnerRow(members, r, org);
  }

  /** Changing a role keeps the table in order, unless it makes a second owner. */
  lemma RoleChangeKeeps(members: map<nat, Member>, orgs: map<OrgId, Org>, row: nat, role: Role)
    requires MembersOk(members, orgs) && row in members
    requires role == Owner ==> forall r :: OwnerRow(members, r, members[row].org) ==> r == row
    ensures MembersOk(members[row := members[row].(role := role)], orgs)
  {
    var later := members[row := members[row].(role := role)];
    assert forall r, org, user :: IsMember(later, r, org, user) ==> IsMember(members, r, org, user);
    assert forall r, org :: OwnerRow(later, r, org) && r != row ==> OwnerRow(members, r, org);
  }

  lemma TransferKeeps(s: State, org: OrgId, newOwner: UserId, caller: UserId)
    requires MembersOk(s.members, s.orgs)
    requires var from := FindMember(s.members, org, caller); from.Some? && s.members[from.value].role == Owner
    ensures MembersOk(TransferIn(s, org, newOwner, caller).0.members, s.orgs)
  {
    var from, to := FindMember(s.members, org, caller), FindMember(s.members, org, newOwner);
    if to.Some? {
      var demoted := s.members[from.value := s.members[from.value].(role := Admin)];
      RoleChangeKeeps(s.members, s.orgs, from.value, Admin);
      assert OwnerRow(s.members, from.value, org);
      assert forall r :: OwnerRow(demoted, r, org) ==> OwnerRow(s.members, r, org);
      RoleChangeKeeps(demoted, s.orgs, to.value, Owner);
    }
  }

  // ---- the other tables ----

  lemma ListsStand(s: State, t: State)
    requires InvitationsOk(s) && JoinedOk(s)
    requires t.invitations == s.invitations && t.everInvitations == s.everInvitations && t.joined == s.joined
    requires forall org :: org in s.orgs ==> org in t.orgs
    ensures InvitationsOk(t) && JoinedOk(t)
  {
    forall i | i in t.invitations
      ensures InvitationOk(t, i)
    {
      assert InvitationOk(s, i);
    }
    forall k | 0 <= k < |t.joined|
      ensures JoinedAsInvited(t, k)
    {
      assert JoinedAsInvited(s, k);
    }
  }

  lemma InvitationsGoKeeps(s: State, t: State)
    requires InvitationsOk(s) && JoinedOk(s)
    requires t.everInvitations == s.everInvitations && t.joined == s.joined
    requires forall i :: i in t.invitations ==>
      i in s.invitations && t.invitations[i] == s.invitations[i] && t.invitations[i].org in t.orgs
    ensures InvitationsOk(t) && JoinedOk(t)
  {
    forall i | i in t.invitations
      ensures InvitationOk(t, i)
    {
      assert InvitationOk(s, i);
    }
    assert forall i, org, email :: PendingFor(t.invitations, i, org, email) ==>
      PendingFor(s.invitations, i, org, email);
    forall k | 0 <= k < |t.joined|
      ensures JoinedAsInvited(t, k)
    {
      assert JoinedAsInvited(s, k);
    }
  }

  /** The state with one more invitation. */
  function WithInvitation(s: State, id: nat, inv: Invitation): State {
    s.(invitations := s.invitations[id := inv], everInvitations := s.everInvitations[id := inv])
  }

  ghost predicate IsNew(s: State, id: nat, inv: Invitation) {
    && id !in s.everInvitations && inv.accepted.None? && inv.org in s.orgs && inv.role != Owner
    && (forall i :: i in s.everInvitations ==> s.everInvitations[i].hash != inv.hash)
    && (forall i :: !PendingFor(s.invitations, i, inv.org, inv.email))
  }

  lemma OnePendingMore(invitations: map<nat, Invitation>, id: nat, inv: Invitation)
    requires OnePending(invitations) && forall i :: !PendingFor(invitations, i, inv.org, inv.email)
    ensures OnePending(invitations[id := inv])
  {
    var later := invitations[id := inv];
    assert forall i, o, e :: PendingFor(later, i, o, e) && i != id ==> PendingFor(invitations, i, o, e);
    assert forall o, e :: PendingFor(later, id, o, e) ==> o == inv.org && e == inv.email;
  }

  lemma InvitationAddedKeeps(s: State, id: nat, inv: Invitation)
    requires InvitationsOk(s) && IsNew(s, id, inv)
    ensures InvitationsOk(WithInvitation(s, id, inv))
  {
    var t := WithInvitation(s, id, inv);
    OnePendingMore(s.invitations, id, inv);
    forall i | i in t.invitations
      ensures InvitationOk(t, i)
    {
      assert i != id ==> InvitationOk(s, i);
    }
  }

  lemma JoinedStands(s: State, t: State)
    requires JoinedOk(s) && t.joined == s.joined
    requires forall i {:trigger Spent(t, i)} :: Spent(s, i) ==>
      Spent(t, i) && t.everInvitations[i] == s.everInvitations[i]
    ensures JoinedOk(t)
  {
    forall k | 0 <= k < |t.joined|
      ensures JoinedAsInvited(t, k)
    {
      assert JoinedAsInvited(s, k);
    }
  }

  lemma InviteKeeps(s: State, org: OrgId, id: nat, email: string, role: Role, plain: nat, now: int)
    requires InvitationsOk(s) && JoinedOk(s) && org in s.orgs && role != Owner && id !in s.everInvitations
    requires forall i :: i in s.everInvitations ==> s.everInvitations[i].hash != Sha256(plain)
    ensures var t := InviteIn(s, org, id, email, role, plain, now).0; InvitationsOk(t) && JoinedOk(t)
  {
    var t := InviteIn(s, org, id, email, role, plain, now).0;
    if t != s {
      var inv := Invitation(org, email, role, Sha256(plain), now + INVITATION_TTL_HOURS * HOUR, None);
      InvitationAddedKeeps(s, id, inv);
      JoinedStands(s, t);
    }
  }

  lemma AcceptedMarkKeeps(s: State, i: nat, now: int)
    requires InvitationsOk(s) && i in s.invitations
    ensures InvitationsOk(s.(invitations := s.invitations[i := s.invitations[i].(accepted := Some(now))]))
  {
    var t := s.(invitations := s.invitations[i := s.invitations[i].(accepted := Some(now))]);
    forall j | j in t.invitations
      ensures InvitationOk(t, j)
    {
      assert InvitationOk(s, j);
    }
    assert forall j, o, e :: PendingFor(t.invitations, j, o, e) ==> PendingFor(s.invitations, j, o, e);
  }

  lemma JoinIsRecorded(s: State, i: nat, row: nat, user: UserId, now: int)
    requires InvitationsOk(s) && JoinedOk(s) && i in s.invitations && s.invitations[i].accepted.None?
    ensures JoinedOk(Join(s, i, row, user, now))
  {
    var t := Join(s, i, row, user, now);
    assert InvitationOk(s, i);
    forall k | 0 <= k < |t.joined|
      ensures JoinedAsInvited(t, k) && (k < |s.joined| ==> t.joined[k].invitation != i)
    {
      if k < |s.joined| {
        assert JoinedAsInvited(s, k);
      }
    }
  }

  lemma JoinKeeps(s: State, i: nat, row: nat, user: UserId, now: int)
    requires Inv(s) && i in s.invitations && s.invitations[i].accepted.None? && row !in s.members
    requires forall r :: !IsMember(s.members, r, s.invitations[i].org, user)
    ensures Inv(Join(s, i, row, user, now))
  {
    var t := Join(s, i, row, user, now);
    RolesAsSent(s);
    InsertMemberKeeps(s.members, s.orgs, row, t.members[row]);
    AcceptedMarkKeeps(s, i, now);
    InvitationsOnly(s.(invitations := t.invitations), t);
    JoinIsRecorded(s, i, row, user, now);
  }

  lemma InvitationsOnly(s: State, t: State)
    requires InvitationsOk(s) && t.invitations == s.invitations && t.everInvitations == s.everInvitations
    requires t.orgs == s.orgs
    ensures InvitationsOk(t)
  {
    forall i | i in t.invitations
      ensures InvitationOk(t, i)
    {
      assert InvitationOk(s, i);
    }
  }

  lemma CreateKeeps(s: State, org: OrgId, row: nat, user: UserId, slug: string)
    requires Inv(s) && org !in s.everOrgs && row !in s.members
    ensures Inv(CreateIn(s, org, row, user, slug).0)
  {
    var t := CreateIn(s, org, row, user, slug).0;
    if t != s {
      InsertMemberKeeps(s.members, t.orgs, row, Member(org, user, Owner));
      ListsStand(s, t);
    }
  }

  lemma DeleteKeeps(s: State, org: OrgId, confirmation: string)
    requires Inv(s)
    ensures Inv(DeleteIn(s, org, confirmation).0)
  {
    var t := DeleteIn(s, org, confirmation).0;
    if t != s {
      RemovalKeeps(s.members, t.members, t.orgs);
      assert forall i :: i in s.invitations ==> InvitationOk(s, i);
      InvitationsGoKeeps(s, t);
    }
  }

  lemma TransferCallKeeps(s: State, org: OrgId, newOwner: UserId, caller: UserId)
    requires Inv(s)
    requires var from := FindMember(s.members, org, caller); from.Some? && s.members[from.value].role == Owner
    ensures Inv(TransferIn(s, org, newOwner, caller).0)
  {
    TransferKeeps(s, org, newOwner, caller);
    ListsStand(s, TransferIn(s, org, newOwner, caller).0);
  }

  lemma SetActiveKeeps(s: State, org: OrgId, active: bool)
    requires Inv(s)
    ensures Inv(SetActiveIn(s, org, active).0)
  {
    ListsStand(s, SetActiveIn(s, org, active).0);
  }

  lemma UpdateKeeps(s: State, org: OrgId, target: UserId, role: Role, callerRole: Role)
    requires Inv(s) && role != Owner
    ensures Inv(UpdateMemberIn(s, org, target, role, callerRole).0)
  {
    var row := FindMember(s.members, org, target);
    if row.Some? {
      RoleChangeKeeps(s.members, s.orgs, row.value, role);
    }
    ListsStand(s, UpdateMemberIn(s, org, target, role, callerRole).0);
  }

  lemma RowGoneKeeps(s: State, row: nat)
    requires Inv(s)
    ensures Inv(s.(members := s.members - {row}))
  {
    var t := s.(members := s.members - {row});
    RemovalKeeps(s.members, t.members, t.orgs);
    ListsStand(s, t);
  }

  lemma RemoveKeeps(s: State, org: OrgId, target: UserId)
    requires Inv(s)
    ensures Inv(RemoveMemberIn(s, org, target).0)
  {
    var row := FindMember(s.members, org, target);
    if row.Some? {
      RowGoneKeeps(s, row.value);
    }
  }

  lemma InviteCallKeeps(s: State, org: OrgId, id: nat, email: string, role: Role, plain: nat, now: int)
    requires Inv(s) && org in s.orgs && role != Owner && id !in s.everInvitations
    requires forall i :: i in s.everInvitations ==> s.everInvitations[i].hash != Sha256(plain)
    ensures Inv(InviteIn(s, org, id, email, role, plain, now).0)
  {
    InviteKeeps(s, org, id, email, role, plain, now);
  }

  lemma RevokeKeeps(s: State, org: OrgId, id: nat)
    requires Inv(s)
    ensures Inv(RevokeIn(s, org, id).0)
  {
    assert forall i :: i in s.invitations ==> InvitationOk(s, i);
    InvitationsGoKeeps(s, RevokeIn(s, org, id).0);
  }

  // ---- one call ----

  /** The caller's own row, as the guard finds it. */
  lemma GuardFinds(s: State, caller: UserId, tokenOrg: OrgId, minimum: Role)
    requires Guard(s, caller, tokenOrg, minimum).Success?
    ensures var row := Guard(s, caller, tokenOrg, minimum).value;
      && FindMember(s.members, tokenOrg, caller) == Some(row) && tokenOrg in s.orgs
      && Rank(s.members[row].role) >= Rank(minimum)
  {
  }

  predicate IsMemberCall(c: Call) {
    c.UpdateMember? || c.RemoveMember? || c.TransferOwnership?
  }

  lemma MemberCallKeeps(s: State, c: Call, callerRow: nat)
    requires Inv(s) && IsMemberCall(c) && SchemaAccepts(c) && callerRow in s.members
    requires c.TransferOwnership? ==>
      FindMember(s.members, c.tokenOrg, c.caller) == Some(callerRow) && s.members[callerRow].role == Owner
    ensures Inv(ExecGuarded(s, c, callerRow).0)
  {
    match c
    case TransferOwnership(caller, tokenOrg, newOwner) => TransferCallKeeps(s, tokenOrg, newOwner, caller);
    case UpdateMember(_, _, org, target, role) => UpdateKeeps(s, org, target, role, s.members[callerRow].role);
    case RemoveMember(_, _, org, target) => RemoveKeeps(s, org, target);
  }

  lemma OtherCallKeeps(s: State, c: Call, callerRow: nat)
    requires Inv(s) && Possible(s, c) && IsGuarded(c) && !IsMemberCall(c) && SchemaAccepts(c)
    requires callerRow in s.members && c.tokenOrg in s.orgs
    ensures Inv(ExecGuarded(s, c, callerRow).0)
  {
    match c
    case SetActive(_, _, org, active) => SetActiveKeeps(s, org, active);
    case DeleteOrg(_, _, org, confirmation) => DeleteKeeps(s, org, confirmation);
    case Invite(_, tokenOrg, _, id, email, role, plain, now) =>
      InviteCallKeeps(s, tokenOrg, id, email, role, plain, now);
    case Revoke(_, _, org, id) => RevokeKeeps(s, org, id);
  }

  lemma GuardedKeeps(s: State, c: Call, callerRow: nat)
    requires Inv(s) && Possible(s, c) && IsGuarded(c) && SchemaAccepts(c)
    requires Guard(s, c.caller, c.tokenOrg, MinimumRole(c)) == Success(callerRow)
    ensures Inv(ExecGuarded(s, c, callerRow).0)
  {
    GuardFinds(s, c.caller, c.tokenOrg, MinimumRole(c));
    if IsMemberCall(c) {
      MemberCallKeeps(s, c, callerRow);
    } else {
      OtherCallKeeps(s, c, callerRow);
    }
  }

  lemma AcceptanceKeeps(s: State, c: Call)
    requires Inv(s) && Possible(s, c) && (c.Accept? || c.RegisterWith?)
    ensures Inv(Exec(s, c).0)
  {
    var i := FindOpen(s.invitations, c.plain, c.now);
    if i.Some? && FindMember(s.members, s.invitations[i.value].org, c.user).None? {
      JoinKeeps(s, i.value, c.row, c.user, c.now);
    }
  }

  lemma ExecKeeps(s: State, c: Call)
    requires Inv(s) && Possible(s, c)
    ensures Inv(Exec(s, c).0)
  {
    if c.CreateOrg? {
      CreateKeeps(s, c.org, c.row, c.user, c.slug);
    } else if IsGuarded(c) {
      var guard := Guard(s, c.caller, c.tokenOrg, MinimumRole(c));
      if guard.Success? && SchemaAccepts(c) {
        GuardedKeeps(s, c, guard.value);
      }
    } else if !c.Read? {
      AcceptanceKeeps(s, c);
    }
  }

  // ---- ownership ----

  predicate IsAcceptance(c: Call) {
    c.Accept? || c.RegisterWith?
  }

  ghost predicate HasOwner(s: State, org: OrgId) {
    exists row :: OwnerRow(s.members, row, org)
  }

  ghost predicate ExactlyOneOwner(s: State, org: OrgId) {
    exists row :: OwnerRow(s.members, row, org) && forall other :: OwnerRow(s.members, other, org) ==> other == row
  }

  /**
   The one call that costs an organization its owner: a role change aimed at the owner that the guards let through.
   */
  ghost predicate DemotesOwner(s: State, c: Call, org: OrgId) {
    && c.UpdateMember? && c.org == org && c.tokenOrg == org && c.role != Owner
    && var guard, target := Guard(s, c.caller, org, Manager), FindMember(s.members, org, c.target);
       && guard.Success? && Rank(c.role) < Rank(s.members[guard.value].role)
       && target.Some? && s.members[target.value].role == Owner
  }

  lemma TransferIsByOwner(s: State, c: Call)
    requires c.TransferOwnership? && Exec(s, c).0 != s
    ensures HasOwner(s, c.tokenOrg)
    ensures forall row :: row in Exec(s, c).0.members && Exec(s, c).0.members[row].role == Owner ==>
      row in s.members && (s.members[row].role == Owner || Exec(s, c).0.members[row].org == c.tokenOrg)
      && Exec(s, c).0.members[row].org == s.members[row].org
  {
    var guard := Guard(s, c.caller, c.tokenOrg, Owner);
    GuardFinds(s, c.caller, c.tokenOrg, Owner);
    assert OwnerRow(s.members, guard.value, c.tokenOrg);
  }

  lemma AcceptanceMakesNoOwner(s: State, c: Call, row: nat, org: OrgId)
    requires InvitationsOk(s) && IsAcceptance(c) && OwnerRow(Exec(s, c).0.members, row, org)
    ensures OwnerRow(s.members, row, org)
  {
    RolesAsSent(s);
  }

  lemma GuardedMakesNoOwner(s: State, c: Call, callerRow: nat, row: nat, org: OrgId)
    requires IsGuarded(c) && !c.TransferOwnership? && SchemaAccepts(c) && callerRow in s.members
    requires OwnerRow(ExecGuarded(s, c, callerRow).0.members, row, org)
    ensures OwnerRow(s.members, row, org)
  {
  }

  lemma CreationMakesOneOwner(s: State, org: OrgId, row: nat, user: UserId, slug: string, r: nat, o: OrgId)
    requires row !in s.members && OwnerRow(CreateIn(s, org, row, user, slug).0.members, r, o)
    ensures OwnerRow(s.members, r, o) || o == org
  {
  }

  /** Ownership appears in two ways only: with a new organization, or handed on by an owner. */
  lemma OwnershipComesFrom(s: State, c: Call, row: nat, org: OrgId)
    requires Inv(s) && Possible(s, c)
    requires OwnerRow(Exec(s, c).0.members, row, org) && !OwnerRow(s.members, row, org)
    ensures (c.CreateOrg? && c.org == org) || (c.TransferOwnership? && c.tokenOrg == org && HasOwner(s, org))
  {
    if c.CreateOrg? {
      CreationMakesOneOwner(s, c.org, c.row, c.user, c.slug, row, org);
    } else if c.TransferOwnership? {
      TransferIsByOwner(s, c);
    } else if IsAcceptance(c) {
      AcceptanceMakesNoOwner(s, c, row, org);
    } else if IsGuarded(c) {
      var guard := Guard(s, c.caller, c.tokenOrg, MinimumRole(c));
      if guard.Success? && SchemaAccepts(c) {
        GuardedMakesNoOwner(s, c, guard.value, row, org);
      }
    }
  }

  lemma RolesAsSent(s: State)
    requires InvitationsOk(s)
    ensures forall i :: i in s.invitations ==>
      && s.invitations[i].role != Owner && s.invitations[i].org in s.orgs
      && i in s.everInvitations && s.invitations[i].hash == s.everInvitations[i].hash
  {
    forall i | i in s.invitations
      ensures s.invitations[i].role != Owner && s.invitations[i].org in s.orgs
      ensures i in s.everInvitations && s.invitations[i].hash == s.everInvitations[i].hash
    {
      assert InvitationOk(s, i);
    }
  }

  /** An organization without an owner does not get one by any call. */
  lemma OwnerlessStays(s: State, c: Call, org: OrgId)
    requires Inv(s) && Possible(s, c) && org in s.everOrgs && !HasOwner(s, org)
    ensures !HasOwner(Exec(s, c).0, org)
  {
    var t := Exec(s, c).0;
    if HasOwner(t, org) {
      var row :| OwnerRow(t.members, row, org);
      OwnershipComesFrom(s, c, row, org);
    }
  }

  lemma DemotionEndsOwnership(s: State, c: Call, org: OrgId)
    requires MembersOk(s.members, s.orgs) && DemotesOwner(s, c, org)
    ensures !HasOwner(Exec(s, c).0, org)
  {
    var t := Exec(s, c).0;
    var w := FindMember(s.members, org, c.target).value;
    assert OwnerRow(s.members, w, org);
    assert forall r :: OwnerRow(t.members, r, org) ==> r != w && OwnerRow(s.members, r, org);
  }

  lemma OwnerIsHandedOn(s: State, c: Call, org: OrgId, w: nat)
    requires c.TransferOwnership? && OwnerRow(s.members, w, org)
    ensures HasOwner(Exec(s, c).0, org)
  {
    var t := Exec(s, c).0;
    var to := FindMember(s.members, c.tokenOrg, c.newOwner);
    if c.tokenOrg == org && t != s {
      assert OwnerRow(t.members, to.value, org);
    } else {
      assert OwnerRow(t.members, w, org);
    }
  }

  lemma OwnerStaysWithout(s: State, c: Call, org: OrgId, w: nat)
    requires MembersOk(s.members, s.orgs) && Possible(s, c) && OwnerRow(s.members, w, org)
    requires org in Exec(s, c).0.orgs && !DemotesOwner(s, c, org)
    ensures HasOwner(Exec(s, c).0, org)
  {
    var t := Exec(s, c).0;
    if c.TransferOwnership? {
      OwnerIsHandedOn(s, c, org, w);
    } else {
      assert OwnerRow(t.members, w, org);
    }
  }

  /** One call: while the organization stands, it loses its one owner exactly by a role change aimed at the owner. */
  lemma OwnerLostIff(s: State, c: Call, org: OrgId)
    requires Inv(s) && Possible(s, c) && ExactlyOneOwner(s, org) && org in Exec(s, c).0.orgs
    ensures ExactlyOneOwner(Exec(s, c).0, org) <==> !DemotesOwner(s, c, org)
  {
    ExecKeeps(s, c);
    var w :| OwnerRow(s.members, w, org);
    if DemotesOwner(s, c, org) {
      DemotionEndsOwnership(s, c, org);
    } else {
      OwnerStaysWithout(s, c, org, w);
    }
  }

  /** What a transfer makes of one member: the new owner, the former owner, or as before. */
  function HandedOver(members: map<nat, Member>, r: nat, org: OrgId, newOwner: UserId, caller: UserId): Member
    requires r in members
  {
    if IsMember(members, r, org, newOwner) then members[r].(role := Owner)
    else if IsMember(members, r, org, caller) then members[r].(role := Admin)
    else members[r]
  }

  ghost predicate AllHandedOver(members: map<nat, Member>, later: map<nat, Member>, org: OrgId, newOwner: UserId,
                                caller: UserId)
  {
    && later.Keys == members.Keys
    && forall r :: r in members ==> later[r] == HandedOver(members, r, org, newOwner, caller)
  }

  /**
   Handing ownership to oneself changes nothing; handing it to another member swaps the two roles and nothing else.
   */
  lemma TransferHandsOver(s: State, c: Call)
    requires UniqueMembers(s.members) && c.TransferOwnership? && Exec(s, c).1 == Done
    ensures var t := Exec(s, c).0;
      && t == s.(members := t.members) && AllHandedOver(s.members, t.members, c.tokenOrg, c.newOwner, c.caller)
      && (c.newOwner == c.caller ==> t == s)
  {
    GuardFinds(s, c.caller, c.tokenOrg, Owner);
  }

  // ---- what accumulates ----

  ghost predicate InvitationsStay(s: State, t: State) {
    && (forall i :: i in s.everInvitations ==> i in t.everInvitations && t.everInvitations[i] == s.everInvitations[i])
    && (forall i {:trigger Spent(s, i)} {:trigger Spent(t, i)} :: Spent(s, i) ==> Spent(t, i))
  }

  ghost predicate Grew(s: State, t: State) {
    s.everOrgs <= t.everOrgs && s.joined <= t.joined && InvitationsStay(s, t)
  }

  /** Invitations that were there may go; new ones have new ids. */
  ghost predicate ListsGrew(s: State, t: State) {
    && s.everOrgs <= t.everOrgs && s.joined <= t.joined
    && (forall i :: i in s.everInvitations ==> i in t.everInvitations && t.everInvitations[i] == s.everInvitations[i])
    && (forall i :: i in t.invitations && i in s.everInvitations ==>
          i in s.invitations && (s.invitations[i].accepted.Some? ==> t.invitations[i].accepted.Some?))
  }

  predicate SameLists(s: State, t: State) {
    t.everOrgs == s.everOrgs && t.joined == s.joined
    && t.invitations == s.invitations && t.everInvitations == s.everInvitations
  }

  lemma MemberCallLeavesLists(s: State, c: Call, callerRow: nat)
    requires IsMemberCall(c) && callerRow in s.members
    ensures SameLists(s, ExecGuarded(s, c, callerRow).0)
  {
  }

  lemma MemberCallGrows(s: State, c: Call, callerRow: nat)
    requires IsMemberCall(c) && callerRow in s.members
    ensures ListsGrew(s, ExecGuarded(s, c, callerRow).0)
  {
    MemberCallLeavesLists(s, c, callerRow);
  }

  lemma GuardedGrows(s: State, c: Call, callerRow: nat)
    requires Possible(s, c) && IsGuarded(c) && callerRow in s.members
    ensures ListsGrew(s, ExecGuarded(s, c, callerRow).0)
  {
    if IsMemberCall(c) {
      MemberCallGrows(s, c, callerRow);
    } else if c.Invite? {
      InviteGrows(s, c.org, c.id, c.email, c.role, c.plain, c.now);
    }
  }

  lemma InviteGrows(s: State, org: OrgId, id: nat, email: string, role: Role, plain: nat, now: int)
    requires id !in s.everInvitations
    ensures ListsGrew(s, InviteIn(s, org, id, email, role, plain, now).0)
  {
  }

  lemma JoinGrows(s: State, i: nat, row: nat, user: UserId, now: int)
    requires i in s.invitations
    ensures ListsGrew(s, Join(s, i, row, user, now))
  {
  }

  lemma AcceptanceGrows(s: State, c: Call)
    requires IsAcceptance(c)
    ensures ListsGrew(s, Exec(s, c).0)
  {
    var i := FindOpen(s.invitations, c.plain, c.now);
    if i.Some? {
      JoinGrows(s, i.value, c.row, c.user, c.now);
    }
  }

  lemma ExecGrows(s: State, c: Call)
    requires Possible(s, c)
    ensures Grew(s, Exec(s, c).0)
  {
    if IsGuarded(c) {
      var guard := Guard(s, c.caller, c.tokenOrg, MinimumRole(c));
      if guard.Success? {
        GuardedGrows(s, c, guard.value);
      }
    } else if IsAcceptance(c) {
      AcceptanceGrows(s, c);
    }
  }

  // ---- runs ----

  ghost predicate Follows(s: State, c: Call, t: State) {
    Possible(s, c) && t == Exec(s, c).0
  }

  /** The calls `cs`, one after the other, lead through the states `ss`. */
  ghost predicate Run(ss: seq<State>, cs: seq<Call>) {
    && |ss| == |cs| + 1 && ss[0] == START
    && forall k {:trigger cs[k]} :: 0 <= k < |cs| ==> Follows(ss[k], cs[k], ss[k + 1])
  }

  /** In every state: at most one owner, at most one membership and at most one pending invitation of each kind. */
  lemma {:induction false} EveryStateInOrder(ss: seq<State>, cs: seq<Call>, i: nat)
    requires Run(ss, cs) && i < |ss|
    ensures Inv(ss[i])
  {
    if i > 0 {
      EveryStateInOrder(ss, cs, i - 1);
      assert Follows(ss[i - 1], cs[i - 1], ss[i]);
      ExecKeeps(ss[i - 1], cs[i - 1]);
    }
  }

  lemma {:induction false} GrewAlong(ss: seq<State>, cs: seq<Call>, i: nat, j: nat)
    requires Run(ss, cs) && i <= j < |ss|
    ensures Grew(ss[i], ss[j])
    decreases j - i
  {
    if i < j {
      GrewAlong(ss, cs, i, j - 1);
      EveryStateInOrder(ss, cs, j - 1);
      assert Follows(ss[j - 1], cs[j - 1], ss[j]);
      ExecGrows(ss[j - 1], cs[j - 1]);
    }
  }

  lemma GuardedAddsNoOrganization(s: State, c: Call, callerRow: nat)
    requires IsGuarded(c) && callerRow in s.members
    ensures ExecGuarded(s, c, callerRow).0.orgs.Keys <= s.orgs.Keys
  {
  }

  lemma OnlyCreationAdds(s: State, c: Call)
    ensures !c.CreateOrg? ==> Exec(s, c).0.orgs.Keys <= s.orgs.Keys
  {
    if IsGuarded(c) {
      var guard := Guard(s, c.caller, c.tokenOrg, MinimumRole(c));
      if guard.Success? {
        GuardedAddsNoOrganization(s, c, guard.value);
      }
    }
  }

  lemma OrganizationComesFrom(s: State, c: Call, org: OrgId)
    requires Inv(s) && Possible(s, c) && org !in s.orgs && org in Exec(s, c).0.orgs
    ensures org !in s.everOrgs && ExactlyOneOwner(Exec(s, c).0, org)
  {
    OnlyCreationAdds(s, c);
    CreationGivesOwner(s, org, c.row, c.user, c.slug);
  }

  lemma CreationGivesOwner(s: State, org: OrgId, row: nat, user: UserId, slug: string)
    requires Inv(s) && org !in s.everOrgs && row !in s.members
    ensures var (t, r) := CreateIn(s, org, row, user, slug); r == Done ==> ExactlyOneOwner(t, org)
  {
    var (t, r) := CreateIn(s, org, row, user, slug);
    CreateKeeps(s, org, row, user, slug);
    if r == Done {
      assert OwnerRow(t.members, row, org);
    }
  }

  lemma OwnerNext(s: State, c: Call, org: OrgId)
    requires Inv(s) && Possible(s, c) && org in s.orgs && org in Exec(s, c).0.orgs
    ensures ExactlyOneOwner(Exec(s, c).0, org) <==> ExactlyOneOwner(s, org) && !DemotesOwner(s, c, org)
  {
    if HasOwner(s, org) {
      OwnerLostIff(s, c, org);
    } else {
      OwnerlessStays(s, c, org);
    }
  }

  /** Before an organization is created there is nobody in it to demote. */
  lemma NoneDemotedBefore(ss: seq<State>, cs: seq<Call>, j: nat, org: OrgId)
    requires Run(ss, cs) && j < |ss| && org !in ss[j].everOrgs
    ensures NoDemotion(ss, cs, j, org) && (j < |cs| ==> !DemotesOwner(ss[j], cs[j], org))
  {
    forall k | 0 <= k <= j && k < |cs|
      ensures !DemotesOwner(ss[k], cs[k], org)
    {
      EveryStateInOrder(ss, cs, k);
      GrewAlong(ss, cs, k, j);
    }
  }

  ghost predicate NoDemotion(ss: seq<State>, cs: seq<Call>, j: nat, org: OrgId)
    requires j <= |cs| < |ss|
  {
    forall k {:trigger DemotesOwner(ss[k], cs[k], org)} :: 0 <= k < j ==> !DemotesOwner(ss[k], cs[k], org)
  }

  lemma OwnerNextInRun(ss: seq<State>, cs: seq<Call>, j: nat, org: OrgId)
    requires Run(ss, cs) && j < |cs| && org in ss[j].orgs && org in ss[j + 1].orgs
    ensures ExactlyOneOwner(ss[j + 1], org) <==> ExactlyOneOwner(ss[j], org) && !DemotesOwner(ss[j], cs[j], org)
  {
    assert Follows(ss[j], cs[j], ss[j + 1]);
    EveryStateInOrder(ss, cs, j);
    OwnerNext(ss[j], cs[j], org);
  }

  lemma OwnerAtFirst(ss: seq<State>, cs: seq<Call>, j: nat, org: OrgId)
    requires Run(ss, cs) && j < |cs| && org !in ss[j].orgs && org in ss[j + 1].orgs
    ensures ExactlyOneOwner(ss[j + 1], org) && NoDemotion(ss, cs, j, org) && !DemotesOwner(ss[j], cs[j], org)
  {
    assert Follows(ss[j], cs[j], ss[j + 1]);
    EveryStateInOrder(ss, cs, j);
    OrganizationComesFrom(ss[j], cs[j], org);
    NoneDemotedBefore(ss, cs, j, org);
  }

  /**
   In every state of every run, a standing organization has exactly one owner, except that it has none for good once
   a role change has been aimed at its owner.
   */
  lemma {:induction false} ExactlyOneOwnerIff(ss: seq<State>, cs: seq<Call>, j: nat, org: OrgId)
    requires Run(ss, cs) && j < |ss| && org in ss[j].orgs
    ensures ExactlyOneOwner(ss[j], org) <==> NoDemotion(ss, cs, j, org)
  {
    assert j > 0;
    if org in ss[j - 1].orgs {
      ExactlyOneOwnerIff(ss, cs, j - 1, org);
      OwnerNextInRun(ss, cs, j - 1, org);
    } else {
      OwnerAtFirst(ss, cs, j - 1, org);
    }
  }

  /** Once an organization has no owner, nothing that happens later gives it one. */
  lemma {:induction false} OwnerlessForGood(ss: seq<State>, cs: seq<Call>, i: nat, j: nat, org: OrgId)
    requires Run(ss, cs) && i <= j < |ss| && org in ss[i].everOrgs && !HasOwner(ss[i], org)
    ensures !HasOwner(ss[j], org)
    decreases j - i
  {
    if i < j {
      OwnerlessForGood(ss, cs, i, j - 1, org);
      EveryStateInOrder(ss, cs, j - 1);
      GrewAlong(ss, cs, i, j - 1);
      assert Follows(ss[j - 1], cs[j - 1], ss[j]);
      OwnerlessStays(ss[j - 1], cs[j - 1], org);
    }
  }

  /** It does happen: an owner may change his own role to viewer. */
  lemma OwnerCanBeLost()
    ensures exists ss: seq<State>, cs: seq<Call> :: Run(ss, cs) && |cs| == 2 && 0 in ss[2].orgs && !HasOwner(ss[2], 0)
  {
    var create, demote := CreateOrg(0, 0, 7, "acme"), UpdateMember(7, 0, 0, 7, Viewer);
    var first := Exec(START, create).0;
    assert first.members == map[0 := Member(0, 7, Owner)];
    assert IsMember(first.members, 0, 0, 7);
    assert FindMember(first.members, 0, 7) == Some(0);
    var second := Exec(first, demote).0;
    assert second.members == map[0 := Member(0, 7, Viewer)];
    var ss, cs := [START, first, second], [create, demote];
    assert Run(ss, cs);
  }
}
