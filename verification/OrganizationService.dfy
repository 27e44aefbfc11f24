/** The organization service as it is written: it looks rows up, checks them, and changes them in place. */
module OrganizationService {
  import opened Outcomes
  import opened Basics
  import opened Organizations

  class Service {
    var orgs: map<OrgId, Org>
    var members: map<nat, Member>
    var invitations: map<nat, Invitation>
    // What has happened so far.
    ghost var joined: seq<Joined>
    ghost var everOrgs: set<OrgId>
    ghost var everInvitations: map<nat, Invitation>

    ghost function State(): Organizations.State
      reads this
    {
      Organizations.State(orgs, members, invitations, joined, everOrgs, everInvitations)
    }

    constructor ()
      ensures State() == START
    {
      orgs, members, invitations := map[], map[], map[];
      joined, everOrgs, everInvitations := [], {}, map[];
    }

    // ---- queries ----

    /** `scalar_one_or_none` on (organization_id, user_id). */
    method SelectMember(org: OrgId, user: UserId) returns (row: Option<nat>)
      requires UniqueMembers(members)
      ensures row == FindMember(members, org, user)
    {
      var matching := set r | r in members && members[r].org == org && members[r].user == user;
      assert forall r :: IsMember(members, r, org, user) ==> r in matching;
      if matching == {} {
        return None;
      }
      var r :| r in matching;
      assert IsMember(members, r, org, user);
      return Some(r);
    }

    method SelectOpenInvitation(plain: nat, now: int) returns (id: Option<nat>)
      requires UniqueTokens(invitations)
      ensures id == FindOpen(invitations, plain, now)
    {
      var hash := Sha256(plain);
      var matching := set i | i in invitations
        && invitations[i].hash == hash && invitations[i].accepted.None? && invitations[i].expires > now;
      assert forall i :: Open(invitations, i, plain, now) ==> i in matching;
      if matching == {} {
        return None;
      }
      var i :| i in matching;
      assert Open(invitations, i, plain, now);
      return Some(i);
    }

    method RequireOrgRole(caller: UserId, tokenOrg: OrgId, minimum: Role) returns (r: Result<nat, Response>)
      requires UniqueMembers(members)
      ensures r == Guard(State(), caller, tokenOrg, minimum)
    {
      if tokenOrg !in orgs {
        return Failure(OrgNotFound);
      }
      if !orgs[tokenOrg].active {
        return Failure(OrgSuspended);
      }
      var row := SelectMember(tokenOrg, caller);
      if row.None? {
        return Failure(NotAMember);
      }
      if Rank(members[row.value].role) < Rank(minimum) {
        return Failure(InsufficientRole);
      }
      return Success(row.value);
    }

    // ---- organizations ----

    method CreateOrganization(org: OrgId, row: nat, user: UserId, slug: string) returns (r: Response)
      modifies this
      ensures (State(), r) == CreateIn(old(State()), org, row, user, slug)
    {
      var taken := set o | o in orgs && orgs[o].slug == slug;
      if taken != {} {
        assert exists o :: o in taken;
        return Conflict;
      }
      assert forall o :: o in orgs && orgs[o].slug == slug ==> o in taken;
      orgs := orgs[org := Org(slug, true)];
      everOrgs := everOrgs + {org};
      members := members[row := Member(org, user, Owner)];
      return Done;
    }

    method SetActivity(org: OrgId, active: bool) returns (r: Response)
      modifies this`orgs
      ensures (State(), r) == SetActiveIn(old(State()), org, active)
    {
      if org !in orgs {
        return NotFound;
      }
      orgs := orgs[org := orgs[org].(active := active)];
      return Done;
    }

    method DeleteOrganization(org: OrgId, confirmation: string) returns (r: Response)
      modifies this
      ensures (State(), r) == DeleteIn(old(State()), org, confirmation)
    {
      if org !in orgs {
        return NotFound;
      }
      if confirmation != orgs[org].slug {
        return ConfirmationMismatch;
      }
      orgs := orgs - {org};
      members := map m | m in members && members[m].org != org :: members[m];
      invitations := map i | i in invitations && invitations[i].org != org :: invitations[i];
      return Done;
    }

    // ---- members ----

    method ChangeRole(org: OrgId, target: UserId, role: Role, callerRole: Role) returns (r: Response)
      requires UniqueMembers(members)
      modifies this`members
      ensures (State(), r) == UpdateMemberIn(old(State()), org, target, role, callerRole)
    {
      var row := SelectMember(org, target);
      if row.None? {
        return NotFound;
      }
      var callerRank, newRank := Rank(callerRole), Rank(role);
      if newRank >= callerRank {
        return InsufficientRole;
      }
      members := members[row.value := members[row.value].(role := role)];
      return Done;
    }

    method Remove(org: OrgId, target: UserId) returns (r: Response)
      requires UniqueMembers(members)
      modifies this`members
      ensures (State(), r) == RemoveMemberIn(old(State()), org, target)
    {
      var row := SelectMember(org, target);
      if row.None? {
        return NotFound;
      }
      if members[row.value].role == Owner {
        return CannotRemoveOwner;
      }
      members := members - {row.value};
      return Done;
    }

    method Transfer(org: OrgId, newOwner: UserId, caller: UserId) returns (r: Response)
      requires UniqueMembers(members)
      modifies this`members
      ensures (State(), r) == TransferIn(old(State()), org, newOwner, caller)
    {
      var from := SelectMember(org, caller);
      var to := SelectMember(org, newOwner);
      if to.None? {
        return NotFound;
      }
      if from.Some? {
        members := members[from.value := members[from.value].(role := Admin)];
      }
      members := members[to.value := members[to.value].(role := Owner)];
      return Done;
    }

    // ---- invitations ----

    method InviteTo(org: OrgId, id: nat, email: string, role: Role, plain: nat, now: int) returns (r: Response)
      modifies this`invitations, this`everInvitations
      ensures (State(), r) == InviteIn(old(State()), org, id, email, role, plain, now)
    {
      var waiting := set i | i in invitations
        && invitations[i].org == org && invitations[i].email == email && invitations[i].accepted.None?;
      if waiting != {} {
        assert exists i :: i in waiting;
        return Conflict;
      }
      assert forall i :: i in invitations && PendingFor(invitations, i, org, email) ==> i in waiting;
      var invitation := Invitation(org, email, role, Sha256(plain), now + INVITATION_TTL_HOURS * HOUR, None);
      invitations := invitations[id := invitation];
      everInvitations := everInvitations[id := invitation];
      return Done;
    }

    method RevokeInvitation(org: OrgId, id: nat) returns (r: Response)
      modifies this`invitations
      ensures (State(), r) == RevokeIn(old(State()), org, id)
    {
      if id !in invitations || invitations[id].org != org {
        return NotFound;
      }
      invitations := invitations - {id};
      return Done;
    }

    method AcceptInvitation(plain: nat, row: nat, user: UserId, email: string, now: int) returns (r: Response)
      requires UniqueMembers(members) && UniqueTokens(invitations)
      modifies this`members, this`invitations, this`joined
      ensures (State(), r) == AcceptIn(old(State()), plain, row, user, email, now)
    {
      var id := SelectOpenInvitation(plain, now);
      if id.None? {
        return NotFound;
      }
      var inv := invitations[id.value];
      if Lower(inv.email) != Lower(email) {
        return EmailMismatch;
      }
      var already := SelectMember(inv.org, user);
      if already.Some? {
        return Conflict;
      }
      members := members[row := Member(inv.org, user, inv.role)];
      invitations := invitations[id.value := inv.(accepted := Some(now))];
      joined := joined + [Joined(id.value, inv.org, user, inv.role)];
      return Done;
    }

    /** The flush at the end raises when the user is a member already; the exception is swallowed. */
    method AcceptWhileRegistering(plain: nat, row: nat, user: UserId, now: int) returns (r: Response)
      requires UniqueMembers(members) && UniqueTokens(invitations)
      modifies this`members, this`invitations, this`joined
      ensures (State(), r) == RegisterIn(old(State()), plain, row, user, now)
    {
      var id := SelectOpenInvitation(plain, now);
      if id.None? {
        return NotAccepted;
      }
      var inv := invitations[id.value];
      var already := SelectMember(inv.org, user);
      if already.Some? {
        return NotAccepted;
      }
      members := members[row := Member(inv.org, user, inv.role)];
      invitations := invitations[id.value := inv.(accepted := Some(now))];
      joined := joined + [Joined(id.value, inv.org, user, inv.role)];
      return Done;
    }

    // ---- the endpoints: schema, guard, service ----

    method HandleGuarded(c: Call, callerRow: nat) returns (r: Response)
      requires UniqueMembers(members) && IsGuarded(c) && callerRow in members
      modifies this
      ensures (State(), r) == ExecGuarded(old(State()), c, callerRow)
    {
      match c
      case TransferOwnership(caller, tokenOrg, newOwner) => r := Transfer(tokenOrg, newOwner, caller);
      case SetActive(_, tokenOrg, org, active) =>
        if org != tokenOrg { return NotFound; }
        r := SetActivity(org, active);
      case DeleteOrg(_, tokenOrg, org, confirmation) =>
        if org != tokenOrg { return NotFound; }
        r := DeleteOrganization(org, confirmation);
      case UpdateMember(_, tokenOrg, org, target, role) =>
        if org != tokenOrg { return NotFound; }
        r := ChangeRole(org, target, role, members[callerRow].role);
      case RemoveMember(_, tokenOrg, org, target) =>
        if org != tokenOrg { return NotFound; }
        r := Remove(org, target);
      case Invite(_, tokenOrg, org, id, email, role, plain, now) =>
        if org != tokenOrg { return NotFound; }
        r := InviteTo(org, id, email, role, plain, now);
      case Revoke(_, tokenOrg, org, id) =>
        if org != tokenOrg { return NotFound; }
        r := RevokeInvitation(org, id);
    }

    method Handle(c: Call) returns (r: Response)
      requires UniqueMembers(members) && UniqueTokens(invitations)
      modifies this
      ensures (State(), r) == Exec(old(State()), c)
    {
      match c
      case CreateOrg(org, row, user, slug) => r := CreateOrganization(org, row, user, slug);
      case Accept(plain, row, user, email, now) => r := AcceptInvitation(plain, row, user, email, now);
      case RegisterWith(plain, row, user, now) => r := AcceptWhileRegistering(plain, row, user, now);
      case Read => r := Done;
      case _ =>
        var guard := RequireOrgRole(c.caller, c.tokenOrg, MinimumRole(c));
        if guard.Failure? {
          return guard.error;
        }
        if !SchemaAccepts(c) {
          return InvalidRole;
        }
        r := HandleGuarded(c, guard.value);
    }
  }
}
