/** Where memberships come from and who may change them, over whole runs; and what invitations promise. */
module Memberships {
  import opened Outcomes
  import opened Basics
  import opened Organizations
  import opened OrganizationRuns

  // ---- invitations ----

  /** The call succeeds in sending the invitation. */
  ghost predicate Sends(s: State, c: Call, i: nat, inv: Invitation) {
    && c.Invite? && Exec(s, c).1 == Done && c.id == i
    && inv == Invitation(c.org, c.email, c.role, Sha256(c.plain), c.now + INVITATION_TTL_HOURS * HOUR, None)
  }

  lemma InvitationComesFrom(s: State, c: Call, i: nat)
    requires i in Exec(s, c).0.everInvitations && i !in s.everInvitations
    ensures Sends(s, c, i, Exec(s, c).0.everInvitations[i])
  {
  }

  /** Every invitation there ever was is as some earlier call sent it. */
  lemma {:induction false} SentBy(ss: seq<State>, cs: seq<Call>, j: nat, i: nat)
    requires Run(ss, cs) && j < |ss| && i in ss[j].everInvitations
    ensures exists k :: 0 <= k < j && Sends(ss[k], cs[k], i, ss[j].everInvitations[i])
  {
    assert j > 0;
    assert Follows(ss[j - 1], cs[j - 1], ss[j]);
    if i in ss[j - 1].everInvitations {
      SentBy(ss, cs, j - 1, i);
      GrewAlong(ss, cs, j - 1, j);
    } else {
      InvitationComesFrom(ss[j - 1], cs[j - 1], i);
    }
  }

  predicate JoinsAsSent(s: State, invite: Call, c: Call, t: State)
    requires IsAcceptance(c)
  {
    && invite.Invite? && invite.plain == c.plain && c.now < invite.now + INVITATION_TTL_HOURS * HOUR
    && t.members == s.members[c.row := Member(invite.org, c.user, invite.role)]
  }

  /** A successful acceptance uses up one invitation, which was open, and joins as it says. */
  lemma AcceptanceJoins(s: State, c: Call) returns (i: nat)
    requires InvitationsOk(s) && IsAcceptance(c) && Exec(s, c).1 == Done
    ensures i in s.everInvitations && s.everInvitations[i].hash == Sha256(c.plain)
    ensures s.everInvitations[i].expires > c.now
    ensures Exec(s, c).0.members
      == s.members[c.row := Member(s.everInvitations[i].org, c.user, s.everInvitations[i].role)]
    ensures FindOpen(s.invitations, c.plain, c.now) == Some(i) && Spent(Exec(s, c).0, i)
  {
    i := FindOpen(s.invitations, c.plain, c.now).value;
    assert InvitationOk(s, i);
  }

  /**
   An acceptance that succeeds adds one membership, in the organization and with the role of the call that sent the
   token, less than 48 hours after it.
   */
  lemma AcceptedAsSent(ss: seq<State>, cs: seq<Call>, j: nat)
    requires Run(ss, cs) && j < |cs| && IsAcceptance(cs[j]) && Exec(ss[j], cs[j]).1 == Done
    ensures exists k :: 0 <= k < j && JoinsAsSent(ss[j], cs[k], cs[j], ss[j + 1])
  {
    assert Follows(ss[j], cs[j], ss[j + 1]);
    EveryStateInOrder(ss, cs, j);
    var i := AcceptanceJoins(ss[j], cs[j]);
    SentBy(ss, cs, j, i);
    var k :| 0 <= k < j && Sends(ss[k], cs[k], i, ss[j].everInvitations[i]);
    assert JoinsAsSent(ss[j], cs[k], cs[j], ss[j + 1]);
  }

  lemma InvitingOpens(s: State, org: OrgId, id: nat, email: string, role: Role, plain: nat, now: int, later: int)
    requires InvitationsOk(s) && id !in s.everInvitations
    requires forall i :: i in s.everInvitations ==> s.everInvitations[i].hash != Sha256(plain)
    requires InviteIn(s, org, id, email, role, plain, now).1 == Done
    ensures FindOpen(InviteIn(s, org, id, email, role, plain, now).0.invitations, plain, later)
         == if later < now + INVITATION_TTL_HOURS * HOUR then Some(id) else None
  {
    var t := InviteIn(s, org, id, email, role, plain, now).0;
    RolesAsSent(s);
    assert forall i :: Open(t.invitations, i, plain, later) ==> i == id;
    assert later < now + INVITATION_TTL_HOURS * HOUR ==> Open(t.invitations, id, plain, later);
  }

  lemma InviteGetsThrough(s: State, c: Call)
    requires c.Invite? && Exec(s, c).1 == Done
    ensures c.org == c.tokenOrg && Exec(s, c) == InviteIn(s, c.org, c.id, c.email, c.role, c.plain, c.now)
  {
  }

  lemma InvitedIsOpen(s: State, c: Call, later: int)
    requires Inv(s) && Possible(s, c) && c.Invite? && Exec(s, c).1 == Done
    ensures var t := Exec(s, c).0;
      && t.members == s.members && c.id in t.everInvitations && Sends(s, c, c.id, t.everInvitations[c.id])
      && c.id in t.invitations && t.invitations[c.id] == t.everInvitations[c.id]
      && FindOpen(t.invitations, c.plain, later)
         == if later < c.now + INVITATION_TTL_HOURS * HOUR then Some(c.id) else None
  {
    InviteGetsThrough(s, c);
    InvitingOpens(s, c.org, c.id, c.email, c.role, c.plain, c.now, later);
  }

  /** What the recipient of an invitation is answered: the checks in order, and a membership when all of them pass. */
  lemma InviteThenAccept(s: State, c: Call, row: nat, user: UserId, email: string, later: int)
    requires Inv(s) && Possible(s, c) && c.Invite? && Exec(s, c).1 == Done
    ensures var t := Exec(s, c).0; var (u, r) := AcceptIn(t, c.plain, row, user, email, later);
      && r == (if later >= c.now + INVITATION_TTL_HOURS * HOUR then NotFound
               else if Lower(c.email) != Lower(email) then EmailMismatch
               else if FindMember(s.members, c.org, user).Some? then Conflict
               else Done)
      && u.members == (if r == Done then s.members[row := Member(c.org, user, c.role)] else s.members)
  {
    InvitedIsOpen(s, c, later);
  }

  lemma SpentIsRefused(s: State, id: nat, plain: nat, now: int)
    requires InvitationsOk(s) && Spent(s, id) && s.everInvitations[id].hash == Sha256(plain)
    ensures FindOpen(s.invitations, plain, now).None?
  {
    RolesAsSent(s);
  }

  /** The token of an invitation that is spent is refused from then on. */
  lemma SpentForGood(ss: seq<State>, cs: seq<Call>, i: nat, j: nat, id: nat)
    requires Run(ss, cs) && i <= j < |cs| && IsAcceptance(cs[j])
    requires Spent(ss[i], id) && ss[i].everInvitations[id].hash == Sha256(cs[j].plain)
    ensures Exec(ss[j], cs[j]) == (ss[j], if cs[j].Accept? then NotFound else NotAccepted)
  {
    EveryStateInOrder(ss, cs, j);
    GrewAlong(ss, cs, i, j);
    SpentIsRefused(ss[j], id, cs[j].plain, cs[j].now);
  }

  /** A token that was accepted is refused ever after, whichever of the two ways it is presented in. */
  lemma InvitationWorksOnce(ss: seq<State>, cs: seq<Call>, i: nat, j: nat)
    requires Run(ss, cs) && i < j < |cs| && IsAcceptance(cs[i]) && IsAcceptance(cs[j]) && cs[i].plain == cs[j].plain
    requires Exec(ss[i], cs[i]).1 == Done
    ensures Exec(ss[j], cs[j]) == (ss[j], if cs[j].Accept? then NotFound else NotAccepted)
  {
    assert Follows(ss[i], cs[i], ss[i + 1]);
    EveryStateInOrder(ss, cs, i);
    var id := AcceptanceJoins(ss[i], cs[i]);
    GrewAlong(ss, cs, i, i + 1);
    SpentForGood(ss, cs, i + 1, j, id);
  }

  lemma RevocationSpends(s: State, c: Call)
    requires InvitationsOk(s) && c.Revoke? && Exec(s, c).1 == Done
    ensures c.id in s.invitations && Spent(Exec(s, c).0, c.id)
    ensures Exec(s, c).0.everInvitations[c.id].hash == s.invitations[c.id].hash
  {
    assert c.id in s.invitations ==> InvitationOk(s, c.id);
  }

  /** A revoked invitation is never accepted afterwards. */
  lemma RevokedForGood(ss: seq<State>, cs: seq<Call>, i: nat, j: nat)
    requires Run(ss, cs) && i < j < |cs| && cs[i].Revoke? && Exec(ss[i], cs[i]).1 == Done
    requires IsAcceptance(cs[j]) && Sha256(cs[j].plain) == ss[i].invitations[cs[i].id].hash
    ensures Exec(ss[j], cs[j]) == (ss[j], if cs[j].Accept? then NotFound else NotAccepted)
  {
    assert Follows(ss[i], cs[i], ss[i + 1]);
    EveryStateInOrder(ss, cs, i);
    RevocationSpends(ss[i], cs[i]);
    SpentForGood(ss, cs, i + 1, j, cs[i].id);
  }

  /** No invitation gives rise to two memberships. */
  lemma JoinedOncePerInvitation(ss: seq<State>, cs: seq<Call>, j: nat, k: nat, l: nat)
    requires Run(ss, cs) && j < |ss| && k < l < |ss[j].joined|
    ensures ss[j].joined[k].invitation != ss[j].joined[l].invitation
  {
    EveryStateInOrder(ss, cs, j);
  }

  // ---- where memberships come from ----

  /** The call makes the user a member: the creator of a new organization, or by an acceptance. */
  ghost predicate Admits(s: State, c: Call, row: nat, user: UserId) {
    Exec(s, c).1 == Done && (c.CreateOrg? || IsAcceptance(c)) && c.row == row && c.user == user
  }

  lemma GuardedAdmitsNobody(s: State, c: Call, callerRow: nat, row: nat)
    requires IsGuarded(c) && callerRow in s.members && row in ExecGuarded(s, c, callerRow).0.members
    ensures row in s.members
    ensures var m := ExecGuarded(s, c, callerRow).0.members[row];
      m.org == s.members[row].org && m.user == s.members[row].user
  {
  }

  lemma RowComesFrom(s: State, c: Call, row: nat)
    requires Possible(s, c) && row in Exec(s, c).0.members
    ensures var m := Exec(s, c).0.members[row];
      if row in s.members then m.org == s.members[row].org && m.user == s.members[row].user
      else Admits(s, c, row, m.user) && (c.CreateOrg? ==> c.org == m.org)
  {
    if IsGuarded(c) {
      var guard := Guard(s, c.caller, c.tokenOrg, MinimumRole(c));
      if guard.Success? {
        GuardedAdmitsNobody(s, c, guard.value, row);
      }
    }
  }

  /** The k-th call made the user a member of the organization, as its creator or as an earlier call had invited. */
  ghost predicate AdmittedAt(ss: seq<State>, cs: seq<Call>, k: nat, row: nat, org: OrgId, user: UserId)
    requires k < |cs| < |ss|
  {
    && Admits(ss[k], cs[k], row, user)
    && if cs[k].CreateOrg? then cs[k].org == org
       else exists m :: 0 <= m < k && IsAcceptance(cs[k])
                      && JoinsAsSent(ss[k], cs[m], cs[k], ss[k + 1]) && cs[m].org == org
  }

  lemma AdmittedByStep(ss: seq<State>, cs: seq<Call>, k: nat, row: nat)
    requires Run(ss, cs) && k < |cs| && row !in ss[k].members && row in ss[k + 1].members
    ensures AdmittedAt(ss, cs, k, row, ss[k + 1].members[row].org, ss[k + 1].members[row].user)
  {
    assert Follows(ss[k], cs[k], ss[k + 1]);
    RowComesFrom(ss[k], cs[k], row);
    if IsAcceptance(cs[k]) {
      AcceptedAsSent(ss, cs, k);
    }
  }

  /** Every member there is created the organization, or was invited to it by an earlier call and accepted. */
  lemma {:induction false} MembershipBecause(ss: seq<State>, cs: seq<Call>, j: nat, row: nat)
    requires Run(ss, cs) && j < |ss| && row in ss[j].members
    ensures exists k :: 0 <= k < j && AdmittedAt(ss, cs, k, row, ss[j].members[row].org, ss[j].members[row].user)
  {
    assert j > 0;
    assert Follows(ss[j - 1], cs[j - 1], ss[j]);
    if row in ss[j - 1].members {
      MembershipBecause(ss, cs, j - 1, row);
      RowComesFrom(ss[j - 1], cs[j - 1], row);
    } else {
      AdmittedByStep(ss, cs, j - 1, row);
    }
  }

  // ---- who may change a membership ----

  /** The caller's rank in the member's organization allows this change of the member's row. */
  predicate MayChange(c: Call, m: Member, rank: nat) {
    match c
    case UpdateMember(_, _, _, target, role) => target == m.user && Rank(Manager) <= rank && Rank(role) < rank
    case RemoveMember(_, _, _, target) => target == m.user && Rank(Manager) <= rank && m.role != Owner
    case TransferOwnership(caller, _, newOwner) => rank == Rank(Owner) && (m.user == newOwner || m.user == caller)
    case DeleteOrg(_, _, _, _) => rank == Rank(Owner)
    case _ => false
  }

  /** What becomes of the member's row: the role that was asked for, the role that a transfer gives, or nothing. */
  predicate BecomesAsAsked(c: Call, m: Member, later: map<nat, Member>, row: nat) {
    match c
    case UpdateMember(_, _, _, _, role) => row in later && later[row] == m.(role := role)
    case TransferOwnership(_, _, newOwner) =>
      row in later && later[row] == m.(role := if m.user == newOwner then Owner else Admin)
    case _ => row !in later
  }

  /** The row is still as given, and the call is one that may change it, from within the member's own organization. */
  ghost predicate ChangesRow(s: State, c: Call, row: nat, m: Member) {
    && row in s.members && s.members[row] == m
    && IsGuarded(c) && c.tokenOrg == m.org && BecomesAsAsked(c, m, Exec(s, c).0.members, row)
    && var caller := FindMember(s.members, m.org, c.caller);
       caller.Some? && MayChange(c, m, Rank(s.members[caller.value].role))
  }

  ghost predicate StaysSame(members: map<nat, Member>, later: map<nat, Member>, row: nat)
    requires row in members
  {
    row in later && later[row] == members[row]
  }

  lemma MemberCallMayChange(s: State, c: Call, callerRow: nat, row: nat)
    requires row in s.members && IsMemberCall(c) && callerRow in s.members
    requires FindMember(s.members, c.tokenOrg, c.caller) == Some(callerRow)
    requires Rank(s.members[callerRow].role) >= Rank(MinimumRole(c))
    requires !StaysSame(s.members, ExecGuarded(s, c, callerRow).0.members, row)
    ensures c.tokenOrg == s.members[row].org && MayChange(c, s.members[row], Rank(s.members[callerRow].role))
    ensures BecomesAsAsked(c, s.members[row], ExecGuarded(s, c, callerRow).0.members, row)
  {
  }

  lemma OtherCallMayChange(s: State, c: Call, callerRow: nat, row: nat)
    requires row in s.members && IsGuarded(c) && !IsMemberCall(c) && callerRow in s.members
    requires Rank(s.members[callerRow].role) >= Rank(MinimumRole(c))
    requires !StaysSame(s.members, ExecGuarded(s, c, callerRow).0.members, row)
    ensures c.tokenOrg == s.members[row].org && MayChange(c, s.members[row], Rank(s.members[callerRow].role))
    ensures BecomesAsAsked(c, s.members[row], ExecGuarded(s, c, callerRow).0.members, row)
  {
  }

  lemma StepChangesRow(s: State, c: Call, row: nat)
    requires Possible(s, c) && row in s.members && !StaysSame(s.members, Exec(s, c).0.members, row)
    ensures ChangesRow(s, c, row, s.members[row])
  {
    if IsGuarded(c) {
      var guard := Guard(s, c.caller, c.tokenOrg, MinimumRole(c));
      assert guard.Success?;
      GuardFinds(s, c.caller, c.tokenOrg, MinimumRole(c));
      if IsMemberCall(c) {
        MemberCallMayChange(s, c, guard.value, row);
      } else {
        OtherCallMayChange(s, c, guard.value, row);
      }
    }
  }

  /**
   If a membership is not what it was, somebody in the same organization changed it first, with a rank that allowed
   it: a manager or above who set a role below his own or removed anyone but the owner, or the owner who handed
   ownership on or deleted the organization. The row then became what that call asked for.
   */
  lemma {:induction false} ChangedBecause(ss: seq<State>, cs: seq<Call>, i: nat, j: nat, row: nat)
    requires Run(ss, cs) && i <= j < |ss| && row in ss[i].members && !StaysSame(ss[i].members, ss[j].members, row)
    ensures exists k :: i <= k < j && ChangesRow(ss[k], cs[k], row, ss[i].members[row])
    decreases j - i
  {
    if StaysSame(ss[i].members, ss[j - 1].members, row) {
      assert Follows(ss[j - 1], cs[j - 1], ss[j]);
      StepChangesRow(ss[j - 1], cs[j - 1], row);
    } else {
      ChangedBecause(ss, cs, i, j - 1, row);
    }
  }
}
