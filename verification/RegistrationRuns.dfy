/**
 Which addresses a verified account has been proven to own, over whole runs of accounts and organizations together.
 */
module RegistrationRuns {
  import opened Outcomes
  import opened Basics
  import opened Registration
  import A = Accounts
  import AR = AccountRuns
  import O = Organizations
  import OR = OrganizationRuns
  import M = Memberships
  import S = Sessions

  // ---- one registration ----

  /** The open invitation that the registration presents, if any. */
  ghost function Presented(w: World, c: Call): Option<nat>
    requires c.Register?
  {
    if c.invite.Some? then O.FindOpen(w.organizations.invitations, c.invite.value, c.now) else None
  }

  ghost predicate JoinsByInvitation(w: World, c: Call, v: World)
    requires c.Register?
  {
    var i := Presented(w, c);
    && i.Some?
    && var inv := w.organizations.invitations[i.value];
       v.organizations.members == w.organizations.members[c.row := O.Member(inv.org, c.id, inv.role)]
  }

  /**
   An account is born verified exactly if the same call made it a member, with the invited role; otherwise nobody
   joins anything.
   */
  lemma BornVerifiedIff(w: World, c: Call)
    requires c.Register? && Possible(w, c) && A.UserByEmail(w.accounts.users, c.email).None?
    ensures var v := Exec(w, c);
      && c.id in v.accounts.users
      && (v.accounts.users[c.id].verified <==> JoinsByInvitation(w, c, v))
      && (!v.accounts.users[c.id].verified ==> v.organizations == w.organizations)
  {
  }

  // ---- runs ----

  ghost predicate Follows(w: World, c: Call, v: World) {
    Possible(w, c) && v == Exec(w, c)
  }

  ghost predicate Run(ws: seq<World>, cs: seq<Call>) {
    && |ws| == |cs| + 1 && ws[0] == World(A.State(map[], [], [], S.START), O.START)
    && forall k {:trigger cs[k]} :: 0 <= k < |cs| ==> Follows(ws[k], cs[k], ws[k + 1])
  }

  ghost function AccountStates(ws: seq<World>): seq<A.State> {
    seq(|ws|, i requires 0 <= i < |ws| => ws[i].accounts)
  }

  ghost function OrganizationStates(ws: seq<World>): seq<O.State> {
    seq(|ws|, i requires 0 <= i < |ws| => ws[i].organizations)
  }

  ghost function AccountCalls(ws: seq<World>, cs: seq<Call>): seq<A.Call>
    requires |cs| <= |ws|
  {
    seq(|cs|, i requires 0 <= i < |cs| => AccountPart(ws[i], cs[i]))
  }

  ghost function OrganizationCalls(ws: seq<World>, cs: seq<Call>): seq<O.Call>
    requires |cs| <= |ws|
  {
    seq(|cs|, i requires 0 <= i < |cs| => OrganizationPart(ws[i], cs[i]))
  }

  /** Seen from either side, a run is a run of that side. */
  lemma Projections(ws: seq<World>, cs: seq<Call>)
    requires Run(ws, cs)
    ensures AR.Run(AccountStates(ws), AccountCalls(ws, cs))
    ensures OR.Run(OrganizationStates(ws), OrganizationCalls(ws, cs))
  {
    forall k | 0 <= k < |cs|
      ensures AR.Follows(ws[k].accounts, AccountPart(ws[k], cs[k]), ws[k + 1].accounts)
      ensures OR.Follows(ws[k].organizations, OrganizationPart(ws[k], cs[k]), ws[k + 1].organizations)
    {
      assert Follows(ws[k], cs[k], ws[k + 1]);
      ExecParts(ws[k], cs[k]);
    }
  }

  lemma OrganizationsInOrder(ws: seq<World>, cs: seq<Call>, k: nat)
    requires Run(ws, cs) && k < |ws|
    ensures OR.Inv(ws[k].organizations)
  {
    Projections(ws, cs);
    OR.EveryStateInOrder(OrganizationStates(ws), OrganizationCalls(ws, cs), k);
  }

  lemma OrganizationsGrew(ws: seq<World>, cs: seq<Call>, i: nat, j: nat)
    requires Run(ws, cs) && i <= j < |ws|
    ensures OR.Grew(ws[i].organizations, ws[j].organizations)
  {
    Projections(ws, cs);
    OR.GrewAlong(OrganizationStates(ws), OrganizationCalls(ws, cs), i, j);
  }

  lemma InvitationSentBy(ws: seq<World>, cs: seq<Call>, k: nat, i: nat) returns (m: nat)
    requires Run(ws, cs) && k < |ws| && i in ws[k].organizations.everInvitations
    ensures m < k && m < |cs| && cs[m].Organization?
    ensures M.Sends(ws[m].organizations, cs[m].organization, i, ws[k].organizations.everInvitations[i])
  {
    var os, ocs := OrganizationStates(ws), OrganizationCalls(ws, cs);
    Projections(ws, cs);
    M.SentBy(os, ocs, k, i);
    m :| 0 <= m < k && M.Sends(os[m], ocs[m], i, os[k].everInvitations[i]);
    PartIsInvite(ws[m], cs[m]);
  }

  lemma PartIsInvite(w: World, c: Call)
    requires OrganizationPart(w, c).Invite?
    ensures c.Organization? && c.organization == OrganizationPart(w, c)
  {
  }

  lemma VerifiedStays(ws: seq<World>, cs: seq<Call>, i: nat, j: nat, u: A.UserId)
    requires Run(ws, cs) && i <= j < |ws| && IsVerified(ws[i], u)
    ensures IsVerified(ws[j], u)
  {
    Projections(ws, cs);
    AR.VerifiedForGood(AccountStates(ws), AccountCalls(ws, cs), i, j, u);
  }

  // ---- proof of an address ----

  predicate IsVerified(w: World, u: A.UserId) {
    AR.IsVerified(w.accounts, u)
  }

  /**
   The k-th call registers the user with a token that the m-th call had made out, less than 48 hours before, to that
   same address.
   */
  ghost predicate PresentsInvitation(ws: seq<World>, cs: seq<Call>, m: nat, k: nat, u: A.UserId)
    requires m < k < |cs| < |ws|
  {
    && cs[k].Register? && cs[k].id == u && cs[k].invite.Some?
    && cs[m].Organization? && cs[m].organization.Invite?
    && var sent := cs[m].organization;
       && O.Exec(ws[m].organizations, sent).1 == O.Done
       && sent.plain == cs[k].invite.value && Lower(sent.email) == Lower(cs[k].email)
       && cs[k].now < sent.now + O.INVITATION_TTL_HOURS * HOUR
  }

  /** The k-th call verifies the user by a token that an earlier call had made out to the user's own address. */
  ghost predicate ProvenAt(ws: seq<World>, cs: seq<Call>, k: nat, u: A.UserId)
    requires k < |cs| < |ws|
  {
    && !IsVerified(ws[k], u) && IsVerified(ws[k + 1], u)
    && exists m :: 0 <= m < k &&
         (AR.PresentsMailed(AccountStates(ws), AccountCalls(ws, cs), m, k, u) || PresentsInvitation(ws, cs, m, k, u))
  }

  ghost predicate AddressProven(ws: seq<World>, cs: seq<Call>, j: nat, u: A.UserId)
    requires j <= |cs| < |ws|
  {
    exists k :: 0 <= k < j && ProvenAt(ws, cs, k, u)
  }

  /** The registration presents an open invitation that was sent to another address, and nothing stands in its way. */
  ghost predicate Misdirected(w: World, c: Call, u: A.UserId) {
    && c.Register? && c.id == u && A.UserByEmail(w.accounts.users, c.email).None?
    && var i := Presented(w, c);
       && i.Some?
       && var inv := w.organizations.invitations[i.value];
          O.FindMember(w.organizations.members, inv.org, u).None? && Lower(inv.email) != Lower(c.email)
  }

  ghost predicate NoneMisdirected(ws: seq<World>, cs: seq<Call>, j: nat, u: A.UserId)
    requires j <= |cs| < |ws|
  {
    forall k {:trigger Misdirected(ws[k], cs[k], u)} :: 0 <= k < j ==> !Misdirected(ws[k], cs[k], u)
  }

  lemma MisdirectedVerifies(w: World, c: Call, u: A.UserId)
    requires Possible(w, c) && Misdirected(w, c, u)
    ensures !IsVerified(w, u) && IsVerified(Exec(w, c), u)
  {
  }

  /** A user becomes verified at one point of a run only. */
  lemma VerifiedAtOnePoint(ws: seq<World>, cs: seq<Call>, k: nat, l: nat, u: A.UserId)
    requires Run(ws, cs) && k < |cs| && l < |cs|
    requires !IsVerified(ws[k], u) && IsVerified(ws[k + 1], u) && !IsVerified(ws[l], u) && IsVerified(ws[l + 1], u)
    ensures k == l
  {
    if k < l {
      VerifiedStays(ws, cs, k + 1, l, u);
    } else if l < k {
      VerifiedStays(ws, cs, l + 1, k, u);
    }
  }

  lemma SentIsRecorded(ws: seq<World>, cs: seq<Call>, m: nat)
    requires Run(ws, cs) && m < |cs| && cs[m].Organization? && cs[m].organization.Invite?
    requires O.Exec(ws[m].organizations, cs[m].organization).1 == O.Done
    ensures var sent, s := cs[m].organization, ws[m + 1].organizations;
      && sent.id in s.everInvitations && s.everInvitations[sent.id].hash == Sha256(sent.plain)
      && s.everInvitations[sent.id].email == sent.email
  {
    assert Follows(ws[m], cs[m], ws[m + 1]);
    OrganizationsInOrder(ws, cs, m);
    SendingRecords(ws[m].organizations, cs[m].organization);
  }

  lemma SendingRecords(s: O.State, c: O.Call)
    requires OR.Inv(s) && O.Possible(s, c) && c.Invite? && O.Exec(s, c).1 == O.Done
    ensures var t := O.Exec(s, c).0;
      c.id in t.everInvitations && t.everInvitations[c.id].hash == Sha256(c.plain)
      && t.everInvitations[c.id].email == c.email
  {
    M.InvitedIsOpen(s, c, 0);
  }

  /** What an earlier call sent under a token is what the open invitation with that token says. */
  lemma SentIsPresented(ws: seq<World>, cs: seq<Call>, m: nat, k: nat, i: nat, plain: nat, now: int)
    requires Run(ws, cs) && m < k < |cs| && cs[m].Organization? && cs[m].organization.Invite?
    requires cs[m].organization.plain == plain
    requires O.Exec(ws[m].organizations, cs[m].organization).1 == O.Done
    requires O.FindOpen(ws[k].organizations.invitations, plain, now) == Some(i)
    ensures ws[k].organizations.invitations[i].email == cs[m].organization.email
  {
    SentIsRecorded(ws, cs, m);
    OrganizationsInOrder(ws, cs, k);
    OrganizationsGrew(ws, cs, m + 1, k);
    SameInvitation(ws[k].organizations, cs[m].organization.id, i, plain, now);
  }

  lemma SameInvitation(s: O.State, id: nat, i: nat, plain: nat, now: int)
    requires OR.InvitationsOk(s) && id in s.everInvitations && s.everInvitations[id].hash == Sha256(plain)
    requires O.FindOpen(s.invitations, plain, now) == Some(i)
    ensures s.invitations[i].email == s.everInvitations[id].email
  {
    assert OR.InvitationOk(s, i);
  }

  lemma MisdirectedPresentsNothing(ws: seq<World>, cs: seq<Call>, m: nat, k: nat, u: A.UserId)
    requires Run(ws, cs) && m < k < |cs| && Misdirected(ws[k], cs[k], u)
    ensures !AR.PresentsMailed(AccountStates(ws), AccountCalls(ws, cs), m, k, u) && !PresentsInvitation(ws, cs, m, k, u)
  {
    if PresentsInvitation(ws, cs, m, k, u) {
      SentIsPresented(ws, cs, m, k, Presented(ws[k], cs[k]).value, cs[k].invite.value, cs[k].now);
    }
  }

  lemma MisdirectedIsNotProven(ws: seq<World>, cs: seq<Call>, l: nat, u: A.UserId)
    requires Run(ws, cs) && l < |cs| && Misdirected(ws[l], cs[l], u)
    ensures !AddressProven(ws, cs, |cs|, u)
  {
    assert Follows(ws[l], cs[l], ws[l + 1]);
    MisdirectedVerifies(ws[l], cs[l], u);
    if k :| 0 <= k < |cs| && ProvenAt(ws, cs, k, u) {
      VerifiedAtOnePoint(ws, cs, k, l, u);
      var m :| 0 <= m < k &&
        (AR.PresentsMailed(AccountStates(ws), AccountCalls(ws, cs), m, k, u) || PresentsInvitation(ws, cs, m, k, u));
      MisdirectedPresentsNothing(ws, cs, m, k, u);
    }
  }

  /**
   A registration that is accepted, and not with somebody else's invitation, presents what was made out to its address.
   */
  lemma AcceptedIsProven(ws: seq<World>, cs: seq<Call>, k: nat, u: A.UserId) returns (m: nat)
    requires Run(ws, cs) && k < |cs| && cs[k].Register? && cs[k].id == u && Accepted(ws[k], cs[k])
    requires !Misdirected(ws[k], cs[k], u)
    ensures m < k && PresentsInvitation(ws, cs, m, k, u)
  {
    OrganizationsInOrder(ws, cs, k);
    var i := PresentedIsStored(ws[k], cs[k]);
    m := InvitationSentBy(ws, cs, k, i);
  }

  lemma PresentedIsStored(w: World, c: Call) returns (i: nat)
    requires c.Register? && Accepted(w, c) && !Misdirected(w, c, c.id) && OR.InvitationsOk(w.organizations)
    ensures Presented(w, c) == Some(i) && i in w.organizations.everInvitations
    ensures var inv := w.organizations.everInvitations[i];
      inv.hash == Sha256(c.invite.value) && inv.expires > c.now && Lower(inv.email) == Lower(c.email)
  {
    i := Presented(w, c).value;
    assert OR.InvitationOk(w.organizations, i);
  }

  lemma VerifiedIsProven(ws: seq<World>, cs: seq<Call>, j: nat, u: A.UserId)
    requires Run(ws, cs) && j < |ws| && IsVerified(ws[j], u) && NoneMisdirected(ws, cs, j, u)
    ensures AddressProven(ws, cs, j, u)
  {
    var accounts, calls := AccountStates(ws), AccountCalls(ws, cs);
    Projections(ws, cs);
    AR.VerifiedBecause(accounts, calls, j, u);
    var k :| 0 <= k < j && AR.VerifiedAt(accounts, calls, k, u);
    assert Follows(ws[k], cs[k], ws[k + 1]);
    if calls[k].Register? {
      assert !Misdirected(ws[k], cs[k], u);
      var m := AcceptedIsProven(ws, cs, k, u);
    }
    assert ProvenAt(ws, cs, k, u);
  }

  /**
   A verified account has presented a token that was made out to its own address, less than a day before (or two days,
   for an invitation), exactly if it was not registered with an invitation sent to another address: that path compares
   no addresses.
   */
  lemma AddressProvenIff(ws: seq<World>, cs: seq<Call>, j: nat, u: A.UserId)
    requires Run(ws, cs) && j < |ws| && IsVerified(ws[j], u)
    ensures AddressProven(ws, cs, j, u) <==> NoneMisdirected(ws, cs, j, u)
  {
    if NoneMisdirected(ws, cs, j, u) {
      VerifiedIsProven(ws, cs, j, u);
    } else {
      var l :| 0 <= l < j && Misdirected(ws[l], cs[l], u);
      MisdirectedIsNotProven(ws, cs, l, u);
    }
  }

  // ---- it does happen ----

  const OLGA: A.UserId := 7
  const BOB: A.UserId := 1
  const OLGAS_MAIL := "olga@acme.org"
  const BOBS_MAIL := "bob@b.org"
  const OLGAS_TOKEN := A.OneTime(OLGA, Sha256(3), 24 * HOUR, None)
  const OLGA_NEW := A.User(OLGAS_MAIL, Some("Secret123"), false, true)
  const OLGA_OK := OLGA_NEW.(verified := true)
  const ACME := O.State(map[0 := O.Org("acme", true)], map[0 := O.Member(0, OLGA, O.Owner)], map[], [], {0}, map[])
  const ANNS := O.Invitation(0, "ann@a.org", O.Viewer, Sha256(5), 4 + 48 * HOUR, None)
  const ANN_INVITED := ACME.(invitations := map[0 := ANNS], everInvitations := map[0 := ANNS])

  const OLGA_REGISTERS := Register(OLGA, OLGAS_MAIL, "Secret123", None, 0, 3, 0)
  const OLGA_VERIFIES := Account(A.VerifyEmail(3, 1))
  const OLGA_LOGS_IN := Account(A.Login(OLGAS_MAIL, "Secret123", [], None, 100, 2))
  const OLGA_CREATES := Organization(O.CreateOrg(0, 0, OLGA, "acme"))
  const OLGA_RETURNS := Account(A.Login(OLGAS_MAIL, "Secret123", [A.Membership(0, "owner")], None, 101, 3))
  const OLGA_INVITES_ANN := Organization(O.Invite(OLGA, 0, 0, 0, "ann@a.org", O.Viewer, 5, 4))
  const BOB_REGISTERS := Register(BOB, BOBS_MAIL, "Secret456", Some(5), 1, 9, 5)

  /** Olga is the only user, with these sessions begun so far. */
  predicate OnlyOlga(w: World, olga: A.User, token: A.OneTime, sessions: set<S.SessionId>, organizations: O.State) {
    && w.accounts.users == map[OLGA := olga] && w.accounts.verifications == [token] && w.accounts.resets == []
    && w.accounts.sessions.processes == map[] && w.accounts.sessions.chainOf.Keys == sessions
    && w.organizations == organizations
  }

  /** The address is verified, and the invitation has not been used. */
  predicate OlgaIsIn(w: World, sessions: set<S.SessionId>, organizations: O.State) {
    OnlyOlga(w, OLGA_OK, OLGAS_TOKEN.(used := Some(1)), sessions, organizations)
  }

  lemma OlgaRegisters(w: World)
    requires w == World(A.State(map[], [], [], S.START), O.START)
    ensures Possible(w, OLGA_REGISTERS) && OnlyOlga(Exec(w, OLGA_REGISTERS), OLGA_NEW, OLGAS_TOKEN, {}, O.START)
  {
  }

  lemma OlgaVerifies(w: World)
    requires OnlyOlga(w, OLGA_NEW, OLGAS_TOKEN, {}, O.START)
    ensures Possible(w, OLGA_VERIFIES) && OlgaIsIn(Exec(w, OLGA_VERIFIES), {}, O.START)
  {
    assert A.Unused(w.accounts.verifications, 0, 3);
  }

  lemma OlgaIsFound(w: World, sessions: set<S.SessionId>, organizations: O.State)
    requires OlgaIsIn(w, sessions, organizations)
    ensures A.UserByEmail(w.accounts.users, OLGAS_MAIL) == Some(OLGA)
  {
    assert A.HasEmail(w.accounts.users, OLGA, OLGAS_MAIL);
  }

  lemma OlgaLogsIn(w: World, c: Call, sessions: set<S.SessionId>, organizations: O.State)
    requires OlgaIsIn(w, sessions, organizations) && c.Account? && c.account.Login? && c.account.email == OLGAS_MAIL
    requires c.account.password == "Secret123" && c.account.wanted.None? && |c.account.memberships| <= 1
    requires c.account.session !in sessions && Lists(organizations, OLGA, c.account.memberships)
    ensures Possible(w, c) && OlgaIsIn(Exec(w, c), sessions + {c.account.session}, organizations)
  {
    OlgaIsFound(w, sessions, organizations);
  }

  lemma NothingToList()
    ensures Lists(O.START, OLGA, [])
  {
  }

  lemma AcmeIsListed()
    ensures Lists(ACME, OLGA, [A.Membership(0, "owner")])
  {
    var listed := [A.Membership(0, "owner")];
    assert MemberIn(ACME, 0, OLGA, listed[0]);
    assert forall row, m :: MemberIn(ACME, row, OLGA, m) ==> row == 0 && m == listed[0];
  }

  lemma OlgaCreates(w: World)
    requires OlgaIsIn(w, {100}, O.START)
    ensures Possible(w, OLGA_CREATES) && OlgaIsIn(Exec(w, OLGA_CREATES), {100}, ACME)
  {
    var t := O.CreateIn(O.START, 0, 0, OLGA, "acme").0;
    assert t.orgs == ACME.orgs && t.members == ACME.members && t.everOrgs == ACME.everOrgs;
  }

  lemma OlgaMayInvite()
    ensures O.Guard(ACME, OLGA, 0, O.Manager) == Success(0)
  {
    assert O.IsMember(ACME.members, 0, 0, OLGA);
    assert O.FindMember(ACME.members, 0, OLGA) == Some(0);
  }

  lemma AnnIsInvited()
    ensures O.Exec(ACME, OLGA_INVITES_ANN.organization) == (ANN_INVITED, O.Done)
  {
    OlgaMayInvite();
    var invite := OLGA_INVITES_ANN.organization;
    assert O.MinimumRole(invite) == O.Manager && O.SchemaAccepts(invite);
  }

  lemma OlgaInvitesAnn(w: World)
    requires OlgaIsIn(w, {100, 101}, ACME)
    ensures Possible(w, OLGA_INVITES_ANN) && OlgaIsIn(Exec(w, OLGA_INVITES_ANN), {100, 101}, ANN_INVITED)
  {
    AnnIsInvited();
  }

  lemma BobIsUnknown(w: World)
    requires OlgaIsIn(w, {100, 101}, ANN_INVITED)
    ensures A.UserByEmail(w.accounts.users, BOBS_MAIL).None?
  {
    assert Lower(BOBS_MAIL)[0] == 'b' && Lower(OLGAS_MAIL)[0] == 'o';
  }

  lemma BobPresentsAnns(w: World)
    requires OlgaIsIn(w, {100, 101}, ANN_INVITED)
    ensures Possible(w, BOB_REGISTERS) && Misdirected(w, BOB_REGISTERS, BOB) && Accepted(w, BOB_REGISTERS)
  {
    BobIsUnknown(w);
    assert O.Open(ANN_INVITED.invitations, 0, 5, 5);
    assert Presented(w, BOB_REGISTERS) == Some(0);
    assert O.FindMember(ANN_INVITED.members, 0, BOB).None?;
    assert Lower("ann@a.org")[0] == 'a' && Lower(BOBS_MAIL)[0] == 'b';
  }

  lemma RunGoesOn(ws: seq<World>, cs: seq<Call>, c: Call)
    requires Run(ws, cs) && Possible(ws[|cs|], c)
    ensures Run(ws + [Exec(ws[|cs|], c)], cs + [c])
  {
    var longer, calls := ws + [Exec(ws[|cs|], c)], cs + [c];
    forall k {:trigger calls[k]} | 0 <= k < |calls|
      ensures Follows(longer[k], calls[k], longer[k + 1])
    {
      assert k < |cs| ==> calls[k] == cs[k];
    }
  }

  /** The calls lead from the empty world to this one. */
  ghost predicate LeadTo(cs: seq<Call>, w: World) {
    exists ws :: Run(ws, cs) && ws[|cs|] == w
  }

  lemma LeadFurther(cs: seq<Call>, w: World, c: Call, calls: seq<Call>)
    requires LeadTo(cs, w) && Possible(w, c) && calls == cs + [c]
    ensures LeadTo(calls, Exec(w, c))
  {
    var ws :| Run(ws, cs) && ws[|cs|] == w;
    RunGoesOn(ws, cs, c);
    assert (ws + [Exec(w, c)])[|calls|] == Exec(w, c);
  }

  lemma ActOne() returns (w: World)
    ensures LeadTo([OLGA_REGISTERS], w) && OnlyOlga(w, OLGA_NEW, OLGAS_TOKEN, {}, O.START)
  {
    var nobody := World(A.State(map[], [], [], S.START), O.START);
    assert Run([nobody], []);
    OlgaRegisters(nobody);
    LeadFurther([], nobody, OLGA_REGISTERS, [OLGA_REGISTERS]);
    w := Exec(nobody, OLGA_REGISTERS);
  }

  const SIGN_UP := [OLGA_REGISTERS, OLGA_VERIFIES]

  lemma ActTwo() returns (w: World)
    ensures LeadTo(SIGN_UP, w) && OlgaIsIn(w, {}, O.START)
  {
    var before := ActOne();
    OlgaVerifies(before);
    LeadFurther([OLGA_REGISTERS], before, OLGA_VERIFIES, SIGN_UP);
    w := Exec(before, OLGA_VERIFIES);
  }

  const LOG_IN := SIGN_UP + [OLGA_LOGS_IN]

  lemma ActThree() returns (w: World)
    ensures LeadTo(LOG_IN, w) && OlgaIsIn(w, {100}, O.START)
  {
    var before := ActTwo();
    NothingToList();
    OlgaLogsIn(before, OLGA_LOGS_IN, {}, O.START);
    LeadFurther(SIGN_UP, before, OLGA_LOGS_IN, LOG_IN);
    w := Exec(before, OLGA_LOGS_IN);
  }

  const CREATE := LOG_IN + [OLGA_CREATES]

  lemma ActFour() returns (w: World)
    ensures LeadTo(CREATE, w) && OlgaIsIn(w, {100}, ACME)
  {
    var before := ActThree();
    OlgaCreates(before);
    LeadFurther(LOG_IN, before, OLGA_CREATES, CREATE);
    w := Exec(before, OLGA_CREATES);
  }

  const RETURN := CREATE + [OLGA_RETURNS]

  lemma ActFive() returns (w: World)
    ensures LeadTo(RETURN, w) && OlgaIsIn(w, {100, 101}, ACME)
  {
    var before := ActFour();
    AcmeIsListed();
    OlgaLogsIn(before, OLGA_RETURNS, {100}, ACME);
    LeadFurther(CREATE, before, OLGA_RETURNS, RETURN);
    w := Exec(before, OLGA_RETURNS);
  }

  const INVITE := RETURN + [OLGA_INVITES_ANN]

  lemma ActSix() returns (w: World)
    ensures LeadTo(INVITE, w) && OlgaIsIn(w, {100, 101}, ANN_INVITED)
  {
    var before := ActFive();
    OlgaInvitesAnn(before);
    LeadFurther(RETURN, before, OLGA_INVITES_ANN, INVITE);
    w := Exec(before, OLGA_INVITES_ANN);
  }

  const STORY := INVITE + [BOB_REGISTERS]

  lemma StoryRuns() returns (ws: seq<World>)
    ensures |STORY| == 7 && Run(ws, STORY) && OlgaIsIn(ws[6], {100, 101}, ANN_INVITED)
  {
    var w := ActSix();
    ws :| Run(ws, INVITE) && ws[6] == w;
    BobPresentsAnns(w);
    RunGoesOn(ws, INVITE, BOB_REGISTERS);
    ws := ws + [Exec(w, BOB_REGISTERS)];
  }

  /** The call makes out a token to the address. */
  ghost predicate MakesOutTo(w: World, c: Call, email: string) {
    match c
    case Account(a) => (a.ResendVerification? || a.ForgotPassword?) && Lower(a.email) == Lower(email)
    case Organization(o) => o.Invite? && Lower(o.email) == Lower(email)
    case Register(_, address, _, _, _, _, _) => !Accepted(w, c) && Lower(address) == Lower(email)
  }

  lemma NotToBob(w: World, c: Call)
    requires c in INVITE
    ensures !MakesOutTo(w, c, BOBS_MAIL)
  {
    assert Lower(OLGAS_MAIL)[0] == 'o' && Lower("ann@a.org")[0] == 'a' && Lower(BOBS_MAIL)[0] == 'b';
  }

  lemma BobIsVerified(ws: seq<World>, cs: seq<Call>)
    requires Run(ws, cs) && |cs| == 7 && Misdirected(ws[6], cs[6], BOB)
    ensures IsVerified(ws[7], BOB) && !AddressProven(ws, cs, 7, BOB)
  {
    assert Follows(ws[6], cs[6], ws[7]);
    MisdirectedVerifies(ws[6], cs[6], BOB);
    MisdirectedIsNotProven(ws, cs, 6, BOB);
  }

  /**
   Olga opens an account and an organization and invites Ann; Bob registers with Ann's invitation. His address counts as
   verified, and no call of the whole run made out a token to it.
   */
  lemma UnprovenAddress() returns (ws: seq<World>)
    ensures Run(ws, STORY) && |STORY| == 7 && IsVerified(ws[7], BOB) && !AddressProven(ws, STORY, 7, BOB)
    ensures forall k :: 0 <= k < 7 ==> !MakesOutTo(ws[k], STORY[k], BOBS_MAIL)
  {
    ws := StoryRuns();
    BobPresentsAnns(ws[6]);
    BobIsVerified(ws, STORY);
    forall k | 0 <= k < 7
      ensures !MakesOutTo(ws[k], STORY[k], BOBS_MAIL)
    {
      if k < 6 {
        NotToBob(ws[k], STORY[k]);
      }
    }
  }
}
