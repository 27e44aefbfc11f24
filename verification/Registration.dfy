/** Where accounts and organizations meet: registration with an invitation, signed-in callers, and login. */
module Registration {
  import opened Outcomes
  import A = Accounts
  import O = Organizations

  datatype World = World(accounts: A.State, organizations: O.State)

  /** The address is looked up, the invitation is tried, and the account is verified if it was accepted. */
  ghost function RegisterIn(w: World, id: A.UserId, email: string, password: string, invite: Option<nat>, row: nat,
                            plain: nat, now: int): (World, A.Outcome)
  {
    if A.UserByEmail(w.accounts.users, email).Some? then (w, A.EmailTaken)
    else
      var (organizations, answer) := if invite.Some? then O.RegisterIn(w.organizations, invite.value, row, id, now)
                                     else (w.organizations, O.NotAccepted);
      var (accounts, outcome) := A.RegisterIn(w.accounts, id, email, password, answer == O.Done, plain, now);
      (World(accounts, organizations), outcome)
  }

  datatype Call =
    | Account(account: A.Call)
    | Organization(organization: O.Call)
    | Register(id: A.UserId, email: string, password: string, invite: Option<nat>, row: nat, plain: nat, now: int)

  /** Whether the registration's invitation is accepted. */
  ghost predicate Accepted(w: World, c: Call)
    requires c.Register?
  {
    && A.UserByEmail(w.accounts.users, c.email).None? && c.invite.Some?
    && O.RegisterIn(w.organizations, c.invite.value, c.row, c.id, c.now).1 == O.Done
  }

  /** What the call is to the accounts. */
  ghost function AccountPart(w: World, c: Call): A.Call {
    match c
    case Account(account) => account
    case Organization(_) => A.Read
    case Register(id, email, password, _, _, plain, now) => A.Register(id, email, password, Accepted(w, c), plain, now)
  }

  /** What the call is to the organizations. */
  ghost function OrganizationPart(w: World, c: Call): O.Call {
    match c
    case Account(_) => O.Read
    case Organization(organization) => organization
    case Register(id, email, _, invite, row, _, now) =>
      if A.UserByEmail(w.accounts.users, email).None? && invite.Some? then O.RegisterWith(invite.value, row, id, now)
      else O.Read
  }

  /** `get_current_user`: whoever calls has an active account, and accepts invitations under its address. */
  predicate SignedIn(w: World, o: O.Call) {
    match o
    case CreateOrg(_, _, user, _) => A.IsActive(w.accounts.users, user)
    case Accept(_, _, user, email, _) =>
      A.IsActive(w.accounts.users, user) && w.accounts.users[user].email == email
    case RegisterWith(_, _, _, _) => true
    case Read => true
    case _ => A.IsActive(w.accounts.users, o.caller)
  }

  predicate MemberIn(s: O.State, row: nat, u: A.UserId, m: A.Membership) {
    && O.IsMember(s.members, row, m.org, u) && m.role == O.RoleName(s.members[row].role)
    && m.org in s.orgs && s.orgs[m.org].active
  }

  /** `_get_user_memberships`: the user's memberships in active organizations, in some order, each of them once. */
  ghost predicate Lists(s: O.State, u: A.UserId, memberships: seq<A.Membership>) {
    && (forall m :: m in memberships <==> exists row :: MemberIn(s, row, u, m))
    && (forall i, j :: 0 <= i < j < |memberships| ==> memberships[i].org != memberships[j].org)
  }

  ghost predicate LoginListed(w: World, a: A.Call) {
    a.Login? && A.UserByEmail(w.accounts.users, a.email).Some? ==>
      Lists(w.organizations, A.UserByEmail(w.accounts.users, a.email).value, a.memberships)
  }

  /** Registrations take the one path, organizations are called by signed-in users, and logins see the members table. */
  ghost predicate Possible(w: World, c: Call) {
    && (c.Account? ==> !c.account.Register? && LoginListed(w, c.account))
    && (c.Organization? ==> !c.organization.RegisterWith? && SignedIn(w, c.organization))
    && A.Possible(w.accounts, AccountPart(w, c)) && O.Possible(w.organizations, OrganizationPart(w, c))
  }

  ghost function Exec(w: World, c: Call): World
    requires Possible(w, c)
  {
    match c
    case Account(account) => w.(accounts := A.Exec(w.accounts, account).0)
    case Organization(organization) => w.(organizations := O.Exec(w.organizations, organization).0)
    case Register(id, email, password, invite, row, plain, now) =>
      RegisterIn(w, id, email, password, invite, row, plain, now).0
  }

  /** A call does to either side what its part does there. */
  lemma ExecParts(w: World, c: Call)
    requires Possible(w, c)
    ensures Exec(w, c).accounts == A.Exec(w.accounts, AccountPart(w, c)).0
    ensures Exec(w, c).organizations == O.Exec(w.organizations, OrganizationPart(w, c)).0
  {
  }

  // ---- login ----

  /** Password, active account and verified address are in order. */
  ghost predicate MayLogIn(w: World, a: A.Call)
    requires a.Login?
  {
    var id := A.UserByEmail(w.accounts.users, a.email);
    && id.Some?
    && var user := w.accounts.users[id.value];
       user.password == Some(a.password) && user.active && user.verified
  }

  ghost predicate BelongsTo(s: O.State, u: A.UserId, org: nat) {
    org in s.orgs && s.orgs[org].active && exists row :: O.IsMember(s.members, row, org, u)
  }

  ghost predicate InOneAtMost(s: O.State, u: A.UserId) {
    forall a, b :: BelongsTo(s, u, a) && BelongsTo(s, u, b) ==> a == b
  }

  lemma ListedIffBelongs(s: O.State, u: A.UserId, memberships: seq<A.Membership>, org: nat)
    requires Lists(s, u, memberships)
    ensures BelongsTo(s, u, org) <==> exists m :: m in memberships && m.org == org
  {
    if BelongsTo(s, u, org) {
      var row :| O.IsMember(s.members, row, org, u);
      assert MemberIn(s, row, u, A.Membership(org, O.RoleName(s.members[row].role)));
    }
  }

  lemma FewListedIff(s: O.State, u: A.UserId, memberships: seq<A.Membership>)
    requires Lists(s, u, memberships)
    ensures |memberships| <= 1 <==> InOneAtMost(s, u)
  {
    forall org
      ensures BelongsTo(s, u, org) <==> exists m :: m in memberships && m.org == org
    {
      ListedIffBelongs(s, u, memberships, org);
    }
    if |memberships| > 1 {
      var a, b := memberships[0], memberships[1];
      assert a in memberships && b in memberships && a.org != b.org;
      assert BelongsTo(s, u, a.org) && BelongsTo(s, u, b.org);
    } else {
      forall a, b | BelongsTo(s, u, a) && BelongsTo(s, u, b)
        ensures a == b
      {
        var m :| m in memberships && m.org == a;
        var n :| n in memberships && n.org == b;
      }
    }
  }

  /**
   Who may log in gets a token exactly if the organization asked for is an active one with that user as a member, or,
   when none is asked for, if there is at most one such organization; with several the user is asked to pick.
   */
  lemma LoginIff(w: World, a: A.Call)
    requires a.Login? && Possible(w, Account(a))
    ensures var u, r := A.UserByEmail(w.accounts.users, a.email), A.Exec(w.accounts, a).1;
      && (r.TokenPair? <==>
            && MayLogIn(w, a)
            && if a.wanted.Some? then BelongsTo(w.organizations, u.value, a.wanted.value)
               else InOneAtMost(w.organizations, u.value))
      && (r.PickOrganization? <==> MayLogIn(w, a) && a.wanted.None? && !InOneAtMost(w.organizations, u.value))
  {
    var u := A.UserByEmail(w.accounts.users, a.email);
    var user := if u.Some? then Some(w.accounts.users[u.value]) else None;
    A.GrantedIff(user, a.password, a.memberships, a.wanted);
    if u.Some? {
      FewListedIff(w.organizations, u.value, a.memberships);
      if a.wanted.Some? {
        ListedIffBelongs(w.organizations, u.value, a.memberships, a.wanted.value);
        A.FirstOfFinds(a.memberships, a.wanted.value);
      }
    }
  }
}
