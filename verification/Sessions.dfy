/**
 Refresh-token rotation as a protocol of small steps.

 A refresh takes the session key out of Redis (one atomic GETDEL), signs a token for a new session, and stores the new
 key; a login signs and stores. Between these steps other requests run. `State` also records what happened: which
 tokens were ever signed, which were honoured, and from which login each session descends.
 */
module Sessions {
  type UserId = nat

  type SessionId = nat

  datatype RefreshToken = RefreshToken(user: UserId, session: SessionId, issuedAt: int)

  /** SHA-256, taken to be injective. */
  datatype Hash = Sha256(token: RefreshToken)

  datatype Key = Key(user: UserId, session: SessionId)

  function KeyOf(t: RefreshToken): Key {
    Key(t.user, t.session)
  }

  /** A request between two of its steps: it took a key away, or it signed a token that is not stored yet. */
  datatype Process = Claimed(user: UserId, chain: SessionId) | Signed(token: RefreshToken, chain: SessionId)

  function UserOf(p: Process): UserId {
    if p.Claimed? then p.user else p.token.user
  }

  /** A chain is named by the session its login started. */
  datatype State = State(redis: map<Key, Hash>, processes: map<nat, Process>,
                         issued: set<RefreshToken>, honoured: seq<RefreshToken>, chainOf: map<SessionId, SessionId>)

  function Chain(s: State, session: SessionId): SessionId {
    if session in s.chainOf then s.chainOf[session] else session
  }

  const START := State(map[], map[], {}, [], map[])

  datatype Step =
    | SignLogin(pid: nat, user: UserId, session: SessionId, at: int)
    | Claim(pid: nat, token: RefreshToken)
    | SignRefresh(pid: nat, session: SessionId, at: int)
    | StoreKey(pid: nat)
    | Drop(pid: nat)
    | Forget(key: Key)
    | ForgetAll(user: UserId)

  /**
   Only genuine tokens decode, session ids are new, and a step belongs to the phase its request is in. `Drop` is a
   request that ends early (disabled account, lost connection); `Forget` is a logout or the expiry of a key.
   */
  predicate Enabled(s: State, step: Step) {
    match step
    case SignLogin(pid, _, session, _) => pid !in s.processes && session !in s.chainOf
    case Claim(pid, token) => pid !in s.processes && token in s.issued
    case SignRefresh(pid, session, _) => pid in s.processes && s.processes[pid].Claimed? && session !in s.chainOf
    case StoreKey(pid) => pid in s.processes && s.processes[pid].Signed?
    case _ => true
  }

  /** The refresh endpoint's decision about a genuine token. */
  predicate Accepts(s: State, t: RefreshToken) {
    KeyOf(t) in s.redis && s.redis[KeyOf(t)] == Sha256(t)
  }

  function AllKeysOf(redis: map<Key, Hash>, user: UserId): set<Key> {
    set k | k in redis && k.user == user
  }

  function Apply(s: State, step: Step): State
    requires Enabled(s, step)
  {
    match step
    case SignLogin(pid, user, session, at) =>
      var t := RefreshToken(user, session, at);
      s.(processes := s.processes[pid := Signed(t, session)], issued := s.issued + {t},
         chainOf := s.chainOf[session := session])
    case Claim(pid, t) =>
      if !Accepts(s, t) then s.(redis := s.redis - {KeyOf(t)})
      else s.(redis := s.redis - {KeyOf(t)}, honoured := s.honoured + [t],
              processes := s.processes[pid := Claimed(t.user, Chain(s, t.session))])
    case SignRefresh(pid, session, at) =>
      var p := s.processes[pid];
      var t := RefreshToken(p.user, session, at);
      s.(processes := s.processes[pid := Signed(t, p.chain)], issued := s.issued + {t},
         chainOf := s.chainOf[session := p.chain])
    case StoreKey(pid) =>
      var t := s.processes[pid].token;
      s.(redis := s.redis[KeyOf(t) := Sha256(t)], processes := s.processes - {pid})
    case Drop(pid) => s.(processes := s.processes - {pid})
    case Forget(key) => s.(redis := s.redis - {key})
    case ForgetAll(user) => s.(redis := s.redis - AllKeysOf(s.redis, user))
  }

  // ---- the invariant ----

  /** One token per session, and every session has a chain. */
  ghost predicate TokensOk(s: State) {
    && (forall t, u :: t in s.issued && u in s.issued && t.session == u.session ==> t == u)
    && (forall t :: t in s.issued ==> t.session in s.chainOf)
    && (forall c :: c in s.chainOf ==> s.chainOf[c] in s.chainOf)
    && (forall a, b :: a in s.honoured && b in s.honoured && a.session == b.session ==> a == b)
    && (forall t :: t in s.honoured ==> t in s.issued)
  }

  /** What is stored is the hash of a token issued for exactly that key and not honoured yet. */
  ghost predicate StoredOk(s: State, k: Key) {
    k in s.redis ==>
      && s.redis[k].token in s.issued && KeyOf(s.redis[k].token) == k
      && s.redis[k].token !in s.honoured
  }

  ghost predicate ProcessOk(s: State, pid: nat) {
    pid in s.processes ==>
      match s.processes[pid]
      case Claimed(_, chain) => chain in s.chainOf
      case Signed(t, chain) =>
        t in s.issued && t !in s.honoured && KeyOf(t) !in s.redis && Chain(s, t.session) == chain
  }

  /** Each chain is held in at most one place: by one stored key or by one request under way. */
  ghost predicate OneHolder(s: State) {
    && (forall k, l :: k in s.redis && l in s.redis && Chain(s, k.session) == Chain(s, l.session) ==> k == l)
    && (forall p, q :: p in s.processes && q in s.processes && s.processes[p].chain == s.processes[q].chain ==> p == q)
    && (forall k, p :: k in s.redis && p in s.processes ==> Chain(s, k.session) != s.processes[p].chain)
  }

  ghost predicate NoRepeats(s: State) {
    forall i, j :: 0 <= i < j < |s.honoured| ==> s.honoured[i] != s.honoured[j]
  }

  ghost predicate Inv(s: State) {
    && TokensOk(s)
    && (forall k {:trigger StoredOk(s, k)} :: StoredOk(s, k))
    && (forall pid {:trigger ProcessOk(s, pid)} :: ProcessOk(s, pid))
    && OneHolder(s)
    && NoRepeats(s)
  }

  /** A session id that was never handed out is neither stored nor a chain in use. */
  lemma NewSessionIsNew(s: State, session: SessionId)
    requires Inv(s) && session !in s.chainOf
    ensures forall k :: k in s.redis ==>
      k.session != session && Chain(s, k.session) != session && k.session in s.chainOf
    ensures forall p :: p in s.processes ==> s.processes[p].chain != session
  {
    forall k | k in s.redis
      ensures k.session != session && Chain(s, k.session) != session && k.session in s.chainOf
    {
      assert StoredOk(s, k);
    }
    forall p | p in s.processes
      ensures s.processes[p].chain != session
    {
      assert ProcessOk(s, p);
    }
  }

  /** Keys and requests may go, and nothing else changes. */
  predicate Fewer(s: State, t: State) {
    && (forall k :: k in t.redis ==> k in s.redis && t.redis[k] == s.redis[k])
    && (forall p :: p in t.processes ==> p in s.processes && t.processes[p] == s.processes[p])
    && t.issued == s.issued && t.honoured == s.honoured && t.chainOf == s.chainOf
  }

  lemma FewerHolders(s: State, t: State)
    requires OneHolder(s) && Fewer(s, t)
    ensures OneHolder(t)
  {
    assert forall k: Key :: Chain(t, k.session) == Chain(s, k.session);
  }

  lemma FewerParts(s: State, t: State, k: Key, p: nat)
    requires StoredOk(s, k) && ProcessOk(s, p) && OneHolder(s) && Fewer(s, t)
    ensures StoredOk(t, k) && ProcessOk(t, p)
  {
  }

  lemma PartsCarryOver(s: State, t: State)
    requires Inv(s) && Fewer(s, t)
    ensures Inv(t)
  {
    FewerHolders(s, t);
    forall k
      ensures StoredOk(t, k)
    {
      FewerParts(s, t, k, 0);
    }
    forall p
      ensures ProcessOk(t, p)
    {
      FewerParts(s, t, Key(0, 0), p);
    }
  }

  /**
   The state after signing a token: it continues the chain its request holds, or starts one under its own session id.
   */
  ghost predicate Signs(s: State, pid: nat, tok: RefreshToken, chain: SessionId, t: State) {
    && tok.session !in s.chainOf
    && t == s.(processes := s.processes[pid := Signed(tok, chain)], issued := s.issued + {tok},
               chainOf := s.chainOf[tok.session := chain])
    && (if pid in s.processes then chain == s.processes[pid].chain && chain in s.chainOf else chain == tok.session)
  }

  lemma SigningTokens(s: State, pid: nat, tok: RefreshToken, chain: SessionId, t: State)
    requires TokensOk(s) && Signs(s, pid, tok, chain, t)
    ensures TokensOk(t)
  {
  }

  lemma SigningProcess(s: State, pid: nat, tok: RefreshToken, chain: SessionId, t: State, p: nat)
    requires Inv(s) && Signs(s, pid, tok, chain, t)
    ensures ProcessOk(t, p)
  {
    NewSessionIsNew(s, tok.session);
    assert ProcessOk(s, p);
  }

  lemma SigningHolders(s: State, pid: nat, tok: RefreshToken, chain: SessionId, t: State)
    requires Signs(s, pid, tok, chain, t) && OneHolder(s)
    requires forall k :: k in s.redis ==>
      k.session != tok.session && Chain(s, k.session) != tok.session && k.session in s.chainOf
    requires forall p :: p in s.processes ==> s.processes[p].chain != tok.session
    ensures OneHolder(t)
  {
    assert forall k :: k in s.redis ==> Chain(t, k.session) == Chain(s, k.session);
  }

  lemma SigningKeeps(s: State, pid: nat, tok: RefreshToken, chain: SessionId, t: State)
    requires Inv(s) && Signs(s, pid, tok, chain, t)
    ensures Inv(t)
  {
    NewSessionIsNew(s, tok.session);
    SigningTokens(s, pid, tok, chain, t);
    SigningHolders(s, pid, tok, chain, t);
    forall p
      ensures ProcessOk(t, p)
    {
      SigningProcess(s, pid, tok, chain, t, p);
    }
    forall k
      ensures StoredOk(t, k)
    {
      assert StoredOk(s, k);
    }
  }

  lemma SignKeeps(s: State, step: Step)
    requires Inv(s) && (step.SignLogin? || step.SignRefresh?) && Enabled(s, step)
    ensures Inv(Apply(s, step))
  {
    var t := Apply(s, step);
    match step
    case SignLogin(pid, user, session, at) =>
      SigningKeeps(s, pid, RefreshToken(user, session, at), session, t);
    case SignRefresh(pid, session, at) =>
      assert ProcessOk(s, pid);
      SigningKeeps(s, pid, RefreshToken(s.processes[pid].user, session, at), s.processes[pid].chain, t);
  }

  lemma ClaimHolders(s: State, pid: nat, t: RefreshToken)
    requires OneHolder(s) && pid !in s.processes && t in s.issued && Accepts(s, t)
    ensures OneHolder(Apply(s, Claim(pid, t)))
  {
  }

  lemma ClaimTokens(s: State, pid: nat, t: RefreshToken)
    requires TokensOk(s) && NoRepeats(s) && pid !in s.processes && t in s.issued && t !in s.honoured && Accepts(s, t)
    ensures TokensOk(Apply(s, Claim(pid, t))) && NoRepeats(Apply(s, Claim(pid, t)))
  {
    var longer := s.honoured + [t];
    assert forall a :: a in longer <==> a in s.honoured || a == t;
  }

  lemma ClaimParts(s: State, pid: nat, token: RefreshToken, k: Key, p: nat)
    requires Inv(s) && Enabled(s, Claim(pid, token)) && Accepts(s, token)
    ensures StoredOk(Apply(s, Claim(pid, token)), k) && ProcessOk(Apply(s, Claim(pid, token)), p)
  {
    assert StoredOk(s, KeyOf(token)) && StoredOk(s, k) && ProcessOk(s, p);
  }

  lemma ClaimKeeps(s: State, pid: nat, token: RefreshToken)
    requires Inv(s) && Enabled(s, Claim(pid, token))
    ensures Inv(Apply(s, Claim(pid, token)))
  {
    var t := Apply(s, Claim(pid, token));
    if Accepts(s, token) {
      assert StoredOk(s, KeyOf(token));
      ClaimHolders(s, pid, token);
      ClaimTokens(s, pid, token);
      forall k
        ensures StoredOk(t, k)
      {
        ClaimParts(s, pid, token, k, 0);
      }
      forall p
        ensures ProcessOk(t, p)
      {
        ClaimParts(s, pid, token, KeyOf(token), p);
      }
    } else {
      PartsCarryOver(s, t);
    }
  }

  lemma StoreKeyParts(s: State, pid: nat, k: Key, p: nat)
    requires Inv(s) && Enabled(s, StoreKey(pid))
    ensures StoredOk(Apply(s, StoreKey(pid)), k) && ProcessOk(Apply(s, StoreKey(pid)), p)
  {
    assert ProcessOk(s, pid) && StoredOk(s, k) && ProcessOk(s, p);
  }

  lemma StoreKeyHolders(s: State, pid: nat)
    requires OneHolder(s) && ProcessOk(s, pid) && Enabled(s, StoreKey(pid))
    ensures OneHolder(Apply(s, StoreKey(pid)))
  {
  }

  lemma StoreKeyKeeps(s: State, pid: nat)
    requires Inv(s) && Enabled(s, StoreKey(pid))
    ensures Inv(Apply(s, StoreKey(pid)))
  {
    var t := Apply(s, StoreKey(pid));
    assert ProcessOk(s, pid);
    StoreKeyHolders(s, pid);
    forall k
      ensures StoredOk(t, k)
    {
      StoreKeyParts(s, pid, k, pid);
    }
    forall p
      ensures ProcessOk(t, p)
    {
      StoreKeyParts(s, pid, KeyOf(s.processes[pid].token), p);
    }
  }

  lemma StepKeeps(s: State, step: Step)
    requires Inv(s) && Enabled(s, step)
    ensures Inv(Apply(s, step))
  {
    match step
    case SignLogin(_, _, _, _) => SignKeeps(s, step);
    case SignRefresh(_, _, _) => SignKeeps(s, step);
    case Claim(pid, token) => ClaimKeeps(s, pid, token);
    case StoreKey(pid) => StoreKeyKeeps(s, pid);
    case _ => PartsCarryOver(s, Apply(s, step));
  }

  // ---- runs ----

  ghost predicate Moves(s: State, t: State) {
    exists step :: Enabled(s, step) && t == Apply(s, step)
  }

  ghost predicate Run(ss: seq<State>) {
    |ss| > 0 && forall i, j {:trigger Moves(ss[i], ss[j])} :: 0 <= i && j == i + 1 && j < |ss| ==> Moves(ss[i], ss[j])
  }

  /** Nothing that was recorded is ever taken back. */
  ghost predicate Extends(s: State, t: State) {
    && s.issued <= t.issued && s.honoured <= t.honoured
    && forall c :: c in s.chainOf ==> c in t.chainOf && t.chainOf[c] == s.chainOf[c]
  }

  lemma StepExtends(s: State, step: Step)
    requires Enabled(s, step)
    ensures Extends(s, Apply(s, step))
  {
  }

  lemma ExtendsTransitive(s: State, t: State, u: State)
    requires Extends(s, t) && Extends(t, u)
    ensures Extends(s, u)
  {
  }

  lemma MoveKeeps(s: State, t: State)
    requires Inv(s) && Moves(s, t)
    ensures Inv(t)
  {
    var step :| Enabled(s, step) && t == Apply(s, step);
    StepKeeps(s, step);
  }

  lemma MoveExtends(s: State, t: State)
    requires Moves(s, t)
    ensures Extends(s, t)
  {
    var step :| Enabled(s, step) && t == Apply(s, step);
    StepExtends(s, step);
  }

  lemma {:induction false} RunKeeps(ss: seq<State>, i: nat, j: nat)
    requires Run(ss) && i <= j < |ss| && Inv(ss[i])
    ensures Inv(ss[j])
    decreases j - i
  {
    if i < j {
      RunKeeps(ss, i, j - 1);
      MoveKeeps(ss[j - 1], ss[j]);
    }
  }

  lemma {:induction false} RunExtends(ss: seq<State>, i: nat, j: nat)
    requires Run(ss) && i <= j < |ss|
    ensures Extends(ss[i], ss[j])
    decreases j - i
  {
    if i < j {
      RunExtends(ss, i, j - 1);
      MoveExtends(ss[j - 1], ss[j]);
      ExtendsTransitive(ss[i], ss[j - 1], ss[j]);
    }
  }

  lemma StartIsOk()
    ensures Inv(START)
  {
    assert forall k :: StoredOk(START, k);
    assert forall p :: ProcessOk(START, p);
  }

  /** In every interleaving a token that was honoured once is never accepted again. */
  lemma HonouredOnce(ss: seq<State>, i: nat, j: nat, t: RefreshToken)
    requires Run(ss) && ss[0] == START && i <= j < |ss|
    requires t in ss[i].honoured
    ensures !Accepts(ss[j], t) && NoRepeats(ss[j])
  {
    StartIsOk();
    RunKeeps(ss, 0, j);
    RunExtends(ss, i, j);
    assert StoredOk(ss[j], KeyOf(t));
  }

  /** In every interleaving a login's chain has at most one live session key. */
  lemma OneLiveKeyPerChain(ss: seq<State>, i: nat, k: Key, l: Key)
    requires Run(ss) && ss[0] == START && i < |ss|
    requires k in ss[i].redis && l in ss[i].redis && Chain(ss[i], k.session) == Chain(ss[i], l.session)
    ensures k == l
  {
    StartIsOk();
    RunKeeps(ss, 0, i);
  }

  /** The hash under a key is that of the one token issued for it, so a genuine token never meets a foreign hash. */
  lemma MismatchUnreachable(ss: seq<State>, i: nat, t: RefreshToken)
    requires Run(ss) && ss[0] == START && i < |ss|
    requires t in ss[i].issued && KeyOf(t) in ss[i].redis
    ensures ss[i].redis[KeyOf(t)] == Sha256(t)
    ensures forall u :: u in ss[i].issued && KeyOf(u) == KeyOf(t) ==> u == t
  {
    StartIsOk();
    RunKeeps(ss, 0, i);
    assert StoredOk(ss[i], KeyOf(t));
  }

  // ---- a refresh without interruption ----

  function RefreshAlone(s: State, pid: nat, t: RefreshToken, session: SessionId, at: int): State
    requires pid !in s.processes && t in s.issued && session !in s.chainOf && Accepts(s, t)
  {
    Apply(Apply(Apply(s, Claim(pid, t)), SignRefresh(pid, session, at)), StoreKey(pid))
  }

  /** Rotation: the old token is dead, the new one works, and the chain is the same. */
  lemma RotationHandsOver(s: State, pid: nat, t: RefreshToken, session: SessionId, at: int)
    requires Inv(s) && pid !in s.processes && t in s.issued && session !in s.chainOf && Accepts(s, t)
    ensures var next := RefreshToken(t.user, session, at);
      var after := RefreshAlone(s, pid, t, session, at);
      && Inv(after) && Accepts(after, next) && !Accepts(after, t)
      && after.processes == s.processes && Chain(after, session) == Chain(s, t.session)
      && after.redis == (s.redis - {KeyOf(t)})[KeyOf(next) := Sha256(next)]
  {
    var s1 := Apply(s, Claim(pid, t));
    var s2 := Apply(s1, SignRefresh(pid, session, at));
    assert s2.processes - {pid} == s.processes;
    StepKeeps(s, Claim(pid, t));
    StepKeeps(s1, SignRefresh(pid, session, at));
    StepKeeps(s2, StoreKey(pid));
    TokenSessionKnown(s, t);
  }

  lemma TokenSessionKnown(s: State, t: RefreshToken)
    requires TokensOk(s) && t in s.issued
    ensures t.session in s.chainOf
  {
  }

  // ---- chains that live on ----

  ghost predicate Path(ss: seq<State>, s: State, t: State) {
    Run(ss) && ss[0] == s && ss[|ss| - 1] == t
  }

  ghost predicate Leads(s: State, t: State) {
    exists ss :: Path(ss, s, t)
  }

  lemma LeadsStep(s: State, step: Step, t: State)
    requires Enabled(s, step) && Leads(Apply(s, step), t)
    ensures Leads(s, t)
  {
    var ss :| Path(ss, Apply(s, step), t);
    assert Path([s] + ss, s, t);
  }

  predicate HeldByKey(s: State, chains: set<SessionId>, user: UserId, k: Key) {
    k in s.redis && k.user == user && Chain(s, k.session) in chains
  }

  predicate HeldByRequest(s: State, chains: set<SessionId>, user: UserId, p: nat) {
    p in s.processes && UserOf(s.processes[p]) == user && s.processes[p].chain in chains
  }

  /** Neither a stored key nor a request under way holds one of the user's chains. */
  ghost predicate NoneHeld(s: State, chains: set<SessionId>, user: UserId) {
    && (forall k {:trigger HeldByKey(s, chains, user, k)} :: !HeldByKey(s, chains, user, k))
    && (forall p {:trigger HeldByRequest(s, chains, user, p)} :: !HeldByRequest(s, chains, user, p))
  }

  ghost predicate HonouredSince(s: State, later: State, t: RefreshToken) {
    exists i :: |s.honoured| <= i < |later.honoured| && later.honoured[i] == t
  }

  /** Whatever happens from here on, no token of the user in one of the chains is honoured. */
  ghost predicate Dead(s: State, chains: set<SessionId>, user: UserId) {
    forall later: State, t: RefreshToken ::
      Leads(s, later) && HonouredSince(s, later, t) && t.user == user ==> Chain(later, t.session) !in chains
  }

  ghost predicate NoneHonouredSince(s: State, chains: set<SessionId>, user: UserId, t: State) {
    forall i :: |s.honoured| <= i < |t.honoured| && t.honoured[i].user == user ==>
      Chain(t, t.honoured[i].session) !in chains
  }

  /** The sessions behind keys, requests and honoured tokens are all known, so their chains never change. */
  ghost predicate SessionsKnown(s: State) {
    && (forall k :: k in s.redis ==> k.session in s.chainOf)
    && (forall i :: 0 <= i < |s.honoured| ==> s.honoured[i].session in s.chainOf)
  }

  lemma SessionsAreKnown(s: State)
    requires Inv(s)
    ensures SessionsKnown(s)
  {
    forall k | k in s.redis
      ensures k.session in s.chainOf
    {
      assert StoredOk(s, k);
    }
    assert forall i :: 0 <= i < |s.honoured| ==> s.honoured[i] in s.honoured;
  }

  lemma NoneHeldStep(s: State, step: Step, chains: set<SessionId>, user: UserId)
    requires SessionsKnown(s) && NoneHeld(s, chains, user) && chains <= s.chainOf.Keys && Enabled(s, step)
    requires (step.StoreKey? || step.SignRefresh?) ==> ProcessOk(s, step.pid)
    ensures NoneHeld(Apply(s, step), chains, user)
  {
    var t := Apply(s, step);
    forall k
      ensures !HeldByKey(t, chains, user, k)
    {
      assert !HeldByKey(s, chains, user, k);
      if step.StoreKey? {
        assert !HeldByRequest(s, chains, user, step.pid);
      }
    }
    forall p
      ensures !HeldByRequest(t, chains, user, p)
    {
      assert !HeldByRequest(s, chains, user, p);
      if step.Claim? {
        assert !HeldByKey(s, chains, user, KeyOf(step.token));
      }
    }
  }

  /** A step honours at most one token, and then the one whose key it takes. */
  lemma HonouredByStep(s: State, step: Step, chains: set<SessionId>, user: UserId)
    requires SessionsKnown(s) && NoneHeld(s, chains, user) && Enabled(s, step)
    ensures var t := Apply(s, step);
      s.honoured <= t.honoured && NoneHonouredSince(s, chains, user, t)
  {
    if step.Claim? {
      assert !HeldByKey(s, chains, user, KeyOf(step.token));
    }
  }

  lemma NoneHonouredTransitive(s: State, t: State, u: State, chains: set<SessionId>, user: UserId)
    requires Extends(s, t) && Extends(t, u) && SessionsKnown(t)
    requires NoneHonouredSince(s, chains, user, t) && NoneHonouredSince(t, chains, user, u)
    ensures NoneHonouredSince(s, chains, user, u)
  {
    assert forall i :: 0 <= i < |t.honoured| ==>
      u.honoured[i] == t.honoured[i] && Chain(u, u.honoured[i].session) == Chain(t, t.honoured[i].session);
  }

  lemma NoneHeldMove(s: State, t: State, chains: set<SessionId>, user: UserId)
    requires Inv(s) && NoneHeld(s, chains, user) && chains <= s.chainOf.Keys && Moves(s, t)
    ensures Inv(t) && Extends(s, t) && NoneHeld(t, chains, user) && NoneHonouredSince(s, chains, user, t)
  {
    var step :| Enabled(s, step) && t == Apply(s, step);
    SessionsAreKnown(s);
    assert (step.StoreKey? || step.SignRefresh?) ==> ProcessOk(s, step.pid);
    NoneHeldStep(s, step, chains, user);
    HonouredByStep(s, step, chains, user);
    StepKeeps(s, step);
    StepExtends(s, step);
  }

  lemma {:induction false} NoneHeldAlong(ss: seq<State>, i: nat, chains: set<SessionId>, user: UserId)
    requires Run(ss) && i < |ss| && Inv(ss[0]) && NoneHeld(ss[0], chains, user) && chains <= ss[0].chainOf.Keys
    ensures Inv(ss[i]) && Extends(ss[0], ss[i]) && NoneHeld(ss[i], chains, user)
    ensures NoneHonouredSince(ss[0], chains, user, ss[i])
  {
    if i > 0 {
      NoneHeldAlong(ss, i - 1, chains, user);
      NoneHeldMove(ss[i - 1], ss[i], chains, user);
      SessionsAreKnown(ss[i - 1]);
      ExtendsTransitive(ss[0], ss[i - 1], ss[i]);
      NoneHonouredTransitive(ss[0], ss[i - 1], ss[i], chains, user);
    }
  }

  lemma NoneHeldLater(s: State, later: State, chains: set<SessionId>, user: UserId)
    requires Inv(s) && NoneHeld(s, chains, user) && chains <= s.chainOf.Keys && Leads(s, later)
    ensures Inv(later) && Extends(s, later) && NoneHeld(later, chains, user)
    ensures NoneHonouredSince(s, chains, user, later)
  {
    var ss :| Path(ss, s, later);
    NoneHeldAlong(ss, |ss| - 1, chains, user);
  }

  lemma {:induction false} UnusedNumber(used: set<nat>) returns (unused: nat)
    ensures unused !in used && forall c :: c in used ==> c < unused
  {
    unused := 0;
    if used != {} {
      var x :| x in used;
      var other := UnusedNumber(used - {x});
      assert forall c :: c in used ==> c == x || c in used - {x};
      unused := if other <= x then x + 1 else other;
    }
  }

  /** A stored key can be presented: its token is honoured, in the key's chain. */
  lemma KeyIsHonoured(s: State, k: Key) returns (t: RefreshToken, later: State)
    requires Inv(s) && k in s.redis
    ensures Leads(s, later) && HonouredSince(s, later, t) && t.user == k.user
    ensures Chain(later, t.session) == Chain(s, k.session)
  {
    assert StoredOk(s, k);
    t := s.redis[k].token;
    var pid := UnusedNumber(s.processes.Keys);
    later := Apply(s, Claim(pid, t));
    assert Path([s, later], s, later);
    assert later.honoured[|s.honoured|] == t;
  }

  lemma SignedIsHonoured(s: State, p: nat) returns (t: RefreshToken, later: State)
    requires p in s.processes && s.processes[p].Signed? && s.processes[p].token in s.issued
    ensures t == s.processes[p].token && Leads(s, later)
    ensures later.honoured == s.honoured + [t] && later.chainOf == s.chainOf
  {
    t := s.processes[p].token;
    var s1 := Apply(s, StoreKey(p));
    later := Apply(s1, Claim(p, t));
    assert Enabled(s, StoreKey(p)) && Enabled(s1, Claim(p, t));
    assert Path([s, s1, later], s, later);
  }

  /** A request under way can go on to store its key, and that key can be presented. */
  lemma RequestIsHonoured(s: State, p: nat) returns (t: RefreshToken, later: State)
    requires Inv(s) && p in s.processes
    ensures Leads(s, later) && HonouredSince(s, later, t)
    ensures t.user == UserOf(s.processes[p]) && Chain(later, t.session) == s.processes[p].chain
  {
    assert ProcessOk(s, p);
    if s.processes[p].Claimed? {
      var session := UnusedNumber(s.chainOf.Keys);
      var sign := SignRefresh(p, session, 0);
      t, later := SignedIsHonoured(Apply(s, sign), p);
      LeadsStep(s, sign, later);
    } else {
      t, later := SignedIsHonoured(s, p);
    }
    assert later.honoured[|s.honoured|] == t;
  }

  /** Chains of a user are dead for good exactly when no stored key and no request under way holds one of them. */
  lemma DeadIff(s: State, chains: set<SessionId>, user: UserId)
    requires Inv(s) && chains <= s.chainOf.Keys
    ensures Dead(s, chains, user) <==> NoneHeld(s, chains, user)
  {
    if NoneHeld(s, chains, user) {
      NoneHeldIsDead(s, chains, user);
    } else if k :| HeldByKey(s, chains, user, k) {
      var t, later := KeyIsHonoured(s, k);
    } else {
      var p :| HeldByRequest(s, chains, user, p);
      var t, later := RequestIsHonoured(s, p);
    }
  }

  lemma NoneHeldIsDead(s: State, chains: set<SessionId>, user: UserId)
    requires Inv(s) && chains <= s.chainOf.Keys && NoneHeld(s, chains, user)
    ensures Dead(s, chains, user)
  {
    forall later: State, t: RefreshToken | Leads(s, later) && HonouredSince(s, later, t) && t.user == user
      ensures Chain(later, t.session) !in chains
    {
      NoneHeldLater(s, later, chains, user);
    }
  }

  // ---- invalidating all sessions of a user at once ----

  /** No request of the user stands between taking or signing a token and storing its key. */
  ghost predicate NothingUnderWay(s: State, user: UserId) {
    forall p :: p in s.processes ==> UserOf(s.processes[p]) != user
  }

  /** Deleting all the user's keys in one instant leaves exactly the requests under way. */
  lemma HeldAfterForgetting(s: State, user: UserId)
    requires Inv(s)
    ensures NoneHeld(Apply(s, ForgetAll(user)), s.chainOf.Keys, user) <==> NothingUnderWay(s, user)
  {
    var t := Apply(s, ForgetAll(user));
    forall p | p in s.processes && UserOf(s.processes[p]) == user
      ensures HeldByRequest(t, s.chainOf.Keys, user, p)
    {
      assert ProcessOk(s, p);
    }
  }

  /**
   Deleting all of a user's keys in one instant ends every chain for good exactly when none of the user's requests is
   under way.
   */
  lemma InvalidationIff(s: State, user: UserId)
    requires Inv(s)
    ensures Dead(Apply(s, ForgetAll(user)), s.chainOf.Keys, user) <==> NothingUnderWay(s, user)
  {
    StepKeeps(s, ForgetAll(user));
    HeldAfterForgetting(s, user);
    DeadIff(Apply(s, ForgetAll(user)), s.chainOf.Keys, user);
  }

  /** In particular, with service calls one at a time no token issued before is accepted after. */
  lemma EarlierTokensDead(s: State, user: UserId, later: State, t: RefreshToken)
    requires Inv(s) && NothingUnderWay(s, user) && Leads(Apply(s, ForgetAll(user)), later)
    requires t in s.issued && t.user == user
    ensures !Accepts(later, t)
  {
    StepKeeps(s, ForgetAll(user));
    HeldAfterForgetting(s, user);
    NoneHeldLater(Apply(s, ForgetAll(user)), later, s.chainOf.Keys, user);
    TokenSessionKnown(s, t);
    assert !HeldByKey(later, s.chainOf.Keys, user, KeyOf(t));
  }
}
