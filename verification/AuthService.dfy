/**
  The services themselves: rows updated in place, statement by statement, in the order of
  `auth.service.ts` and `two-factor.service.ts`. Each method is one atomic step of a request
  and is proved to have the effect that `Auth` reasons about.
*/
module AuthService {
  import opened Common
  import opened Auth
  import SignInGuard

  lemma ReachConfirm(s: Db, req: Id)
    requires Reachable(s)
    ensures Reachable(DoConfirmCommit(s, req))
  {
    ReachStep(s, Factor(ConfirmCommit(req)));
  }

  lemma ReachVerify(s: Db, req: Id)
    requires Reachable(s)
    ensures Reachable(DoVerifyCommit(s, req))
  {
    ReachStep(s, Factor(VerifyCommit(req)));
  }

  lemma ReachStepUp(s: Db, req: Id)
    requires Reachable(s)
    ensures Reachable(DoStepUpCommit(s, req))
  {
    ReachStep(s, Factor(StepUpCommit(req)));
  }

  class Service {
    var clock: Time
    var nextId: Id
    const refreshTtl: nat
    var users: map<Id, bool>
    var sessions: map<Id, Session>
    var credentials: map<Id, Credential>
    var codes: map<Id, Code>
    var challenges: map<Id, Challenge>
    var inflight: map<Id, Pending>
    ghost var log: seq<Fact>

    ghost function Rows(): Db
      reads this
    {
      Db(clock, nextId, refreshTtl, users, sessions, credentials, codes, challenges, inflight, log)
    }

    /** Some run of the service leads here, so whatever holds in every run holds now. */
    ghost predicate Valid()
      reads this
    {
      Reachable(Rows())
    }

    constructor (refreshTtl: nat)
      ensures Rows() == Empty(refreshTtl) && Valid()
    {
      this.refreshTtl := refreshTtl;
      clock, nextId := 0, 0;
      users, sessions, credentials, codes, challenges, inflight := map[], map[], map[], map[], map[], map[];
      log := [];
      new;
      assert Rows() == Run(Empty(refreshTtl), []);
    }

    method FreshId() returns (id: Id)
      modifies this`nextId
      ensures id == old(nextId) && nextId == id + 1
    {
      id := nextId;
      nextId := nextId + 1;
    }

    method CreateSession(user: Id)
      modifies this`nextId, this`sessions
      ensures nextId == old(nextId) + 1
      ensures sessions == Open(old(sessions), old(nextId), user, clock + refreshTtl)
    {
      var id := FreshId();
      sessions := sessions[id := Session(user, id, clock + refreshTtl, None, None)];
    }

    method Register()
      requires Valid()
      modifies this
      ensures Rows() == DoRegister(old(Rows()))
      ensures Valid()
    {
      ReachStep(Rows(), Signing(AuthEvent.Register));
      var user := FreshId();
      users := users[user := true];
      CreateSession(user);
    }

    method CompleteFirstFactor(user: Id)
      requires Valid()
      modifies this
      ensures Rows() == DoFirstFactor(old(Rows()), user)
      ensures Valid()
    {
      ReachStep(Rows(), Signing(AuthEvent.FirstFactor(user)));
      if user !in users || !users[user] { return; }
      if user in credentials && credentials[user].enabledAt.Some? {
        challenges := WithoutSpentChallenges(challenges, user, clock);
        var id := FreshId();
        challenges := challenges[id := Challenge(user, clock + LOGIN_CHALLENGE_TTL, None)];
      } else {
        CreateSession(user);
      }
    }

    method RefreshRead(req: Id, token: Id)
      requires Valid()
      modifies this
      ensures Rows() == DoRefreshRead(old(Rows()), req, token)
      ensures Valid()
    {
      ReachStep(Rows(), Signing(AuthEvent.RefreshRead(req, token)));
      if req in inflight || token !in sessions { return; }
      var session := sessions[token];
      if session.revoked.Some? {
        if session.revoked.value.reason == Rotated {
          inflight := inflight[req := FamilyRevocation(session.family)];
        }
        return;
      }
      if session.expiresAt <= clock || session.user !in users || !users[session.user] { return; }
      inflight := inflight[req := Rotation(token, session)];
    }

    /** The rotation transaction: create the replacement, then claim the old row, or roll back. */
    method RefreshCommit(req: Id)
      requires Valid()
      modifies this
      ensures Rows() == DoRefreshCommit(old(Rows()), req)
      ensures Valid()
    {
      ReachStep(Rows(), Signing(AuthEvent.RefreshCommit(req)));
      if req !in inflight || !inflight[req].Rotation? { return; }
      var p := inflight[req];
      if p.token in sessions && sessions[p.token].Live() {
        var replacement := FreshId();
        sessions := sessions[p.token := sessions[p.token].(revoked := Some(Revocation(clock, Rotated)),
                                                           replacedBy := Some(replacement))];
        sessions := sessions[replacement := Session(p.snapshot.user, p.snapshot.family, clock + refreshTtl, None, None)];
        inflight := inflight - {req};
      } else {
        inflight := inflight[req := FamilyRevocation(p.snapshot.family)];
      }
    }

    method RevokeTokenFamily(req: Id)
      requires Valid()
      modifies this
      ensures Rows() == DoRevokeFamily(old(Rows()), req)
      ensures Valid()
    {
      ReachStep(Rows(), Signing(AuthEvent.RevokeFamily(req)));
      if req !in inflight || !inflight[req].FamilyRevocation? { return; }
      sessions := Revoke(sessions, OfFamily(sessions, inflight[req].family), clock, ReuseDetected);
      inflight := inflight - {req};
    }

    /** The session is no longer live, and nothing else changes. */
    method Logout(token: Id)
      requires Valid()
      modifies this`sessions
      ensures Rows() == AuthStep(old(Rows()), AuthEvent.Logout(token))
      ensures sessions.Keys == old(sessions).Keys
      ensures token in sessions ==> !sessions[token].Live() && sessions[token].family == old(sessions)[token].family
      ensures forall id :: id in sessions && (id != token || !old(sessions)[id].Live()) ==> sessions[id] == old(sessions)[id]
      ensures Valid()
    {
      ReachStep(Rows(), Signing(AuthEvent.Logout(token)));
      sessions := Revoke(sessions, {token}, clock, LoggedOut);
    }

    /** No session of the user is live and no challenge of the user is left; other users keep theirs. */
    method LogoutAll(user: Id)
      requires Valid()
      modifies this`sessions, this`challenges
      ensures Rows() == DoLogoutAll(old(Rows()), user)
      ensures sessions.Keys == old(sessions).Keys
      ensures forall id :: id in sessions && sessions[id].user == user ==> !sessions[id].Live()
      ensures forall id :: id in sessions && sessions[id].user != user ==> sessions[id] == old(sessions)[id]
      ensures forall c :: c in challenges <==> c in old(challenges) && old(challenges)[c].user != user
      ensures Valid()
    {
      ReachStep(Rows(), Signing(AuthEvent.LogoutAll(user)));
      sessions := Revoke(sessions, OfUser(sessions, user), clock, LoggedOutAll);
      challenges := WithoutChallenges(challenges, user);
    }

    method BeginSetup(user: Id)
      requires Valid()
      modifies this
      ensures Rows() == DoBeginSetup(old(Rows()), user)
      ensures Valid()
    {
      ReachStep(Rows(), Factor(FactorEvent.BeginSetup(user)));
      if user !in users || !users[user] { return; }
      if user in credentials && credentials[user].enabledAt.Some? { return; }
      var secret := FreshId();
      var id := if user in credentials then credentials[user].id else secret;
      credentials := credentials[user := Credential(id, None, None, secret)];
      codes := WithoutCodes(codes, id);
    }

    method ConfirmRead(req: Id, user: Id, step: nat)
      requires Valid()
      modifies this`inflight
      ensures Rows() == DoConfirmRead(old(Rows()), req, user, step)
      ensures Valid()
    {
      ReachStep(Rows(), Factor(FactorEvent.ConfirmRead(req, user, step)));
      if req in inflight || user !in credentials || credentials[user].enabledAt.Some? { return; }
      inflight := inflight[req := Confirmation(user, credentials[user].id, step, credentials[user].secret)];
    }

    method ReplaceCodes(credential: Id, user: Id)
      modifies this`codes, this`nextId
      ensures codes == FreshCodes(old(codes), credential, user, old(nextId))
      ensures nextId == old(nextId) + BACKUP_CODE_COUNT
    {
      codes := FreshCodes(codes, credential, user, nextId);
      nextId := nextId + BACKUP_CODE_COUNT;
    }

    method ConfirmCommit(req: Id)
      requires Valid()
      modifies this
      ensures Rows() == DoConfirmCommit(old(Rows()), req)
      ensures Valid()
    {
      ReachConfirm(Rows(), req);
      if req !in inflight || !inflight[req].Confirmation? { return; }
      var p := inflight[req];
      inflight := inflight - {req};
      if p.user !in credentials || credentials[p.user].id != p.credential || credentials[p.user].enabledAt.Some? {
        return;
      }
      credentials := credentials[p.user := credentials[p.user].(enabledAt := Some(clock), lastStep := Some(p.step))];
      ReplaceCodes(p.credential, p.user);
      sessions := Revoke(sessions, OfUser(sessions, p.user), clock, Administrative);
      log := log + [Enabled(p.credential, p.step)];
    }

    method VerifyRead(req: Id, challenge: Id, proof: Proof)
      requires Valid()
      modifies this`inflight
      ensures Rows() == DoVerifyRead(old(Rows()), req, challenge, proof)
      ensures Valid()
    {
      ReachStep(Rows(), Factor(FactorEvent.VerifyRead(req, challenge, proof)));
      if req in inflight || challenge !in challenges { return; }
      var c := challenges[challenge];
      if c.consumedAt.Some? || c.expiresAt <= clock || c.user !in users || !users[c.user] { return; }
      if c.user !in credentials || credentials[c.user].enabledAt.None? { return; }
      var resolved := ResolveSecondFactor(credentials[c.user], proof);
      if resolved {
        inflight := inflight[req := Verification(challenge, c.user, credentials[c.user].id, proof, clock)];
      }
    }

    method ResolveSecondFactor(credential: Credential, proof: Proof) returns (resolved: bool)
      ensures resolved == Resolves(Rows(), credential, proof)
      ensures forall u :: u in credentials && credentials[u] == credential && credential.enabledAt.Some?
                          ==> (resolved <==> CanClaim(Rows(), u, credential.id, proof))
    {
      match proof
      case Totp(step) => resolved := credential.lastStep.None? || credential.lastStep.value < step;
      case Backup(k) =>
        resolved := k in codes && codes[k].credential == credential.id && codes[k].consumedAt.None?;
    }

    /** The claiming update; `claimed` is whether it counted one row. */
    method ClaimSecondFactor(user: Id, credential: Id, proof: Proof, now: Time) returns (claimed: bool)
      modifies this`credentials, this`codes, this`log
      ensures claimed == old(CanClaim(Rows(), user, credential, proof))
      ensures !CanClaim(Rows(), user, credential, proof)
      ensures Rows() == if claimed then old(Claim(Rows(), user, credential, proof, now)) else old(Rows())
    {
      if user !in credentials || credentials[user].id != credential { return false; }
      match proof {
        case Totp(step) =>
          var row := credentials[user];
          if row.enabledAt.None? || (row.lastStep.Some? && step <= row.lastStep.value) { return false; }
          credentials := credentials[user := row.(lastStep := Some(step))];
        case Backup(k) =>
          if k !in codes || codes[k].credential != credential || codes[k].consumedAt.Some? { return false; }
          codes := codes[k := codes[k].(consumedAt := Some(now))];
      }
      log := log + [Claimed(credential, proof)];
      claimed := true;
    }

    /** The challenge is consumed and a session opened, which the history attributes to the factor. */
    method SignIn(challenge: Id, user: Id, credential: Id, at: Time)
      requires challenge in challenges
      modifies this
      ensures challenges == old(challenges)[challenge := old(challenges)[challenge].(consumedAt := Some(at))]
      ensures sessions == Open(old(sessions), old(nextId), user, clock + refreshTtl) && nextId == old(nextId) + 1
      ensures log == old(log) + [Consumed(challenge)] + [Opened(old(nextId), credential)]
      ensures clock == old(clock) && users == old(users) && credentials == old(credentials)
      ensures codes == old(codes) && inflight == old(inflight)
    {
      challenges := challenges[challenge := challenges[challenge].(consumedAt := Some(at))];
      log := log + [Consumed(challenge)] + [Opened(nextId, credential)];
      CreateSession(user);
    }

    method VerifyCommit(req: Id)
      requires Valid()
      modifies this
      ensures Rows() == DoVerifyCommit(old(Rows()), req)
      ensures Valid()
    {
      ReachVerify(Rows(), req);
      if req !in inflight || !inflight[req].Verification? { return; }
      var p := inflight[req];
      inflight := inflight - {req};
      if p.challenge !in challenges || challenges[p.challenge].consumedAt.Some?
         || challenges[p.challenge].expiresAt <= p.startedAt {
        return;
      }
      var claimed := ClaimSecondFactor(p.user, p.credential, p.proof, p.startedAt);
      if !claimed { return; }
      SignIn(p.challenge, p.user, p.credential, p.startedAt);
    }

    method StepUpRead(req: Id, user: Id, proof: Proof, action: StepUp)
      requires Valid()
      modifies this`inflight
      ensures Rows() == DoStepUpRead(old(Rows()), req, user, proof, action)
      ensures Valid()
    {
      ReachStep(Rows(), Factor(FactorEvent.StepUpRead(req, user, proof, action)));
      if req in inflight || user !in users || !users[user] { return; }
      if user !in credentials || credentials[user].enabledAt.None? { return; }
      var resolved := ResolveSecondFactor(credentials[user], proof);
      if resolved {
        inflight := inflight[req := StepUpClaim(user, credentials[user].id, proof, action)];
      }
    }

    /** The credential goes with its codes, and the user is signed out everywhere. */
    method RemoveCredential(credential: Id, user: Id)
      modifies this`challenges, this`credentials, this`codes, this`sessions
      ensures challenges == WithoutChallenges(old(challenges), user) && credentials == old(credentials) - {user}
      ensures codes == WithoutCodes(old(codes), credential)
      ensures sessions == Revoke(old(sessions), OfUser(old(sessions), user), clock, LoggedOutAll)
    {
      challenges := WithoutChallenges(challenges, user);
      credentials := credentials - {user};
      codes := WithoutCodes(codes, credential);
      sessions := Revoke(sessions, OfUser(sessions, user), clock, LoggedOutAll);
    }

    method StepUpCommit(req: Id)
      requires Valid()
      modifies this
      ensures Rows() == DoStepUpCommit(old(Rows()), req)
      ensures Valid()
    {
      ReachStepUp(Rows(), req);
      if req !in inflight || !inflight[req].StepUpClaim? { return; }
      var p := inflight[req];
      inflight := inflight - {req};
      var claimed := ClaimSecondFactor(p.user, p.credential, p.proof, clock);
      if !claimed { return; }
      match p.action {
        case Regenerate =>
          ReplaceCodes(p.credential, p.user);
        case Disable =>
          RemoveCredential(p.credential, p.user);
      }
    }

    method ServeSigning(e: AuthEvent)
      requires Valid()
      modifies this
      ensures Rows() == AuthStep(old(Rows()), e)
      ensures Valid()
    {
      ReachStep(Rows(), Signing(e));
      match e
      case Tick(d) => clock := clock + d;
      case SetActive(u, b) => if u in users { users := users[u := b]; }
      case Register => Register();
      case FirstFactor(u) => CompleteFirstFactor(u);
      case RefreshRead(r, t) => RefreshRead(r, t);
      case RefreshCommit(r) => RefreshCommit(r);
      case RevokeFamily(r) => RevokeTokenFamily(r);
      case Logout(t) => Logout(t);
      case LogoutAll(u) => LogoutAll(u);
    }

    method ServeFactor(e: FactorEvent)
      requires Valid()
      modifies this
      ensures Rows() == FactorStep(old(Rows()), e)
      ensures Valid()
    {
      ReachStep(Rows(), Factor(e));
      match e
      case BeginSetup(u) => BeginSetup(u);
      case ConfirmRead(r, u, t) => ConfirmRead(r, u, t);
      case ConfirmCommit(r) => ConfirmCommit(r);
      case VerifyRead(r, c, p) => VerifyRead(r, c, p);
      case VerifyCommit(r) => VerifyCommit(r);
      case StepUpRead(r, u, p, a) => StepUpRead(r, u, p, a);
      case StepUpCommit(r) => StepUpCommit(r);
    }

    /** Any interleaving of steps leaves the rows that `Run` computes. */
    method Serve(events: seq<Event>)
      requires Valid()
      modifies this
      ensures Rows() == Run(old(Rows()), events)
      ensures Valid()
    {
      var i := 0;
      while i < |events|
        invariant 0 <= i <= |events| && Valid()
        invariant Run(Rows(), events[i..]) == Run(old(Rows()), events)
      {
        match events[i] {
          case Signing(a) => ServeSigning(a);
          case Factor(f) => ServeFactor(f);
        }
        i := i + 1;
      }
    }

    /** In every reachable state: families are chains, factors are single-use, and enabled users are guarded. */
    lemma Guarantees()
      requires Valid()
      ensures SignInGuard.AuthOk(Rows())
    {
      SignInGuard.ReachableIsGuarded(Rows());
    }
  }
}
