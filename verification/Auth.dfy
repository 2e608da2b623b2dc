/**
  Refresh sessions and two-factor sign-in (backend/src/auth).

  `Db` holds the rows the two services share. Every `Event` is one atomic database
  step of some request; what a request remembers between its read and its commit is
  kept in `inflight`, so any number of requests may interleave at those points.
  Opaque tokens are fresh and hashed injectively, so presenting a token is modelled
  as naming the row that stores its hash; the same holds for recovery codes.
  `log` is a history of committed security facts. No step reads it.
*/
module Auth {
  import opened Common

  const LOGIN_CHALLENGE_TTL: nat := 5 * MINUTE
  const BACKUP_CODE_COUNT: nat := 10

  datatype Reason = Rotated | LoggedOut | LoggedOutAll | ReuseDetected | Administrative

  datatype Revocation = Revocation(at: Time, reason: Reason)

  datatype Session = Session(
    user: Id, family: Id, expiresAt: Time, revoked: Option<Revocation>, replacedBy: Option<Id>)
  {
    predicate Live() { revoked.None? }
    predicate IsRotated() { revoked.Some? && revoked.value.reason == Rotated }
  }

  /** Keyed by user, which is unique; `id` is the credential's own identifier and `secret` names the stored secret. */
  datatype Credential = Credential(id: Id, enabledAt: Option<Time>, lastStep: Option<nat>, secret: Id)

  /** `user` is part of the stored hash of a recovery code. */
  datatype Code = Code(credential: Id, user: Id, consumedAt: Option<Time>)

  datatype Challenge = Challenge(user: Id, expiresAt: Time, consumedAt: Option<Time>)

  datatype Proof = Totp(step: nat) | Backup(code: Id)

  datatype StepUp = Regenerate | Disable

  datatype Pending =
    | Rotation(token: Id, snapshot: Session)
    | FamilyRevocation(family: Id)
    | Confirmation(user: Id, credential: Id, step: nat, secret: Id)
    | Verification(challenge: Id, user: Id, credential: Id, proof: Proof, startedAt: Time)
    | StepUpClaim(user: Id, credential: Id, proof: Proof, action: StepUp)

  datatype Fact =
    | Enabled(credential: Id, step: nat)
    | Claimed(credential: Id, proof: Proof)
    | Consumed(challenge: Id)
    | Opened(session: Id, credential: Id)

  datatype Db = Db(
    clock: Time,
    nextId: Id,
    refreshTtl: nat,
    users: map<Id, bool>,
    sessions: map<Id, Session>,
    credentials: map<Id, Credential>,
    codes: map<Id, Code>,
    challenges: map<Id, Challenge>,
    inflight: map<Id, Pending>,
    log: seq<Fact>)

  /** Steps of `AuthService`, the passing of time, and status changes made outside this code. */
  datatype AuthEvent =
    | Tick(elapsed: nat)
    | SetActive(user: Id, active: bool)
    | Register
    | FirstFactor(user: Id)
    | RefreshRead(req: Id, token: Id)
    | RefreshCommit(req: Id)
    | RevokeFamily(req: Id)
    | Logout(token: Id)
    | LogoutAll(user: Id)

  /** Steps of `TwoFactorService`. */
  datatype FactorEvent =
    | BeginSetup(user: Id)
    | ConfirmRead(req: Id, user: Id, step: nat)
    | ConfirmCommit(req: Id)
    | VerifyRead(req: Id, challenge: Id, proof: Proof)
    | VerifyCommit(req: Id)
    | StepUpRead(req: Id, user: Id, proof: Proof, action: StepUp)
    | StepUpCommit(req: Id)

  datatype Event = Signing(auth: AuthEvent) | Factor(factor: FactorEvent)

  // ---------------------------------------------------------------- table updates

  function OfFamily(sessions: map<Id, Session>, family: Id): set<Id> {
    set id | id in sessions && sessions[id].family == family
  }

  function OfUser(sessions: map<Id, Session>, user: Id): set<Id> {
    set id | id in sessions && sessions[id].user == user
  }

  /** `updateMany` over the unrevoked rows among `ids`. */
  function Revoke(sessions: map<Id, Session>, ids: set<Id>, at: Time, reason: Reason): map<Id, Session> {
    map id | id in sessions ::
      if id in ids && sessions[id].Live()
      then sessions[id].(revoked := Some(Revocation(at, reason)))
      else sessions[id]
  }

  function Open(sessions: map<Id, Session>, id: Id, user: Id, expiresAt: Time): map<Id, Session> {
    sessions[id := Session(user, id, expiresAt, None, None)]
  }

  function Rotate(sessions: map<Id, Session>, token: Id, successor: Id, x: Session, at: Time, expiresAt: Time)
    : map<Id, Session>
    requires token in sessions
  {
    sessions[token := sessions[token].(revoked := Some(Revocation(at, Rotated)), replacedBy := Some(successor))]
            [successor := Session(x.user, x.family, expiresAt, None, None)]
  }

  function WithoutCodes(codes: map<Id, Code>, credential: Id): map<Id, Code> {
    map k | k in codes && codes[k].credential != credential :: codes[k]
  }

  /** Ten fresh recovery codes replace whatever the credential had. */
  function FreshCodes(codes: map<Id, Code>, credential: Id, user: Id, first: Id): map<Id, Code> {
    WithoutCodes(codes, credential)
    + (map k | k in FreshIds(first, BACKUP_CODE_COUNT) :: Code(credential, user, None))
  }

  function WithoutChallenges(challenges: map<Id, Challenge>, user: Id): map<Id, Challenge> {
    map c | c in challenges && challenges[c].user != user :: challenges[c]
  }

  function WithoutSpentChallenges(challenges: map<Id, Challenge>, user: Id, now: Time): map<Id, Challenge> {
    map c | c in challenges
         && !(challenges[c].user == user && (challenges[c].expiresAt <= now || challenges[c].consumedAt.Some?))
      :: challenges[c]
  }

  predicate Active(s: Db, user: Id) {
    user in s.users && s.users[user]
  }

  predicate IsEnabled(s: Db, user: Id) {
    user in s.credentials && s.credentials[user].enabledAt.Some?
  }

  /** The read-side check of a second factor, against the credential as read. */
  predicate Resolves(s: Db, credential: Credential, proof: Proof) {
    match proof
    case Totp(step) => credential.lastStep.None? || credential.lastStep.value < step
    case Backup(k) => k in s.codes && s.codes[k].credential == credential.id && s.codes[k].consumedAt.None?
  }

  /** The commit-side condition: the claiming update would count one row, and the credential row exists. */
  predicate CanClaim(s: Db, user: Id, credential: Id, proof: Proof) {
    && user in s.credentials
    && s.credentials[user].id == credential
    && match proof
       case Totp(step) =>
         && s.credentials[user].enabledAt.Some?
         && (s.credentials[user].lastStep.None? || s.credentials[user].lastStep.value < step)
       case Backup(k) =>
         k in s.codes && s.codes[k].credential == credential && s.codes[k].consumedAt.None?
  }

  function ClaimedCredentials(s: Db, user: Id, proof: Proof): map<Id, Credential>
    requires user in s.credentials
  {
    match proof
    case Totp(step) => s.credentials[user := s.credentials[user].(lastStep := Some(step))]
    case Backup(_) => s.credentials
  }

  function ClaimedCodes(s: Db, proof: Proof, now: Time): map<Id, Code>
    requires proof.Backup? ==> proof.code in s.codes
  {
    match proof
    case Totp(_) => s.codes
    case Backup(k) => s.codes[k := s.codes[k].(consumedAt := Some(now))]
  }

  function Claim(s: Db, user: Id, credential: Id, proof: Proof, now: Time): Db
    requires CanClaim(s, user, credential, proof)
  {
    s.(credentials := ClaimedCredentials(s, user, proof),
       codes := ClaimedCodes(s, proof, now),
       log := s.log + [Claimed(credential, proof)])
  }

  // ---------------------------------------------------------------- steps

  function DoFirstFactor(s: Db, user: Id): Db {
    if !Active(s, user) then
      s
    else if IsEnabled(s, user) then
      s.(challenges := WithoutSpentChallenges(s.challenges, user, s.clock)
                       [s.nextId := Challenge(user, s.clock + LOGIN_CHALLENGE_TTL, None)],
         nextId := s.nextId + 1)
    else
      s.(sessions := Open(s.sessions, s.nextId, user, s.clock + s.refreshTtl), nextId := s.nextId + 1)
  }

  function DoRefreshRead(s: Db, req: Id, token: Id): Db {
    if req in s.inflight || token !in s.sessions then
      s
    else
      var x := s.sessions[token];
      if x.revoked.Some? then
        if x.IsRotated() then s.(inflight := s.inflight[req := FamilyRevocation(x.family)]) else s
      else if x.expiresAt <= s.clock || !Active(s, x.user) then
        s
      else
        s.(inflight := s.inflight[req := Rotation(token, x)])
  }

  function DoRefreshCommit(s: Db, req: Id): Db {
    if req !in s.inflight || !s.inflight[req].Rotation? then
      s
    else
      var p := s.inflight[req];
      if p.token in s.sessions && s.sessions[p.token].Live() then
        s.(sessions := Rotate(s.sessions, p.token, s.nextId, p.snapshot, s.clock, s.clock + s.refreshTtl),
           nextId := s.nextId + 1,
           inflight := s.inflight - {req})
      else
        s.(inflight := s.inflight[req := FamilyRevocation(p.snapshot.family)])
  }

  function DoRevokeFamily(s: Db, req: Id): Db {
    if req !in s.inflight || !s.inflight[req].FamilyRevocation? then
      s
    else
      s.(sessions := Revoke(s.sessions, OfFamily(s.sessions, s.inflight[req].family), s.clock, ReuseDetected),
         inflight := s.inflight - {req})
  }

  /** `logoutAll`, and the effect of `resetPassword` on these tables. */
  function DoLogoutAll(s: Db, user: Id): Db {
    s.(sessions := Revoke(s.sessions, OfUser(s.sessions, user), s.clock, LoggedOutAll),
       challenges := WithoutChallenges(s.challenges, user))
  }

  function DoBeginSetup(s: Db, user: Id): Db {
    if !Active(s, user) || IsEnabled(s, user) then
      s
    else
      var id := if user in s.credentials then s.credentials[user].id else s.nextId;
      s.(credentials := s.credentials[user := Credential(id, None, None, s.nextId)],
         codes := WithoutCodes(s.codes, id),
         nextId := s.nextId + 1)
  }

  /** `step` is the time step the authenticator code verified to, under the secret that was read. */
  function DoConfirmRead(s: Db, req: Id, user: Id, step: nat): Db {
    if req in s.inflight || user !in s.credentials || IsEnabled(s, user) then
      s
    else
      s.(inflight := s.inflight[req := Confirmation(user, s.credentials[user].id, step, s.credentials[user].secret)])
  }

  function DoConfirmCommit(s: Db, req: Id): Db {
    if req !in s.inflight || !s.inflight[req].Confirmation? then
      s
    else
      var p := s.inflight[req];
      if p.user in s.credentials && s.credentials[p.user].id == p.credential && !IsEnabled(s, p.user) then
        s.(credentials := s.credentials[p.user := s.credentials[p.user].(enabledAt := Some(s.clock), lastStep := Some(p.step))],
           codes := FreshCodes(s.codes, p.credential, p.user, s.nextId),
           sessions := Revoke(s.sessions, OfUser(s.sessions, p.user), s.clock, Administrative),
           nextId := s.nextId + BACKUP_CODE_COUNT,
           inflight := s.inflight - {req},
           log := s.log + [Enabled(p.credential, p.step)])
      else
        s.(inflight := s.inflight - {req})
  }

  function DoVerifyRead(s: Db, req: Id, challenge: Id, proof: Proof): Db {
    if req in s.inflight || challenge !in s.challenges then
      s
    else
      var c := s.challenges[challenge];
      if c.consumedAt.None? && s.clock < c.expiresAt && Active(s, c.user) && IsEnabled(s, c.user)
         && Resolves(s, s.credentials[c.user], proof) then
        s.(inflight := s.inflight[req := Verification(challenge, c.user, s.credentials[c.user].id, proof, s.clock)])
      else
        s
  }

  predicate ChallengeOpen(s: Db, challenge: Id, startedAt: Time) {
    && challenge in s.challenges
    && s.challenges[challenge].consumedAt.None?
    && startedAt < s.challenges[challenge].expiresAt
  }

  function DoVerifyCommit(s: Db, req: Id): Db {
    if req !in s.inflight || !s.inflight[req].Verification? then
      s
    else
      var p := s.inflight[req];
      if ChallengeOpen(s, p.challenge, p.startedAt) && CanClaim(s, p.user, p.credential, p.proof) then
        var t := Claim(s, p.user, p.credential, p.proof, p.startedAt);
        t.(challenges := s.challenges[p.challenge := s.challenges[p.challenge].(consumedAt := Some(p.startedAt))],
           sessions := Open(s.sessions, s.nextId, p.user, s.clock + s.refreshTtl),
           nextId := s.nextId + 1,
           inflight := s.inflight - {req},
           log := t.log + [Consumed(p.challenge)] + [Opened(s.nextId, p.credential)])
      else
        s.(inflight := s.inflight - {req})
  }

  /** The password check of `verifyStepUp` is outside the model; a failing one is no event. */
  function DoStepUpRead(s: Db, req: Id, user: Id, proof: Proof, action: StepUp): Db {
    if req !in s.inflight && Active(s, user) && IsEnabled(s, user) && Resolves(s, s.credentials[user], proof) then
      s.(inflight := s.inflight[req := StepUpClaim(user, s.credentials[user].id, proof, action)])
    else
      s
  }

  function DoStepUpCommit(s: Db, req: Id): Db {
    if req !in s.inflight || !s.inflight[req].StepUpClaim? then
      s
    else
      var p := s.inflight[req];
      if !CanClaim(s, p.user, p.credential, p.proof) then
        s.(inflight := s.inflight - {req})
      else
        var t := Claim(s, p.user, p.credential, p.proof, s.clock).(inflight := s.inflight - {req});
        match p.action
        case Regenerate =>
          t.(codes := FreshCodes(t.codes, p.credential, p.user, s.nextId), nextId := s.nextId + BACKUP_CODE_COUNT)
        case Disable =>
          t.(challenges := WithoutChallenges(s.challenges, p.user),
             credentials := t.credentials - {p.user},
             codes := WithoutCodes(t.codes, p.credential),
             sessions := Revoke(s.sessions, OfUser(s.sessions, p.user), s.clock, LoggedOutAll))
  }

  function DoRegister(s: Db): Db {
    s.(users := s.users[s.nextId := true],
       sessions := Open(s.sessions, s.nextId + 1, s.nextId, s.clock + s.refreshTtl),
       nextId := s.nextId + 2)
  }

  function AuthStep(s: Db, e: AuthEvent): Db {
    match e
    case Tick(d) => s.(clock := s.clock + d)
    case SetActive(u, b) => if u in s.users then s.(users := s.users[u := b]) else s
    case Register => DoRegister(s)
    case FirstFactor(u) => DoFirstFactor(s, u)
    case RefreshRead(r, t) => DoRefreshRead(s, r, t)
    case RefreshCommit(r) => DoRefreshCommit(s, r)
    case RevokeFamily(r) => DoRevokeFamily(s, r)
    case Logout(t) => s.(sessions := Revoke(s.sessions, {t}, s.clock, LoggedOut))
    case LogoutAll(u) => DoLogoutAll(s, u)
  }

  function FactorStep(s: Db, e: FactorEvent): Db {
    match e
    case BeginSetup(u) => DoBeginSetup(s, u)
    case ConfirmRead(r, u, t) => DoConfirmRead(s, r, u, t)
    case ConfirmCommit(r) => DoConfirmCommit(s, r)
    case VerifyRead(r, c, p) => DoVerifyRead(s, r, c, p)
    case VerifyCommit(r) => DoVerifyCommit(s, r)
    case StepUpRead(r, u, p, a) => DoStepUpRead(s, r, u, p, a)
    case StepUpCommit(r) => DoStepUpCommit(s, r)
  }

  function Step(s: Db, e: Event): Db {
    match e
    case Signing(a) => AuthStep(s, a)
    case Factor(f) => FactorStep(s, f)
  }

  function Run(s: Db, events: seq<Event>): Db
    decreases |events|
  {
    if events == [] then s else Run(Step(s, events[0]), events[1..])
  }

  function Empty(refreshTtl: nat): Db {
    Db(0, 0, refreshTtl, map[], map[], map[], map[], map[], map[], [])
  }

  lemma {:induction false} RunAppend(s: Db, a: seq<Event>, b: seq<Event>)
    ensures Run(s, a + b) == Run(Run(s, a), b)
    decreases |a|
  {
    if a == [] {
      assert a + b == b;
    } else {
      assert (a + b)[1..] == a[1..] + b;
      RunAppend(Step(s, a[0]), a[1..], b);
    }
  }

  /** Some run leads here. */
  ghost predicate Reachable(s: Db) {
    exists ttl: nat, events: seq<Event> :: s == Run(Empty(ttl), events)
  }

  lemma ReachStep(s: Db, e: Event)
    requires Reachable(s)
    ensures Reachable(Step(s, e))
  {
    var ttl: nat, events: seq<Event> :| s == Run(Empty(ttl), events);
    RunAppend(Empty(ttl), events, [e]);
    assert Run(s, [e]) == Run(Step(s, e), [e][1..]);
    assert Step(s, e) == Run(Empty(ttl), events + [e]);
  }
}
