/**
  Sessions and second factors together: while two-factor sign-in is enabled for a user,
  no unrevoked session of that user escapes it.
*/
module SignInGuard {
  import opened Common
  import opened Auth
  import opened SessionFamilies
  import opened SecondFactor

  ghost predicate UsersOk(s: Db) {
    && (forall u :: u in s.users ==> u < s.nextId)
    && (forall u :: u in s.credentials ==> u in s.users)
  }

  ghost predicate AuthOk(s: Db) {
    && SessionsOk(s) && FactorsOk(s) && UsersOk(s)
    && Guarded(s.sessions, s.credentials, s.log)
  }

  lemma SigningKeepsUsers(s: Db, e: AuthEvent)
    requires UsersOk(s)
    ensures UsersOk(AuthStep(s, e))
  {
  }

  lemma FactorKeepsUsers(s: Db, e: FactorEvent)
    requires UsersOk(s)
    ensures UsersOk(FactorStep(s, e))
  {
  }

  lemma OpenedGrows(log: seq<Fact>, more: seq<Fact>, session: Id, credential: Id)
    requires OpenedAfterEnabling(log, session, credential)
    ensures OpenedAfterEnabling(log + more, session, credential)
  {
    var i, j :| 0 <= i < j && SignsIn(log, j, session, credential) && log[i].Enabled? && log[i].credential == credential;
    assert (log + more)[i] == log[i] && SignsIn(log + more, j, session, credential);
  }

  /** Credentials and history stand still: revocation and rotation keep the guard. */
  lemma ChangeKeepsGuard(s: Db, c: Change)
    requires AuthOk(s) && Allowed(s, c)
    requires c.OpenedFor? ==> !IsEnabled(s, c.user)
    ensures Guarded(Apply(s, c), s.credentials, s.log)
  {
  }

  /** More history keeps the guard, as long as the enabled credentials were enabled before. */
  lemma HistoryKeepsGuard(sessions: map<Id, Session>, before: map<Id, Credential>, after: map<Id, Credential>,
                          log: seq<Fact>, more: seq<Fact>)
    requires Guarded(sessions, before, log)
    requires forall u :: u in after && after[u].enabledAt.Some? ==>
               u in before && before[u].enabledAt.Some? && before[u].id == after[u].id
    ensures Guarded(sessions, after, log + more)
  {
    forall id | id in sessions && sessions[id].Live()
                && sessions[id].user in after && after[sessions[id].user].enabledAt.Some?
      ensures OpenedAfterEnabling(log + more, sessions[id].family, after[sessions[id].user].id)
    {
      OpenedGrows(log, more, sessions[id].family, after[sessions[id].user].id);
    }
  }

  /** Enabling revokes every session of the user in the same transaction. */
  lemma EnablingKeepsGuard(sessions: map<Id, Session>, credentials: map<Id, Credential>, log: seq<Fact>, f: Fact,
                           u: Id, row: Credential, at: Time)
    requires Guarded(sessions, credentials, log)
    ensures Guarded(Revoke(sessions, OfUser(sessions, u), at, Administrative), credentials[u := row], log + [f])
  {
    var after := Revoke(sessions, OfUser(sessions, u), at, Administrative);
    forall id | id in after && after[id].Live()
                && after[id].user in credentials[u := row] && credentials[u := row][after[id].user].enabledAt.Some?
      ensures OpenedAfterEnabling(log + [f], after[id].family, credentials[u := row][after[id].user].id)
    {
      assert id !in OfUser(sessions, u) && sessions[id].Live();
      OpenedGrows(log, [f], sessions[id].family, credentials[sessions[id].user].id);
    }
  }

  /** A session opened with a factor just claimed on a credential that the history shows enabled before. */
  lemma OpeningKeepsGuard(sessions: map<Id, Session>, credentials: map<Id, Credential>, log: seq<Fact>,
                          id: Id, u: Id, expiresAt: Time)
    requires Guarded(sessions, credentials, log)
    requires u in credentials && |log| >= 2 && WasEnabled(log[..|log| - 2], credentials[u].id)
    requires log[|log| - 2].Claimed? && log[|log| - 2].credential == credentials[u].id && log[|log| - 1].Consumed?
    ensures Guarded(Open(sessions, id, u, expiresAt), credentials, log + [Opened(id, credentials[u].id)])
  {
    var f := Opened(id, credentials[u].id);
    var before := log[..|log| - 2];
    var i :| 0 <= i < |before| && before[i].Enabled? && before[i].credential == credentials[u].id;
    var grown := log + [f];
    assert grown[i] == before[i] && SignsIn(grown, |log| - 2, id, credentials[u].id);
    assert OpenedAfterEnabling(grown, id, credentials[u].id);
    HistoryKeepsGuard(sessions, credentials, credentials, log, [f]);
  }

  lemma ConfirmKeepsGuard(s: Db, r: Id)
    requires AuthOk(s)
    ensures var t := DoConfirmCommit(s, r); Guarded(t.sessions, t.credentials, t.log)
  {
    if r in s.inflight && s.inflight[r].Confirmation? && s.inflight[r].user in s.credentials {
      var p := s.inflight[r];
      EnablingKeepsGuard(s.sessions, s.credentials, s.log, Enabled(p.credential, p.step), p.user,
                         s.credentials[p.user].(enabledAt := Some(s.clock), lastStep := Some(p.step)), s.clock);
    }
  }

  lemma VerifiedHistoryKeepsGuard(s: Db, u: Id, c: Id, proof: Proof, now: Time, challenge: Id)
    requires AuthOk(s) && CanClaim(s, u, c, proof)
    ensures var t := Claim(s, u, c, proof, now);
            && Guarded(s.sessions, t.credentials, t.log + [Consumed(challenge)]) && WasEnabled(s.log, c)
            && u in t.credentials && t.credentials[u].id == c
  {
    var t := Claim(s, u, c, proof, now);
    ClaimKeepsGuard(s, u, c, proof, now);
    ClaimMeansEnabled(s, u, c, proof);
    HistoryKeepsGuard(s.sessions, t.credentials, t.credentials, t.log, [Consumed(challenge)]);
  }

  lemma SignInKeepsGuard(sessions: map<Id, Session>, credentials: map<Id, Credential>, log: seq<Fact>, proof: Proof,
                         challenge: Id, id: Id, u: Id, expiresAt: Time)
    requires u in credentials && WasEnabled(log, credentials[u].id)
    requires Guarded(sessions, credentials, log + [Claimed(credentials[u].id, proof)] + [Consumed(challenge)])
    ensures Guarded(Open(sessions, id, u, expiresAt), credentials,
                    log + [Claimed(credentials[u].id, proof)] + [Consumed(challenge)] + [Opened(id, credentials[u].id)])
  {
    var grown := log + [Claimed(credentials[u].id, proof)] + [Consumed(challenge)];
    assert grown[..|grown| - 2] == log;
    OpeningKeepsGuard(sessions, credentials, grown, id, u, expiresAt);
  }

  /** A session opened with a claimed factor and its challenge. */
  lemma VerifiedKeepsGuard(s: Db, u: Id, c: Id, proof: Proof, now: Time, challenge: Id)
    requires AuthOk(s) && CanClaim(s, u, c, proof)
    ensures var t := Claim(s, u, c, proof, now);
            Guarded(Open(s.sessions, s.nextId, u, s.clock + s.refreshTtl), t.credentials, t.log + [Consumed(challenge)] + [Opened(s.nextId, c)])
  {
    VerifiedHistoryKeepsGuard(s, u, c, proof, now, challenge);
    var t := Claim(s, u, c, proof, now);
    assert t.log == s.log + [Claimed(c, proof)];
    SignInKeepsGuard(s.sessions, t.credentials, s.log, proof, challenge, s.nextId, u, s.clock + s.refreshTtl);
  }

  /** The verification `r` would be committed now. */
  predicate Commits(s: Db, r: Id) {
    && r in s.inflight && s.inflight[r].Verification?
    && ChallengeOpen(s, s.inflight[r].challenge, s.inflight[r].startedAt)
    && CanClaim(s, s.inflight[r].user, s.inflight[r].credential, s.inflight[r].proof)
  }

  lemma VerifyCommitMoves(s: Db, r: Id)
    ensures var t := DoVerifyCommit(s, r);
            if Commits(s, r) then
              var p := s.inflight[r];
              var claimed := Claim(s, p.user, p.credential, p.proof, p.startedAt);
              && t.sessions == Open(s.sessions, s.nextId, p.user, s.clock + s.refreshTtl) && t.credentials == claimed.credentials
              && t.log == claimed.log + [Consumed(p.challenge)] + [Opened(s.nextId, p.credential)]
            else
              t.sessions == s.sessions && t.credentials == s.credentials && t.log == s.log
  {
  }

  lemma VerifyKeepsGuard(s: Db, r: Id)
    requires AuthOk(s)
    ensures var t := DoVerifyCommit(s, r); Guarded(t.sessions, t.credentials, t.log)
  {
    VerifyCommitMoves(s, r);
    if Commits(s, r) {
      var p := s.inflight[r];
      VerifiedKeepsGuard(s, p.user, p.credential, p.proof, p.startedAt, p.challenge);
    }
  }

  lemma ClaimKeepsGuard(s: Db, u: Id, c: Id, proof: Proof, now: Time)
    requires AuthOk(s) && CanClaim(s, u, c, proof)
    ensures var t := Claim(s, u, c, proof, now);
            Guarded(t.sessions, t.credentials, t.log) && WasEnabled(t.log, c)
            && u in t.credentials && t.credentials[u].id == c
  {
    var t := Claim(s, u, c, proof, now);
    ClaimMeansEnabled(s, u, c, proof);
    WasEnabledGrows(s.log, [Claimed(c, proof)], c);
    HistoryKeepsGuard(s.sessions, s.credentials, t.credentials, s.log, [Claimed(c, proof)]);
  }

  /** Removing a credential and revoking the user's sessions. */
  lemma RemovingKeepsGuard(sessions: map<Id, Session>, credentials: map<Id, Credential>, log: seq<Fact>, u: Id, at: Time)
    requires Guarded(sessions, credentials, log)
    ensures Guarded(Revoke(sessions, OfUser(sessions, u), at, LoggedOutAll), credentials - {u}, log)
  {
  }

  lemma StepUpKeepsGuard(s: Db, r: Id)
    requires AuthOk(s)
    ensures var t := DoStepUpCommit(s, r); Guarded(t.sessions, t.credentials, t.log)
  {
    if r in s.inflight && s.inflight[r].StepUpClaim? {
      var p := s.inflight[r];
      if CanClaim(s, p.user, p.credential, p.proof) {
        var t, claimed := DoStepUpCommit(s, r), Claim(s, p.user, p.credential, p.proof, s.clock);
        ClaimKeepsGuard(s, p.user, p.credential, p.proof, s.clock);
        if p.action.Regenerate? {
          assert t.sessions == s.sessions && t.credentials == claimed.credentials && t.log == claimed.log;
        } else {
          RemovingKeepsGuard(s.sessions, claimed.credentials, claimed.log, p.user, s.clock);
          assert t.sessions == Revoke(s.sessions, OfUser(s.sessions, p.user), s.clock, LoggedOutAll);
          assert t.credentials == claimed.credentials - {p.user} && t.log == claimed.log;
        }
      }
    }
  }

  lemma SigningKeepsGuard(s: Db, e: AuthEvent)
    requires AuthOk(s)
    ensures var t := AuthStep(s, e); Guarded(t.sessions, t.credentials, t.log)
  {
    var c := AuthStepChanges(s, e);
    ChangeKeepsGuard(s, c);
    if !e.FirstFactor? { MostSigningIsQuiet(s, e); }
  }

  lemma FactorKeepsGuard(s: Db, e: FactorEvent)
    requires AuthOk(s)
    ensures var t := FactorStep(s, e); Guarded(t.sessions, t.credentials, t.log)
  {
    match e
    case BeginSetup(u) => BeginSetupKeepsGuard(s, u);
    case ConfirmCommit(r) => ConfirmKeepsGuard(s, r);
    case VerifyCommit(r) => VerifyKeepsGuard(s, r);
    case StepUpCommit(r) => StepUpKeepsGuard(s, r);
    case _ => FactorReadsAreQuiet(s, e);
  }

  lemma BeginSetupKeepsGuard(s: Db, u: Id)
    requires AuthOk(s)
    ensures var t := DoBeginSetup(s, u); Guarded(t.sessions, t.credentials, t.log)
  {
  }

  lemma StepKeepsAuth(s: Db, e: Event)
    requires AuthOk(s)
    ensures AuthOk(Step(s, e))
  {
    StepKeepsSessions(s, e);
    StepKeepsFactors(s, e);
    match e
    case Signing(a) =>
      SigningKeepsUsers(s, a);
      SigningKeepsGuard(s, a);
    case Factor(f) =>
      FactorKeepsUsers(s, f);
      FactorKeepsGuard(s, f);
  }

  lemma {:induction false} RunKeepsAuth(s: Db, events: seq<Event>)
    requires AuthOk(s)
    ensures AuthOk(Run(s, events))
    decreases |events|
  {
    if events != [] {
      StepKeepsAuth(s, events[0]);
      RunKeepsAuth(Step(s, events[0]), events[1..]);
    }
  }

  /**
    In every run, an unrevoked session of a user with two-factor enabled is the last link of a
    rotation chain whose first session was opened by a second factor claimed after enablement.
  */
  lemma EnabledUsersAreGuarded(refreshTtl: nat, events: seq<Event>, token: Id)
    requires var s := Run(Empty(refreshTtl), events);
             token in s.sessions && s.sessions[token].Live() && IsEnabled(s, s.sessions[token].user)
    ensures var s := Run(Empty(refreshTtl), events);
            exists order :: IsChain(s.sessions, s.sessions[token].family, order)
              && order[|order| - 1] == token
              && OpenedAfterEnabling(s.log, order[0], s.credentials[s.sessions[token].user].id)
  {
    var s := Run(Empty(refreshTtl), events);
    RunKeepsAuth(Empty(refreshTtl), events);
    FamiliesAreChains(refreshTtl, events, token);
    var order :| IsChain(s.sessions, s.sessions[token].family, order);
    LiveIsLast(s.sessions, s.sessions[token].family, order, token);
    assert Guarded(s.sessions, s.credentials, s.log);
  }

  /** A chain starts with the session its family is named after, and ends with its live session. */
  lemma LiveIsLast(sessions: map<Id, Session>, family: Id, order: seq<Id>, token: Id)
    requires IsChain(sessions, family, order) && token in sessions && sessions[token].family == family && sessions[token].Live()
    ensures order[|order| - 1] == token && order[0] == family
  {
    var k :| 0 <= k < |order| && order[k] == token;
    assert Node(sessions, family, order, k);
    assert Node(sessions, family, order, 0);
  }

  /** Presenting a rotated token ends its family, whatever runs before, between and after. */
  lemma ReusedTokenEndsFamily(refreshTtl: nat, before: seq<Event>, req: Id, token: Id,
                              between: seq<Event>, later: seq<Event>)
    requires var s := Run(Empty(refreshTtl), before);
             req !in s.inflight && token in s.sessions && s.sessions[token].IsRotated()
    requires Signing(RevokeFamily(req)) !in between
    ensures var s := Run(Empty(refreshTtl), before);
            var noticed := Run(Step(s, Signing(RefreshRead(req, token))), between);
            Dead(Run(Step(noticed, Signing(RevokeFamily(req))), later).sessions, s.sessions[token].family)
  {
    var s := Run(Empty(refreshTtl), before);
    RunKeepsSessions(Empty(refreshTtl), before);
    StepKeepsSessions(s, Signing(RefreshRead(req, token)));
    ReuseObliges(s, req, token);
    ReuseKillsFamily(Step(s, Signing(RefreshRead(req, token))), req, s.sessions[token].family, between, later);
  }

  /** So does losing the race: a commit that finds its session revoked since it was read. */
  lemma LostRaceEndsFamily(refreshTtl: nat, before: seq<Event>, req: Id, between: seq<Event>, later: seq<Event>)
    requires var s := Run(Empty(refreshTtl), before);
             req in s.inflight && s.inflight[req].Rotation? && s.inflight[req].token in s.sessions
             && !s.sessions[s.inflight[req].token].Live()
    requires Signing(RevokeFamily(req)) !in between
    ensures var s := Run(Empty(refreshTtl), before);
            var noticed := Run(Step(s, Signing(RefreshCommit(req))), between);
            Dead(Run(Step(noticed, Signing(RevokeFamily(req))), later).sessions, s.inflight[req].snapshot.family)
  {
    var s := Run(Empty(refreshTtl), before);
    RunKeepsSessions(Empty(refreshTtl), before);
    StepKeepsSessions(s, Signing(RefreshCommit(req)));
    ReuseObliges(s, req, s.inflight[req].token);
    ReuseKillsFamily(Step(s, Signing(RefreshCommit(req))), req, s.inflight[req].snapshot.family, between, later);
  }

  /**
    An undisturbed verification signs in exactly when the challenge is open, the user active
    and enabled, and the factor unused; and then neither the challenge nor the factor works again.
  */
  lemma VerifySignsIn(s: Db, req: Id, ch: Id, proof: Proof)
    requires req !in s.inflight && ch in s.challenges
    ensures var c := s.challenges[ch];
            var t := Step(Step(s, Factor(VerifyRead(req, ch, proof))), Factor(VerifyCommit(req)));
            if c.consumedAt.None? && s.clock < c.expiresAt && Active(s, c.user) && IsEnabled(s, c.user)
               && Resolves(s, s.credentials[c.user], proof)
            then
              && t.sessions == s.sessions[s.nextId := Session(c.user, s.nextId, s.clock + s.refreshTtl, None, None)]
              && t.challenges[ch].consumedAt.Some?
              && !Resolves(t, t.credentials[c.user], proof)
            else
              t == s
  {
    var c := s.challenges[ch];
    var r := DoVerifyRead(s, req, ch, proof);
    if c.consumedAt.None? && s.clock < c.expiresAt && Active(s, c.user) && IsEnabled(s, c.user)
       && Resolves(s, s.credentials[c.user], proof) {
      assert r == s.(inflight := s.inflight[req := Verification(ch, c.user, s.credentials[c.user].id, proof, s.clock)]);
      CommitSignsIn(r, req);
    } else {
      assert r == s && DoVerifyCommit(s, req) == s;
    }
  }

  /** A commit whose challenge is open and whose factor is unused signs in and uses both up. */
  lemma CommitSignsIn(r: Db, req: Id)
    requires req in r.inflight && r.inflight[req].Verification?
    requires var p := r.inflight[req]; ChallengeOpen(r, p.challenge, p.startedAt) && CanClaim(r, p.user, p.credential, p.proof)
    ensures var p, t := r.inflight[req], DoVerifyCommit(r, req);
            && t.sessions == r.sessions[r.nextId := Session(p.user, r.nextId, r.clock + r.refreshTtl, None, None)]
            && p.challenge in t.challenges && t.challenges[p.challenge].consumedAt.Some?
            && p.user in t.credentials && !Resolves(t, t.credentials[p.user], p.proof)
  {
  }

  /** What holds in every state some run leads to. */
  lemma ReachableIsGuarded(s: Db)
    requires Reachable(s)
    ensures AuthOk(s)
  {
    var ttl: nat, events: seq<Event> :| s == Run(Empty(ttl), events);
    RunKeepsAuth(Empty(ttl), events);
  }
}
