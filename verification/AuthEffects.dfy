/**
  What each request of sign-in and two-factor does when nothing else happens in between, said in
  terms of the rows before and after.
*/
module AuthEffects {
  import opened Common
  import opened Auth
  import opened SessionFamilies
  import opened SecondFactor
  import opened SignInGuard

  // ---------------------------------------------------------------- signing in

  /** The sessions of `s` and one more: live, of `user`, the first of its own family. */
  predicate OneMoreSession(s: Db, t: Db, id: Id, user: Id) {
    && id in t.sessions && t.sessions == s.sessions[id := t.sessions[id]]
    && t.sessions[id].user == user && t.sessions[id].family == id && t.sessions[id].revoked.None?
    && t.sessions[id].replacedBy.None? && t.sessions[id].expiresAt == s.clock + s.refreshTtl
  }

  /** Whoever registers is active and signed in, and nobody else is affected. */
  lemma RegisterSignsIn(s: Db)
    ensures var t := Step(s, Signing(Register));
            && t.users == s.users[s.nextId := true] && OneMoreSession(s, t, s.nextId + 1, s.nextId)
            && t.credentials == s.credentials && t.codes == s.codes && t.challenges == s.challenges && t.inflight == s.inflight
  {
  }

  predicate Spent(c: Challenge, now: Time) {
    c.expiresAt <= now || c.consumedAt.Some?
  }

  /**
    A first factor opens a session for an active user without two-factor, and for one with it issues
    a challenge for five minutes in place of the user's spent ones; for anyone else it does nothing.
  */
  lemma FirstFactorExactly(s: Db, u: Id)
    ensures var t := Step(s, Signing(FirstFactor(u)));
            if u !in s.users || !s.users[u] then t == s
            else if u !in s.credentials || s.credentials[u].enabledAt.None? then
              OneMoreSession(s, t, s.nextId, u) && t.challenges == s.challenges
            else
              && t.sessions == s.sessions && s.nextId in t.challenges
              && t.challenges[s.nextId].user == u && t.challenges[s.nextId].consumedAt.None?
              && t.challenges[s.nextId].expiresAt == s.clock + 5 * MINUTE
              && forall c :: c != s.nextId ==>
                   (c in t.challenges <==> c in s.challenges && !(s.challenges[c].user == u && Spent(s.challenges[c], s.clock)))
                   && (c in t.challenges ==> t.challenges[c] == s.challenges[c])
  {
  }

  /** The state in which a challenge for `u` has been waiting. */
  lemma ChallengeWaits(s: Db, u: Id, wait: nat) returns (a: Db)
    requires u in s.users && s.users[u] && u in s.credentials && s.credentials[u].enabledAt.Some?
    ensures a == Step(Step(s, Signing(FirstFactor(u))), Signing(Tick(wait)))
    ensures a.clock == s.clock + wait && a.refreshTtl == s.refreshTtl && a.inflight == s.inflight && a.sessions == s.sessions
    ensures a.users == s.users && a.credentials == s.credentials && a.codes == s.codes
    ensures s.nextId in a.challenges && a.challenges[s.nextId] == Challenge(u, s.clock + 5 * MINUTE, None)
  {
    var b := Step(s, Signing(FirstFactor(u)));
    a := Step(b, Signing(Tick(wait)));
    assert b == DoFirstFactor(s, u) && a == b.(clock := b.clock + wait);
  }

  /** Logging in with two-factor: the challenge signs in for five minutes, with a factor that was not used before, and only so. */
  lemma LoginWithSecondFactor(s: Db, u: Id, wait: nat, req: Id, proof: Proof) returns (a: Db, t: Db)
    requires req !in s.inflight && u in s.users && s.users[u] && u in s.credentials && s.credentials[u].enabledAt.Some?
    ensures a == Step(Step(s, Signing(FirstFactor(u))), Signing(Tick(wait)))
    ensures t == Step(Step(a, Factor(VerifyRead(req, s.nextId, proof))), Factor(VerifyCommit(req)))
    ensures if wait < 5 * MINUTE && Unused(s, s.credentials[u], proof) then
              t.sessions == s.sessions[a.nextId := Session(u, a.nextId, a.clock + s.refreshTtl, None, None)]
            else
              t == a
  {
    a := ChallengeWaits(s, u, wait);
    t := Step(Step(a, Factor(VerifyRead(req, s.nextId, proof))), Factor(VerifyCommit(req)));
    VerifySignsIn(a, req, s.nextId, proof);
    assert Resolves(a, a.credentials[u], proof) == Unused(s, s.credentials[u], proof);
  }

  /** A time step above the last accepted one, or a recovery code of the credential that was not consumed. */
  predicate Unused(s: Db, credential: Credential, proof: Proof) {
    match proof
    case Totp(step) => credential.lastStep.Some? ==> credential.lastStep.value < step
    case Backup(k) => k in s.codes && s.codes[k].credential == credential.id && s.codes[k].consumedAt.None?
  }

  // ---------------------------------------------------------------- refreshing

  /** Reading a presented token leads to revoking its family exactly if it was rotated, and to a rotation exactly if it can be used. */
  lemma RefreshReadExactly(s: Db, req: Id, token: Id)
    requires req !in s.inflight && token in s.sessions
    ensures var t, x := Step(s, Signing(RefreshRead(req, token))), s.sessions[token];
            && t == s.(inflight := t.inflight)
            && (forall q :: q != req ==> (q in t.inflight <==> q in s.inflight) && (q in t.inflight ==> t.inflight[q] == s.inflight[q]))
            && (Obliged(t, req, x.family) <==> x.revoked.Some? && x.revoked.value.reason == Rotated)
            && (req in t.inflight && t.inflight[req].Rotation? <==>
                  x.revoked.None? && s.clock < x.expiresAt && x.user in s.users && s.users[x.user])
  {
  }

  /** Revoking a family ends its live sessions, marks them as reuse, and touches no other session. */
  lemma RevokeFamilyExactly(s: Db, req: Id, family: Id)
    requires req in s.inflight && s.inflight[req] == FamilyRevocation(family)
    ensures var t := Step(s, Signing(RevokeFamily(req)));
            && t.sessions.Keys == s.sessions.Keys && t == s.(sessions := t.sessions, inflight := s.inflight - {req})
            && forall id :: id in s.sessions ==>
                 if s.sessions[id].family == family && s.sessions[id].revoked.None?
                 then t.sessions[id] == s.sessions[id].(revoked := Some(Revocation(s.clock, ReuseDetected)))
                 else t.sessions[id] == s.sessions[id]
  {
  }

  // ---------------------------------------------------------------- setting up

  /** Setup begins for an active user who has no enabled credential: a new secret waits, without codes; otherwise nothing happens. */
  lemma BeginSetupExactly(s: Db, u: Id)
    ensures var t := Step(s, Factor(BeginSetup(u)));
            if u in s.users && s.users[u] && (u in s.credentials ==> s.credentials[u].enabledAt.None?) then
              && u in t.credentials && t.credentials[u].enabledAt.None? && t.credentials[u].lastStep.None?
              && t.credentials[u].secret == s.nextId && (u in s.credentials ==> t.credentials[u].id == s.credentials[u].id)
              && (forall v :: v != u ==> (v in t.credentials <==> v in s.credentials) && (v in s.credentials ==> t.credentials[v] == s.credentials[v]))
              && (forall k :: k in t.codes <==> k in s.codes && s.codes[k].credential != t.credentials[u].id)
              && t.sessions == s.sessions && t.challenges == s.challenges && t.inflight == s.inflight && t.users == s.users
            else t == s
  {
  }

  /** Exactly the ten codes from `first` on belong to the credential, and none of them is consumed. */
  ghost predicate TenFreshCodes(t: Db, credential: Id, first: Id) {
    && (forall k :: k in t.codes && t.codes[k].credential == credential ==> first <= k < first + 10 && t.codes[k].consumedAt.None?)
    && (forall k :: first <= k < first + 10 ==> k in t.codes && t.codes[k].credential == credential)
  }

  /** The session has ended now, and not by rotation, so that presenting it again is no reuse. */
  predicate EndedNow(x: Session, y: Session, now: Time) {
    y.revoked.Some? && y.revoked.value.at == now && y.revoked.value.reason != Rotated && y == x.(revoked := y.revoked)
  }

  /** The live sessions of `u` have ended, and all other sessions are as they were. */
  ghost predicate SignedOut(s: Db, t: Db, u: Id) {
    && t.sessions.Keys == s.sessions.Keys
    && forall id :: id in s.sessions ==>
         if s.sessions[id].user == u && s.sessions[id].revoked.None? then EndedNow(s.sessions[id], t.sessions[id], s.clock)
         else t.sessions[id] == s.sessions[id]
  }

  /** Codes of other credentials are as they were. */
  ghost predicate OtherCodesKept(s: Db, t: Db, credential: Id) {
    forall k :: k in s.codes && s.codes[k].credential != credential && k < s.nextId ==> k in t.codes && t.codes[k] == s.codes[k]
  }

  lemma CommitEnables(r: Db, req: Id)
    requires req in r.inflight && r.inflight[req].Confirmation? && r.inflight[req].user in r.credentials
    requires r.credentials[r.inflight[req].user].id == r.inflight[req].credential && r.credentials[r.inflight[req].user].enabledAt.None?
    ensures var p, t := r.inflight[req], DoConfirmCommit(r, req);
            && t.credentials == r.credentials[p.user := r.credentials[p.user].(enabledAt := Some(r.clock), lastStep := Some(p.step))]
            && TenFreshCodes(t, p.credential, r.nextId) && OtherCodesKept(r, t, p.credential) && SignedOut(r, t, p.user)
            && t.inflight == r.inflight - {req}
  {
    var p, t := r.inflight[req], DoConfirmCommit(r, req);
    assert t.codes == FreshCodes(r.codes, p.credential, p.user, r.nextId);
    RenewedCodes(r, t, p.credential, p.user);
  }

  lemma RenewedCodes(r: Db, t: Db, credential: Id, u: Id)
    requires t.codes == FreshCodes(r.codes, credential, u, r.nextId)
    ensures TenFreshCodes(t, credential, r.nextId) && OtherCodesKept(r, t, credential)
  {
  }

  /** An undisturbed confirmation enables a waiting credential with its step and ten codes and signs the user out; otherwise nothing changes. */
  lemma ConfirmExactly(s: Db, req: Id, u: Id, step: nat) returns (t: Db)
    requires req !in s.inflight
    ensures t == Step(Step(s, Factor(ConfirmRead(req, u, step))), Factor(ConfirmCommit(req)))
    ensures if u in s.credentials && s.credentials[u].enabledAt.None? then
              && t.credentials == s.credentials[u := s.credentials[u].(enabledAt := Some(s.clock), lastStep := Some(step))]
              && TenFreshCodes(t, s.credentials[u].id, s.nextId) && OtherCodesKept(s, t, s.credentials[u].id) && SignedOut(s, t, u)
              && t.inflight == s.inflight
            else t == s
  {
    var r := DoConfirmRead(s, req, u, step);
    t := DoConfirmCommit(r, req);
    if u in s.credentials && s.credentials[u].enabledAt.None? {
      assert r == s.(inflight := s.inflight[req := Confirmation(u, s.credentials[u].id, step, s.credentials[u].secret)]);
      CommitEnables(r, req);
      assert s.inflight[req := r.inflight[req]] - {req} == s.inflight;
    } else {
      assert r == s && t == s;
    }
  }

  /** Whatever happened since the read, the commit enables exactly a credential that is still the one read and still waits. */
  lemma ConfirmCommitExactly(r: Db, req: Id, u: Id, credential: Id, step: nat, secret: Id)
    requires req in r.inflight && r.inflight[req] == Confirmation(u, credential, step, secret)
    ensures var t := Step(r, Factor(ConfirmCommit(req)));
            if u in r.credentials && r.credentials[u].id == credential && r.credentials[u].enabledAt.None? then
              t.credentials == r.credentials[u := r.credentials[u].(enabledAt := Some(r.clock), lastStep := Some(step))]
            else t == r.(inflight := r.inflight - {req})
  {
  }

  // ---------------------------------------------------------------- claiming

  /** The factor can still be claimed on the credential that was read. */
  predicate Claimable(r: Db, u: Id, credential: Id, proof: Proof) {
    && u in r.credentials && r.credentials[u].id == credential
    && match proof
       case Totp(step) =>
         r.credentials[u].enabledAt.Some? && (r.credentials[u].lastStep.Some? ==> r.credentials[u].lastStep.value < step)
       case Backup(k) => k in r.codes && r.codes[k].credential == credential && r.codes[k].consumedAt.None?
  }

  /**
    Whatever happened since the read, the commit of a verification signs in exactly if the challenge is
    there, unconsumed and was open when the verification began, and the factor can still be claimed.
  */
  lemma VerifyCommitExactly(r: Db, req: Id, challenge: Id, u: Id, credential: Id, proof: Proof, startedAt: Time)
    requires req in r.inflight && r.inflight[req] == Verification(challenge, u, credential, proof, startedAt)
    ensures var t := Step(r, Factor(VerifyCommit(req)));
            if challenge in r.challenges && r.challenges[challenge].consumedAt.None? && startedAt < r.challenges[challenge].expiresAt
               && Claimable(r, u, credential, proof) then
              && t.sessions == r.sessions[r.nextId := Session(u, r.nextId, r.clock + r.refreshTtl, None, None)]
              && t.challenges == r.challenges[challenge := r.challenges[challenge].(consumedAt := Some(startedAt))]
            else t == r.(inflight := r.inflight - {req})
  {
    assert CanClaim(r, u, credential, proof) <==> Claimable(r, u, credential, proof);
  }

  /** The commit of a step-up that can no longer claim its factor does nothing. */
  lemma StepUpCommitNeedsClaim(r: Db, req: Id, u: Id, credential: Id, proof: Proof, action: StepUp)
    requires req in r.inflight && r.inflight[req] == StepUpClaim(u, credential, proof, action)
    ensures Step(r, Factor(StepUpCommit(req))) == r.(inflight := r.inflight - {req}) <==> !Claimable(r, u, credential, proof)
  {
    assert CanClaim(r, u, credential, proof) <==> Claimable(r, u, credential, proof);
    var t := Step(r, Factor(StepUpCommit(req)));
    if Claimable(r, u, credential, proof) {
      assert |t.log| > |r.log|;
    }
  }

  // ---------------------------------------------------------------- step-up

  /** The factor can be claimed for `u` now. */
  predicate MayStepUp(s: Db, u: Id, proof: Proof) {
    && u in s.users && s.users[u] && u in s.credentials && s.credentials[u].enabledAt.Some? && Unused(s, s.credentials[u], proof)
  }

  lemma StepUpReads(s: Db, req: Id, u: Id, proof: Proof, action: StepUp)
    requires req !in s.inflight
    ensures var r := DoStepUpRead(s, req, u, proof, action);
            if MayStepUp(s, u, proof) then r == s.(inflight := s.inflight[req := StepUpClaim(u, s.credentials[u].id, proof, action)])
            else r == s
  {
  }

  lemma CommitRegenerates(r: Db, req: Id, u: Id, credential: Id, proof: Proof)
    requires req in r.inflight && r.inflight[req] == StepUpClaim(u, credential, proof, Regenerate) && CanClaim(r, u, credential, proof)
    ensures var t := DoStepUpCommit(r, req);
            && u in t.credentials && t.credentials == r.credentials[u := t.credentials[u]]
            && t.credentials[u] == r.credentials[u].(lastStep := if proof.Totp? then Some(proof.step) else r.credentials[u].lastStep)
            && TenFreshCodes(t, credential, r.nextId) && OtherCodesKept(r, t, credential)
            && t.sessions == r.sessions && t.challenges == r.challenges && t.users == r.users && t.inflight == r.inflight - {req}
  {
    var t := DoStepUpCommit(r, req);
    var b := Claim(r, u, credential, proof, r.clock).(inflight := r.inflight - {req});
    assert t == b.(codes := FreshCodes(b.codes, credential, u, r.nextId), nextId := r.nextId + BACKUP_CODE_COUNT);
    RenewedCodes(b, t, credential, u);
  }

  /**
    Asking for new recovery codes takes effect exactly for an active, enabled user with an unused
    factor: two-factor stays enabled, the old codes are gone and ten new ones are there; sessions,
    challenges and the credentials of others are untouched. A refusal changes nothing.
  */
  lemma RegenerateExactly(s: Db, req: Id, u: Id, proof: Proof) returns (t: Db)
    requires req !in s.inflight
    ensures t == Step(Step(s, Factor(StepUpRead(req, u, proof, Regenerate))), Factor(StepUpCommit(req)))
    ensures if MayStepUp(s, u, proof) then
              && u in t.credentials && t.credentials == s.credentials[u := t.credentials[u]]
              && t.credentials[u].enabledAt == s.credentials[u].enabledAt && t.credentials[u].id == s.credentials[u].id
              && t.credentials[u].lastStep == (if proof.Totp? then Some(proof.step) else s.credentials[u].lastStep)
              && TenFreshCodes(t, s.credentials[u].id, s.nextId) && OtherCodesKept(s, t, s.credentials[u].id)
              && t.sessions == s.sessions && t.challenges == s.challenges && t.users == s.users && t.inflight == s.inflight
            else t == s
  {
    var r := DoStepUpRead(s, req, u, proof, Regenerate);
    StepUpReads(s, req, u, proof, Regenerate);
    t := DoStepUpCommit(r, req);
    if MayStepUp(s, u, proof) {
      CommitRegenerates(r, req, u, s.credentials[u].id, proof);
      assert s.inflight[req := r.inflight[req]] - {req} == s.inflight;
    }
  }

  lemma CommitDisables(r: Db, req: Id, u: Id, credential: Id, proof: Proof)
    requires req in r.inflight && r.inflight[req] == StepUpClaim(u, credential, proof, Disable) && CanClaim(r, u, credential, proof)
    ensures var t := DoStepUpCommit(r, req);
            && t.credentials == r.credentials - {u}
            && (forall k :: k in t.codes ==> t.codes[k].credential != credential) && OtherCodesKept(r, t, credential)
            && (forall c :: c in t.challenges <==> c in r.challenges && r.challenges[c].user != u)
            && (forall c :: c in t.challenges ==> t.challenges[c] == r.challenges[c])
            && SignedOut(r, t, u) && t.users == r.users && t.inflight == r.inflight - {req}
  {
    var t := DoStepUpCommit(r, req);
    var b := Claim(r, u, credential, proof, r.clock).(inflight := r.inflight - {req});
    assert t.credentials == b.credentials - {u} && t.codes == WithoutCodes(b.codes, credential);
  }

  /**
    Asking to disable takes effect exactly then too: the user has no credential, no code, no challenge
    and no live session any more; credentials, challenges and sessions of others are as they were.
  */
  lemma DisableExactly(s: Db, req: Id, u: Id, proof: Proof) returns (t: Db)
    requires req !in s.inflight
    ensures t == Step(Step(s, Factor(StepUpRead(req, u, proof, Disable))), Factor(StepUpCommit(req)))
    ensures if MayStepUp(s, u, proof) then
              && t.credentials == s.credentials - {u}
              && (forall k :: k in t.codes ==> t.codes[k].credential != s.credentials[u].id) && OtherCodesKept(s, t, s.credentials[u].id)
              && (forall c :: c in t.challenges <==> c in s.challenges && s.challenges[c].user != u)
              && (forall c :: c in t.challenges ==> t.challenges[c] == s.challenges[c])
              && SignedOut(s, t, u) && t.users == s.users && t.inflight == s.inflight
            else t == s
  {
    var r := DoStepUpRead(s, req, u, proof, Disable);
    StepUpReads(s, req, u, proof, Disable);
    t := DoStepUpCommit(r, req);
    if MayStepUp(s, u, proof) {
      CommitDisables(r, req, u, s.credentials[u].id, proof);
      assert s.inflight[req := r.inflight[req]] - {req} == s.inflight;
    }
  }

  // ---------------------------------------------------------------- signing out

  /** Logging out ends the presented session if it is live; logging out everywhere ends all live sessions and the challenges of the user. */
  lemma LogoutExactly(s: Db, token: Id, u: Id)
    ensures var t := Step(s, Signing(Logout(token)));
            && t == s.(sessions := t.sessions) && t.sessions.Keys == s.sessions.Keys
            && forall id :: id in s.sessions ==>
                 if id == token && s.sessions[id].revoked.None? then EndedNow(s.sessions[id], t.sessions[id], s.clock)
                 else t.sessions[id] == s.sessions[id]
    ensures var t := Step(s, Signing(LogoutAll(u)));
            && SignedOut(s, t, u) && t == s.(sessions := t.sessions, challenges := t.challenges)
            && (forall c :: c in t.challenges <==> c in s.challenges && s.challenges[c].user != u)
            && (forall c :: c in t.challenges ==> t.challenges[c] == s.challenges[c])
  {
  }

}
