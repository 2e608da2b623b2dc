/**
  One-time use of second factors, and what an enabled credential means for sessions,
  over every interleaving of the reads and commits in `Auth`.
*/
module SecondFactor {
  import opened Common
  import opened Auth

  // ---------------------------------------------------------------- what the history promises

  predicate Accepts(f: Fact) {
    f.Enabled? || (f.Claimed? && f.proof.Totp?)
  }

  function StepOf(f: Fact): nat
    requires Accepts(f)
  {
    if f.Enabled? then f.step else f.proof.step
  }

  /** The time steps accepted on one credential are strictly increasing. */
  ghost predicate StepsIncrease(log: seq<Fact>) {
    forall i, j :: 0 <= i < j < |log| && Accepts(log[i]) && Accepts(log[j]) && log[i].credential == log[j].credential
      ==> StepOf(log[i]) < StepOf(log[j])
  }

  predicate Spends(f: Fact) {
    f.Claimed? && f.proof.Backup?
  }

  ghost predicate CodesOnce(log: seq<Fact>) {
    forall i, j :: 0 <= i < j < |log| && Spends(log[i]) && Spends(log[j]) ==> log[i].proof.code != log[j].proof.code
  }

  ghost predicate ChallengesOnce(log: seq<Fact>) {
    forall i, j :: 0 <= i < j < |log| && log[i].Consumed? && log[j].Consumed? ==> log[i].challenge != log[j].challenge
  }

  function CodesOf(codes: map<Id, Code>, credential: Id): set<Id> {
    set k | k in codes && codes[k].credential == credential
  }

  /** Since the last generation, consumed and unconsumed codes of an enabled credential number ten. */
  ghost predicate TenCodes(credentials: map<Id, Credential>, codes: map<Id, Code>) {
    forall u :: u in credentials && credentials[u].enabledAt.Some? ==>
      |CodesOf(codes, credentials[u].id)| == BACKUP_CODE_COUNT
  }

  ghost predicate WasEnabled(log: seq<Fact>, credential: Id) {
    exists i :: 0 <= i < |log| && log[i].Enabled? && log[i].credential == credential
  }

  /** Facts `j` to `j + 2` are one sign-in: a factor of `credential` claimed, its challenge consumed, and `session` opened. */
  predicate SignsIn(log: seq<Fact>, j: int, session: Id, credential: Id) {
    && 0 <= j && j + 2 < |log|
    && log[j].Claimed? && log[j].credential == credential && log[j + 1].Consumed? && log[j + 2] == Opened(session, credential)
  }

  /** `session` was opened by a factor claimed on `credential`, after that credential had been enabled. */
  ghost predicate OpenedAfterEnabling(log: seq<Fact>, session: Id, credential: Id) {
    exists i, j :: 0 <= i < j && SignsIn(log, j, session, credential) && log[i].Enabled? && log[i].credential == credential
  }

  /**
    While a user has two-factor enabled, every unrevoked session of that user belongs to a
    family whose first session was opened by a claimed second factor after enablement.
  */
  ghost predicate Guarded(sessions: map<Id, Session>, credentials: map<Id, Credential>, log: seq<Fact>) {
    forall id :: id in sessions && sessions[id].Live()
                 && sessions[id].user in credentials && credentials[sessions[id].user].enabledAt.Some?
      ==> OpenedAfterEnabling(log, sessions[id].family, credentials[sessions[id].user].id)
  }

  // ---------------------------------------------------------------- time steps

  ghost predicate CredentialRows(credentials: map<Id, Credential>, log: seq<Fact>, nextId: Id) {
    && (forall u :: u in credentials ==> credentials[u].id < nextId)
    && (forall u :: u in credentials && credentials[u].enabledAt.Some? ==>
          credentials[u].lastStep.Some? && WasEnabled(log, credentials[u].id))
    && (forall u, v :: u in credentials && v in credentials && credentials[u].id == credentials[v].id ==> u == v)
  }

  /** A pending credential has accepted nothing; an enabled one nothing above its last step. */
  ghost predicate StepsBelow(credentials: map<Id, Credential>, log: seq<Fact>, nextId: Id) {
    && (forall i :: 0 <= i < |log| && Accepts(log[i]) ==> log[i].credential < nextId)
    && (forall i, u :: 0 <= i < |log| && Accepts(log[i]) && u in credentials && credentials[u].id == log[i].credential ==>
          credentials[u].enabledAt.Some? && credentials[u].lastStep.Some? && StepOf(log[i]) <= credentials[u].lastStep.value)
  }

  ghost predicate StepsOk(credentials: map<Id, Credential>, log: seq<Fact>, nextId: Id) {
    CredentialRows(credentials, log, nextId) && StepsBelow(credentials, log, nextId) && StepsIncrease(log)
  }

  lemma StepsSkip(credentials: map<Id, Credential>, log: seq<Fact>, f: Fact, nextId: Id)
    requires StepsOk(credentials, log, nextId) && !Accepts(f)
    ensures StepsOk(credentials, log + [f], nextId)
  {
    forall u | u in credentials && credentials[u].enabledAt.Some? ensures WasEnabled(log + [f], credentials[u].id) {
      WasEnabledGrows(log, [f], credentials[u].id);
    }
  }

  lemma WasEnabledGrows(log: seq<Fact>, more: seq<Fact>, credential: Id)
    requires WasEnabled(log, credential)
    ensures WasEnabled(log + more, credential)
  {
    var i :| 0 <= i < |log| && log[i].Enabled? && log[i].credential == credential;
    assert (log + more)[i] == log[i];
  }

  /** Accepting a step above the last one, or enabling a pending credential. */
  lemma StepsAccept(credentials: map<Id, Credential>, log: seq<Fact>, nextId: Id, u: Id, f: Fact, enabledAt: Time)
    requires StepsOk(credentials, log, nextId)
    requires u in credentials && Accepts(f) && f.credential == credentials[u].id
    requires credentials[u].enabledAt.Some? ==> !f.Enabled? && credentials[u].lastStep.value < StepOf(f)
    requires credentials[u].enabledAt.None? ==> f.Enabled?
    ensures StepsOk(credentials[u := credentials[u].(enabledAt := Some(enabledAt), lastStep := Some(StepOf(f)))], log + [f], nextId)
  {
    var after := credentials[u := credentials[u].(enabledAt := Some(enabledAt), lastStep := Some(StepOf(f)))];
    var grown := log + [f];
    forall v | v in after && after[v].enabledAt.Some? ensures WasEnabled(grown, after[v].id) {
      if v == u && f.Enabled? {
        assert grown[|log|].Enabled?;
      } else {
        WasEnabledGrows(log, [f], credentials[v].id);
      }
    }
  }

  lemma StepsReset(credentials: map<Id, Credential>, log: seq<Fact>, nextId: Id, u: Id, id: Id, secret: Id)
    requires StepsOk(credentials, log, nextId)
    requires u in credentials ==> credentials[u].enabledAt.None? && id == credentials[u].id
    requires u !in credentials ==> id == nextId
    ensures StepsOk(credentials[u := Credential(id, None, None, secret)], log, nextId + 1)
  {
  }

  lemma StepsRemove(credentials: map<Id, Credential>, log: seq<Fact>, nextId: Id, u: Id)
    requires StepsOk(credentials, log, nextId)
    ensures StepsOk(credentials - {u}, log, nextId)
  {
  }

  lemma StepsGrow(credentials: map<Id, Credential>, log: seq<Fact>, nextId: Id, more: Id)
    requires StepsOk(credentials, log, nextId) && nextId <= more
    ensures StepsOk(credentials, log, more)
  {
  }

  // ---------------------------------------------------------------- recovery codes

  ghost predicate CodeRows(credentials: map<Id, Credential>, codes: map<Id, Code>, nextId: Id) {
    forall k :: k in codes ==>
      && k < nextId
      && codes[k].user in credentials
      && credentials[codes[k].user].id == codes[k].credential
      && credentials[codes[k].user].enabledAt.Some?
  }

  ghost predicate SpentStaySpent(codes: map<Id, Code>, log: seq<Fact>, nextId: Id) {
    forall i :: 0 <= i < |log| && Spends(log[i]) ==>
      log[i].proof.code < nextId && (log[i].proof.code in codes ==> codes[log[i].proof.code].consumedAt.Some?)
  }

  ghost predicate CodesOk(credentials: map<Id, Credential>, codes: map<Id, Code>, log: seq<Fact>, nextId: Id) {
    && CodeRows(credentials, codes, nextId) && TenCodes(credentials, codes)
    && SpentStaySpent(codes, log, nextId) && CodesOnce(log)
  }

  lemma FreshCodesAreTen(codes: map<Id, Code>, credential: Id, user: Id, first: Id)
    requires forall k :: k in codes ==> k < first
    ensures |CodesOf(FreshCodes(codes, credential, user, first), credential)| == BACKUP_CODE_COUNT
  {
    assert CodesOf(FreshCodes(codes, credential, user, first), credential) == FreshIds(first, BACKUP_CODE_COUNT);
  }

  /** Ten fresh codes for `u`, whose credential row may change but keeps its identifier and is enabled after. */
  lemma CodesRenew(credentials: map<Id, Credential>, codes: map<Id, Code>, log: seq<Fact>, nextId: Id, u: Id, row: Credential)
    requires CodesOk(credentials, codes, log, nextId)
    requires forall v, w :: v in credentials && w in credentials && credentials[v].id == credentials[w].id ==> v == w
    requires u in credentials && row.id == credentials[u].id && row.enabledAt.Some?
    ensures CodesOk(credentials[u := row], FreshCodes(codes, row.id, u, nextId), log, nextId + BACKUP_CODE_COUNT)
  {
    var after := FreshCodes(codes, row.id, u, nextId);
    FreshCodesAreTen(codes, row.id, u, nextId);
    forall v | v in credentials && v != u && credentials[v].enabledAt.Some?
      ensures |CodesOf(after, credentials[v].id)| == BACKUP_CODE_COUNT
    {
      assert CodesOf(after, credentials[v].id) == CodesOf(codes, credentials[v].id);
    }
  }

  /** A pending credential gets its secret again, or a new credential is created: it has no codes. */
  lemma CodesReset(credentials: map<Id, Credential>, codes: map<Id, Code>, log: seq<Fact>, nextId: Id, u: Id, id: Id, secret: Id)
    requires CodesOk(credentials, codes, log, nextId)
    requires forall v :: v in credentials ==> credentials[v].id < nextId
    requires forall v, w :: v in credentials && w in credentials && credentials[v].id == credentials[w].id ==> v == w
    requires u in credentials ==> credentials[u].enabledAt.None? && id == credentials[u].id
    requires u !in credentials ==> id == nextId
    ensures CodesOk(credentials[u := Credential(id, None, None, secret)], WithoutCodes(codes, id), log, nextId + 1)
  {
    assert WithoutCodes(codes, id) == codes;
  }

  lemma CodesRemove(credentials: map<Id, Credential>, codes: map<Id, Code>, log: seq<Fact>, nextId: Id, u: Id)
    requires CodesOk(credentials, codes, log, nextId) && u in credentials
    requires forall v, w :: v in credentials && w in credentials && credentials[v].id == credentials[w].id ==> v == w
    ensures CodesOk(credentials - {u}, WithoutCodes(codes, credentials[u].id), log, nextId)
  {
    var id := credentials[u].id;
    var after := WithoutCodes(codes, id);
    forall v | v in credentials && v != u && credentials[v].enabledAt.Some?
      ensures |CodesOf(after, credentials[v].id)| == BACKUP_CODE_COUNT
    {
      assert CodesOf(after, credentials[v].id) == CodesOf(codes, credentials[v].id);
    }
  }

  lemma CodesSpend(credentials: map<Id, Credential>, codes: map<Id, Code>, log: seq<Fact>, nextId: Id,
                   k: Id, credential: Id, now: Time)
    requires CodesOk(credentials, codes, log, nextId) && k in codes && codes[k].consumedAt.None?
    ensures CodesOk(credentials, codes[k := codes[k].(consumedAt := Some(now))],
                    log + [Claimed(credential, Backup(k))], nextId)
  {
    var after := codes[k := codes[k].(consumedAt := Some(now))];
    forall v | v in credentials && credentials[v].enabledAt.Some?
      ensures |CodesOf(after, credentials[v].id)| == BACKUP_CODE_COUNT
    {
      assert CodesOf(after, credentials[v].id) == CodesOf(codes, credentials[v].id);
    }
  }

  lemma CodesSkip(credentials: map<Id, Credential>, codes: map<Id, Code>, log: seq<Fact>, nextId: Id, f: Fact)
    requires CodesOk(credentials, codes, log, nextId) && !Spends(f)
    ensures CodesOk(credentials, codes, log + [f], nextId)
  {
  }

  lemma CodesTotp(credentials: map<Id, Credential>, codes: map<Id, Code>, log: seq<Fact>, nextId: Id, u: Id, row: Credential)
    requires CodesOk(credentials, codes, log, nextId) && u in credentials
    requires row.id == credentials[u].id && row.enabledAt.Some? && credentials[u].enabledAt.Some?
    ensures CodesOk(credentials[u := row], codes, log, nextId)
  {
  }

  // ---------------------------------------------------------------- challenges

  ghost predicate ChallengesOk(challenges: map<Id, Challenge>, log: seq<Fact>, nextId: Id) {
    && (forall c :: c in challenges ==> c < nextId)
    && (forall i :: 0 <= i < |log| && log[i].Consumed? ==>
          log[i].challenge < nextId && (log[i].challenge in challenges ==> challenges[log[i].challenge].consumedAt.Some?))
    && ChallengesOnce(log)
  }

  lemma ChallengesShrink(challenges: map<Id, Challenge>, fewer: map<Id, Challenge>, log: seq<Fact>, nextId: Id, more: Id)
    requires ChallengesOk(challenges, log, nextId) && nextId <= more
    requires forall c :: c in fewer ==> c in challenges && fewer[c] == challenges[c]
    ensures ChallengesOk(fewer, log, more)
  {
  }

  lemma ChallengesSkip(challenges: map<Id, Challenge>, log: seq<Fact>, nextId: Id, f: Fact)
    requires ChallengesOk(challenges, log, nextId) && !f.Consumed?
    ensures ChallengesOk(challenges, log + [f], nextId)
  {
  }

  lemma ChallengesConsume(challenges: map<Id, Challenge>, log: seq<Fact>, nextId: Id, c: Id, now: Time)
    requires ChallengesOk(challenges, log, nextId) && c in challenges && challenges[c].consumedAt.None?
    ensures ChallengesOk(challenges[c := challenges[c].(consumedAt := Some(now))], log + [Consumed(c)], nextId)
  {
  }

  // ---------------------------------------------------------------- every step keeps it

  ghost predicate FactorsOk(s: Db) {
    && StepsOk(s.credentials, s.log, s.nextId)
    && CodesOk(s.credentials, s.codes, s.log, s.nextId)
    && ChallengesOk(s.challenges, s.log, s.nextId)
  }

  /** A claim can only succeed on an enabled credential, whichever factor it spends. */
  lemma ClaimMeansEnabled(s: Db, u: Id, c: Id, proof: Proof)
    requires FactorsOk(s) && CanClaim(s, u, c, proof)
    ensures s.credentials[u].enabledAt.Some? && s.credentials[u].lastStep.Some?
  {
  }

  lemma ClaimKeepsFactors(s: Db, u: Id, c: Id, proof: Proof, now: Time)
    requires FactorsOk(s) && CanClaim(s, u, c, proof)
    ensures FactorsOk(Claim(s, u, c, proof, now))
  {
    ClaimMeansEnabled(s, u, c, proof);
    var f := Claimed(c, proof);
    ChallengesSkip(s.challenges, s.log, s.nextId, f);
    match proof
    case Totp(step) =>
      StepsAccept(s.credentials, s.log, s.nextId, u, f, s.credentials[u].enabledAt.value);
      CodesTotp(s.credentials, s.codes, s.log, s.nextId, u, s.credentials[u].(lastStep := Some(step)));
      CodesSkip(s.credentials[u := s.credentials[u].(lastStep := Some(step))], s.codes, s.log, s.nextId, f);
    case Backup(k) =>
      StepsSkip(s.credentials, s.log, f, s.nextId);
      CodesSpend(s.credentials, s.codes, s.log, s.nextId, k, c, now);
  }

  lemma SkipKeepsFactors(s: Db, f: Fact)
    requires FactorsOk(s) && f.Opened?
    ensures FactorsOk(s.(log := s.log + [f]))
  {
    StepsSkip(s.credentials, s.log, f, s.nextId);
    CodesSkip(s.credentials, s.codes, s.log, s.nextId, f);
    ChallengesSkip(s.challenges, s.log, s.nextId, f);
  }

  lemma ConsumeKeepsFactors(s: Db, c: Id, now: Time)
    requires FactorsOk(s) && c in s.challenges && s.challenges[c].consumedAt.None?
    ensures FactorsOk(s.(challenges := s.challenges[c := s.challenges[c].(consumedAt := Some(now))],
                         log := s.log + [Consumed(c)]))
  {
    StepsSkip(s.credentials, s.log, Consumed(c), s.nextId);
    CodesSkip(s.credentials, s.codes, s.log, s.nextId, Consumed(c));
    ChallengesConsume(s.challenges, s.log, s.nextId, c, now);
  }

  /** The factor tables of `t` are those of `s`, up to fewer challenges and more identifiers. */
  ghost predicate Quiet(s: Db, t: Db) {
    && s.nextId <= t.nextId
    && t.credentials == s.credentials && t.codes == s.codes && t.log == s.log
    && forall c :: c in t.challenges ==> c in s.challenges && t.challenges[c] == s.challenges[c]
  }

  lemma QuietKeepsFactors(s: Db, t: Db)
    requires FactorsOk(s) && Quiet(s, t)
    ensures FactorsOk(t)
  {
  }

  lemma MostSigningIsQuiet(s: Db, e: AuthEvent)
    requires !e.FirstFactor?
    ensures Quiet(s, AuthStep(s, e))
  {
  }

  lemma FactorReadsAreQuiet(s: Db, e: FactorEvent)
    requires e.ConfirmRead? || e.VerifyRead? || e.StepUpRead?
    ensures Quiet(s, FactorStep(s, e)) && FactorStep(s, e).sessions == s.sessions
  {
  }

  lemma ChallengingKeeps(s: Db, u: Id)
    requires FactorsOk(s) && Active(s, u) && IsEnabled(s, u)
    ensures FactorsOk(DoFirstFactor(s, u))
  {
  }

  lemma FirstFactorKeeps(s: Db, u: Id)
    requires FactorsOk(s)
    ensures FactorsOk(DoFirstFactor(s, u))
  {
    if Active(s, u) && IsEnabled(s, u) {
      ChallengingKeeps(s, u);
    } else {
      assert Quiet(s, DoFirstFactor(s, u));
      QuietKeepsFactors(s, DoFirstFactor(s, u));
    }
  }

  lemma BeginSetupKeeps(s: Db, u: Id)
    requires FactorsOk(s)
    ensures FactorsOk(DoBeginSetup(s, u))
  {
    if Active(s, u) && !IsEnabled(s, u) {
      var id := if u in s.credentials then s.credentials[u].id else s.nextId;
      StepsReset(s.credentials, s.log, s.nextId, u, id, s.nextId);
      CodesReset(s.credentials, s.codes, s.log, s.nextId, u, id, s.nextId);
    }
  }

  /** Enabling a pending credential with an accepted step and ten fresh codes. */
  lemma EnablingKeeps(s: Db, u: Id, step: nat, t: Db)
    requires FactorsOk(s) && u in s.credentials && !IsEnabled(s, u)
    requires var id := s.credentials[u].id;
             && t.credentials == s.credentials[u := s.credentials[u].(enabledAt := Some(s.clock), lastStep := Some(step))]
             && t.codes == FreshCodes(s.codes, id, u, s.nextId) && t.challenges == s.challenges
             && t.log == s.log + [Enabled(id, step)] && t.nextId == s.nextId + BACKUP_CODE_COUNT
    ensures FactorsOk(t)
  {
    var id := s.credentials[u].id;
    var f, row := Enabled(id, step), s.credentials[u].(enabledAt := Some(s.clock), lastStep := Some(step));
    StepsAccept(s.credentials, s.log, s.nextId, u, f, s.clock);
    StepsGrow(t.credentials, t.log, s.nextId, t.nextId);
    CodesRenew(s.credentials, s.codes, s.log, s.nextId, u, row);
    CodesSkip(t.credentials, t.codes, s.log, t.nextId, f);
    ChallengesSkip(s.challenges, s.log, s.nextId, f);
    ChallengesShrink(s.challenges, s.challenges, t.log, s.nextId, t.nextId);
  }

  lemma ConfirmKeeps(s: Db, r: Id)
    requires FactorsOk(s)
    ensures FactorsOk(DoConfirmCommit(s, r))
  {
    if r in s.inflight && s.inflight[r].Confirmation? {
      var p := s.inflight[r];
      if p.user in s.credentials && s.credentials[p.user].id == p.credential && !IsEnabled(s, p.user) {
        EnablingKeeps(s, p.user, p.step, DoConfirmCommit(s, r));
      }
    }
  }

  lemma VerifyKeeps(s: Db, r: Id)
    requires FactorsOk(s)
    ensures FactorsOk(DoVerifyCommit(s, r))
  {
    if r in s.inflight && s.inflight[r].Verification? {
      var p := s.inflight[r];
      if ChallengeOpen(s, p.challenge, p.startedAt) && CanClaim(s, p.user, p.credential, p.proof) {
        var t := Claim(s, p.user, p.credential, p.proof, p.startedAt);
        ClaimKeepsFactors(s, p.user, p.credential, p.proof, p.startedAt);
        ConsumeKeepsFactors(t, p.challenge, p.startedAt);
        var v := t.(challenges := t.challenges[p.challenge := t.challenges[p.challenge].(consumedAt := Some(p.startedAt))],
                    log := t.log + [Consumed(p.challenge)]);
        SkipKeepsFactors(v, Opened(s.nextId, p.credential));
        QuietKeepsFactors(v.(log := v.log + [Opened(s.nextId, p.credential)]), DoVerifyCommit(s, r));
      }
    }
  }

  lemma StepUpKeeps(s: Db, r: Id)
    requires FactorsOk(s)
    ensures FactorsOk(DoStepUpCommit(s, r))
  {
    if r in s.inflight && s.inflight[r].StepUpClaim? {
      var p := s.inflight[r];
      if CanClaim(s, p.user, p.credential, p.proof) {
        var t := Claim(s, p.user, p.credential, p.proof, s.clock);
        ClaimKeepsFactors(s, p.user, p.credential, p.proof, s.clock);
        ClaimMeansEnabled(s, p.user, p.credential, p.proof);
        if p.action.Regenerate? {
          RegenerateKeeps(t, p.user, DoStepUpCommit(s, r));
        } else {
          StepsRemove(t.credentials, t.log, t.nextId, p.user);
          CodesRemove(t.credentials, t.codes, t.log, t.nextId, p.user);
          ChallengesShrink(t.challenges, WithoutChallenges(s.challenges, p.user), t.log, t.nextId, t.nextId);
        }
      }
    }
  }

  lemma RewriteRow(credentials: map<Id, Credential>, u: Id)
    requires u in credentials
    ensures credentials[u := credentials[u]] == credentials
  {
  }

  lemma CodesRegenerate(credentials: map<Id, Credential>, codes: map<Id, Code>, log: seq<Fact>, nextId: Id, u: Id)
    requires CodesOk(credentials, codes, log, nextId)
    requires forall v, w :: v in credentials && w in credentials && credentials[v].id == credentials[w].id ==> v == w
    requires u in credentials && credentials[u].enabledAt.Some?
    ensures CodesOk(credentials, FreshCodes(codes, credentials[u].id, u, nextId), log, nextId + BACKUP_CODE_COUNT)
  {
    RewriteRow(credentials, u);
    CodesRenew(credentials, codes, log, nextId, u, credentials[u]);
  }

  lemma RegenerateKeeps(t: Db, u: Id, v: Db)
    requires FactorsOk(t) && IsEnabled(t, u)
    requires v.credentials == t.credentials && v.log == t.log && v.challenges == t.challenges
    requires v.codes == FreshCodes(t.codes, t.credentials[u].id, u, t.nextId)
    requires v.nextId == t.nextId + BACKUP_CODE_COUNT
    ensures FactorsOk(v)
  {
    StepsGrow(t.credentials, t.log, t.nextId, v.nextId);
    CodesRegenerate(t.credentials, t.codes, t.log, t.nextId, u);
    ChallengesShrink(t.challenges, t.challenges, t.log, t.nextId, v.nextId);
  }

  lemma StepKeepsFactors(s: Db, e: Event)
    requires FactorsOk(s)
    ensures FactorsOk(Step(s, e))
  {
    match e
    case Signing(a) =>
      if a.FirstFactor? {
        FirstFactorKeeps(s, a.user);
      } else {
        MostSigningIsQuiet(s, a);
        QuietKeepsFactors(s, AuthStep(s, a));
      }
    case Factor(f) => FactorStepKeeps(s, f);
  }

  lemma FactorStepKeeps(s: Db, e: FactorEvent)
    requires FactorsOk(s)
    ensures FactorsOk(FactorStep(s, e))
  {
    match e
    case BeginSetup(u) => BeginSetupKeeps(s, u);
    case ConfirmCommit(r) => ConfirmKeeps(s, r);
    case VerifyCommit(r) => VerifyKeeps(s, r);
    case StepUpCommit(r) => StepUpKeeps(s, r);
    case _ =>
      FactorReadsAreQuiet(s, e);
      QuietKeepsFactors(s, FactorStep(s, e));
  }

  lemma {:induction false} RunKeepsFactors(s: Db, events: seq<Event>)
    requires FactorsOk(s)
    ensures FactorsOk(Run(s, events))
    decreases |events|
  {
    if events != [] {
      StepKeepsFactors(s, events[0]);
      RunKeepsFactors(Step(s, events[0]), events[1..]);
    }
  }

  /**
    In every run, whatever resolves and claims interleave: accepted time steps increase on each
    credential, no recovery code and no challenge is consumed twice, and an enabled credential
    has ten codes.
  */
  lemma FactorsAreSingleUse(refreshTtl: nat, events: seq<Event>)
    ensures var s := Run(Empty(refreshTtl), events);
            StepsIncrease(s.log) && CodesOnce(s.log) && ChallengesOnce(s.log) && TenCodes(s.credentials, s.codes)
  {
    RunKeepsFactors(Empty(refreshTtl), events);
  }
}
