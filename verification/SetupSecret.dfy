/**
  Confirming two-factor setup checks a code under the secret it read, and then enables the pending
  credential by its identifier. Setup can be begun again in between, which rewrites the secret of the
  same pending credential: then the secret enabled is not the one the code was checked against.
*/
module SetupSecret {
  import opened Common
  import opened Auth
  import opened SecondFactor

  /** The user's credential is `c` and waits for its confirmation. */
  predicate Waiting(s: Db, u: Id, c: Id) {
    u in s.credentials && s.credentials[u].id == c && s.credentials[u].enabledAt.None?
  }

  ghost predicate Drawn(s: Db) {
    forall u :: u in s.credentials ==> s.credentials[u].id < s.nextId && s.credentials[u].secret < s.nextId
  }

  /** `e` begins the setup of `u` anew. */
  predicate BeginsAnew(s: Db, e: Event, u: Id) {
    e == Factor(BeginSetup(u)) && Active(s, u) && !IsEnabled(s, u)
  }

  /** What a step does to the credential of `u`, seen from the confirmation of `c`. */
  ghost predicate SecretFollows(s: Db, t: Db, u: Id, c: Id, anew: bool) {
    && s.nextId <= t.nextId && Drawn(t)
    && (!Waiting(s, u, c) && c < s.nextId ==> !Waiting(t, u, c))
    && (Waiting(s, u, c) && Waiting(t, u, c) && !anew ==> t.credentials[u].secret == s.credentials[u].secret)
    && (Waiting(s, u, c) && Waiting(t, u, c) && anew ==> t.credentials[u].secret == s.nextId)
  }

  lemma BeginFollows(s: Db, v: Id, u: Id, c: Id)
    requires Drawn(s)
    ensures SecretFollows(s, DoBeginSetup(s, v), u, c, BeginsAnew(s, Factor(BeginSetup(v)), u))
  {
  }

  lemma ConfirmFollows(s: Db, r: Id, u: Id, c: Id)
    requires Drawn(s)
    ensures SecretFollows(s, DoConfirmCommit(s, r), u, c, false)
  {
  }

  lemma VerifyFollows(s: Db, r: Id, u: Id, c: Id)
    requires Drawn(s)
    ensures SecretFollows(s, DoVerifyCommit(s, r), u, c, false)
  {
  }

  lemma ClaimFollows(s: Db, v: Id, credential: Id, proof: Proof, now: Time)
    requires CanClaim(s, v, credential, proof)
    ensures var t := Claim(s, v, credential, proof, now);
            && t.nextId == s.nextId && t.credentials.Keys == s.credentials.Keys
            && forall u :: u in s.credentials ==> t.credentials[u] == s.credentials[u].(lastStep := t.credentials[u].lastStep)
  {
  }

  /** Credentials keep their identifier, state and secret, or go. */
  lemma FewerFollow(s: Db, t: Db, u: Id, c: Id)
    requires Drawn(s) && s.nextId <= t.nextId
    requires forall v :: v in t.credentials ==> v in s.credentials && t.credentials[v] == s.credentials[v].(lastStep := t.credentials[v].lastStep)
    ensures SecretFollows(s, t, u, c, false)
  {
  }

  lemma StepUpFollows(s: Db, r: Id, u: Id, c: Id)
    requires Drawn(s)
    ensures SecretFollows(s, DoStepUpCommit(s, r), u, c, false)
  {
    if r in s.inflight && s.inflight[r].StepUpClaim? && CanClaim(s, s.inflight[r].user, s.inflight[r].credential, s.inflight[r].proof) {
      ClaimFollows(s, s.inflight[r].user, s.inflight[r].credential, s.inflight[r].proof, s.clock);
    }
    FewerFollow(s, DoStepUpCommit(s, r), u, c);
  }

  lemma FactorFollows(s: Db, e: FactorEvent, u: Id, c: Id)
    requires Drawn(s)
    ensures SecretFollows(s, FactorStep(s, e), u, c, BeginsAnew(s, Factor(e), u))
  {
    match e
    case BeginSetup(v) => BeginFollows(s, v, u, c);
    case ConfirmCommit(r) => ConfirmFollows(s, r, u, c);
    case VerifyCommit(r) => VerifyFollows(s, r, u, c);
    case StepUpCommit(r) => StepUpFollows(s, r, u, c);
    case _ => FactorReadsAreQuiet(s, e);
  }

  lemma StepFollows(s: Db, e: Event, u: Id, c: Id)
    requires Drawn(s)
    ensures SecretFollows(s, Step(s, e), u, c, BeginsAnew(s, e, u))
  {
    match e
    case Signing(a) => SigningLeavesCredentials(s, a);
    case Factor(f) => FactorFollows(s, f, u, c);
  }

  lemma SigningLeavesCredentials(s: Db, e: AuthEvent)
    ensures AuthStep(s, e).credentials == s.credentials && s.nextId <= AuthStep(s, e).nextId
  {
    if !e.FirstFactor? { MostSigningIsQuiet(s, e); }
  }

  /** Some event of the run begins the setup of `u` anew. */
  predicate Rewritten(s: Db, events: seq<Event>, u: Id)
    decreases |events|
  {
    events != [] && (BeginsAnew(s, events[0], u) || Rewritten(Step(s, events[0]), events[1..], u))
  }

  lemma {:induction false} RunKeepsDrawn(s: Db, events: seq<Event>)
    requires Drawn(s)
    ensures Drawn(Run(s, events)) && s.nextId <= Run(s, events).nextId
    decreases |events|
  {
    if events != [] {
      StepFollows(s, events[0], 0, 0);
      RunKeepsDrawn(Step(s, events[0]), events[1..]);
    }
  }

  /** A confirmation that stopped waiting never waits again. */
  lemma {:induction false} NeverAgain(s: Db, events: seq<Event>, u: Id, c: Id)
    requires Drawn(s) && c < s.nextId && !Waiting(s, u, c)
    ensures !Waiting(Run(s, events), u, c)
    decreases |events|
  {
    if events != [] {
      StepFollows(s, events[0], u, c);
      NeverAgain(Step(s, events[0]), events[1..], u, c);
    }
  }

  /** While the credential waits, its secret changes exactly when the setup begins anew, and then for good. */
  lemma {:induction false} SecretInARun(s: Db, events: seq<Event>, u: Id, c: Id, secret: Id)
    requires Drawn(s) && c < s.nextId && secret < s.nextId && Waiting(s, u, c) && Waiting(Run(s, events), u, c)
    ensures Run(s, events).credentials[u].secret == secret
            <==> s.credentials[u].secret == secret && !Rewritten(s, events, u)
    decreases |events|
  {
    if events != [] {
      var t := Step(s, events[0]);
      StepFollows(s, events[0], u, c);
      if !Waiting(t, u, c) {
        NeverAgain(t, events[1..], u, c);
      } else {
        SecretInARun(t, events[1..], u, c, secret);
      }
    }
  }

  /**
    In every run, a confirmation that takes effect enables the secret its code was checked against
    if and only if the setup was not begun anew between its read and its commit.
  */
  lemma CheckedSecretExactlyWhen(ttl: nat, before: seq<Event>, req: Id, u: Id, step: nat, between: seq<Event>)
    requires var s := Run(Empty(ttl), before);
             && req !in s.inflight && u in s.credentials && !IsEnabled(s, u)
             && var t := Run(Step(s, Factor(ConfirmRead(req, u, step))), between);
                req in t.inflight && t.inflight[req] == Confirmation(u, s.credentials[u].id, step, s.credentials[u].secret)
                && Waiting(t, u, s.credentials[u].id)
    ensures var s := Run(Empty(ttl), before);
            var r := Step(s, Factor(ConfirmRead(req, u, step)));
            var v := Step(Run(r, between), Factor(ConfirmCommit(req)));
            && IsEnabled(v, u)
            && (v.credentials[u].secret == s.credentials[u].secret <==> !Rewritten(r, between, u))
  {
    var s := Run(Empty(ttl), before);
    RunKeepsDrawn(Empty(ttl), before);
    var r := Step(s, Factor(ConfirmRead(req, u, step)));
    assert r == DoConfirmRead(s, req, u, step) && r.credentials == s.credentials && r.nextId == s.nextId;
    var c := s.credentials[u];
    SecretInARun(r, between, u, c.id, c.secret);
    CommitKeepsSecret(Run(r, between), req);
  }

  lemma CommitKeepsSecret(t: Db, req: Id)
    requires req in t.inflight && t.inflight[req].Confirmation? && Waiting(t, t.inflight[req].user, t.inflight[req].credential)
    ensures var u := t.inflight[req].user;
            var v := DoConfirmCommit(t, req);
            IsEnabled(v, u) && v.credentials[u].secret == t.credentials[u].secret
  {
  }

  /** It does happen: a second setup between the read and the commit of a confirmation. */
  lemma UncheckedSecretEnabled()
    ensures var begin, read, commit := Factor(BeginSetup(0)), Factor(ConfirmRead(9, 0, 1)), Factor(ConfirmCommit(9));
            var s := Step(Step(Empty(1), Signing(Register)), begin);
            var v := Step(Step(Step(s, read), begin), commit);
            && 0 in s.credentials && IsEnabled(v, 0) && v.credentials[0].id == s.credentials[0].id
            && v.credentials[0].secret != s.credentials[0].secret
  {
    var a := DoRegister(Empty(1));
    assert a.users == map[0 := true] && a.nextId == 2;
    var s := DoBeginSetup(a, 0);
    assert s.credentials == map[0 := Credential(2, None, None, 2)];
    var r := DoConfirmRead(s, 9, 0, 1);
    var t := DoBeginSetup(r, 0);
    assert t.credentials[0] == Credential(2, None, None, 3) && t.inflight[9] == Confirmation(0, 2, 1, 2);
  }
}
