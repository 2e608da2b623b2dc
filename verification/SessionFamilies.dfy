/**
  Token families under rotation: in every reachable state each family is one linear
  chain, and a family that has been revoked stays without a live session for ever.
*/
module SessionFamilies {
  import opened Common
  import opened Auth

  /** Position `i` of a chain: the family's user, and rotated into position `i + 1` unless it is the last. */
  ghost predicate Node(sessions: map<Id, Session>, family: Id, order: seq<Id>, i: nat)
    requires i < |order|
  {
    && order[i] in sessions && family in sessions
    && var x := sessions[order[i]];
       && x.family == family
       && x.user == sessions[family].user
       && if i + 1 < |order| then
            order[i] < order[i + 1] && x.IsRotated() && x.replacedBy == Some(order[i + 1])
          else
            x.replacedBy.None? && !x.IsRotated()
  }

  /**
    `order` lists exactly the sessions of `family`, oldest first: one user, each session
    but the last rotated into the next one, and only the last can be unrevoked.
    Identifiers grow along the chain, so there is no cycle and no shared successor.
  */
  ghost predicate IsChain(sessions: map<Id, Session>, family: Id, order: seq<Id>) {
    && |order| > 0
    && order[0] == family
    && (forall i :: 0 <= i < |order| ==> Node(sessions, family, order, i))
    && (forall id :: id in sessions && sessions[id].family == family ==> id in order)
  }

  ghost predicate NoFamily(sessions: map<Id, Session>, family: Id) {
    forall id :: id in sessions ==> sessions[id].family != family
  }

  ghost predicate Linear(sessions: map<Id, Session>, family: Id) {
    NoFamily(sessions, family) || exists order :: IsChain(sessions, family, order)
  }

  /** No session of `family` is live. */
  ghost predicate Dead(sessions: map<Id, Session>, family: Id) {
    forall id :: id in sessions && sessions[id].family == family ==> !sessions[id].Live()
  }

  /** What a refresh remembers about its session still names the same user and family. */
  ghost predicate PendingMatches(sessions: map<Id, Session>, nextId: Id, p: Pending) {
    match p
    case Rotation(t, x) => t in sessions && sessions[t].user == x.user && sessions[t].family == x.family
    case FamilyRevocation(f) => f < nextId
    case _ => true
  }

  ghost predicate Bounded(sessions: map<Id, Session>, nextId: Id) {
    forall id :: id in sessions ==> id < nextId && sessions[id].family < nextId
  }

  ghost predicate SessionsOk(s: Db) {
    && Bounded(s.sessions, s.nextId)
    && forall r :: r in s.inflight ==> PendingMatches(s.sessions, s.nextId, s.inflight[r])
  }

  /** The row of a session is never removed and keeps its user and family. */
  ghost predicate Extends(before: map<Id, Session>, after: map<Id, Session>) {
    forall id :: id in before ==>
      id in after && after[id].user == before[id].user && after[id].family == before[id].family
  }

  // ---------------------------------------------------------------- what one step does to the sessions

  datatype Change =
    | Same
    | Revoked(ids: set<Id>, reason: Reason)
    | OpenedFor(id: Id, user: Id)
    | RotatedTo(token: Id, snapshot: Session)

  function Apply(s: Db, c: Change): map<Id, Session>
    requires c.RotatedTo? ==> c.token in s.sessions
  {
    match c
    case Same => s.sessions
    case Revoked(ids, reason) => Revoke(s.sessions, ids, s.clock, reason)
    case OpenedFor(id, user) => Open(s.sessions, id, user, s.clock + s.refreshTtl)
    case RotatedTo(token, x) => Rotate(s.sessions, token, s.nextId, x, s.clock, s.clock + s.refreshTtl)
  }

  /** Changes a step may make: fresh rows, revocations other than rotation, and rotations of a live row. */
  ghost predicate Allowed(s: Db, c: Change) {
    match c
    case Same => true
    case Revoked(_, reason) => reason != Rotated
    case OpenedFor(id, _) => s.nextId <= id
    case RotatedTo(token, x) =>
      token in s.sessions && s.sessions[token].Live() && PendingMatches(s.sessions, s.nextId, Rotation(token, x))
  }

  /** `t` comes from `s` by one allowed change to the sessions. */
  ghost predicate ChangedBy(s: Db, t: Db, c: Change) {
    && Allowed(s, c) && t.sessions == Apply(s, c)
    && s.nextId <= t.nextId
    && (c.OpenedFor? ==> c.id < t.nextId)
    && (c.RotatedTo? ==> s.nextId < t.nextId)
  }

  lemma RefreshCommitChange(s: Db, r: Id) returns (c: Change)
    requires SessionsOk(s)
    ensures ChangedBy(s, DoRefreshCommit(s, r), c) && !c.OpenedFor?
  {
    c := Same;
    if r in s.inflight && s.inflight[r].Rotation? {
      var p := s.inflight[r];
      assert PendingMatches(s.sessions, s.nextId, p);
      if s.sessions[p.token].Live() { c := RotatedTo(p.token, p.snapshot); }
    }
  }

  lemma RevokeFamilyChange(s: Db, r: Id) returns (c: Change)
    ensures ChangedBy(s, DoRevokeFamily(s, r), c) && !c.RotatedTo? && !c.OpenedFor?
  {
    c := Same;
    if r in s.inflight && s.inflight[r].FamilyRevocation? {
      c := Revoked(OfFamily(s.sessions, s.inflight[r].family), ReuseDetected);
    }
  }

  lemma FirstFactorChange(s: Db, u: Id) returns (c: Change)
    ensures ChangedBy(s, DoFirstFactor(s, u), c)
    ensures c.OpenedFor? ==> c.user == u && !IsEnabled(s, u)
    ensures !c.RotatedTo?
  {
    c := if Active(s, u) && !IsEnabled(s, u) then OpenedFor(s.nextId, u) else Same;
  }

  lemma ConfirmChange(s: Db, r: Id) returns (c: Change)
    ensures ChangedBy(s, DoConfirmCommit(s, r), c) && !c.RotatedTo?
  {
    c := Same;
    if r in s.inflight && s.inflight[r].Confirmation? {
      var p := s.inflight[r];
      if p.user in s.credentials && s.credentials[p.user].id == p.credential && !IsEnabled(s, p.user) {
        c := Revoked(OfUser(s.sessions, p.user), Administrative);
      }
    }
  }

  lemma VerifyChange(s: Db, r: Id) returns (c: Change)
    ensures ChangedBy(s, DoVerifyCommit(s, r), c) && !c.RotatedTo?
  {
    c := Same;
    if r in s.inflight && s.inflight[r].Verification? {
      var p := s.inflight[r];
      if ChallengeOpen(s, p.challenge, p.startedAt) && CanClaim(s, p.user, p.credential, p.proof) {
        c := OpenedFor(s.nextId, p.user);
      }
    }
  }

  lemma StepUpChange(s: Db, r: Id) returns (c: Change)
    ensures ChangedBy(s, DoStepUpCommit(s, r), c) && !c.RotatedTo?
  {
    c := Same;
    if r in s.inflight && s.inflight[r].StepUpClaim? {
      var p := s.inflight[r];
      if CanClaim(s, p.user, p.credential, p.proof) && p.action.Disable? {
        c := Revoked(OfUser(s.sessions, p.user), LoggedOutAll);
      }
    }
  }

  lemma AuthStepChanges(s: Db, e: AuthEvent) returns (c: Change)
    requires SessionsOk(s)
    ensures ChangedBy(s, AuthStep(s, e), c)
    ensures c.OpenedFor? ==> (e.Register? && c.user == s.nextId) || (e.FirstFactor? && !IsEnabled(s, c.user))
  {
    match e
    case Register => c := OpenedFor(s.nextId + 1, s.nextId);
    case FirstFactor(u) => c := FirstFactorChange(s, u);
    case RefreshCommit(r) => c := RefreshCommitChange(s, r);
    case RevokeFamily(r) => c := RevokeFamilyChange(s, r);
    case Logout(token) => c := Revoked({token}, LoggedOut);
    case LogoutAll(u) => c := Revoked(OfUser(s.sessions, u), LoggedOutAll);
    case _ => c := Same;
  }

  lemma FactorStepChanges(s: Db, e: FactorEvent) returns (c: Change)
    ensures ChangedBy(s, FactorStep(s, e), c)
  {
    match e
    case ConfirmCommit(r) => c := ConfirmChange(s, r);
    case VerifyCommit(r) => c := VerifyChange(s, r);
    case StepUpCommit(r) => c := StepUpChange(s, r);
    case _ => c := Same;
  }

  lemma StepChanges(s: Db, e: Event) returns (c: Change)
    requires SessionsOk(s)
    ensures ChangedBy(s, Step(s, e), c)
  {
    match e
    case Signing(a) => c := AuthStepChanges(s, a);
    case Factor(f) => c := FactorStepChanges(s, f);
  }

  lemma ChangeExtends(s: Db, c: Change, nextId: Id)
    requires Bounded(s.sessions, s.nextId) && Allowed(s, c)
    requires s.nextId <= nextId && (c.OpenedFor? ==> c.id < nextId) && (c.RotatedTo? ==> s.nextId < nextId)
    ensures Extends(s.sessions, Apply(s, c)) && Bounded(Apply(s, c), nextId)
  {
  }

  /** Only `refresh` requests remember sessions. */
  lemma FactorsRememberNoSession(s: Db, e: FactorEvent, r: Id)
    requires r in FactorStep(s, e).inflight
    ensures var p := FactorStep(s, e).inflight[r];
            p.Rotation? || p.FamilyRevocation? ==> r in s.inflight && s.inflight[r] == p
  {
  }

  lemma RefreshRemembers(s: Db, req: Id, token: Id, r: Id)
    requires SessionsOk(s)
    ensures r in DoRefreshRead(s, req, token).inflight ==>
              PendingMatches(s.sessions, s.nextId, DoRefreshRead(s, req, token).inflight[r])
    ensures r in DoRefreshCommit(s, req).inflight ==>
              PendingMatches(s.sessions, s.nextId, DoRefreshCommit(s, req).inflight[r])
  {
    if req in s.inflight { assert PendingMatches(s.sessions, s.nextId, s.inflight[req]); }
    if r in s.inflight { assert PendingMatches(s.sessions, s.nextId, s.inflight[r]); }
  }

  lemma AuthRemembers(s: Db, e: AuthEvent, r: Id)
    requires SessionsOk(s) && r in AuthStep(s, e).inflight
    ensures PendingMatches(s.sessions, s.nextId, AuthStep(s, e).inflight[r])
  {
    match e
    case RefreshRead(req, token) => RefreshRemembers(s, req, token, r);
    case RefreshCommit(req) => RefreshRemembers(s, req, 0, r);
    case _ => assert PendingMatches(s.sessions, s.nextId, s.inflight[r]);
  }

  lemma StepKeepsSessions(s: Db, e: Event)
    requires SessionsOk(s)
    ensures SessionsOk(Step(s, e)) && Extends(s.sessions, Step(s, e).sessions)
  {
    var t := Step(s, e);
    var c := StepChanges(s, e);
    ChangeExtends(s, c, t.nextId);
    forall r | r in t.inflight ensures PendingMatches(t.sessions, t.nextId, t.inflight[r]) {
      if e.Factor? {
        FactorsRememberNoSession(s, e.factor, r);
      } else {
        AuthRemembers(s, e.auth, r);
      }
      assert PendingMatches(s.sessions, s.nextId, t.inflight[r]);
    }
  }

  // ---------------------------------------------------------------- families are chains

  lemma RevokeKeepsChain(sessions: map<Id, Session>, ids: set<Id>, at: Time, reason: Reason, family: Id, order: seq<Id>)
    requires IsChain(sessions, family, order) && reason != Rotated
    ensures IsChain(Revoke(sessions, ids, at, reason), family, order)
  {
    var after := Revoke(sessions, ids, at, reason);
    forall i | 0 <= i < |order| ensures Node(after, family, order, i) {
      assert Node(sessions, family, order, i);
    }
  }

  lemma OpenKeepsLinear(sessions: map<Id, Session>, id: Id, user: Id, expiresAt: Time, family: Id)
    requires Linear(sessions, family) && Bounded(sessions, id)
    ensures Linear(Open(sessions, id, user, expiresAt), family)
  {
    var after := Open(sessions, id, user, expiresAt);
    if family == id {
      assert Node(after, family, [id], 0);
      assert IsChain(after, family, [id]);
    } else if !NoFamily(sessions, family) {
      var order :| IsChain(sessions, family, order);
      forall i | 0 <= i < |order| ensures Node(after, family, order, i) {
        assert Node(sessions, family, order, i);
      }
      assert IsChain(after, family, order);
    }
  }

  lemma RotateExtendsChain(sessions: map<Id, Session>, token: Id, successor: Id, x: Session, at: Time,
                           expiresAt: Time, order: seq<Id>)
    requires IsChain(sessions, x.family, order) && Bounded(sessions, successor)
    requires token in sessions && sessions[token].Live()
    requires sessions[token].user == x.user && sessions[token].family == x.family
    ensures IsChain(Rotate(sessions, token, successor, x, at, expiresAt), x.family, order + [successor])
  {
    var after := Rotate(sessions, token, successor, x, at, expiresAt);
    var grown := order + [successor];
    var k :| 0 <= k < |order| && order[k] == token;
    assert Node(sessions, x.family, order, k);
    forall i | 0 <= i < |grown| ensures Node(after, x.family, grown, i) {
      assert Node(sessions, x.family, order, 0);
      if i < |order| { assert Node(sessions, x.family, order, i); }
    }
    forall id | id in after && after[id].family == x.family ensures id in grown {
      if id != successor { assert id in order; }
    }
  }

  lemma RotateKeepsOthers(sessions: map<Id, Session>, token: Id, successor: Id, x: Session, at: Time,
                          expiresAt: Time, family: Id, order: seq<Id>)
    requires IsChain(sessions, family, order) && Bounded(sessions, successor)
    requires token in sessions && sessions[token].family == x.family != family
    ensures IsChain(Rotate(sessions, token, successor, x, at, expiresAt), family, order)
  {
    var after := Rotate(sessions, token, successor, x, at, expiresAt);
    forall i | 0 <= i < |order| ensures Node(after, family, order, i) {
      assert Node(sessions, family, order, 0);
      assert Node(sessions, family, order, i);
    }
  }

  lemma RotatingKeepsLinear(s: Db, token: Id, snapshot: Session, f: Id)
    requires SessionsOk(s) && Linear(s.sessions, f) && !NoFamily(s.sessions, f)
    requires token in s.sessions && s.sessions[token].Live()
    requires s.sessions[token].user == snapshot.user && s.sessions[token].family == snapshot.family
    ensures Linear(Rotate(s.sessions, token, s.nextId, snapshot, s.clock, s.clock + s.refreshTtl), f)
  {
    var order :| IsChain(s.sessions, f, order);
    if f == snapshot.family {
      RotateExtendsChain(s.sessions, token, s.nextId, snapshot, s.clock, s.clock + s.refreshTtl, order);
    } else {
      RotateKeepsOthers(s.sessions, token, s.nextId, snapshot, s.clock, s.clock + s.refreshTtl, f, order);
    }
  }

  lemma RevokingKeepsLinear(s: Db, ids: set<Id>, reason: Reason, f: Id)
    requires Linear(s.sessions, f) && !NoFamily(s.sessions, f) && reason != Rotated
    ensures Linear(Revoke(s.sessions, ids, s.clock, reason), f)
  {
    var order :| IsChain(s.sessions, f, order);
    RevokeKeepsChain(s.sessions, ids, s.clock, reason, f, order);
  }

  lemma ChangeKeepsLinear(s: Db, c: Change, f: Id)
    requires SessionsOk(s) && Linear(s.sessions, f) && Allowed(s, c)
    ensures Linear(Apply(s, c), f)
  {
    if c.OpenedFor? {
      OpenKeepsLinear(s.sessions, c.id, c.user, s.clock + s.refreshTtl, f);
    } else if NoFamily(s.sessions, f) {
      assert NoFamily(Apply(s, c), f);
    } else if c.Revoked? {
      RevokingKeepsLinear(s, c.ids, c.reason, f);
    } else if c.RotatedTo? {
      RotatingKeepsLinear(s, c.token, c.snapshot, f);
    }
  }

  lemma StepKeepsLinear(s: Db, e: Event, f: Id)
    requires SessionsOk(s) && Linear(s.sessions, f)
    ensures Linear(Step(s, e).sessions, f)
  {
    var c := StepChanges(s, e);
    ChangeKeepsLinear(s, c, f);
  }

  lemma {:induction false} RunKeepsSessions(s: Db, events: seq<Event>)
    requires SessionsOk(s)
    ensures SessionsOk(Run(s, events)) && Extends(s.sessions, Run(s, events).sessions)
    decreases |events|
  {
    if events != [] {
      StepKeepsSessions(s, events[0]);
      RunKeepsSessions(Step(s, events[0]), events[1..]);
    }
  }

  lemma {:induction false} RunKeepsLinear(s: Db, events: seq<Event>, family: Id)
    requires SessionsOk(s) && Linear(s.sessions, family)
    ensures Linear(Run(s, events).sessions, family)
    decreases |events|
  {
    if events != [] {
      StepKeepsSessions(s, events[0]);
      StepKeepsLinear(s, events[0], family);
      RunKeepsLinear(Step(s, events[0]), events[1..], family);
    }
  }

  /** Every run from the empty database keeps each token family one linear chain. */
  lemma FamiliesAreChains(refreshTtl: nat, events: seq<Event>, token: Id)
    requires token in Run(Empty(refreshTtl), events).sessions
    ensures var sessions := Run(Empty(refreshTtl), events).sessions;
            exists order :: IsChain(sessions, sessions[token].family, order)
  {
    var sessions := Run(Empty(refreshTtl), events).sessions;
    RunKeepsLinear(Empty(refreshTtl), events, sessions[token].family);
  }

  lemma {:induction false} Increasing(sessions: map<Id, Session>, family: Id, order: seq<Id>, i: nat, j: nat)
    requires IsChain(sessions, family, order) && i < |order| && j < |order|
    ensures i < j ==> order[i] < order[j]
    ensures i > j ==> order[i] > order[j]
    decreases if i < j then j - i else i - j
  {
    if i < j {
      assert Node(sessions, family, order, i);
      Increasing(sessions, family, order, i + 1, j);
    } else if j < i {
      assert Node(sessions, family, order, j);
      Increasing(sessions, family, order, i, j + 1);
    }
  }

  /** What the chain means for two sessions of one family. */
  lemma ChainIsLinear(sessions: map<Id, Session>, family: Id, order: seq<Id>, a: Id, b: Id)
    requires IsChain(sessions, family, order)
    requires a in sessions && b in sessions && a != b
    requires sessions[a].family == family == sessions[b].family
    ensures sessions[a].user == sessions[b].user
    ensures !(sessions[a].Live() && sessions[b].Live())
    ensures sessions[a].replacedBy.Some? || sessions[b].replacedBy.Some?
    ensures sessions[a].replacedBy.Some? ==>
              sessions[a].replacedBy != sessions[b].replacedBy && a < sessions[a].replacedBy.value
  {
    var i :| 0 <= i < |order| && order[i] == a;
    var j :| 0 <= j < |order| && order[j] == b;
    assert Node(sessions, family, order, i) && Node(sessions, family, order, j);
    if i + 1 < |order| && j + 1 < |order| { Increasing(sessions, family, order, i + 1, j + 1); }
  }

  // ---------------------------------------------------------------- reuse detection

  lemma StepKeepsDead(s: Db, e: Event, family: Id)
    requires SessionsOk(s) && family < s.nextId && Dead(s.sessions, family)
    ensures Dead(Step(s, e).sessions, family) && family < Step(s, e).nextId
  {
    var c := StepChanges(s, e);
  }

  lemma {:induction false} RunKeepsDead(s: Db, events: seq<Event>, family: Id)
    requires SessionsOk(s) && family < s.nextId && Dead(s.sessions, family)
    ensures Dead(Run(s, events).sessions, family)
    decreases |events|
  {
    if events != [] {
      StepKeepsSessions(s, events[0]);
      StepKeepsDead(s, events[0], family);
      RunKeepsDead(Step(s, events[0]), events[1..], family);
    }
  }

  /** The request must revoke `family` before it answers. */
  predicate Obliged(s: Db, req: Id, family: Id) {
    req in s.inflight && s.inflight[req] == FamilyRevocation(family)
  }

  /** Presenting a rotated token, or losing the rotation race, obliges the request to revoke. */
  lemma ReuseObliges(s: Db, req: Id, token: Id)
    ensures req !in s.inflight && token in s.sessions && s.sessions[token].IsRotated() ==>
              Obliged(Step(s, Signing(RefreshRead(req, token))), req, s.sessions[token].family)
    ensures req in s.inflight && s.inflight[req].Rotation? && s.inflight[req].token == token
            && token in s.sessions && !s.sessions[token].Live() ==>
              Obliged(Step(s, Signing(RefreshCommit(req))), req, s.inflight[req].snapshot.family)
  {
  }

  lemma SigningKeepsObligation(s: Db, e: AuthEvent, req: Id, family: Id)
    requires Obliged(s, req, family) && e != RevokeFamily(req)
    ensures Obliged(AuthStep(s, e), req, family)
  {
  }

  lemma FactorKeepsObligation(s: Db, e: FactorEvent, req: Id, family: Id)
    requires Obliged(s, req, family)
    ensures Obliged(FactorStep(s, e), req, family)
  {
  }

  /**
    Whatever happens between noticing the reuse and revoking, and whatever happens
    afterwards (refreshes that read their session earlier included), a family with an
    obligation is dead from the moment `revokeTokenFamily` has run.
  */
  lemma {:induction false} ReuseKillsFamily(s: Db, req: Id, family: Id, between: seq<Event>, later: seq<Event>)
    requires SessionsOk(s) && Obliged(s, req, family)
    requires Signing(RevokeFamily(req)) !in between
    ensures Dead(Run(Step(Run(s, between), Signing(RevokeFamily(req))), later).sessions, family)
    decreases |between|
  {
    if between == [] {
      assert PendingMatches(s.sessions, s.nextId, s.inflight[req]);
      StepKeepsSessions(s, Signing(RevokeFamily(req)));
      RunKeepsDead(Step(s, Signing(RevokeFamily(req))), later, family);
    } else {
      StepKeepsSessions(s, between[0]);
      match between[0] {
        case Signing(a) => SigningKeepsObligation(s, a, req, family);
        case Factor(f) => FactorKeepsObligation(s, f, req, family);
      }
      ReuseKillsFamily(Step(s, between[0]), req, family, between[1..], later);
    }
  }

  /** An undisturbed refresh of a live, unexpired session of an active user does rotate it. */
  lemma RefreshRotates(s: Db, req: Id, token: Id)
    requires SessionsOk(s) && req !in s.inflight && token in s.sessions
    ensures var x := s.sessions[token];
            var t := Step(Step(s, Signing(RefreshRead(req, token))), Signing(RefreshCommit(req)));
            if x.Live() && s.clock < x.expiresAt && Active(s, x.user) then
              && s.nextId in t.sessions
              && t.sessions[s.nextId] == Session(x.user, x.family, s.clock + s.refreshTtl, None, None)
              && t.sessions[token].IsRotated() && t.sessions[token].replacedBy == Some(s.nextId)
              && (forall id :: id in s.sessions && id != token ==> id in t.sessions && t.sessions[id] == s.sessions[id])
              && t.inflight == s.inflight
            else
              t.sessions == s.sessions
  {
  }
}
