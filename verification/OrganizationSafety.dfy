/** Ownership, the origin of administrators and invitations, over every run. */
module OrganizationSafety {
  import opened Common
  import opened Roles
  import opened Organizations
  import Slug

  // ---------------------------------------------------------------- ownership

  /** The owner's membership is the one OWNER membership of every organization. */
  ghost predicate Owned(s: Db) {
    && (forall o :: o in s.orgs ==> (o, s.orgs[o].owner) in s.members && s.members[(o, s.orgs[o].owner)] == Owner)
    && (forall o, u :: (o, u) in s.members ==> o in s.orgs && (s.members[(o, u)] == Owner ==> s.orgs[o].owner == u))
  }

  ghost predicate Issued(s: Db) {
    && (forall o :: o in s.orgs ==> o < s.nextId)
    && (forall i :: i in s.invitations ==> i < s.nextId && s.invitations[i].token < s.nextId)
    && (forall i :: i in s.invitations ==> s.invitations[i].org in s.orgs && s.invitations[i].role != Owner)
  }

  ghost predicate Valid(s: Db) {
    Owned(s) && Issued(s)
  }

  lemma ExpireKeeps(s: Db, o: Id, email: Option<Id>)
    requires Valid(s)
    ensures Valid(Expire(s, o, email))
  {
  }

  lemma InviteKeeps(s: Db, actor: Id, o: Id, email: Id, role: Role)
    requires Valid(s)
    ensures Valid(DoInvite(s, actor, o, email, role))
  {
  }

  lemma ResendKeeps(s: Db, actor: Id, o: Id, id: Id)
    requires Valid(s)
    ensures Valid(DoResend(s, actor, o, id))
  {
  }

  lemma InvitationStepKeeps(s: Db, e: InvitationEvent)
    requires Valid(s)
    ensures Valid(InvitationStep(s, e))
  {
    match e
    case Invite(actor, o, email, role) => InviteKeeps(s, actor, o, email, role);
    case ListInvitations(actor, o) => ExpireKeeps(s, o, None);
    case Resend(actor, o, id) => ResendKeeps(s, actor, o, id);
    case Revoke(actor, o, id) => ExpireKeeps(s, o, None);
    case Accept(user, id, token) =>
  }

  lemma TransferKeeps(s: Db, actor: Id, o: Id, target: Id)
    requires Valid(s)
    ensures Valid(DoTransfer(s, actor, o, target))
  {
  }

  lemma MemberStepKeeps(s: Db, e: MemberEvent)
    requires Valid(s)
    ensures Valid(MemberStep(s, e))
  {
    if e.Transfer? { TransferKeeps(s, e.actor, e.org, e.target); }
  }

  lemma StepKeeps(s: Db, e: Event)
    requires Valid(s)
    ensures Valid(Step(s, e))
  {
    match e
    case Inviting(i) => InvitationStepKeeps(s, i);
    case Managing(m) => MemberStepKeeps(s, m);
    case Create(user, name) => CreateKeeps(s, user, name);
    case _ =>
  }

  lemma CreateKeeps(s: Db, user: User, name: string)
    requires Valid(s)
    ensures Valid(DoCreate(s, user, name))
  {
  }

  lemma {:induction false} RunKeeps(s: Db, events: seq<Event>)
    requires Valid(s)
    ensures Valid(Run(s, events))
    decreases |events|
  {
    if events != [] {
      StepKeeps(s, events[0]);
      RunKeeps(Step(s, events[0]), events[1..]);
    }
  }

  function OwnersOf(s: Db, o: Id): set<(Id, Id)> {
    set k | k in s.members && k.0 == o && s.members[k] == Owner
  }

  /** In every run an organization has exactly one OWNER membership, and it is its owner's. */
  lemma OneOwner(events: seq<Event>, o: Id)
    requires o in Run(Empty(), events).orgs
    ensures var s := Run(Empty(), events); OwnersOf(s, o) == {(o, s.orgs[o].owner)}
  {
    RunKeeps(Empty(), events);
  }

  // ---------------------------------------------------------------- prefixes of a run

  function Before(events: seq<Event>, i: nat): Db
    requires i <= |events|
  {
    Run(Empty(), events[..i])
  }

  lemma {:induction false} RunSnoc(s: Db, events: seq<Event>)
    requires events != []
    ensures Run(s, events) == Step(Run(s, events[..|events| - 1]), events[|events| - 1])
    decreases |events|
  {
    var init := events[..|events| - 1];
    if |events| == 1 {
      assert Run(Step(s, events[0]), events[1..]) == Step(s, events[0]);
    } else {
      RunSnoc(Step(s, events[0]), events[1..]);
      assert events[1..][..|events| - 2] == init[1..];
    }
  }

  lemma BeforeNext(events: seq<Event>, i: nat)
    requires i < |events|
    ensures Before(events, i + 1) == Step(Before(events, i), events[i])
    ensures Valid(Before(events, i))
  {
    RunKeeps(Empty(), events[..i]);
    RunSnoc(Empty(), events[..i + 1]);
    assert events[..i + 1][..i] == events[..i];
  }

  // ---------------------------------------------------------------- administrators

  predicate IsAdmin(s: Db, o: Id, u: Id) {
    (o, u) in s.members && s.members[(o, u)] == Admin
  }

  predicate OwnedBy(s: Db, o: Id, actor: Id) {
    Live(s, o) && s.orgs[o].owner == actor
  }

  /** `e` issues the invitation `i` to administer `o`, or renews it, under `token`, and its actor owns `o`. */
  predicate OwnerInvites(s: Db, e: Event, o: Id, i: Id, token: Id) {
    && e.Inviting? && AdminInvitation(Step(s, e), o, i, token) && !AdminInvitation(s, o, i, token)
    && Step(s, e).invitations[i].status == Pending
    && match e.request
       case Invite(actor, org, _, role) => org == o && role == Admin && i == s.nextId && OwnedBy(s, o, actor)
       case Resend(actor, org, id) => org == o && id == i && i in s.invitations && OwnedBy(s, o, actor)
       case _ => false
  }

  /** `e` makes `u` an administrator of `o` by an owner's direct act. */
  predicate OwnerPromotes(s: Db, e: Event, o: Id, u: Id) {
    && e.Managing?
    && match e.change
       case ChangeRole(actor, org, target, role) => org == o && target == u && role == Admin && OwnedBy(s, o, actor)
       case Transfer(actor, org, _) => org == o && actor == u && OwnedBy(s, o, actor)
       case _ => false
  }

  /** `e` makes `u` an administrator of `o` by accepting the invitation `i`. */
  predicate Redeems(s: Db, e: Event, o: Id, u: Id, i: Id) {
    && e.Inviting? && e.request.Accept? && e.request.invitation == i && e.request.user.id == u
    && Accepts(s, e.request.user, i, e.request.token)
    && s.invitations[i].org == o && s.invitations[i].role == Admin
  }

  /** The invitation `i` to administer `o` can be redeemed with `token` only. */
  predicate AdminInvitation(s: Db, o: Id, i: Id, token: Id) {
    i in s.invitations && s.invitations[i].org == o && s.invitations[i].role == Admin && s.invitations[i].token == token
  }

  lemma InviteInvites(s: Db, actor: Id, org: Id, email: Id, role: Role, o: Id, i: Id, token: Id)
    requires Valid(s) && AdminInvitation(DoInvite(s, actor, org, email, role), o, i, token)
    ensures AdminInvitation(s, o, i, token) || OwnerInvites(s, Inviting(Invite(actor, org, email, role)), o, i, token)
  {
    if May(s, org, actor, InvitationCreate) && role == Admin && CanAssign(s.members[(org, actor)], role) { RoleOfMember(s, org, actor); }
  }

  lemma ResendInvites(s: Db, actor: Id, org: Id, id: Id, o: Id, i: Id, token: Id)
    requires Valid(s) && AdminInvitation(DoResend(s, actor, org, id), o, i, token)
    ensures AdminInvitation(s, o, i, token) || OwnerInvites(s, Inviting(Resend(actor, org, id)), o, i, token)
  {
    if May(s, org, actor, InvitationResend) { RoleOfMember(s, org, actor); }
  }

  lemma InvitationStepInvites(s: Db, e: InvitationEvent, o: Id, i: Id, token: Id)
    requires Valid(s) && AdminInvitation(InvitationStep(s, e), o, i, token)
    ensures AdminInvitation(s, o, i, token) || OwnerInvites(s, Inviting(e), o, i, token)
  {
    match e
    case Invite(actor, org, email, role) => InviteInvites(s, actor, org, email, role, o, i, token);
    case Resend(actor, org, id) => ResendInvites(s, actor, org, id, o, i, token);
    case ListInvitations(_, _) =>
    case Revoke(_, _, _) =>
    case Accept(_, _, _) =>
  }

  lemma StepInvites(s: Db, e: Event, o: Id, i: Id, token: Id)
    requires Valid(s) && AdminInvitation(Step(s, e), o, i, token)
    ensures AdminInvitation(s, o, i, token) || OwnerInvites(s, e, o, i, token)
  {
    if e.Inviting? { InvitationStepInvites(s, e.request, o, i, token); }
  }

  lemma InvitationStepPromotes(s: Db, e: InvitationEvent, o: Id, u: Id)
    requires Valid(s) && IsAdmin(InvitationStep(s, e), o, u) && !IsAdmin(s, o, u)
    ensures e.Accept? && Redeems(s, Inviting(e), o, u, e.invitation)
  {
  }

  lemma MemberStepPromotes(s: Db, e: MemberEvent, o: Id, u: Id)
    requires Valid(s) && IsAdmin(MemberStep(s, e), o, u) && !IsAdmin(s, o, u)
    ensures OwnerPromotes(s, Managing(e), o, u)
  {
  }

  lemma StepPromotes(s: Db, e: Event, o: Id, u: Id)
    requires Valid(s) && IsAdmin(Step(s, e), o, u) && !IsAdmin(s, o, u)
    ensures OwnerPromotes(s, e, o, u) || (e.Inviting? && e.request.Accept? && Redeems(s, e, o, u, e.request.invitation))
  {
    match e
    case Inviting(i) => InvitationStepPromotes(s, i, o, u);
    case Managing(m) => MemberStepPromotes(s, m, o, u);
    case _ =>
  }

  /** Every token for an invitation to administer was issued, or reissued, by the owner at that time. */
  lemma {:induction false} AdminInvitationsComeFromOwners(events: seq<Event>, n: nat, o: Id, i: Id, token: Id) returns (j: nat)
    requires n <= |events| && AdminInvitation(Before(events, n), o, i, token)
    ensures j < n && OwnerInvites(Before(events, j), events[j], o, i, token)
  {
    assert n > 0;
    BeforeNext(events, n - 1);
    StepInvites(Before(events, n - 1), events[n - 1], o, i, token);
    if AdminInvitation(Before(events, n - 1), o, i, token) {
      j := AdminInvitationsComeFromOwners(events, n - 1, o, i, token);
    } else {
      j := n - 1;
    }
  }

  /** The event since which an ADMIN membership has been one without a break. */
  lemma {:induction false} AdminSince(events: seq<Event>, n: nat, o: Id, u: Id) returns (i: nat)
    requires n <= |events| && IsAdmin(Before(events, n), o, u)
    ensures i < n && !IsAdmin(Before(events, i), o, u)
    ensures forall k :: i < k <= n ==> IsAdmin(Before(events, k), o, u)
  {
    assert n > 0;
    if IsAdmin(Before(events, n - 1), o, u) {
      i := AdminSince(events, n - 1, o, u);
    } else {
      i := n - 1;
    }
  }

  /** `e` redeems an invitation to administer `o` for `u`. */
  predicate RedeemsAdmin(s: Db, e: Event, o: Id, u: Id) {
    e.Inviting? && e.request.Accept? && Redeems(s, e, o, u, e.request.invitation)
  }

  /** An administrator is made by an owner's direct act, or by redeeming a token that an owner issued before. */
  lemma PromotedByOwner(events: seq<Event>, i: nat, o: Id, u: Id) returns (invited: Option<nat>)
    requires i < |events| && !IsAdmin(Before(events, i), o, u) && IsAdmin(Before(events, i + 1), o, u)
    ensures invited.None? ==> OwnerPromotes(Before(events, i), events[i], o, u)
    ensures invited.Some? ==>
              && invited.value < i && RedeemsAdmin(Before(events, i), events[i], o, u)
              && OwnerInvites(Before(events, invited.value), events[invited.value], o, events[i].request.invitation, events[i].request.token)
  {
    BeforeNext(events, i);
    var s, e := Before(events, i), events[i];
    StepPromotes(s, e, o, u);
    invited := None;
    if !OwnerPromotes(s, e, o, u) {
      var j := AdminInvitationsComeFromOwners(events, i, o, e.request.invitation, e.request.token);
      invited := Some(j);
    }
  }

  /**
    Every administrator traces back to an owner: since some event the membership has been ADMIN
    without a break, and that event is a role change or transfer by the owner at that time, or
    redeems a token that an earlier event of the owner at that earlier time issued.
  */
  lemma AdminsComeFromOwners(events: seq<Event>, n: nat, o: Id, u: Id) returns (i: nat, invited: Option<nat>)
    requires n <= |events| && IsAdmin(Before(events, n), o, u)
    ensures i < n && forall k :: i < k <= n ==> IsAdmin(Before(events, k), o, u)
    ensures invited.None? ==> OwnerPromotes(Before(events, i), events[i], o, u)
    ensures invited.Some? ==>
              && invited.value < i && RedeemsAdmin(Before(events, i), events[i], o, u)
              && OwnerInvites(Before(events, invited.value), events[invited.value], o, events[i].request.invitation, events[i].request.token)
  {
    i := AdminSince(events, n, o, u);
    invited := PromotedByOwner(events, i, o, u);
  }

  // ---------------------------------------------------------------- joining

  predicate Joins(s: Db, e: Event, i: Id) {
    && e.Inviting? && e.request.Accept? && e.request.invitation == i
    && Accepts(s, e.request.user, i, e.request.token)
  }

  /** Accepted or revoked. */
  predicate Closed(s: Db, i: Id) {
    i in s.invitations && (s.invitations[i].status == Accepted || s.invitations[i].status == Revoked)
  }

  lemma InvitationStepKeepsClosed(s: Db, e: InvitationEvent, i: Id)
    requires Valid(s) && Closed(s, i)
    ensures Closed(InvitationStep(s, e), i) && InvitationStep(s, e).invitations[i] == s.invitations[i]
  {
  }

  lemma StepKeepsClosed(s: Db, e: Event, i: Id)
    requires Valid(s) && Closed(s, i)
    ensures Closed(Step(s, e), i) && Step(s, e).invitations[i] == s.invitations[i]
  {
    if e.Inviting? { InvitationStepKeepsClosed(s, e.request, i); }
  }

  /** An accepted or revoked invitation never changes again. */
  lemma {:induction false} ClosedStays(events: seq<Event>, i: nat, k: nat, id: Id)
    requires i <= k <= |events| && Closed(Before(events, i), id)
    ensures Closed(Before(events, k), id) && Before(events, k).invitations[id] == Before(events, i).invitations[id]
    decreases k
  {
    if i < k {
      ClosedStays(events, i, k - 1, id);
      BeforeNext(events, k - 1);
      StepKeepsClosed(Before(events, k - 1), events[k - 1], id);
    }
  }

  /** Each invitation is redeemed at most once in any run. */
  lemma EachInvitationOnce(events: seq<Event>, i: nat, k: nat, id: Id)
    requires i < |events| && k < |events|
    requires Joins(Before(events, i), events[i], id) && Joins(Before(events, k), events[k], id)
    ensures i == k
  {
    if i < k {
      BeforeNext(events, i);
      ClosedStays(events, i + 1, k, id);
    } else if k < i {
      BeforeNext(events, k);
      ClosedStays(events, k + 1, i, id);
    }
  }

  /** A membership begins only with its organization, for the owner, or with an invitation, in the invited role. */
  lemma MembershipsBeginOneWay(s: Db, e: Event, o: Id, u: Id)
    requires Valid(s) && (o, u) !in s.members && (o, u) in Step(s, e).members
    ensures || (e.Create? && e.founder.id == u && e.founder.verified && o !in s.orgs && Step(s, e).members[(o, u)] == Owner)
            || (&& e.Inviting? && e.request.Accept? && e.request.user.id == u && Joins(s, e, e.request.invitation)
                && s.invitations[e.request.invitation].org == o
                && Step(s, e).members[(o, u)] == s.invitations[e.request.invitation].role
                && Closed(Step(s, e), e.request.invitation))
  {
    if e.Inviting? { assert e.request.Accept?; }
  }

  // ---------------------------------------------------------------- who may change what

  /** `actor` outranks `target` in the live organization `o` and may administer it. */
  predicate Outranks(s: Db, actor: Id, o: Id, target: Id) {
    && Live(s, o) && (o, actor) in s.members && (o, target) in s.members && actor != target
    && Rank(s.members[(o, actor)]) >= Rank(Admin) && Rank(s.members[(o, target)]) < Rank(s.members[(o, actor)])
  }

  /** A role change takes effect exactly when the actor outranks both the target and the new role. */
  lemma ChangeRoleNeedsRank(s: Db, actor: Id, o: Id, target: Id, role: Role)
    requires Valid(s)
    ensures Step(s, Managing(ChangeRole(actor, o, target, role)))
            == if Outranks(s, actor, o, target) && Rank(role) < Rank(s.members[(o, actor)])
               then s.(members := s.members[(o, target) := role]) else s
  {
  }

  /** A member is removed exactly when the actor outranks them, or they leave and do not own the organization. */
  lemma RemovalNeedsRank(s: Db, actor: Id, o: Id, target: Id)
    requires Valid(s)
    ensures Step(s, Managing(Remove(actor, o, target)))
            == if Outranks(s, actor, o, target) then s.(members := s.members - {(o, target)}) else s
    ensures Step(s, Managing(Leave(actor, o)))
            == if Live(s, o) && (o, actor) in s.members && s.orgs[o].owner != actor then s.(members := s.members - {(o, actor)}) else s
  {
  }

  /** Handing ownership over and back restores the owner and leaves the other an administrator. */
  lemma TransferBack(s: Db, actor: Id, o: Id, target: Id)
    requires Valid(s) && OwnedBy(s, o, actor) && (o, target) in s.members && actor != target
    ensures var t := Step(s, Managing(Transfer(actor, o, target)));
            && OwnedBy(t, o, target)
            && Step(t, Managing(Transfer(target, o, actor))) == s.(members := s.members[(o, target) := Admin])
  {
  }

  // ---------------------------------------------------------------- one pending invitation per address

  ghost predicate OnePending(s: Db) {
    forall i, j :: i in s.invitations && j in s.invitations && Rivals(s.invitations[i], s.invitations[j]) ==> i == j
  }

  predicate Rivals(v: Invitation, w: Invitation) {
    v.status == Pending && w.status == Pending && v.org == w.org && v.email == w.email
  }

  lemma ExpireKeepsOnePending(s: Db, o: Id, email: Option<Id>)
    requires OnePending(s)
    ensures OnePending(Expire(s, o, email))
  {
  }

  lemma InviteKeepsOnePending(s: Db, actor: Id, o: Id, email: Id, role: Role)
    requires OnePending(s)
    ensures OnePending(DoInvite(s, actor, o, email, role))
  {
  }

  lemma ResendKeepsOnePending(s: Db, actor: Id, o: Id, id: Id)
    requires OnePending(s)
    ensures OnePending(DoResend(s, actor, o, id))
  {
  }

  lemma RevokeKeepsOnePending(s: Db, actor: Id, o: Id, id: Id)
    requires OnePending(s)
    ensures OnePending(DoRevoke(s, actor, o, id))
  {
  }

  lemma AcceptKeepsOnePending(s: Db, user: User, id: Id, token: Id)
    requires OnePending(s)
    ensures OnePending(DoAccept(s, user, id, token))
  {
  }

  lemma InvitationStepKeepsOnePending(s: Db, e: InvitationEvent)
    requires OnePending(s)
    ensures OnePending(InvitationStep(s, e))
  {
    match e
    case Invite(actor, o, email, role) => InviteKeepsOnePending(s, actor, o, email, role);
    case ListInvitations(actor, o) => ExpireKeepsOnePending(s, o, None);
    case Resend(actor, o, id) => ResendKeepsOnePending(s, actor, o, id);
    case Revoke(actor, o, id) => RevokeKeepsOnePending(s, actor, o, id);
    case Accept(user, id, token) => AcceptKeepsOnePending(s, user, id, token);
  }

  lemma DeleteKeepsOnePending(s: Db, actor: Id, o: Id)
    requires OnePending(s)
    ensures OnePending(DoDelete(s, actor, o))
  {
  }

  lemma StepKeepsOnePending(s: Db, e: Event)
    requires OnePending(s)
    ensures OnePending(Step(s, e))
  {
    match e
    case Inviting(i) => InvitationStepKeepsOnePending(s, i);
    case Delete(actor, o) => DeleteKeepsOnePending(s, actor, o);
    case _ => assert Step(s, e).invitations == s.invitations;
  }

  /** In every run an address has at most one pending invitation to an organization. */
  lemma {:induction false} AlwaysOnePending(s: Db, events: seq<Event>)
    requires OnePending(s)
    ensures OnePending(Run(s, events))
    decreases |events|
  {
    if events != [] {
      StepKeepsOnePending(s, events[0]);
      AlwaysOnePending(Step(s, events[0]), events[1..]);
    }
  }

  // ---------------------------------------------------------------- slugs

  ghost predicate SlugsFit(s: Db) {
    && (forall o :: o in s.orgs ==> Slug.Groups(s.orgs[o].slug) && |s.orgs[o].slug| <= Slug.MAX_LENGTH)
    && (forall o, p :: o in s.orgs && p in s.orgs && s.orgs[o].slug == s.orgs[p].slug ==> o == p)
  }

  lemma CreateKeepsSlugs(s: Db, user: User, name: string)
    requires Valid(s) && SlugsFit(s)
    ensures SlugsFit(DoCreate(s, user, name))
  {
    var base := Slug.Slugify(name);
    var r := FirstFree(InUse(Taken(s), base), 1);
    FirstFreeIsSmallest(InUse(Taken(s), base), 1);
    if r.Some? {
      Slug.SlugifyIsSlug(name);
      Slug.WithSuffixIsSlug(base, r.value);
    }
  }

  /** No other step adds an organization or changes a slug. */
  lemma OthersKeepSlugs(s: Db, e: Event)
    requires !e.Create?
    ensures Step(s, e).orgs.Keys == s.orgs.Keys
    ensures forall o :: o in s.orgs ==> Step(s, e).orgs[o].slug == s.orgs[o].slug
  {
    match e
    case Inviting(i) => InvitationStepKeepsOrgs(s, i);
    case _ =>
  }

  lemma InvitationStepKeepsOrgs(s: Db, e: InvitationEvent)
    ensures InvitationStep(s, e).orgs == s.orgs
  {
  }

  lemma StepKeepsSlugs(s: Db, e: Event)
    requires Valid(s) && SlugsFit(s)
    ensures SlugsFit(Step(s, e))
  {
    if e.Create? { CreateKeepsSlugs(s, e.founder, e.name); } else { OthersKeepSlugs(s, e); }
  }

  /** In every run the slugs of all organizations, deleted ones included, are well formed and distinct. */
  lemma {:induction false} SlugsAlwaysFit(s: Db, events: seq<Event>)
    requires Valid(s) && SlugsFit(s)
    ensures SlugsFit(Run(s, events))
    decreases |events|
  {
    if events != [] {
      StepKeeps(s, events[0]);
      StepKeepsSlugs(s, events[0]);
      SlugsAlwaysFit(Step(s, events[0]), events[1..]);
    }
  }

  /** The owner may do everything in a live organization, and only the owner what only owners may do. */
  lemma OwnersMay(s: Db, o: Id, user: Id, c: Capability)
    requires Reachable(s)
    ensures Live(s, o) && s.orgs[o].owner == user ==> May(s, o, user, c)
    ensures May(s, o, user, c) && c in OWNER_ONLY ==> s.orgs[o].owner == user
  {
    ReachableIsSafe(s);
    RoleOfMember(s, o, user);
    if (o, user) in s.members && c in OWNER_ONLY { OwnerOnlyMeansOwner(s.members[(o, user)], c); }
  }

  lemma RoleOfMember(s: Db, o: Id, user: Id)
    requires Owned(s)
    ensures o in s.orgs && s.orgs[o].owner == user ==> (o, user) in s.members && s.members[(o, user)] == Owner
    ensures (o, user) in s.members && s.members[(o, user)] == Owner ==> o in s.orgs && s.orgs[o].owner == user
  {
  }

  /** What holds in every state some run leads to. */
  lemma ReachableIsSafe(s: Db)
    requires Reachable(s)
    ensures Valid(s) && OnePending(s) && SlugsFit(s)
  {
    var events: seq<Event> :| s == Run(Empty(), events);
    RunKeeps(Empty(), events);
    AlwaysOnePending(Empty(), events);
    SlugsAlwaysFit(Empty(), events);
  }
}
