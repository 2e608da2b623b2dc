/**
  Organizations (backend/src/organizations/organizations.service.ts): ownership, roles and
  invitations. Each request is one step. A membership is addressed by its organization and user,
  which identify it; the invitation lookup by token answers the row that the request names.
*/
module Organizations {
  import opened Common
  import opened Roles
  import Slug

  const INVITATION_TTL: nat := 7 * DAY
  const MAX_SUFFIX: nat := 100

  datatype Org = Org(owner: Id, slug: string, deleted: bool)

  datatype Status = Pending | Accepted | Revoked | Expired

  datatype Invitation = Invitation(org: Id, email: Id, role: Role, status: Status, token: Id, expiresAt: Time, invitedBy: Id)

  datatype Db = Db(
    clock: Time,
    nextId: Id,
    emails: map<Id, Id>,
    orgs: map<Id, Org>,
    members: map<(Id, Id), Role>,
    invitations: map<Id, Invitation>)

  /** The authenticated user of a request. */
  datatype User = User(id: Id, email: Id, verified: bool)

  datatype InvitationEvent =
    | Invite(actor: Id, org: Id, email: Id, role: Role)
    | ListInvitations(actor: Id, org: Id)
    | Resend(actor: Id, org: Id, invitation: Id)
    | Revoke(actor: Id, org: Id, invitation: Id)
    | Accept(user: User, invitation: Id, token: Id)

  datatype MemberEvent =
    | ChangeRole(actor: Id, org: Id, target: Id, role: Role)
    | Remove(actor: Id, org: Id, target: Id)
    | Leave(actor: Id, org: Id)
    | Transfer(actor: Id, org: Id, target: Id)

  datatype Event =
    | Tick(elapsed: nat)
    | SetEmail(user: Id, email: Id)
    | Create(founder: User, name: string)
    | Delete(actor: Id, org: Id)
    | Inviting(request: InvitationEvent)
    | Managing(change: MemberEvent)

  // ---------------------------------------------------------------- context and capabilities

  predicate Live(s: Db, o: Id) {
    o in s.orgs && !s.orgs[o].deleted
  }

  /** `resolve` and the capability guard of the route. */
  predicate May(s: Db, o: Id, user: Id, c: Capability) {
    Live(s, o) && (o, user) in s.members && HasCapability(s.members[(o, user)], c)
  }

  // ---------------------------------------------------------------- organizations

  /** The suffixes that lead to a slug some organization uses. */
  function InUse(taken: set<string>, base: string): set<nat> {
    set n: nat | 1 <= n <= MAX_SUFFIX && Slug.WithSuffix(base, n) in taken
  }

  /** The smallest suffix from `n` on that is not in use. */
  function FirstFree(used: set<nat>, n: nat): Option<nat>
    decreases MAX_SUFFIX + 1 - n
  {
    if n > MAX_SUFFIX then None else if n !in used then Some(n) else FirstFree(used, n + 1)
  }

  /** The loop of `createOrganization`: the smallest free suffix, and a conflict exactly when all are taken. */
  lemma {:induction false} FirstFreeIsSmallest(used: set<nat>, n: nat)
    ensures FirstFree(used, n).None? <==> forall k :: n <= k <= MAX_SUFFIX ==> k in used
    ensures FirstFree(used, n).Some? ==>
              && n <= FirstFree(used, n).value <= MAX_SUFFIX && FirstFree(used, n).value !in used
              && forall k :: n <= k < FirstFree(used, n).value ==> k in used
    decreases MAX_SUFFIX + 1 - n
  {
    if n <= MAX_SUFFIX { FirstFreeIsSmallest(used, n + 1); }
  }

  function Taken(s: Db): set<string> {
    set o | o in s.orgs :: s.orgs[o].slug
  }

  function DoCreate(s: Db, user: User, name: string): Db {
    if !user.verified then s
    else
      var base := Slug.Slugify(name);
      var suffix := FirstFree(InUse(Taken(s), base), 1);
      FirstFreeIsSmallest(InUse(Taken(s), base), 1);
      if suffix.None? then s
      else s.(nextId := s.nextId + 1,
              orgs := s.orgs[s.nextId := Org(user.id, Slug.WithSuffix(base, suffix.value), false)],
              members := s.members[(s.nextId, user.id) := Owner])
  }

  function DoDelete(s: Db, actor: Id, o: Id): Db {
    if !May(s, o, actor, OrganizationDelete) then s
    else s.(invitations := map i | i in s.invitations ::
              var v := s.invitations[i]; if v.org == o && v.status == Pending then v.(status := Revoked) else v,
            orgs := s.orgs[o := s.orgs[o].(deleted := true)])
  }

  // ---------------------------------------------------------------- invitations

  predicate Due(s: Db, v: Invitation, o: Id, email: Option<Id>) {
    v.org == o && v.status == Pending && v.expiresAt <= s.clock && (email.Some? ==> v.email == email.value)
  }

  /** `expireInvitations`. */
  function Expire(s: Db, o: Id, email: Option<Id>): Db {
    s.(invitations := map i | i in s.invitations ::
         if Due(s, s.invitations[i], o, email) then s.invitations[i].(status := Expired) else s.invitations[i])
  }

  predicate HasPending(s: Db, o: Id, email: Id) {
    exists i :: i in s.invitations && s.invitations[i].org == o && s.invitations[i].email == email && s.invitations[i].status == Pending
  }

  predicate HasOtherPending(s: Db, o: Id, email: Id, id: Id) {
    exists i :: i in s.invitations && i != id && s.invitations[i].org == o && s.invitations[i].email == email && s.invitations[i].status == Pending
  }

  predicate IsMemberEmail(s: Db, o: Id, email: Id) {
    exists u :: u in s.emails && (o, u) in s.members && s.emails[u] == email
  }

  function DoInvite(s: Db, actor: Id, o: Id, email: Id, role: Role): Db {
    if !May(s, o, actor, InvitationCreate) || !CanAssign(s.members[(o, actor)], role) then s
    else
      var t := Expire(s, o, Some(email));
      if IsMemberEmail(t, o, email) || HasPending(t, o, email) then t
      else t.(nextId := t.nextId + 2,
              invitations := t.invitations[t.nextId := Invitation(o, email, role, Pending, t.nextId + 1, t.clock + INVITATION_TTL, actor)])
  }

  function DoList(s: Db, actor: Id, o: Id): Db {
    if !May(s, o, actor, InvitationRead) then s else Expire(s, o, None)
  }

  function DoResend(s: Db, actor: Id, o: Id, id: Id): Db {
    if !May(s, o, actor, InvitationResend) then s
    else
      var t := Expire(s, o, None);
      if id !in t.invitations || t.invitations[id].org != o || !CanAssign(s.members[(o, actor)], t.invitations[id].role)
         || t.invitations[id].status == Accepted || t.invitations[id].status == Revoked
         || HasOtherPending(t, o, t.invitations[id].email, id)
      then t
      else t.(nextId := t.nextId + 1,
              invitations := t.invitations[id := t.invitations[id].(
                status := Pending, token := t.nextId, expiresAt := t.clock + INVITATION_TTL, invitedBy := actor)])
  }

  function DoRevoke(s: Db, actor: Id, o: Id, id: Id): Db {
    if !May(s, o, actor, InvitationRevoke) then s
    else
      var t := Expire(s, o, None);
      if id !in t.invitations || t.invitations[id].org != o || !CanAssign(s.members[(o, actor)], t.invitations[id].role)
         || t.invitations[id].status != Pending
      then t
      else t.(invitations := t.invitations[id := t.invitations[id].(status := Revoked)])
  }

  /** The invitation that `token` names and whose organization still exists. */
  predicate Redeemable(s: Db, id: Id, token: Id) {
    id in s.invitations && s.invitations[id].token == token && Live(s, s.invitations[id].org)
  }

  predicate Accepts(s: Db, user: User, id: Id, token: Id) {
    && user.verified && Redeemable(s, id, token)
    && s.invitations[id].status == Pending && s.clock < s.invitations[id].expiresAt
    && s.invitations[id].email == user.email
    && (s.invitations[id].org, user.id) !in s.members
  }

  /** An invitation found past its deadline is marked; every other refusal changes nothing. */
  function DoAccept(s: Db, user: User, id: Id, token: Id): Db {
    if Accepts(s, user, id, token) then
      s.(invitations := s.invitations[id := s.invitations[id].(status := Accepted)],
         members := s.members[(s.invitations[id].org, user.id) := s.invitations[id].role])
    else if user.verified && Redeemable(s, id, token)
            && s.invitations[id].status == Pending && s.invitations[id].expiresAt <= s.clock then
      s.(invitations := s.invitations[id := s.invitations[id].(status := Expired)])
    else
      s
  }

  function InvitationStep(s: Db, e: InvitationEvent): Db {
    match e
    case Invite(actor, o, email, role) => DoInvite(s, actor, o, email, role)
    case ListInvitations(actor, o) => DoList(s, actor, o)
    case Resend(actor, o, id) => DoResend(s, actor, o, id)
    case Revoke(actor, o, id) => DoRevoke(s, actor, o, id)
    case Accept(user, id, token) => DoAccept(s, user, id, token)
  }

  // ---------------------------------------------------------------- memberships

  predicate Manages(s: Db, actor: Id, o: Id, target: Id, c: Capability) {
    && May(s, o, actor, c) && (o, target) in s.members
    && CanManage(s.members[(o, actor)], actor == target, s.members[(o, target)], c)
  }

  function DoChangeRole(s: Db, actor: Id, o: Id, target: Id, role: Role): Db {
    if Manages(s, actor, o, target, MembershipChangeRole) && CanAssign(s.members[(o, actor)], role) then
      s.(members := s.members[(o, target) := role])
    else s
  }

  function DoRemove(s: Db, actor: Id, o: Id, target: Id): Db {
    if Manages(s, actor, o, target, MembershipRemove) then s.(members := s.members - {(o, target)}) else s
  }

  function DoLeave(s: Db, actor: Id, o: Id): Db {
    if May(s, o, actor, OrganizationLeave) && CanLeave(s.members[(o, actor)]) then s.(members := s.members - {(o, actor)}) else s
  }

  function DoTransfer(s: Db, actor: Id, o: Id, target: Id): Db {
    if May(s, o, actor, OwnershipTransfer) && (o, target) in s.members && target != actor then
      s.(members := s.members[(o, actor) := Admin][(o, target) := Owner],
         orgs := s.orgs[o := s.orgs[o].(owner := target)])
    else s
  }

  function MemberStep(s: Db, e: MemberEvent): Db {
    match e
    case ChangeRole(actor, o, target, role) => DoChangeRole(s, actor, o, target, role)
    case Remove(actor, o, target) => DoRemove(s, actor, o, target)
    case Leave(actor, o) => DoLeave(s, actor, o)
    case Transfer(actor, o, target) => DoTransfer(s, actor, o, target)
  }

  // ---------------------------------------------------------------- runs

  function Step(s: Db, e: Event): Db {
    match e
    case Tick(d) => s.(clock := s.clock + d)
    case SetEmail(u, email) => s.(emails := s.emails[u := email])
    case Create(user, name) => DoCreate(s, user, name)
    case Delete(actor, o) => DoDelete(s, actor, o)
    case Inviting(i) => InvitationStep(s, i)
    case Managing(m) => MemberStep(s, m)
  }

  function Run(s: Db, events: seq<Event>): Db
    decreases |events|
  {
    if events == [] then s else Run(Step(s, events[0]), events[1..])
  }

  function Empty(): Db {
    Db(0, 0, map[], map[], map[], map[])
  }

  lemma {:induction false} RunAppend(s: Db, a: seq<Event>, b: seq<Event>)
    ensures Run(s, a + b) == Run(Run(s, a), b)
    decreases |a|
  {
    if a == [] {
      assert a + b == b;
    } else {
      assert (a + b)[1..] == a[1..] + b;
      RunAppend(Step(s, a[0]), a[1..], b);
    }
  }

  /** Some run leads here. */
  ghost predicate Reachable(s: Db) {
    exists events: seq<Event> :: s == Run(Empty(), events)
  }

  lemma ReachStep(s: Db, e: Event)
    requires Reachable(s)
    ensures Reachable(Step(s, e))
  {
    var events: seq<Event> :| s == Run(Empty(), events);
    RunAppend(Empty(), events, [e]);
    assert Run(s, [e]) == Run(Step(s, e), [e][1..]);
    assert Step(s, e) == Run(Empty(), events + [e]);
  }
}
