/** `OrganizationsService`, with the rows changed in place. */
module OrganizationsService {
  import opened Common
  import opened Roles
  import opened Organizations
  import OrganizationSafety
  import Slug

  lemma ReachCreate(s: Db, user: User, name: string)
    requires Reachable(s)
    ensures Reachable(DoCreate(s, user, name))
  {
    ReachStep(s, Create(user, name));
  }

  lemma ReachInvite(s: Db, actor: Id, o: Id, email: Id, role: Role)
    requires Reachable(s)
    ensures Reachable(DoInvite(s, actor, o, email, role))
  {
    ReachStep(s, Inviting(Invite(actor, o, email, role)));
  }

  class Service {
    var clock: Time
    var nextId: Id
    var emails: map<Id, Id>
    var orgs: map<Id, Org>
    var members: map<(Id, Id), Role>
    var invitations: map<Id, Invitation>

    ghost function State(): Db
      reads this
    {
      Db(clock, nextId, emails, orgs, members, invitations)
    }

    /** Some run of the service leads here, so whatever holds in every run holds now. */
    ghost predicate Valid()
      reads this
    {
      Reachable(State())
    }

    constructor ()
      ensures State() == Empty() && Valid()
    {
      clock, nextId, emails, orgs, members, invitations := 0, 0, map[], map[], map[], map[];
      new;
      assert State() == Run(Empty(), []);
    }

    /** The owner passes in a live organization, and only the owner for what only the owner may do; nobody in a deleted one. */
    method Guard(o: Id, user: Id, c: Capability) returns (ok: bool)
      requires Valid()
      ensures ok == May(State(), o, user, c)
      ensures Live(State(), o) && orgs[o].owner == user ==> ok
      ensures ok && c in OWNER_ONLY ==> orgs[o].owner == user
    {
      OrganizationSafety.OwnersMay(State(), o, user, c);
      if o !in orgs || orgs[o].deleted || (o, user) !in members { return false; }
      ok := HasCapability(members[(o, user)], c);
    }

    /** In every reachable state: one owner for each organization, and issued identifiers below the counter. */
    lemma Guarantees()
      requires Valid()
      ensures OrganizationSafety.Valid(State()) && OrganizationSafety.OnePending(State()) && OrganizationSafety.SlugsFit(State())
    {
      OrganizationSafety.ReachableIsSafe(State());
    }

    /** The organization and its owner's membership, in one transaction. */
    method Insert(owner: Id, slug: string) returns (id: Id)
      modifies this`nextId, this`orgs, this`members
      ensures id == old(nextId) && nextId == id + 1
      ensures orgs == old(orgs)[id := Org(owner, slug, false)] && members == old(members)[(id, owner) := Owner]
    {
      id := nextId;
      nextId := nextId + 1;
      orgs := orgs[id := Org(owner, slug, false)];
      members := members[(id, owner) := Owner];
    }

    /** Whether the unique index on slugs lets this one in. */
    method IsFree(slug: string) returns (free: bool)
      ensures free == (slug !in Taken(State()))
    {
      free := forall o :: o in orgs ==> orgs[o].slug != slug;
    }

    /** Tries the suffixes in order until one gives an unused slug. */
    method CreateOrganization(user: User, name: string) returns (created: Option<Id>)
      requires Valid()
      modifies this`nextId, this`orgs, this`members
      ensures State() == DoCreate(old(State()), user, name)
      ensures created.None? ==> State() == old(State())
      ensures created.Some? ==> created.value in orgs && orgs[created.value].owner == user.id && !orgs[created.value].deleted
      ensures Valid()
    {
      ReachCreate(State(), user, name);
      if !user.verified { return None; }
      var base := Slug.Slugify(name);
      ghost var used := InUse(Taken(State()), base);
      FirstFreeIsSmallest(used, 1);
      var suffix := 1;
      while suffix <= MAX_SUFFIX
        invariant 1 <= suffix <= MAX_SUFFIX + 1
        invariant State() == old(State())
        invariant FirstFree(used, 1) == FirstFree(used, suffix)
      {
        var slug := Slug.WithSuffix(base, suffix);
        var free := IsFree(slug);
        if free {
          var id := Insert(user.id, slug);
          return Some(id);
        }
        suffix := suffix + 1;
      }
      return None;
    }

    /** Afterwards nobody may do anything in it, and no invitation to it is pending; other organizations are untouched. */
    method DeleteOrganization(actor: Id, o: Id)
      requires Valid()
      modifies this`orgs, this`invitations
      ensures State() == DoDelete(old(State()), actor, o) && Valid()
      ensures o in old(orgs) && !old(orgs)[o].deleted && old(orgs)[o].owner == actor ==>
                && (forall u, c :: !May(State(), o, u, c))
                && (forall i :: i in invitations && invitations[i].org == o ==> invitations[i].status != Pending)
      ensures forall p :: p in old(orgs) && p != o ==> p in orgs && orgs[p] == old(orgs)[p]
      ensures forall i :: i in old(invitations) && (old(invitations)[i].org != o || old(invitations)[i].status != Pending)
                          ==> i in invitations && invitations[i] == old(invitations)[i]
    {
      ReachStep(State(), Delete(actor, o));
      var ok := Guard(o, actor, OrganizationDelete);
      if !ok { return; }
      invitations := map i | i in invitations ::
        if invitations[i].org == o && invitations[i].status == Pending then invitations[i].(status := Revoked) else invitations[i];
      orgs := orgs[o := orgs[o].(deleted := true)];
    }

    /** Afterwards every pending invitation to `o`, or to the given address in it, can still be accepted; the others are as before. */
    method ExpireInvitations(o: Id, email: Option<Id>)
      modifies this`invitations
      ensures State() == Expire(old(State()), o, email)
      ensures invitations.Keys == old(invitations).Keys
      ensures forall i :: i in invitations ==> !Due(State(), invitations[i], o, email)
      ensures forall i :: i in invitations && (old(invitations)[i].status != Pending || clock < old(invitations)[i].expiresAt)
                          ==> invitations[i] == old(invitations)[i]
    {
      invitations := map i | i in invitations ::
        var v := invitations[i];
        if v.org == o && v.status == Pending && v.expiresAt <= clock && (email.Some? ==> v.email == email.value)
        then v.(status := Expired) else v;
    }

    method CreateInvitation(actor: Id, o: Id, email: Id, role: Role)
      requires Valid()
      modifies this`invitations, this`nextId
      ensures State() == DoInvite(old(State()), actor, o, email, role)
      ensures Valid()
    {
      ReachInvite(State(), actor, o, email, role);
      var ok := Guard(o, actor, InvitationCreate);
      if !ok || !CanAssign(members[(o, actor)], role) { return; }
      ExpireInvitations(o, Some(email));
      if exists u :: u in emails && (o, u) in members && emails[u] == email { return; }
      if exists i :: i in invitations && invitations[i].org == o && invitations[i].email == email && invitations[i].status == Pending {
        return;
      }
      invitations := invitations[nextId := Invitation(o, email, role, Pending, nextId + 1, clock + INVITATION_TTL, actor)];
      nextId := nextId + 2;
    }

    method ListInvitations(actor: Id, o: Id)
      requires Valid()
      modifies this`invitations
      ensures State() == DoList(old(State()), actor, o)
      ensures Valid()
    {
      ReachStep(State(), Inviting(InvitationEvent.ListInvitations(actor, o)));
      var ok := Guard(o, actor, InvitationRead);
      if ok { ExpireInvitations(o, None); }
    }

    method ResendInvitation(actor: Id, o: Id, id: Id)
      requires Valid()
      modifies this`invitations, this`nextId
      ensures State() == DoResend(old(State()), actor, o, id)
      ensures Valid()
    {
      ReachStep(State(), Inviting(InvitationEvent.Resend(actor, o, id)));
      var ok := Guard(o, actor, InvitationResend);
      if !ok { return; }
      ExpireInvitations(o, None);
      if id !in invitations || invitations[id].org != o || !CanAssign(members[(o, actor)], invitations[id].role) { return; }
      var existing := invitations[id];
      if existing.status == Accepted || existing.status == Revoked { return; }
      if exists i :: i in invitations && i != id && invitations[i].org == o && invitations[i].email == existing.email
                     && invitations[i].status == Pending {
        return;
      }
      invitations := invitations[id := existing.(
        status := Pending, token := nextId, expiresAt := clock + INVITATION_TTL, invitedBy := actor)];
      nextId := nextId + 1;
    }

    method RevokeInvitation(actor: Id, o: Id, id: Id)
      requires Valid()
      modifies this`invitations
      ensures State() == DoRevoke(old(State()), actor, o, id)
      ensures Valid()
    {
      ReachStep(State(), Inviting(InvitationEvent.Revoke(actor, o, id)));
      var ok := Guard(o, actor, InvitationRevoke);
      if !ok { return; }
      ExpireInvitations(o, None);
      if id !in invitations || invitations[id].org != o || !CanAssign(members[(o, actor)], invitations[id].role) { return; }
      if invitations[id].status != Pending { return; }
      invitations := invitations[id := invitations[id].(status := Revoked)];
    }

    method AcceptInvitation(user: User, id: Id, token: Id)
      requires Valid()
      modifies this`invitations, this`members
      ensures State() == DoAccept(old(State()), user, id, token)
      ensures Valid()
    {
      ReachStep(State(), Inviting(InvitationEvent.Accept(user, id, token)));
      if !user.verified || id !in invitations || invitations[id].token != token { return; }
      var v := invitations[id];
      if v.org !in orgs || orgs[v.org].deleted || v.status == Revoked || v.status == Accepted { return; }
      if v.status == Expired || v.expiresAt <= clock {
        if v.status == Pending { invitations := invitations[id := v.(status := Expired)]; }
        return;
      }
      if v.email != user.email || (v.org, user.id) in members { return; }
      invitations := invitations[id := v.(status := Accepted)];
      members := members[(v.org, user.id) := v.role];
    }

    method UpdateMemberRole(actor: Id, o: Id, target: Id, role: Role)
      requires Valid()
      modifies this`members
      ensures State() == DoChangeRole(old(State()), actor, o, target, role)
      ensures Valid()
    {
      ReachStep(State(), Managing(ChangeRole(actor, o, target, role)));
      var ok := Guard(o, actor, MembershipChangeRole);
      if !ok || (o, target) !in members { return; }
      if !CanManage(members[(o, actor)], actor == target, members[(o, target)], MembershipChangeRole) { return; }
      if !CanAssign(members[(o, actor)], role) { return; }
      members := members[(o, target) := role];
    }

    method RemoveMember(actor: Id, o: Id, target: Id)
      requires Valid()
      modifies this`members
      ensures State() == DoRemove(old(State()), actor, o, target)
      ensures Valid()
    {
      ReachStep(State(), Managing(Remove(actor, o, target)));
      var ok := Guard(o, actor, MembershipRemove);
      if !ok || (o, target) !in members { return; }
      if !CanManage(members[(o, actor)], actor == target, members[(o, target)], MembershipRemove) { return; }
      members := members - {(o, target)};
    }

    method LeaveOrganization(actor: Id, o: Id)
      requires Valid()
      modifies this`members
      ensures State() == DoLeave(old(State()), actor, o)
      ensures Valid()
    {
      ReachStep(State(), Managing(Leave(actor, o)));
      var ok := Guard(o, actor, OrganizationLeave);
      if !ok || !CanLeave(members[(o, actor)]) { return; }
      members := members - {(o, actor)};
    }

    method TransferOwnership(actor: Id, o: Id, target: Id)
      requires Valid()
      modifies this`members, this`orgs
      ensures State() == DoTransfer(old(State()), actor, o, target)
      ensures Valid()
    {
      ReachStep(State(), Managing(Transfer(actor, o, target)));
      var ok := Guard(o, actor, OwnershipTransfer);
      if !ok || (o, target) !in members || target == actor { return; }
      members := members[(o, actor) := Admin];
      members := members[(o, target) := Owner];
      orgs := orgs[o := orgs[o].(owner := target)];
    }

    method ServeInvitation(e: InvitationEvent)
      requires Valid()
      modifies this`invitations, this`nextId, this`members
      ensures State() == InvitationStep(old(State()), e)
      ensures Valid()
    {
      ReachStep(State(), Inviting(e));
      match e
      case Invite(actor, o, email, role) => CreateInvitation(actor, o, email, role);
      case ListInvitations(actor, o) => ListInvitations(actor, o);
      case Resend(actor, o, id) => ResendInvitation(actor, o, id);
      case Revoke(actor, o, id) => RevokeInvitation(actor, o, id);
      case Accept(user, id, token) => AcceptInvitation(user, id, token);
    }

    method ServeMember(e: MemberEvent)
      requires Valid()
      modifies this`members, this`orgs
      ensures State() == MemberStep(old(State()), e)
      ensures Valid()
    {
      ReachStep(State(), Managing(e));
      match e
      case ChangeRole(actor, o, target, role) => UpdateMemberRole(actor, o, target, role);
      case Remove(actor, o, target) => RemoveMember(actor, o, target);
      case Leave(actor, o) => LeaveOrganization(actor, o);
      case Transfer(actor, o, target) => TransferOwnership(actor, o, target);
    }

    method ServeOne(e: Event)
      requires Valid()
      modifies this
      ensures State() == Step(old(State()), e)
      ensures Valid()
    {
      ReachStep(State(), e);
      match e
      case Tick(d) => clock := clock + d;
      case SetEmail(u, email) => emails := emails[u := email];
      case Create(user, name) => var created := CreateOrganization(user, name);
      case Delete(actor, o) => DeleteOrganization(actor, o);
      case Inviting(i) => ServeInvitation(i);
      case Managing(m) => ServeMember(m);
    }

    /** Any sequence of requests leaves the state that `Run` computes. */
    method Serve(events: seq<Event>)
      requires Valid()
      modifies this
      ensures State() == Run(old(State()), events)
      ensures Valid()
    {
      var i := 0;
      while i < |events|
        invariant 0 <= i <= |events| && Valid()
        invariant Run(State(), events[i..]) == Run(old(State()), events)
      {
        ServeOne(events[i]);
        i := i + 1;
      }
    }
  }
}
