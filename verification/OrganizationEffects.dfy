/**
  What each request on organizations, invitations and memberships does, and exactly when, said in
  terms of the rows before and after and of the ranks of those involved.
*/
module OrganizationEffects {
  import opened Common
  import opened Roles
  import opened Organizations
  import opened OrganizationSafety
  import Slug

  // ---------------------------------------------------------------- invitations

  /** `actor` is an administrator or the owner of the live organization `o`, and above `role`. */
  predicate Above(s: Db, actor: Id, o: Id, role: Role) {
    && o in s.orgs && !s.orgs[o].deleted && (o, actor) in s.members
    && s.members[(o, actor)] in {Owner, Admin} && Rank(role) < Rank(s.members[(o, actor)])
  }

  predicate Administers(s: Db, actor: Id, o: Id) {
    o in s.orgs && !s.orgs[o].deleted && (o, actor) in s.members && s.members[(o, actor)] in {Owner, Admin}
  }

  predicate Open(v: Invitation, now: Time) {
    v.status == Pending && now < v.expiresAt
  }

  /** An open invitation to `o` for `email`, other than `but`. */
  predicate OpenElsewhere(s: Db, o: Id, email: Id, but: Id) {
    exists i :: i in s.invitations && i != but && s.invitations[i].org == o && s.invitations[i].email == email && Open(s.invitations[i], s.clock)
  }

  /** Pending past its deadline. */
  predicate Lapsed(v: Invitation, now: Time) {
    v.status == Pending && v.expiresAt <= now
  }

  /** The row after a request that marks the lapsed invitations to `o`, those for `email` if it names one, if `marks`. */
  function Marked(v: Invitation, now: Time, o: Id, email: Option<Id>, marks: bool): Invitation {
    if marks && Lapsed(v, now) && v.org == o && (email.Some? ==> v.email == email.value) then v.(status := Expired) else v
  }

  /** Apart from the invitation `but` and such marks nothing changes. */
  ghost predicate OnlyMarks(s: Db, t: Db, o: Id, email: Option<Id>, marks: bool, but: Id) {
    && t.orgs == s.orgs && t.members == s.members && t.emails == s.emails && t.clock == s.clock
    && (forall i :: i != but ==> (i in t.invitations <==> i in s.invitations))
    && (forall i :: i != but && i in s.invitations ==> t.invitations[i] == Marked(s.invitations[i], s.clock, o, email, marks))
  }

  /**
    Revoking: afterwards the invitation is revoked exactly if it was, or if it is an open one of the
    organization and the actor is above its role. Nothing else changes, apart from expiries.
  */
  lemma RevokeExactly(s: Db, actor: Id, o: Id, id: Id)
    ensures var t := Step(s, Inviting(Revoke(actor, o, id)));
            && OnlyMarks(s, t, o, None, Administers(s, actor, o), id) && t.nextId == s.nextId && (id in t.invitations <==> id in s.invitations)
            && (id in s.invitations ==>
                  var v, w := s.invitations[id], t.invitations[id];
                  && (w.status == Revoked <==> v.status == Revoked || (Above(s, actor, o, v.role) && v.org == o && Open(v, s.clock)))
                  && (if w.status == Revoked then w == v.(status := Revoked) else w == Marked(v, s.clock, o, None, Administers(s, actor, o))))
  {
  }

  /** A revoked invitation is never redeemed afterwards, whatever follows. */
  lemma RevokedIsNeverRedeemed(events: seq<Event>, i: nat, k: nat, actor: Id, o: Id, id: Id)
    requires i < k < |events| && events[i] == Inviting(Revoke(actor, o, id)) && id in Before(events, i).invitations
    requires var s := Before(events, i); var v := s.invitations[id]; Above(s, actor, o, v.role) && v.org == o && Open(v, s.clock)
    ensures Before(events, k).invitations.Keys >= {id} && Before(events, k).invitations[id].status == Revoked
    ensures !Joins(Before(events, k), events[k], id)
  {
    RevokeExactly(Before(events, i), actor, o, id);
    BeforeNext(events, i);
    ClosedStays(events, i + 1, k, id);
  }

  /** Somebody with this address is a member. */
  predicate Belongs(s: Db, o: Id, email: Id) {
    exists u :: (o, u) in s.members && u in s.emails && s.emails[u] == email
  }

  /** The actor is above the role, and nobody with the address is a member or holds an open invitation. */
  predicate Invitable(s: Db, actor: Id, o: Id, email: Id, role: Role) {
    Above(s, actor, o, role) && !Belongs(s, o, email) && !OpenElsewhere(s, o, email, s.nextId)
  }

  lemma InvitableIsChecked(s: Db, actor: Id, o: Id, email: Id, role: Role)
    requires Valid(s)
    ensures Invitable(s, actor, o, email, role) <==>
              && May(s, o, actor, InvitationCreate) && CanAssign(s.members[(o, actor)], role)
              && !IsMemberEmail(Expire(s, o, Some(email)), o, email) && !HasPending(Expire(s, o, Some(email)), o, email)
  {
    var t := Expire(s, o, Some(email));
    assert Above(s, actor, o, role) <==> May(s, o, actor, InvitationCreate) && CanAssign(s.members[(o, actor)], role);
    if OpenElsewhere(s, o, email, s.nextId) {
      var i :| i in s.invitations && i != s.nextId && s.invitations[i].org == o && s.invitations[i].email == email && Open(s.invitations[i], s.clock);
      assert t.invitations[i] == s.invitations[i];
    }
    if HasPending(t, o, email) {
      var i :| i in t.invitations && t.invitations[i].org == o && t.invitations[i].email == email && t.invitations[i].status == Pending;
      assert Open(s.invitations[i], s.clock);
    }
  }

  /** Inviting issues an invitation for seven days exactly then; nothing else changes, apart from expiries. */
  lemma InviteExactly(s: Db, actor: Id, o: Id, email: Id, role: Role)
    requires Valid(s)
    ensures var t := Step(s, Inviting(Invite(actor, o, email, role)));
            && OnlyMarks(s, t, o, Some(email), Above(s, actor, o, role), s.nextId)
            && if Invitable(s, actor, o, email, role) then
                 && t.nextId == s.nextId + 2 && s.nextId in t.invitations
                 && t.invitations[s.nextId] == Invitation(o, email, role, Pending, s.nextId + 1, s.clock + 7 * DAY, actor)
               else t.nextId == s.nextId && s.nextId !in t.invitations
  {
    InvitableIsChecked(s, actor, o, email, role);
    InviteMarks(s, actor, o, email, role);
  }

  lemma InviteMarks(s: Db, actor: Id, o: Id, email: Id, role: Role)
    requires s.nextId !in s.invitations
    ensures OnlyMarks(s, DoInvite(s, actor, o, email, role), o, Some(email), Above(s, actor, o, role), s.nextId)
  {
    assert Above(s, actor, o, role) <==> May(s, o, actor, InvitationCreate) && CanAssign(s.members[(o, actor)], role);
  }

  /**
    An invitation that was issued lets its addressee in, in the invited role, exactly while it is
    younger than seven days; after that the attempt marks it expired.
  */
  lemma InviteThenAccept(s: Db, actor: Id, o: Id, email: Id, role: Role, wait: nat, user: User) returns (u: Db)
    requires Valid(s) && Invitable(s, actor, o, email, role)
    requires user.verified && user.email == email && (o, user.id) !in s.members
    ensures u == Step(Step(Step(s, Inviting(Invite(actor, o, email, role))), Tick(wait)), Inviting(Accept(user, s.nextId, s.nextId + 1)))
    ensures s.nextId in u.invitations
    ensures if wait < 7 * DAY then u.members == s.members[(o, user.id) := role] && u.invitations[s.nextId].status == Accepted
            else u.members == s.members && u.invitations[s.nextId].status == Expired
  {
    var a := Step(s, Inviting(Invite(actor, o, email, role)));
    InviteExactly(s, actor, o, email, role);
    var t := Step(a, Tick(wait));
    assert t == a.(clock := a.clock + wait);
    u := Step(t, Inviting(Accept(user, s.nextId, s.nextId + 1)));
    AcceptExactly(t, user, s.nextId, s.nextId + 1);
  }

  /** The actor is above the invited role, and the invitation is of `o`, pending or expired, and without an open rival. */
  predicate Resendable(s: Db, actor: Id, o: Id, id: Id) {
    && id in s.invitations && s.invitations[id].org == o && Above(s, actor, o, s.invitations[id].role)
    && s.invitations[id].status in {Pending, Expired} && !OpenElsewhere(s, o, s.invitations[id].email, id)
  }

  lemma ResendableIsChecked(s: Db, actor: Id, o: Id, id: Id)
    requires id in s.invitations && May(s, o, actor, InvitationResend)
    ensures var t := Expire(s, o, None);
            Resendable(s, actor, o, id) <==>
              && s.invitations[id].org == o && CanAssign(s.members[(o, actor)], s.invitations[id].role)
              && t.invitations[id].status !in {Accepted, Revoked} && !HasOtherPending(t, o, s.invitations[id].email, id)
  {
    var t, email := Expire(s, o, None), s.invitations[id].email;
    if OpenElsewhere(s, o, email, id) {
      var i :| i in s.invitations && i != id && s.invitations[i].org == o && s.invitations[i].email == email && Open(s.invitations[i], s.clock);
      assert t.invitations[i] == s.invitations[i];
    }
  }

  /** Resending opens it again for seven days under a new token exactly then; nothing else changes, apart from expiries. */
  lemma ResendExactly(s: Db, actor: Id, o: Id, id: Id)
    requires id in s.invitations
    ensures var t := Step(s, Inviting(Resend(actor, o, id)));
            && OnlyMarks(s, t, o, None, Administers(s, actor, o), id) && id in t.invitations
            && if Resendable(s, actor, o, id) then
                 && t.nextId == s.nextId + 1
                 && t.invitations[id]
                    == s.invitations[id].(status := Pending, token := s.nextId, expiresAt := s.clock + 7 * DAY, invitedBy := actor)
               else t.nextId == s.nextId && t.invitations[id] == Marked(s.invitations[id], s.clock, o, None, Administers(s, actor, o))
  {
    if May(s, o, actor, InvitationResend) {
      ResendableIsChecked(s, actor, o, id);
    } else {
      assert !Resendable(s, actor, o, id);
    }
  }

  /** After a resend the old token is refused, whoever presents it, and the new one is good for seven days. */
  lemma ResendRetiresToken(s: Db, actor: Id, o: Id, id: Id, user: User, wait: nat) returns (t: Db, u: Db)
    requires Valid(s) && Resendable(s, actor, o, id)
    ensures t == Step(s, Inviting(Resend(actor, o, id))) && id in t.invitations && t.invitations[id].token != s.invitations[id].token
    ensures Step(t, Inviting(Accept(user, id, s.invitations[id].token))) == t
    ensures u == Step(Step(t, Tick(wait)), Inviting(Accept(user, id, t.invitations[id].token)))
    ensures user.verified && user.email == s.invitations[id].email && (o, user.id) !in s.members ==>
              u.members == if wait < 7 * DAY then s.members[(o, user.id) := s.invitations[id].role] else s.members
  {
    t := Step(s, Inviting(Resend(actor, o, id)));
    ResendExactly(s, actor, o, id);
    AcceptExactly(t, user, id, s.invitations[id].token);
    var a := Step(t, Tick(wait));
    assert a == t.(clock := t.clock + wait);
    u := Step(a, Inviting(Accept(user, id, t.invitations[id].token)));
    AcceptExactly(a, user, id, t.invitations[id].token);
  }

  /**
    Accepting makes a verified user a member in the invited role exactly if the invitation is theirs,
    open, presented with its token, and to a live organization they do not belong to. One found
    pending past its deadline is marked; nothing else ever changes.
  */
  lemma AcceptExactly(s: Db, user: User, id: Id, token: Id)
    ensures var t := Step(s, Inviting(Accept(user, id, token)));
            if !user.verified || id !in s.invitations || s.invitations[id].token != token
               || s.invitations[id].org !in s.orgs || s.orgs[s.invitations[id].org].deleted || s.invitations[id].status != Pending then t == s
            else if s.invitations[id].expiresAt <= s.clock then
              t == s.(invitations := s.invitations[id := s.invitations[id].(status := Expired)])
            else if s.invitations[id].email == user.email && (s.invitations[id].org, user.id) !in s.members then
              t == s.(invitations := s.invitations[id := s.invitations[id].(status := Accepted)],
                      members := s.members[(s.invitations[id].org, user.id) := s.invitations[id].role])
            else t == s
  {
  }

  /** Listing marks exactly the organization's invitations that are pending past their deadline, for an administrator or the owner. */
  lemma ListMarksLapsed(s: Db, actor: Id, o: Id)
    ensures var t := Step(s, Inviting(ListInvitations(actor, o)));
            && t == s.(invitations := t.invitations) && t.invitations.Keys == s.invitations.Keys
            && forall i :: i in s.invitations ==>
                 var v := s.invitations[i];
                 t.invitations[i] == if Administers(s, actor, o) && v.org == o && v.status == Pending && v.expiresAt <= s.clock
                                     then v.(status := Expired) else v
  {
  }

  // ---------------------------------------------------------------- organizations

  predicate SlugUsed(s: Db, slug: string) {
    exists o :: o in s.orgs && s.orgs[o].slug == slug
  }

  lemma UsedSuffix(s: Db, base: string, k: nat)
    requires 1 <= k <= 100
    ensures k in InUse(Taken(s), base) <==> SlugUsed(s, Slug.WithSuffix(base, k))
  {
  }

  /** A verified founder gets the organization under the smallest number whose slug is free, if any of a hundred is. */
  lemma CreateExactly(s: Db, founder: User, name: string) returns (n: nat)
    ensures n <= 100 && forall k :: 1 <= k <= 100 && (k < n || n == 0) ==> SlugUsed(s, Slug.WithSuffix(Slug.Slugify(name), k))
    ensures n > 0 ==> !SlugUsed(s, Slug.WithSuffix(Slug.Slugify(name), n))
    ensures var t := Step(s, Create(founder, name));
            if !founder.verified || n == 0 then t == s
            else t == s.(nextId := s.nextId + 1, members := s.members[(s.nextId, founder.id) := Owner],
                         orgs := s.orgs[s.nextId := Org(founder.id, Slug.WithSuffix(Slug.Slugify(name), n), false)])
  {
    var base := Slug.Slugify(name);
    FirstFreeIsSmallest(InUse(Taken(s), base), 1);
    var free := FirstFree(InUse(Taken(s), base), 1);
    n := if free.Some? then free.value else 0;
    CreateSteps(s, founder, name);
    forall k | 1 <= k <= 100 ensures k in InUse(Taken(s), base) <==> SlugUsed(s, Slug.WithSuffix(base, k)) {
      UsedSuffix(s, base, k);
    }
  }

  lemma CreateSteps(s: Db, founder: User, name: string)
    ensures var t, base := Step(s, Create(founder, name)), Slug.Slugify(name);
            var n := FirstFree(InUse(Taken(s), base), 1);
            if !founder.verified || n.None? then t == s
            else 1 <= n.value <= 100 && t == s.(nextId := s.nextId + 1, members := s.members[(s.nextId, founder.id) := Owner],
                                     orgs := s.orgs[s.nextId := Org(founder.id, Slug.WithSuffix(base, n.value), false)])
  {
    FirstFreeIsSmallest(InUse(Taken(s), Slug.Slugify(name)), 1);
  }

  /** Only its owner deletes a live organization; its pending invitations are revoked, and all else stays. */
  lemma DeleteExactly(s: Db, actor: Id, o: Id)
    requires Valid(s)
    ensures var t := Step(s, Delete(actor, o));
            if o in s.orgs && !s.orgs[o].deleted && s.orgs[o].owner == actor then
              && t == s.(orgs := s.orgs[o := s.orgs[o].(deleted := true)], invitations := t.invitations)
              && t.invitations.Keys == s.invitations.Keys
              && forall i :: i in s.invitations ==>
                   t.invitations[i] == if s.invitations[i].org == o && s.invitations[i].status == Pending
                                       then s.invitations[i].(status := Revoked) else s.invitations[i]
            else t == s
  {
    RoleOfMember(s, o, actor);
  }

  /** Only the owner hands a live organization over, to another member, and becomes an administrator. */
  lemma TransferExactly(s: Db, actor: Id, o: Id, target: Id)
    requires Valid(s)
    ensures var t := Step(s, Managing(Transfer(actor, o, target)));
            if o in s.orgs && !s.orgs[o].deleted && s.orgs[o].owner == actor && (o, target) in s.members && target != actor
            then t == s.(members := s.members[(o, target) := Owner][(o, actor) := Admin], orgs := s.orgs[o := s.orgs[o].(owner := target)])
            else t == s
  {
    RoleOfMember(s, o, actor);
  }
}
