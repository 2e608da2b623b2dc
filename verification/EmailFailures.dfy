/** The failure time of a delivery, and exactly when it depends on the order in which webhooks arrive. */
module EmailFailures {
  import opened Common
  import opened Email
  import opened EmailCalls
  import opened EmailRegister

  // ---------------------------------------------------------------- what an event says

  /** The event names the row's message and is of one of the seven kinds that say something about it. */
  predicate Names(h: Hook, row: Row) {
    h.message.Some? && row.message == h.message && h.kind != KindOther
  }

  /** The row shows the event: its kind as the status, its time, and for a delivery or a failure the columns that go with it. */
  predicate Reads(row: Row, h: Hook) {
    && row.lastEventAt == Some(h.at)
    && match h.kind
       case KindDelivered => row.status == Delivered && row.deliveredAt == Some(h.at) && row.failedAt == None && row.error == None
       case KindBounced => row.status == Bounced && row.failedAt == Some(h.at) && row.error == Some(Reported(KindBounced))
       case KindComplained => row.status == Complained && row.failedAt == Some(h.at) && row.error == Some(Reported(KindComplained))
       case KindFailed => row.status == Failed && row.failedAt == Some(h.at) && row.error == Some(Reported(KindFailed))
       case KindSuppressed => row.status == Suppressed && row.failedAt == Some(h.at) && row.error == Some(Reported(KindSuppressed))
       case KindSent => row.status == Sent
       case KindScheduled => row.status == Sent
       case KindOther => false
  }

  lemma ConcernsIsNames(h: Hook, row: Row)
    ensures Concerns(h, row) <==> Names(h, row)
    ensures Names(h, row) && Newer(h, row) ==> Reads(ApplyHook(row, h), h)
  {
  }

  /**
    Registering an event for the first time changes exactly the rows that it names and that have heard
    of nothing as new: they show it, and keep the columns it says nothing about.
  */
  lemma HookExactly(s: Db, h: Hook, key: Id)
    requires key in s.rows
    ensures var t, row := Step(s, Webhook(h)), s.rows[key];
            && key in t.rows && t.seen == s.seen + {h.id} && t.calls == s.calls && t.sends == s.sends
            && if h.id !in s.seen && Names(h, row) && (row.lastEventAt.Some? ==> row.lastEventAt.value < h.at) then
                 && Reads(t.rows[key], h)
                 && t.rows[key] == row.(status := t.rows[key].status, lastEventAt := t.rows[key].lastEventAt,
                                        deliveredAt := t.rows[key].deliveredAt, failedAt := t.rows[key].failedAt, error := t.rows[key].error)
                 && (h.kind != KindDelivered ==> t.rows[key].deliveredAt == row.deliveredAt)
                 && (h.kind in {KindSent, KindScheduled} ==> t.rows[key].failedAt == row.failedAt && t.rows[key].error == row.error)
               else t.rows[key] == row
  {
    ConcernsIsNames(h, s.rows[key]);
  }

  /** Of some events in any order, the row shows the newest; older ones change none of the columns it decides. */
  lemma {:induction false} FinalEventDecides(row: Row, hooks: seq<Hook>, h: Hook)
    requires Newer(h, row) && h in hooks && Names(h, row)
    requires forall x :: x in hooks && Names(x, row) ==> x == h || x.at < h.at
    ensures Reads(ApplyAll(row, hooks), h)
    decreases |hooks|
  {
    var x := hooks[0];
    var r := ApplyHook(row, x);
    assert x in hooks;
    ConcernsIsNames(x, row);
    if x == h {
      forall y | y in hooks[1..] && Concerns(y, r) ensures y.at <= h.at { ConcernsIsNames(y, row); }
      ApplyOlder(r, hooks[1..]);
    } else {
      assert h in hooks[1..];
      FinalEventDecides(r, hooks[1..], h);
    }
  }

  /**
    However the events of a run arrive and repeat, a delivery that had its message and no call in
    flight shows the newest of those that name it and were not registered before: DELIVERED with the
    delivery time, a failure of the same name with its time and error, or SENT.
  */
  lemma NewestEventShows(s: Db, events: seq<Event>, key: Id, h: Hook) returns (t: Db)
    requires key in s.rows && s.rows[key].message.Some? && Quiet(s, key)
    requires Webhook(h) in events && h.id !in s.seen && forall x: Hook :: Webhook(x) in events && x.id == h.id ==> x == h
    requires Names(h, s.rows[key]) && (s.rows[key].lastEventAt.Some? ==> s.rows[key].lastEventAt.value < h.at)
    requires forall x: Hook :: Webhook(x) in events && Names(x, s.rows[key]) && x != h ==> x.at < h.at
    ensures t == Run(s, events) && key in t.rows && Reads(t.rows[key], h)
  {
    t := Run(s, events);
    RunIsApplyAll(s, events, key);
    UnseenIsHeard(s.seen, events, h);
    FirstHooksAre(s.seen, events);
    FinalEventDecides(s.rows[key], FirstHooks(s.seen, events), h);
  }

  lemma {:induction false} WithoutFailures(row: Row, hooks: seq<Hook>)
    requires row.failedAt.None? && forall x :: x in hooks && Concerns(x, row) ==> !IsFailure(StatusFor(x.kind).value)
    ensures ApplyAll(row, hooks).failedAt.None?
    decreases |hooks|
  {
    if hooks != [] {
      assert hooks[0] in hooks;
      WithoutFailures(ApplyHook(row, hooks[0]), hooks[1..]);
    }
  }

  /** A SENT event that is the newest hides an older failure if it comes first and lets it stand if it comes second. */
  lemma SentAndFailure(row: Row, sent: Hook, failure: Hook, rest: seq<Hook>)
    requires row.lastEventAt.None? && row.failedAt.None? && Concerns(sent, row) && Concerns(failure, row)
    requires StatusFor(sent.kind) == Some(Sent) && IsFailure(StatusFor(failure.kind).value) && failure.at < sent.at
    requires forall x :: x in rest && Concerns(x, row) ==> x.at <= sent.at
    ensures ApplyAll(row, [sent, failure] + rest).failedAt == None
    ensures ApplyAll(row, [failure, sent] + rest).failedAt == Some(failure.at)
  {
    var a := [sent, failure] + rest;
    var r := ApplyHook(row, sent);
    assert a[1..] == [failure] + rest;
    ApplyOlder(r, a[1..]);
    var b := [failure, sent] + rest;
    var q := ApplyHook(ApplyHook(row, failure), sent);
    assert b[1..] == [sent] + rest && b[1..][1..] == rest;
    ApplyOlder(q, rest);
  }

  // ---------------------------------------------------------------- all orders

  /** No two events about the row have the same time. */
  ghost predicate DistinctTimes(row: Row, hooks: seq<Hook>) {
    forall i, j :: 0 <= i < j < |hooks| && Concerns(hooks[i], row) && Concerns(hooks[j], row) ==> hooks[i].at != hooks[j].at
  }

  predicate HasFailure(row: Row, hooks: seq<Hook>) {
    exists f :: f in hooks && Concerns(f, row) && IsFailure(StatusFor(f.kind).value)
  }

  /** The newest event about the row says SENT. */
  predicate EndsSent(row: Row, hooks: seq<Hook>) {
    exists h :: h in hooks && Concerns(h, row) && StatusFor(h.kind) == Some(Sent) && AllUpTo(row, hooks, h.at)
  }

  predicate AllUpTo(row: Row, hooks: seq<Hook>, at: Time) {
    forall x :: x in hooks && Concerns(x, row) ==> x.at <= at
  }

  ghost predicate SameFailureTime(row: Row, hooks: seq<Hook>) {
    forall p, q :: multiset(p) == multiset(hooks) && multiset(q) == multiset(hooks)
                   ==> ApplyAll(row, p).failedAt == ApplyAll(row, q).failedAt
  }

  lemma SameMembers(p: seq<Hook>, hooks: seq<Hook>)
    requires multiset(p) == multiset(hooks)
    ensures forall x :: x in p <==> x in hooks
  {
    forall x ensures x in p <==> x in hooks {
      assert x in p <==> x in multiset(p);
      assert x in hooks <==> x in multiset(hooks);
    }
  }

  lemma TimesIdentify(row: Row, hooks: seq<Hook>, x: Hook, y: Hook)
    requires DistinctTimes(row, hooks) && x in hooks && y in hooks && Concerns(x, row) && Concerns(y, row) && x.at == y.at
    ensures x == y
  {
    var i :| 0 <= i < |hooks| && hooks[i] == x;
    var j :| 0 <= j < |hooks| && hooks[j] == y;
  }

  /** What every order leaves, unless a SENT event is newest and there is a failure. */
  lemma OrderDoesNotMatter(row: Row, hooks: seq<Hook>)
    requires row.message.Some? && row.lastEventAt.None? && row.failedAt.None? && DistinctTimes(row, hooks)
    requires !(EndsSent(row, hooks) && HasFailure(row, hooks))
    ensures SameFailureTime(row, hooks)
  {
    if HasFailure(row, hooks) {
      var j := NewestExists(row, hooks);
      var h := hooks[j];
      assert h in hooks && AllUpTo(row, hooks, h.at);
      forall p | multiset(p) == multiset(hooks)
        ensures ApplyAll(row, p).failedAt == if IsFailure(StatusFor(h.kind).value) then Some(h.at) else None
      {
        SameMembers(p, hooks);
        forall x | x in p && Concerns(x, row) ensures x == h || x.at < h.at {
          if x.at == h.at { TimesIdentify(row, hooks, x, h); }
        }
        forall x | x in p && Names(x, row) ensures x == h || x.at < h.at { ConcernsIsNames(x, row); }
        ConcernsIsNames(h, row);
        FinalEventDecides(row, p, h);
      }
    } else {
      forall p | multiset(p) == multiset(hooks) ensures ApplyAll(row, p).failedAt == None {
        SameMembers(p, hooks);
        WithoutFailures(row, p);
      }
    }
  }

  /** Taking two elements to the front. */
  lemma TwoFirst(hooks: seq<Hook>, x: Hook, y: Hook) returns (rest: seq<Hook>)
    requires x in hooks && y in hooks && x != y
    ensures multiset([x, y] + rest) == multiset(hooks) && multiset([y, x] + rest) == multiset(hooks)
  {
    var a := OneFirst(hooks, x);
    assert y in multiset(hooks) && y in multiset([x] + a);
    assert y in a;
    rest := OneFirst(a, y);
    assert [x, y] + rest == [x] + ([y] + rest);
    assert multiset([x] + ([y] + rest)) == multiset{x} + multiset([y] + rest);
    assert multiset([y, x] + rest) == multiset{y, x} + multiset(rest) == multiset([x, y] + rest);
  }

  lemma {:induction false} OneFirst(hooks: seq<Hook>, x: Hook) returns (rest: seq<Hook>)
    requires x in hooks
    ensures multiset([x] + rest) == multiset(hooks)
    decreases |hooks|
  {
    assert hooks == [hooks[0]] + hooks[1..];
    if hooks[0] == x {
      rest := hooks[1..];
    } else {
      var r := OneFirst(hooks[1..], x);
      rest := [hooks[0]] + r;
      assert multiset([x] + rest) == multiset{x, hooks[0]} + multiset(r) == multiset{hooks[0]} + multiset([x] + r);
    }
  }

  lemma OrderMatters(row: Row, hooks: seq<Hook>, h: Hook, f: Hook)
    requires row.message.Some? && row.lastEventAt.None? && row.failedAt.None? && DistinctTimes(row, hooks)
    requires h in hooks && Concerns(h, row) && StatusFor(h.kind) == Some(Sent) && AllUpTo(row, hooks, h.at)
    requires f in hooks && Concerns(f, row) && IsFailure(StatusFor(f.kind).value)
    ensures !SameFailureTime(row, hooks)
  {
    if f.at == h.at { TimesIdentify(row, hooks, f, h); }
    var rest := TwoFirst(hooks, h, f);
    SameMembers([h, f] + rest, hooks);
    assert forall x :: x in rest ==> x in [h, f] + rest;
    SentAndFailure(row, h, f, rest);
  }

  /**
    The failure time is the same for every order of arrival if and only if it is not the case that
    the newest event says SENT and some event reports a failure.
  */
  lemma FailureTimeExactlyWhen(row: Row, hooks: seq<Hook>)
    requires row.message.Some? && row.lastEventAt.None? && row.failedAt.None? && DistinctTimes(row, hooks)
    ensures SameFailureTime(row, hooks) <==> !(EndsSent(row, hooks) && HasFailure(row, hooks))
  {
    if EndsSent(row, hooks) && HasFailure(row, hooks) {
      var h :| h in hooks && Concerns(h, row) && StatusFor(h.kind) == Some(Sent) && AllUpTo(row, hooks, h.at);
      var f :| f in hooks && Concerns(f, row) && IsFailure(StatusFor(f.kind).value);
      OrderMatters(row, hooks, h, f);
    } else {
      OrderDoesNotMatter(row, hooks);
    }
  }

  // ---------------------------------------------------------------- over runs

  function Arrivals(hooks: seq<Hook>): seq<Event>
    decreases |hooks|
  {
    if hooks == [] then [] else [Webhook(hooks[0])] + Arrivals(hooks[1..])
  }

  /** Distinct events that are new to the table. */
  ghost predicate AllNew(seen: set<Id>, hooks: seq<Hook>) {
    && (forall i :: 0 <= i < |hooks| ==> hooks[i].id !in seen)
    && (forall i, j :: 0 <= i < j < |hooks| ==> hooks[i].id != hooks[j].id)
  }

  lemma {:induction false} NewHooksAreFirst(seen: set<Id>, hooks: seq<Hook>)
    requires AllNew(seen, hooks)
    ensures FirstHooks(seen, Arrivals(hooks)) == hooks
    decreases |hooks|
  {
    if hooks != [] {
      var events := Arrivals(hooks);
      assert events[0] == Webhook(hooks[0]) && events[1..] == Arrivals(hooks[1..]);
      NewHooksAreFirst(seen + {hooks[0].id}, hooks[1..]);
    }
  }

  lemma OrdersAreNew(seen: set<Id>, hooks: seq<Hook>, p: seq<Hook>)
    requires AllNew(seen, hooks) && multiset(p) == multiset(hooks)
    ensures AllNew(seen, p)
  {
    SameMembers(p, hooks);
    forall i | 0 <= i < |p| ensures p[i].id !in seen { assert p[i] in hooks; }
    forall i, j | 0 <= i < j < |p| ensures p[i].id != p[j].id {
      assert p[i] in p && p[j] in p;
      if p[i].id == p[j].id {
        var k :| 0 <= k < |hooks| && hooks[k] == p[i];
        var l :| 0 <= l < |hooks| && hooks[l] == p[j];
        Twice(p, i, j);
        Once(hooks, k);
      }
    }
  }

  lemma Twice(p: seq<Hook>, i: nat, j: nat)
    requires i < j < |p| && p[i] == p[j]
    ensures multiset(p)[p[i]] >= 2
  {
    assert p == p[..j] + p[j..];
    assert p[..j][i] == p[i] && p[j..][0] == p[i];
    assert p[i] in multiset(p[..j]) && p[i] in multiset(p[j..]);
  }

  lemma {:induction false} Once(hooks: seq<Hook>, k: nat)
    requires k < |hooks| && forall i, j :: 0 <= i < j < |hooks| ==> hooks[i].id != hooks[j].id
    ensures multiset(hooks)[hooks[k]] == 1
    decreases |hooks|
  {
    assert hooks == [hooks[0]] + hooks[1..];
    if k == 0 { assert hooks[0] !in hooks[1..]; } else { Once(hooks[1..], k - 1); }
  }

  /** `key` ends with the same failure time however the new events `hooks` arrive. */
  ghost predicate OrderFree(s: Db, key: Id, hooks: seq<Hook>) {
    forall p, q :: multiset(p) == multiset(hooks) && multiset(q) == multiset(hooks)
                   ==> RowOf(Run(s, Arrivals(p)), key).failedAt == RowOf(Run(s, Arrivals(q)), key).failedAt
  }

  /** The same over runs of the register, for a delivery that has its message and has heard of nothing yet. */
  lemma FailureTimeOverRuns(s: Db, key: Id, hooks: seq<Hook>)
    requires key in s.rows && s.rows[key].message.Some? && Quiet(s, key)
    requires s.rows[key].lastEventAt.None? && s.rows[key].failedAt.None?
    requires AllNew(s.seen, hooks) && DistinctTimes(s.rows[key], hooks)
    ensures OrderFree(s, key, hooks) <==> !(EndsSent(s.rows[key], hooks) && HasFailure(s.rows[key], hooks))
  {
    forall p | multiset(p) == multiset(hooks) ensures RowOf(Run(s, Arrivals(p)), key) == ApplyAll(s.rows[key], p) {
      OrdersAreNew(s.seen, hooks, p);
      NewHooksAreFirst(s.seen, p);
      RunIsApplyAll(s, Arrivals(p), key);
    }
    FailureTimeExactlyWhen(s.rows[key], hooks);
  }
}
