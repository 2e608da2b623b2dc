/**
  "One trial per organization." A recorded trial keeps later checkouts free of trial days except
  in one race, which is stated exactly: a request that had read its customer before the trial was
  recorded may still store a trial session, and a later request may be handed that session.
*/
module CheckoutTrial {
  import opened Common
  import opened Checkout
  import opened CheckoutSafety

  predicate TrialKey(s: Db, key: Id) {
    key in s.provider && s.provider[key].trial
  }

  /** Request `q` was answered, for `org`, with a session that carries trial days. */
  predicate GivesTrial(s: Db, q: Id, org: Id) {
    q in s.answers && s.answers[q].Opened? && s.answers[q].ask.org == org && TrialKey(s, s.answers[q].key)
  }

  predicate Expired(made: Session, clock: Time) {
    made.expiresAt.Some? && made.expiresAt.value <= clock
  }

  /** The request can still put an unexpired trial session into the table. */
  predicate MayStoreTrial(s: Db, p: Phase) {
    match p
    case Starting(_) => false
    case Cleaning(_, _, _) => false
    case Reading(_, trial, _) => trial
    case DroppingStale(_, trial, attempt, _, _) => trial && attempt + 1 < MAX_ATTEMPTS
    case DroppingExpired(_, trial, _, _, _) => trial
    case Creating(_, trial, _, _) => trial
    case Calling(_, trial, _, key) =>
      if key in s.provider then s.provider[key].trial && !Expired(s.provider[key], s.clock) else trial
    case Storing(_, _, made) => made.trial && !Expired(made, s.clock)
  }

  // ---------------------------------------------------------------- without such a request

  /** `late` requests start after the trial was recorded; the others can at most store an expired trial session. */
  ghost predicate PhaseClean(s: Db, p: Phase, late: bool) {
    match p
    case Starting(_) => true
    case Cleaning(_, _, _) => true
    case Reading(_, trial, _) => !trial
    case DroppingStale(ask, trial, attempt, row, _) =>
      !trial || (MAX_ATTEMPTS <= attempt + 1 && (ask.org in s.rows ==> s.rows[ask.org].id != row))
    case DroppingExpired(_, trial, _, _, _) => !trial
    case Creating(_, trial, _, _) => !trial
    case Calling(_, trial, _, key) =>
      if key in s.provider then s.provider[key].trial ==> !late && Expired(s.provider[key], s.clock) else !trial
    case Storing(_, _, made) => made.trial ==> !late && Expired(made, s.clock)
  }

  ghost predicate RowClean(s: Db, row: Row) {
    TrialKey(s, row.key) ==> row.session.Some? && row.expiresAt <= s.clock
  }

  ghost predicate Clean(s: Db, org: Id, early: set<Id>) {
    && CheckoutOk(s)
    && org in s.trialUsed
    && (org in s.rows ==> RowClean(s, s.rows[org]))
    && (forall r :: r in s.inflight && s.inflight[r].ask.org == org ==> PhaseClean(s, s.inflight[r], r !in early))
    && (forall r :: r !in early ==> !GivesTrial(s, r, org))
  }

  lemma GotoClean(s: Db, org: Id, early: set<Id>, r: Id, p: Phase)
    requires Clean(s, org, early) && PhaseOk(s, p) && (p.ask.org == org ==> PhaseClean(s, p, r !in early))
    ensures Clean(Goto(s, r, p), org, early)
  {
    var t := Goto(s, r, p);
    GotoKeeps(s, r, p);
    forall q | q in t.inflight && t.inflight[q].ask.org == org ensures PhaseClean(t, t.inflight[q], q !in early) {
      assert PhaseClean(s, t.inflight[q], q !in early);
    }
    forall q | q !in early ensures !GivesTrial(t, q, org) { assert !GivesTrial(s, q, org); }
  }

  lemma FinishClean(s: Db, org: Id, early: set<Id>, r: Id, a: Answer)
    requires Clean(s, org, early) && AnswerOk(s, a)
    requires a.Opened? && a.ask.org == org && r !in early ==> !TrialKey(s, a.key)
    ensures Clean(Finish(s, r, a), org, early)
  {
  }

  lemma RetryClean(s: Db, org: Id, early: set<Id>, r: Id, ask: Ask, trial: bool, attempt: nat)
    requires Clean(s, org, early) && (ask.org == org && trial ==> MAX_ATTEMPTS <= attempt + 1)
    ensures Clean(Retry(s, r, ask, trial, attempt), org, early)
  {
    if attempt + 1 < MAX_ATTEMPTS {
      GotoClean(s, org, early, r, Reading(ask, trial, attempt + 1));
    } else {
      FinishClean(s, org, early, r, Refused);
    }
  }

  /** Keys that stand for `org` keep what they are; a row of `org` that changes is clean and fresh or kept. */
  lemma GrowthClean(s: Db, t: Db, org: Id, early: set<Id>)
    requires Clean(s, org, early) && CheckoutOk(t) && Grows(s, t) && s.trialUsed <= t.trialUsed
    requires forall k :: k in t.provider && k !in s.provider && t.provider[k].trial ==> t.provider[k].ask.org != org
    requires org in t.rows ==> RowClean(t, t.rows[org])
    requires org in t.rows ==> t.rows[org].id >= s.nextId || (org in s.rows && t.rows[org].id == s.rows[org].id)
    ensures Clean(t, org, early)
  {
  }

  lemma RowGoneClean(s: Db, org: Id, early: set<Id>, o: Id)
    requires Clean(s, org, early)
    ensures Clean(s.(rows := s.rows - {o}), org, early)
  {
  }

  lemma BeginClean(s: Db, org: Id, early: set<Id>, r: Id, ask: Ask)
    requires Clean(s, org, early)
    ensures Clean(DoBegin(s, r, ask), org, early) && Clean(DoReadCustomer(s, r), org, early)
  {
    if r !in s.inflight && r !in s.answers {
      if ask.org in s.managed { FinishClean(s, org, early, r, Refused); } else { GotoClean(s, org, early, r, Starting(ask)); }
    }
    if r in s.inflight && s.inflight[r].Starting? {
      GotoClean(s, org, early, r, Reading(s.inflight[r].ask, s.inflight[r].ask.org !in s.trialUsed, 0));
    }
  }

  lemma ReadRowClean(s: Db, org: Id, early: set<Id>, r: Id)
    requires Clean(s, org, early)
    ensures Clean(DoReadRow(s, r), org, early)
  {
    if r in s.inflight && s.inflight[r].Reading? {
      var p := s.inflight[r];
      if p.ask.org == org { assert PhaseClean(s, p, r !in early); }
      if p.ask.org !in s.rows {
        GotoClean(s, org, early, r, Creating(p.ask, p.trial, p.attempt, s.clock));
      } else {
        var row := s.rows[p.ask.org];
        assert RowOk(s, p.ask.org, row);
        if row.expiresAt <= s.clock {
          GotoClean(s, org, early, r, DroppingExpired(p.ask, p.trial, p.attempt, row.id, s.clock));
        } else if Stale(row, s.clock) {
          GotoClean(s, org, early, r, DroppingStale(p.ask, p.trial, p.attempt, row.id, s.clock));
        } else if row.interval != p.ask.interval {
          FinishClean(s, org, early, r, Refused);
        } else if row.session.Some? {
          assert s.provider[row.key].ask == s.issued[row.key];
          FinishClean(s, org, early, r, Opened(p.ask, row.key, row.session.value));
        } else {
          GotoClean(s, org, early, r, Calling(p.ask, p.trial, row.id, row.key));
        }
      }
    }
  }

  lemma DropRowClean(s: Db, org: Id, early: set<Id>, r: Id)
    requires Clean(s, org, early)
    ensures Clean(DoDropRow(s, r), org, early)
  {
    if r in s.inflight && (s.inflight[r].DroppingStale? || s.inflight[r].DroppingExpired?) {
      var p := s.inflight[r];
      if p.ask.org == org { assert PhaseClean(s, p, r !in early); }
      var next := Creating(p.ask, p.trial, p.attempt, p.now);
      var t := s.(rows := s.rows - {p.ask.org});
      if p.ask.org == org && p.trial {
        RetryClean(s, org, early, r, p.ask, p.trial, p.attempt);
      } else {
        RowGoneClean(s, org, early, p.ask.org);
        GotoClean(t, org, early, r, next);
        GotoClean(s, org, early, r, next);
        RetryClean(s, org, early, r, p.ask, p.trial, p.attempt);
      }
    }
  }

  lemma NewRowClean(s: Db, org: Id, early: set<Id>, ask: Ask, expiresAt: Time)
    requires Clean(s, org, early) && ask.org !in s.rows
    ensures Clean(WithReservation(s, ask, expiresAt), org, early) && s.nextId + 1 !in s.provider
  {
    var t := WithReservation(s, ask, expiresAt);
    NewRowKeeps(s, ask, expiresAt);
    assert s.nextId + 1 !in s.provider;
    assert org in t.rows ==> RowClean(t, t.rows[org]);
    GrowthClean(s, t, org, early);
  }

  lemma ReservationFits(s: Db, ask: Ask, trial: bool, expiresAt: Time, late: bool)
    requires ask.org !in s.rows && s.nextId + 1 !in s.provider
    ensures var t, p := WithReservation(s, ask, expiresAt), Calling(ask, trial, s.nextId, s.nextId + 1);
            PhaseOk(t, p) && (!trial ==> PhaseClean(t, p, late))
  {
  }

  lemma ReservedClean(s: Db, org: Id, early: set<Id>, r: Id, p: Phase)
    requires Clean(s, org, early) && p.Creating? && p.ask.org !in s.rows && (p.ask.org == org ==> !p.trial)
    ensures Clean(Goto(WithReservation(s, p.ask, p.now + ROW_TTL), r, Calling(p.ask, p.trial, s.nextId, s.nextId + 1)), org, early)
  {
    NewRowClean(s, org, early, p.ask, p.now + ROW_TTL);
    ReservationFits(s, p.ask, p.trial, p.now + ROW_TTL, r !in early);
    GotoClean(WithReservation(s, p.ask, p.now + ROW_TTL), org, early, r, Calling(p.ask, p.trial, s.nextId, s.nextId + 1));
  }

  lemma CreateRowClean(s: Db, org: Id, early: set<Id>, r: Id)
    requires Clean(s, org, early)
    ensures Clean(DoCreateRow(s, r), org, early)
  {
    var t := DoCreateRow(s, r);
    if r !in s.inflight || !s.inflight[r].Creating? {
      assert t == s;
    } else {
      var p := s.inflight[r];
      CreateRowMoves(s, r);
      CreatingClean(s, org, early, r, p);
      if p.ask.org in s.rows {
        assert t == Retry(s, r, p.ask, p.trial, p.attempt);
      } else {
        assert t == Goto(WithReservation(s, p.ask, p.now + ROW_TTL), r, Calling(p.ask, p.trial, s.nextId, s.nextId + 1));
      }
    }
  }

  lemma CreatingClean(s: Db, org: Id, early: set<Id>, r: Id, p: Phase)
    requires Clean(s, org, early) && p.Creating? && r in s.inflight && s.inflight[r] == p
    ensures p.ask.org in s.rows ==> Clean(Retry(s, r, p.ask, p.trial, p.attempt), org, early)
    ensures p.ask.org !in s.rows ==>
              Clean(Goto(WithReservation(s, p.ask, p.now + ROW_TTL), r, Calling(p.ask, p.trial, s.nextId, s.nextId + 1)), org, early)
  {
    if p.ask.org == org { assert PhaseClean(s, s.inflight[r], r !in early); }
    if p.ask.org in s.rows {
      RetryClean(s, org, early, r, p.ask, p.trial, p.attempt);
    } else {
      ReservedClean(s, org, early, r, p);
    }
  }

  /** The table after the provider made a session for request `p`. */
  function WithSession(s: Db, p: Phase, x: Option<Time>): Db
    requires p.Calling?
  {
    s.(provider := s.provider[p.key := Session(s.nextId, p.ask, p.trial, x)], nextId := s.nextId + 1)
  }

  lemma WithSessionClean(s: Db, org: Id, early: set<Id>, r: Id, x: Option<Time>)
    requires Clean(s, org, early) && r in s.inflight && s.inflight[r].Calling? && s.inflight[r].key !in s.provider
    ensures Clean(WithSession(s, s.inflight[r], x), org, early)
  {
  }

  lemma NewSessionClean(s: Db, org: Id, early: set<Id>, r: Id, x: Option<Time>)
    requires Clean(s, org, early) && r in s.inflight && s.inflight[r].Calling? && s.inflight[r].key !in s.provider
    ensures Clean(DoCallProvider(s, r, true, x), org, early)
  {
    var p := s.inflight[r];
    assert PhaseOk(s, p);
    if p.ask.org == org { assert PhaseClean(s, p, r !in early); }
    WithSessionClean(s, org, early, r, x);
    var t, next := WithSession(s, p, x), Storing(p.ask, p.key, Session(s.nextId, p.ask, p.trial, x));
    GotoClean(t, org, early, r, next);
    assert DoCallProvider(s, r, true, x) == Goto(t, r, next);
  }

  lemma CallClean(s: Db, org: Id, early: set<Id>, r: Id, ok: bool, x: Option<Time>)
    requires Clean(s, org, early)
    ensures Clean(DoCallProvider(s, r, ok, x), org, early)
  {
    if r in s.inflight && s.inflight[r].Calling? {
      var p := s.inflight[r];
      assert PhaseOk(s, p);
      if p.ask.org == org { assert PhaseClean(s, p, r !in early); }
      if !ok {
        GotoClean(s, org, early, r, Cleaning(p.ask, p.row, p.key));
      } else if p.key in s.provider {
        GotoClean(s, org, early, r, Storing(p.ask, p.key, s.provider[p.key]));
      } else {
        NewSessionClean(s, org, early, r, x);
      }
    }
  }

  lemma CleanClean(s: Db, org: Id, early: set<Id>, r: Id)
    requires Clean(s, org, early)
    ensures Clean(DoCleanRow(s, r), org, early)
  {
    if r in s.inflight && s.inflight[r].Cleaning? {
      RowGoneClean(s, org, early, s.inflight[r].ask.org);
      FinishClean(s.(rows := s.rows - {s.inflight[r].ask.org}), org, early, r, Refused);
      FinishClean(s, org, early, r, Refused);
    }
  }

  lemma StoreUpdatesClean(s: Db, org: Id, early: set<Id>, r: Id)
    requires Clean(s, org, early) && r in s.inflight && s.inflight[r].Storing?
    requires var p := s.inflight[r]; p.ask.org in s.rows && s.rows[p.ask.org].key == p.key
    ensures Clean(DoStoreSession(s, r), org, early)
  {
  }

  lemma StoreCreatesClean(s: Db, org: Id, early: set<Id>, r: Id)
    requires Clean(s, org, early) && r in s.inflight && s.inflight[r].Storing?
    requires s.inflight[r].ask.org !in s.rows
    ensures Clean(DoStoreSession(s, r), org, early)
  {
  }

  lemma StoreClean(s: Db, org: Id, early: set<Id>, r: Id)
    requires Clean(s, org, early)
    ensures Clean(DoStoreSession(s, r), org, early)
  {
    if r in s.inflight && s.inflight[r].Storing? {
      var p := s.inflight[r];
      if p.ask.org !in s.rows {
        StoreCreatesClean(s, org, early, r);
      } else if s.rows[p.ask.org].key == p.key {
        StoreUpdatesClean(s, org, early, r);
      } else {
        FinishClean(s, org, early, r, Refused);
      }
    }
  }

  lemma HooksClean(s: Db, org: Id, early: set<Id>, session: Id, o: Id, trial: bool, managed: bool)
    requires Clean(s, org, early)
    ensures Clean(DoCompletedHook(s, session), org, early) && Clean(DoSyncHook(s, o, trial, managed), org, early)
  {
    HooksKeep(s, session, o, trial, managed);
    GrowthClean(s, DoCompletedHook(s, session), org, early);
    GrowthClean(s, DoSyncHook(s, o, trial, managed), org, early);
  }

  lemma TickClean(s: Db, org: Id, early: set<Id>, d: nat)
    requires Clean(s, org, early)
    ensures Clean(s.(clock := s.clock + d), org, early)
  {
  }

  lemma StepClean(s: Db, e: Event, org: Id, early: set<Id>)
    requires Clean(s, org, early)
    ensures Clean(Step(s, e), org, early)
  {
    match e
    case Tick(d) => TickClean(s, org, early, d);
    case Begin(r, ask) => BeginClean(s, org, early, r, ask);
    case ReadCustomer(r) => BeginClean(s, org, early, r, Ask(0, Monthly));
    case ReadRow(r) => ReadRowClean(s, org, early, r);
    case DropRow(r) => DropRowClean(s, org, early, r);
    case CreateRow(r) => CreateRowClean(s, org, early, r);
    case CallProvider(r, ok, x) => CallClean(s, org, early, r, ok, x);
    case CleanRow(r) => CleanClean(s, org, early, r);
    case StoreSession(r) => StoreClean(s, org, early, r);
    case CompletedHook(x) => HooksClean(s, org, early, x, 0, false, false);
    case SyncHook(o, trial, managed) => HooksClean(s, org, early, 0, o, trial, managed);
  }

  lemma {:induction false} RunClean(s: Db, events: seq<Event>, org: Id, early: set<Id>)
    requires Clean(s, org, early)
    ensures Clean(Run(s, events), org, early)
    decreases |events|
  {
    if events != [] {
      StepClean(s, events[0], org, early);
      RunClean(Step(s, events[0]), events[1..], org, early);
    }
  }

  // ---------------------------------------------------------------- with such a request

  /** A stored, unexpired trial session is handed to whoever asks next for the same interval. */
  predicate Stored(s: Db, ask: Ask) {
    && ask.org !in s.managed && ask.org in s.rows
    && var row := s.rows[ask.org];
       row.interval == ask.interval && row.session.Some? && s.clock < row.expiresAt && TrialKey(s, row.key)
  }

  lemma StoredIsServed(s: Db, ask: Ask, q: Id)
    requires Stored(s, ask) && q !in s.inflight && q !in s.answers
    ensures GivesTrial(Run(s, [Begin(q, ask), ReadCustomer(q), ReadRow(q)]), q, ask.org)
  {
    var a := Step(s, Begin(q, ask));
    var b := Step(a, ReadCustomer(q));
    var c := Step(b, ReadRow(q));
    assert Run(s, [Begin(q, ask), ReadCustomer(q), ReadRow(q)]) == Run(a, [ReadCustomer(q), ReadRow(q)]);
    assert Run(a, [ReadCustomer(q), ReadRow(q)]) == Run(b, [ReadRow(q)]);
    assert Run(b, [ReadRow(q)]) == c;
  }

  /** `req` may store a trial session, and neither a row nor a managed subscription stands in its way. */
  ghost predicate Ready(s: Db, req: Id, ask: Ask) {
    && CheckoutOk(s) && req in s.inflight && s.inflight[req].ask == ask && MayStoreTrial(s, s.inflight[req])
    && ask.org !in s.rows && ask.org !in s.managed
  }

  lemma StoringStores(s: Db, req: Id, ask: Ask) returns (events: seq<Event>)
    requires Ready(s, req, ask) && s.inflight[req].Storing?
    ensures Stored(Run(s, events), ask) && Untouched(s, Run(s, events), req)
  {
    events := [StoreSession(req)];
    assert PhaseOk(s, s.inflight[req]);
    assert Run(s, events) == Step(s, StoreSession(req));
  }

  /** No request but `req` has moved. */
  ghost predicate Untouched(s: Db, t: Db, req: Id) {
    && t.inflight.Keys <= s.inflight.Keys
    && t.answers.Keys <= s.answers.Keys + {req}
  }

  lemma CallingStores(s: Db, req: Id, ask: Ask) returns (events: seq<Event>)
    requires Ready(s, req, ask) && s.inflight[req].Calling?
    ensures Stored(Run(s, events), ask) && Untouched(s, Run(s, events), req)
  {
    var e := CallProvider(req, true, None);
    CallKeeps(s, req, true, None);
    var rest := StoringStores(Step(s, e), req, ask);
    events := [e] + rest;
    assert events[1..] == rest;
  }

  lemma CreatingStores(s: Db, req: Id, ask: Ask) returns (events: seq<Event>)
    requires Ready(s, req, ask) && s.inflight[req].Creating?
    ensures Stored(Run(s, events), ask) && Untouched(s, Run(s, events), req)
  {
    // The created row is the request's own, so the remaining steps are followed directly.
    var a := Step(s, CreateRow(req));
    var b := Step(a, CallProvider(req, true, None));
    var c := Step(b, StoreSession(req));
    events := [CreateRow(req), CallProvider(req, true, None), StoreSession(req)];
    assert s.nextId + 1 !in s.provider;
    assert Run(s, events) == Run(a, [CallProvider(req, true, None), StoreSession(req)]);
    assert Run(a, [CallProvider(req, true, None), StoreSession(req)]) == Run(b, [StoreSession(req)]);
    assert Run(b, [StoreSession(req)]) == c;
  }

  /** The read and the conditional delete both lead to creating the row, since there is none. */
  lemma ReadingStores(s: Db, req: Id, ask: Ask) returns (events: seq<Event>)
    requires Ready(s, req, ask)
    ensures Stored(Run(s, events), ask) && Untouched(s, Run(s, events), req)
    decreases if s.inflight[req].DroppingStale? then 1 else 0
  {
    var p := s.inflight[req];
    if p.Storing? {
      events := StoringStores(s, req, ask);
    } else if p.Calling? {
      events := CallingStores(s, req, ask);
    } else if p.Creating? {
      events := CreatingStores(s, req, ask);
    } else {
      var e := if p.Reading? then ReadRow(req) else DropRow(req);
      StepKeeps(s, e);
      var rest;
      if p.DroppingStale? {
        rest := ReadingStores(Step(s, e), req, ask);
      } else {
        rest := CreatingStores(Step(s, e), req, ask);
      }
      events := [e] + rest;
      assert events[1..] == rest;
    }
  }

  // ---------------------------------------------------------------- the exact condition

  ghost predicate TrialAgain(s: Db, org: Id) {
    exists events: seq<Event>, q: Id :: q !in s.inflight && q !in s.answers && GivesTrial(Run(s, events), q, org)
  }

  lemma NobodyStoresNoTrial(s: Db, org: Id, events: seq<Event>, q: Id)
    requires CheckoutOk(s) && org in s.trialUsed && org !in s.rows
    requires forall r :: r in s.inflight && s.inflight[r].ask.org == org ==> !MayStoreTrial(s, s.inflight[r])
    requires q !in s.inflight && q !in s.answers
    ensures !GivesTrial(Run(s, events), q, org)
  {
    var early := s.inflight.Keys + s.answers.Keys;
    forall r | r in s.inflight && s.inflight[r].ask.org == org ensures PhaseClean(s, s.inflight[r], r !in early) {
      assert !MayStoreTrial(s, s.inflight[r]);
    }
    RunClean(s, events, org, early);
  }

  lemma SomebodyStoresTrial(s: Db, r: Id)
    requires CheckoutOk(s) && r in s.inflight && MayStoreTrial(s, s.inflight[r])
    ensures TrialAgain(s, s.inflight[r].ask.org)
  {
    var ask := s.inflight[r].ask;
    var unmanage := SyncHook(ask.org, false, false);
    StepKeeps(s, unmanage);
    var t := Step(s, unmanage);
    var store := ReadingStores(t, r, ask);
    var q := FreshRequest(s.inflight.Keys + s.answers.Keys + {r});
    var ask3 := [Begin(q, ask), ReadCustomer(q), ReadRow(q)];
    StoredIsServed(Run(t, store), ask, q);
    RunAppend(t, store, ask3);
    assert ([unmanage] + (store + ask3))[1..] == store + ask3;
    assert Run(s, [unmanage] + (store + ask3)) == Run(t, store + ask3);
  }

  lemma {:induction false} FreshRequest(used: set<Id>) returns (q: Id)
    ensures q !in used && forall k :: k in used ==> k < q
    decreases |used|
  {
    if used == {} {
      q := 0;
    } else {
      var k :| k in used;
      var rest := FreshRequest(used - {k});
      q := if rest <= k then k + 1 else rest;
      forall j | j in used ensures j < q { assert j == k || j in used - {k}; }
    }
  }

  /**
    When a webhook records an organization's trial, some later checkout can still be given trial
    days if and only if a request of that organization is then in flight that read its customer
    before the trial was recorded and can still store an unexpired trial session.
  */
  lemma TrialAgainExactlyWhen(s: Db, org: Id, managed: bool)
    requires CheckoutOk(s)
    ensures var t := Step(s, SyncHook(org, true, managed));
            TrialAgain(t, org) <==>
              exists r :: r in t.inflight && t.inflight[r].ask.org == org && MayStoreTrial(t, t.inflight[r])
  {
    var t := Step(s, SyncHook(org, true, managed));
    StepKeeps(s, SyncHook(org, true, managed));
    if r :| r in t.inflight && t.inflight[r].ask.org == org && MayStoreTrial(t, t.inflight[r]) {
      SomebodyStoresTrial(t, r);
    } else if TrialAgain(t, org) {
      var events: seq<Event>, q: Id :| q !in t.inflight && q !in t.answers && GivesTrial(Run(t, events), q, org);
      NobodyStoresNoTrial(t, org, events, q);
    }
  }

  /** The race does happen: two monthly requests, the first caught between its customer read and its reservation. */
  lemma TrialAgainHappens()
    ensures exists events: seq<Event> ::
              var s := Run(Empty(), events); TrialAgain(Step(s, SyncHook(7, true, true)), 7)
  {
    var ask := Ask(7, Monthly);
    var a := Step(Empty(), Begin(0, ask));
    var b := Step(a, ReadCustomer(0));
    var events := [Begin(0, ask), ReadCustomer(0)];
    assert Run(Empty(), events) == Run(a, [ReadCustomer(0)]);
    assert Run(a, [ReadCustomer(0)]) == b;
    RunKeeps(Empty(), events);
    var t := Step(b, SyncHook(7, true, true));
    assert 0 in t.inflight && t.inflight[0] == Reading(ask, true, 0);
    assert MayStoreTrial(t, t.inflight[0]);
    TrialAgainExactlyWhen(b, 7, true);
  }
}
