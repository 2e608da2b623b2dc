/** What every interleaving of checkout requests and webhooks keeps. */
module CheckoutSafety {
  import opened Common
  import opened Checkout

  /** A row's key was drawn for its organization and interval, and its session is the one made under that key. */
  ghost predicate RowOk(s: Db, org: Id, row: Row) {
    && row.id < s.nextId
    && row.key in s.issued && s.issued[row.key] == Ask(org, row.interval)
    && (row.session.Some? ==> row.key in s.provider && s.provider[row.key].id == row.session.value)
  }

  /** A session is made for what its key was drawn for. */
  ghost predicate ProviderOk(s: Db) {
    && (forall k :: k in s.issued ==> k < s.nextId)
    && (forall k :: k in s.provider ==> k in s.issued && s.provider[k].ask == s.issued[k])
  }

  ghost predicate PhaseOk(s: Db, p: Phase) {
    match p
    case DroppingStale(_, _, _, row, now) => now <= s.clock && row < s.nextId
    case DroppingExpired(_, _, _, row, now) => now <= s.clock && row < s.nextId
    case Calling(ask, _, row, key) => row < s.nextId && key in s.issued && s.issued[key] == ask
    case Cleaning(ask, row, key) => row < s.nextId && key in s.issued && s.issued[key] == ask
    case Storing(ask, key, made) => key in s.provider && s.provider[key] == made && made.ask == ask
    case _ => true
  }

  /** An answered request got a session that the provider made for its organization and interval. */
  ghost predicate AnswerOk(s: Db, a: Answer) {
    a.Opened? ==> a.key in s.provider && s.provider[a.key].id == a.session && s.provider[a.key].ask == a.ask
  }

  ghost predicate CheckoutOk(s: Db) {
    && ProviderOk(s)
    && (forall o :: o in s.rows ==> RowOk(s, o, s.rows[o]))
    && (forall r :: r in s.inflight ==> PhaseOk(s, s.inflight[r]))
    && (forall r :: r in s.answers ==> AnswerOk(s, s.answers[r]))
  }

  // ---------------------------------------------------------------- the moves requests are made of

  lemma GotoKeeps(s: Db, r: Id, p: Phase)
    requires CheckoutOk(s) && PhaseOk(s, p)
    ensures CheckoutOk(Goto(s, r, p))
  {
  }

  lemma FinishKeeps(s: Db, r: Id, a: Answer)
    requires CheckoutOk(s) && AnswerOk(s, a)
    ensures CheckoutOk(Finish(s, r, a))
  {
  }

  /** More time, more identifiers, more keys and sessions, or fewer rows. */
  ghost predicate Grows(s: Db, t: Db) {
    && s.clock <= t.clock && s.nextId <= t.nextId
    && (forall k :: k in s.issued ==> k in t.issued && t.issued[k] == s.issued[k])
    && (forall k :: k in s.provider ==> k in t.provider && t.provider[k] == s.provider[k])
    && t.inflight == s.inflight && t.answers == s.answers
  }

  lemma GrowthKeeps(s: Db, t: Db)
    requires CheckoutOk(s) && Grows(s, t) && ProviderOk(t)
    requires forall o :: o in t.rows ==> (o in s.rows && t.rows[o] == s.rows[o]) || RowOk(t, o, t.rows[o])
    ensures CheckoutOk(t)
  {
  }

  lemma RowGoneKeeps(s: Db, org: Id)
    requires CheckoutOk(s)
    ensures CheckoutOk(s.(rows := s.rows - {org}))
  {
  }

  lemma RetryKeeps(s: Db, r: Id, ask: Ask, trial: bool, attempt: nat)
    requires CheckoutOk(s)
    ensures CheckoutOk(Retry(s, r, ask, trial, attempt))
  {
  }

  // ---------------------------------------------------------------- the steps

  lemma BeginKeeps(s: Db, r: Id, ask: Ask)
    requires CheckoutOk(s)
    ensures CheckoutOk(DoBegin(s, r, ask))
  {
    var t := DoBegin(s, r, ask);
    if r in s.inflight || r in s.answers {
      assert t == s;
    } else if ask.org in s.managed {
      FinishKeeps(s, r, Refused);
      assert t == Finish(s, r, Refused);
    } else {
      GotoKeeps(s, r, Starting(ask));
      assert t == Goto(s, r, Starting(ask));
    }
  }

  lemma ReadCustomerKeeps(s: Db, r: Id)
    requires CheckoutOk(s)
    ensures CheckoutOk(DoReadCustomer(s, r))
  {
    var t := DoReadCustomer(s, r);
    if r !in s.inflight || !s.inflight[r].Starting? {
      assert t == s;
    } else {
      var next := Reading(s.inflight[r].ask, s.inflight[r].ask.org !in s.trialUsed, 0);
      GotoKeeps(s, r, next);
      assert t == Goto(s, r, next);
    }
  }

  lemma ReadRowKeeps(s: Db, r: Id)
    requires CheckoutOk(s)
    ensures CheckoutOk(DoReadRow(s, r))
  {
    if r in s.inflight && s.inflight[r].Reading? {
      var p := s.inflight[r];
      if p.ask.org !in s.rows {
        GotoKeeps(s, r, Creating(p.ask, p.trial, p.attempt, s.clock));
      } else {
        var row := s.rows[p.ask.org];
        assert RowOk(s, p.ask.org, row);
        if row.expiresAt <= s.clock {
          GotoKeeps(s, r, DroppingExpired(p.ask, p.trial, p.attempt, row.id, s.clock));
        } else if Stale(row, s.clock) {
          GotoKeeps(s, r, DroppingStale(p.ask, p.trial, p.attempt, row.id, s.clock));
        } else if row.interval != p.ask.interval {
          FinishKeeps(s, r, Refused);
        } else if row.session.Some? {
          assert s.provider[row.key].ask == s.issued[row.key];
          FinishKeeps(s, r, Opened(p.ask, row.key, row.session.value));
        } else {
          GotoKeeps(s, r, Calling(p.ask, p.trial, row.id, row.key));
        }
      }
    }
  }

  lemma DropRowKeeps(s: Db, r: Id)
    requires CheckoutOk(s)
    ensures CheckoutOk(DoDropRow(s, r))
  {
    if r in s.inflight && (s.inflight[r].DroppingStale? || s.inflight[r].DroppingExpired?) {
      var p := s.inflight[r];
      var next := Creating(p.ask, p.trial, p.attempt, p.now);
      RowGoneKeeps(s, p.ask.org);
      GotoKeeps(s.(rows := s.rows - {p.ask.org}), r, next);
      GotoKeeps(s, r, next);
      RetryKeeps(s, r, p.ask, p.trial, p.attempt);
    }
  }

  lemma NewRowKeeps(s: Db, ask: Ask, expiresAt: Time)
    requires CheckoutOk(s)
    ensures CheckoutOk(WithReservation(s, ask, expiresAt))
  {
  }

  lemma CreateRowMoves(s: Db, r: Id)
    requires r in s.inflight && s.inflight[r].Creating?
    ensures var p := s.inflight[r];
            DoCreateRow(s, r) == if p.ask.org in s.rows then Retry(s, r, p.ask, p.trial, p.attempt)
                                 else Goto(WithReservation(s, p.ask, p.now + ROW_TTL), r, Calling(p.ask, p.trial, s.nextId, s.nextId + 1))
  {
  }

  lemma CreateRowKeeps(s: Db, r: Id)
    requires CheckoutOk(s)
    ensures CheckoutOk(DoCreateRow(s, r))
  {
    if r in s.inflight && s.inflight[r].Creating? {
      var p := s.inflight[r];
      CreateRowMoves(s, r);
      if p.ask.org in s.rows {
        RetryKeeps(s, r, p.ask, p.trial, p.attempt);
      } else {
        NewRowKeeps(s, p.ask, p.now + ROW_TTL);
        GotoKeeps(WithReservation(s, p.ask, p.now + ROW_TTL), r, Calling(p.ask, p.trial, s.nextId, s.nextId + 1));
      }
    }
  }

  lemma NewSessionKeeps(s: Db, key: Id, made: Session)
    requires CheckoutOk(s) && key in s.issued && key !in s.provider && made.ask == s.issued[key] && made.id == s.nextId
    ensures CheckoutOk(s.(provider := s.provider[key := made], nextId := s.nextId + 1))
  {
  }

  lemma CallKeeps(s: Db, r: Id, ok: bool, x: Option<Time>)
    requires CheckoutOk(s)
    ensures CheckoutOk(DoCallProvider(s, r, ok, x))
  {
    if r in s.inflight && s.inflight[r].Calling? {
      var p := s.inflight[r];
      assert PhaseOk(s, p);
      if !ok {
        GotoKeeps(s, r, Cleaning(p.ask, p.row, p.key));
      } else if p.key in s.provider {
        GotoKeeps(s, r, Storing(p.ask, p.key, s.provider[p.key]));
      } else {
        var made := Session(s.nextId, p.ask, p.trial, x);
        NewSessionKeeps(s, p.key, made);
        var t := s.(provider := s.provider[p.key := made], nextId := s.nextId + 1);
        GotoKeeps(t, r, Storing(p.ask, p.key, made));
        assert DoCallProvider(s, r, ok, x) == Goto(t, r, Storing(p.ask, p.key, made));
      }
    }
  }

  lemma CleanKeeps(s: Db, r: Id)
    requires CheckoutOk(s)
    ensures CheckoutOk(DoCleanRow(s, r))
  {
  }

  lemma StoreKeeps(s: Db, r: Id)
    requires CheckoutOk(s)
    ensures CheckoutOk(DoStoreSession(s, r))
  {
  }

  lemma HooksKeep(s: Db, session: Id, org: Id, trial: bool, managed: bool)
    requires CheckoutOk(s)
    ensures CheckoutOk(DoCompletedHook(s, session)) && CheckoutOk(DoSyncHook(s, org, trial, managed))
  {
  }

  lemma StepKeeps(s: Db, e: Event)
    requires CheckoutOk(s)
    ensures CheckoutOk(Step(s, e))
  {
    match e
    case Tick(d) => GrowthKeeps(s, s.(clock := s.clock + d));
    case Begin(r, ask) => BeginKeeps(s, r, ask);
    case ReadCustomer(r) => ReadCustomerKeeps(s, r);
    case ReadRow(r) => ReadRowKeeps(s, r);
    case DropRow(r) => DropRowKeeps(s, r);
    case CreateRow(r) => CreateRowKeeps(s, r);
    case CallProvider(r, ok, x) => CallKeeps(s, r, ok, x);
    case CleanRow(r) => CleanKeeps(s, r);
    case StoreSession(r) => StoreKeeps(s, r);
    case CompletedHook(x) => HooksKeep(s, x, 0, false, false);
    case SyncHook(org, trial, managed) => HooksKeep(s, 0, org, trial, managed);
  }

  lemma {:induction false} RunKeeps(s: Db, events: seq<Event>)
    requires CheckoutOk(s)
    ensures CheckoutOk(Run(s, events))
    decreases |events|
  {
    if events != [] {
      StepKeeps(s, events[0]);
      RunKeeps(Step(s, events[0]), events[1..]);
    }
  }

  // ---------------------------------------------------------------- what each request asked for

  /** What each request asked for: its first `Begin` counts. */
  function Asked(asked: map<Id, Ask>, e: Event): map<Id, Ask> {
    if e.Begin? && e.req !in asked then asked[e.req := e.ask] else asked
  }

  function AskedIn(asked: map<Id, Ask>, events: seq<Event>): map<Id, Ask>
    decreases |events|
  {
    if events == [] then asked else AskedIn(Asked(asked, events[0]), events[1..])
  }

  /** Requests in flight and answered are the ones that asked, and act on what they asked. */
  ghost predicate Faithful(s: Db, asked: map<Id, Ask>) {
    && (forall r :: r in asked <==> r in s.inflight || r in s.answers)
    && (forall r :: r in s.inflight ==> r in asked && s.inflight[r].ask == asked[r])
    && (forall r :: r in s.answers && s.answers[r].Opened? ==> r in asked && s.answers[r].ask == asked[r])
  }

  /** A step that moves at most the request `r`, without changing what it asked for. */
  ghost predicate KeepsAsk(s: Db, t: Db, r: Id) {
    && (forall q :: q != r ==> (q in s.inflight <==> q in t.inflight) && (q in s.answers <==> q in t.answers))
    && (forall q :: q != r && q in s.inflight ==> t.inflight[q] == s.inflight[q])
    && (forall q :: q != r && q in s.answers ==> t.answers[q] == s.answers[q])
    && (r in s.inflight || r in s.answers <==> r in t.inflight || r in t.answers)
    && (r in t.inflight ==> r in s.inflight && t.inflight[r].ask == s.inflight[r].ask)
    && (r in t.answers && t.answers[r].Opened? ==>
          || (r in s.answers && t.answers[r] == s.answers[r])
          || (r in s.inflight && t.answers[r].ask == s.inflight[r].ask))
  }

  lemma GotoKeepsAsk(s: Db, r: Id, p: Phase)
    requires r in s.inflight && p.ask == s.inflight[r].ask
    ensures KeepsAsk(s, Goto(s, r, p), r)
  {
  }

  lemma FinishKeepsAsk(s: Db, r: Id, a: Answer)
    requires r in s.inflight && (a.Opened? ==> a.ask == s.inflight[r].ask)
    ensures KeepsAsk(s, Finish(s, r, a), r)
  {
  }

  lemma ReadCustomerKeepsAsk(s: Db, r: Id)
    ensures KeepsAsk(s, DoReadCustomer(s, r), r)
  {
  }

  /** Reading the row moves the request on, or answers it. */
  lemma ReadRowMoves(s: Db, r: Id) returns (p: Option<Phase>, a: Answer)
    requires r in s.inflight && s.inflight[r].Reading?
    ensures DoReadRow(s, r) == if p.Some? then Goto(s, r, p.value) else Finish(s, r, a)
    ensures (p.Some? ==> p.value.ask == s.inflight[r].ask) && (a.Opened? ==> a.ask == s.inflight[r].ask)
  {
    var q := s.inflight[r];
    p, a := None, Refused;
    if q.ask.org !in s.rows {
      p := Some(Creating(q.ask, q.trial, q.attempt, s.clock));
    } else {
      var row := s.rows[q.ask.org];
      if row.expiresAt <= s.clock {
        p := Some(DroppingExpired(q.ask, q.trial, q.attempt, row.id, s.clock));
      } else if Stale(row, s.clock) {
        p := Some(DroppingStale(q.ask, q.trial, q.attempt, row.id, s.clock));
      } else if row.interval == q.ask.interval {
        if row.session.Some? { a := Opened(q.ask, row.key, row.session.value); } else { p := Some(Calling(q.ask, q.trial, row.id, row.key)); }
      }
    }
  }

  lemma ReadRowKeepsAsk(s: Db, r: Id)
    ensures KeepsAsk(s, DoReadRow(s, r), r)
  {
    if r in s.inflight && s.inflight[r].Reading? {
      var p, a := ReadRowMoves(s, r);
      if p.Some? { GotoKeepsAsk(s, r, p.value); } else { FinishKeepsAsk(s, r, a); }
    }
  }

  lemma DropRowKeepsAsk(s: Db, r: Id)
    ensures KeepsAsk(s, DoDropRow(s, r), r)
  {
  }

  lemma CreateRowKeepsAsk(s: Db, r: Id)
    ensures KeepsAsk(s, DoCreateRow(s, r), r)
  {
  }

  lemma CallKeepsAsk(s: Db, r: Id, ok: bool, x: Option<Time>)
    ensures KeepsAsk(s, DoCallProvider(s, r, ok, x), r)
  {
  }

  lemma CleanKeepsAsk(s: Db, r: Id)
    ensures KeepsAsk(s, DoCleanRow(s, r), r)
  {
  }

  lemma StoringKeepsAsk(s: Db, r: Id)
    ensures KeepsAsk(s, DoStoreSession(s, r), r)
  {
  }

  lemma OthersKeepAsk(s: Db, e: Event, r: Id)
    requires e.Tick? || IsWebhook(e)
    ensures KeepsAsk(s, Step(s, e), r)
  {
  }

  lemma KeptIsFaithful(s: Db, t: Db, r: Id, asked: map<Id, Ask>)
    requires Faithful(s, asked) && KeepsAsk(s, t, r)
    ensures Faithful(t, asked)
  {
  }

  /** The request that a step moves. */
  function Mover(e: Event): Id {
    match e
    case Begin(r, _) => r
    case ReadCustomer(r) => r
    case ReadRow(r) => r
    case DropRow(r) => r
    case CreateRow(r) => r
    case CallProvider(r, _, _) => r
    case CleanRow(r) => r
    case StoreSession(r) => r
    case _ => 0
  }

  lemma StepKeepsAsk(s: Db, e: Event)
    requires !e.Begin?
    ensures KeepsAsk(s, Step(s, e), Mover(e))
  {
    match e
    case ReadCustomer(r) => ReadCustomerKeepsAsk(s, r);
    case ReadRow(r) => ReadRowKeepsAsk(s, r);
    case DropRow(r) => DropRowKeepsAsk(s, r);
    case CreateRow(r) => CreateRowKeepsAsk(s, r);
    case CallProvider(r, ok, x) => CallKeepsAsk(s, r, ok, x);
    case CleanRow(r) => CleanKeepsAsk(s, r);
    case StoreSession(r) => StoringKeepsAsk(s, r);
    case Begin(_, _) =>
    case Tick(_) => OthersKeepAsk(s, e, 0);
    case CompletedHook(_) => OthersKeepAsk(s, e, 0);
    case SyncHook(_, _, _) => OthersKeepAsk(s, e, 0);
  }

  lemma BeginIsFaithful(s: Db, r: Id, ask: Ask, asked: map<Id, Ask>)
    requires Faithful(s, asked)
    ensures Faithful(DoBegin(s, r, ask), Asked(asked, Begin(r, ask)))
  {
  }

  lemma StepIsFaithful(s: Db, e: Event, asked: map<Id, Ask>)
    requires Faithful(s, asked)
    ensures Faithful(Step(s, e), Asked(asked, e))
  {
    if e.Begin? {
      BeginIsFaithful(s, e.req, e.ask, asked);
    } else {
      StepKeepsAsk(s, e);
      KeptIsFaithful(s, Step(s, e), Mover(e), asked);
    }
  }

  lemma {:induction false} RunIsFaithful(s: Db, events: seq<Event>, asked: map<Id, Ask>)
    requires Faithful(s, asked)
    ensures Faithful(Run(s, events), AskedIn(asked, events))
    decreases |events|
  {
    if events != [] {
      StepIsFaithful(s, events[0], asked);
      RunIsFaithful(Step(s, events[0]), events[1..], Asked(asked, events[0]));
    }
  }

  /**
    In every run: a stored session is the one the provider made under that row's key, for the row's
    organization and interval, and every answered request got a session made for what it first asked.
  */
  lemma SessionsMatch(events: seq<Event>)
    ensures var s := Run(Empty(), events);
            && (forall o :: o in s.rows && s.rows[o].session.Some? ==>
                  && s.rows[o].key in s.provider
                  && s.provider[s.rows[o].key].id == s.rows[o].session.value
                  && s.provider[s.rows[o].key].ask == Ask(o, s.rows[o].interval))
            && (forall r :: r in s.answers && s.answers[r].Opened? ==>
                  && s.answers[r].key in s.provider
                  && s.provider[s.answers[r].key].id == s.answers[r].session
                  && r in AskedIn(map[], events) && s.provider[s.answers[r].key].ask == AskedIn(map[], events)[r])
  {
    RunKeeps(Empty(), events);
    RunIsFaithful(Empty(), events, map[]);
    var s := Run(Empty(), events);
    forall o | o in s.rows ensures RowOk(s, o, s.rows[o]) { }
    forall r | r in s.answers ensures AnswerOk(s, s.answers[r]) { }
  }

  predicate IsWebhook(e: Event) {
    e.CompletedHook? || e.SyncHook?
  }

  /**
    A request never removes a row that holds a session and has not expired, nor gives it another
    session: only a webhook does.
  */
  lemma OpenRowsEndByWebhook(s: Db, e: Event, org: Id)
    requires CheckoutOk(s) && !IsWebhook(e)
    requires org in s.rows && s.rows[org].session.Some? && s.clock < s.rows[org].expiresAt
    ensures org in Step(s, e).rows
    ensures Step(s, e).rows[org].id == s.rows[org].id && Step(s, e).rows[org].key == s.rows[org].key
    ensures Step(s, e).rows[org].session == s.rows[org].session
  {
    match e
    case DropRow(r) => DropKeepsOpenRow(s, r, org);
    case CleanRow(r) =>
    case StoreSession(r) => StoreKeepsOpenRow(s, r, org);
    case _ => OthersKeepRows(s, e, org);
  }

  lemma DropKeepsOpenRow(s: Db, r: Id, org: Id)
    requires CheckoutOk(s) && org in s.rows && s.rows[org].session.Some? && s.clock < s.rows[org].expiresAt
    ensures org in DoDropRow(s, r).rows && DoDropRow(s, r).rows[org] == s.rows[org]
  {
  }

  lemma StoreKeepsOpenRow(s: Db, r: Id, org: Id)
    requires CheckoutOk(s) && org in s.rows && s.rows[org].session.Some?
    ensures org in DoStoreSession(s, r).rows
    ensures DoStoreSession(s, r).rows[org] == s.rows[org].(expiresAt := DoStoreSession(s, r).rows[org].expiresAt)
  {
  }

  lemma OthersKeepRows(s: Db, e: Event, org: Id)
    requires !IsWebhook(e) && !e.DropRow? && !e.CleanRow? && !e.StoreSession? && org in s.rows
    ensures org in Step(s, e).rows && Step(s, e).rows[org] == s.rows[org]
  {
  }

  /** An open reservation: not expired and not abandoned before it got a session. */
  predicate OpenRow(s: Db, org: Id) {
    org in s.rows && s.clock < s.rows[org].expiresAt && !Stale(s.rows[org], s.clock)
  }

  /** One undisturbed turn of the reservation loop. */
  function Turn(s: Db, req: Id): Db {
    DoCreateRow(DoDropRow(DoReadRow(s, req), req), req)
  }

  /** Undisturbed, a turn reuses an open reservation of the same interval and refuses one of the other. */
  lemma TurnReuses(s: Db, req: Id)
    requires req in s.inflight && s.inflight[req].Reading? && OpenRow(s, s.inflight[req].ask.org)
    ensures var p := s.inflight[req];
            var row := s.rows[p.ask.org];
            var t := Turn(s, req);
            && t.rows == s.rows
            && if row.interval != p.ask.interval then
                 req in t.answers && t.answers[req] == Refused
               else if row.session.Some? then
                 req in t.answers && t.answers[req] == Opened(p.ask, row.key, row.session.value)
               else
                 req in t.inflight && t.inflight[req] == Calling(p.ask, p.trial, row.id, row.key)
  {
  }

  lemma DropsOld(s: Db, req: Id)
    requires req in s.inflight && s.inflight[req].Reading? && !OpenRow(s, s.inflight[req].ask.org)
    ensures var p := s.inflight[req];
            var b := DoDropRow(DoReadRow(s, req), req);
            && b.rows == s.rows - {p.ask.org} && b.nextId == s.nextId && b.clock == s.clock
            && req in b.inflight && b.inflight[req] == Creating(p.ask, p.trial, p.attempt, s.clock)
  {
    var p := s.inflight[req];
    var next := Creating(p.ask, p.trial, p.attempt, s.clock);
    var a := DoReadRow(s, req);
    if p.ask.org !in s.rows {
      assert a == Goto(s, req, next) && DoDropRow(a, req) == a;
      assert s.rows - {p.ask.org} == s.rows;
    } else {
      var row := s.rows[p.ask.org];
      if row.expiresAt <= s.clock {
        assert a == Goto(s, req, DroppingExpired(p.ask, p.trial, p.attempt, row.id, s.clock));
      } else {
        assert a == Goto(s, req, DroppingStale(p.ask, p.trial, p.attempt, row.id, s.clock));
      }
      assert DoDropRow(a, req).inflight == a.inflight[req := next];
    }
  }

  /** Undisturbed, a turn replaces a missing, expired or abandoned reservation under a fresh key. */
  lemma TurnReplaces(s: Db, req: Id)
    requires req in s.inflight && s.inflight[req].Reading? && !OpenRow(s, s.inflight[req].ask.org)
    ensures var p := s.inflight[req];
            var t := Turn(s, req);
            && req in t.inflight && t.inflight[req] == Calling(p.ask, p.trial, s.nextId, s.nextId + 1)
            && t.rows == s.rows[p.ask.org := Row(s.nextId, s.nextId + 1, p.ask.interval, None, s.clock + ROW_TTL, s.clock)]
  {
    DropsOld(s, req);
    CreateRowMoves(DoDropRow(DoReadRow(s, req), req), req);
  }
}
