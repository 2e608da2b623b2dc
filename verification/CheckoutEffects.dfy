/**
  What a checkout request comes to when nothing else happens in between, from its beginning to its
  answer, and what it leaves in the table and with the provider.
*/
module CheckoutEffects {
  import opened Common
  import opened Checkout
  import opened CheckoutSafety

  /** A request for an organization whose subscription is managed in the portal is refused; any other goes on, and no row changes. */
  lemma BeginExactly(s: Db, req: Id, ask: Ask)
    requires req !in s.inflight && req !in s.answers
    ensures var t := Step(s, Begin(req, ask));
            if ask.org in s.managed then t == s.(answers := s.answers[req := Refused])
            else t == s.(inflight := s.inflight[req := Starting(ask)])
  {
    assert s.inflight - {req} == s.inflight;
  }

  /** A request asks for trial days exactly if no trial of the organization was used when it read the customer. */
  lemma CustomerExactly(s: Db, req: Id, ask: Ask)
    requires req in s.inflight && s.inflight[req] == Starting(ask)
    ensures Step(s, ReadCustomer(req)) == s.(inflight := s.inflight[req := Reading(ask, ask.org !in s.trialUsed, 0)])
  {
  }

  // ---------------------------------------------------------------- from the reservation to the answer

  /** The last steps of a request that holds a reservation; the ones that do not apply change nothing. */
  function Concluding(s: Db, req: Id, available: bool, expiresAt: Option<Time>): Db {
    Step(Step(Step(s, CallProvider(req, available, expiresAt)), CleanRow(req)), StoreSession(req))
  }

  /** The session of `key`: the one made under it before, or else a new one. */
  predicate SessionOf(s: Db, t: Db, ask: Ask, key: Id, trial: bool, expiresAt: Option<Time>) {
    && key in t.provider && t.provider == s.provider[key := t.provider[key]]
    && t.provider[key] == if key in s.provider then s.provider[key] else Session(s.nextId, ask, trial, expiresAt)
  }

  lemma ConcludesWithout(s: Db, req: Id, ask: Ask, trial: bool, row: Row, expiresAt: Option<Time>)
    requires req in s.inflight && s.inflight[req] == Calling(ask, trial, row.id, row.key)
    requires ask.org in s.rows && s.rows[ask.org] == row && row.session.None?
    ensures var t := Concluding(s, req, false, expiresAt);
            t == s.(rows := s.rows - {ask.org}, inflight := s.inflight - {req}, answers := s.answers[req := Refused])
  {
    var a := Step(s, CallProvider(req, false, expiresAt));
    assert a == s.(inflight := s.inflight[req := Cleaning(ask, row.id, row.key)]);
    var b := Step(a, CleanRow(req));
    assert b == s.(rows := s.rows - {ask.org}, inflight := a.inflight - {req}, answers := s.answers[req := Refused]);
    assert a.inflight - {req} == s.inflight - {req};
    assert Step(b, StoreSession(req)) == b;
  }

  lemma ConcludesWith(s: Db, req: Id, ask: Ask, trial: bool, row: Row, expiresAt: Option<Time>) returns (t: Db, made: Session)
    requires req in s.inflight && s.inflight[req] == Calling(ask, trial, row.id, row.key)
    requires ask.org in s.rows && s.rows[ask.org] == row && row.session.None?
    ensures t == Concluding(s, req, true, expiresAt) && req !in t.inflight
    ensures t.provider == s.provider[row.key := made]
    ensures made == if row.key in s.provider then s.provider[row.key] else Session(s.nextId, ask, trial, expiresAt)
    ensures t.answers == s.answers[req := Opened(ask, row.key, made.id)]
    ensures t.rows == s.rows[ask.org := row.(session := Some(made.id), expiresAt := Until(made, s.clock))]
  {
    var a := Step(s, CallProvider(req, true, expiresAt));
    ProviderMakes(s, req, expiresAt);
    var b := Step(a, CleanRow(req));
    assert b == a;
    t := Step(b, StoreSession(req));
    made := a.provider[row.key];
    assert t == Finish(a.(rows := a.rows[ask.org := a.rows[ask.org].(session := Some(made.id), expiresAt := Until(made, a.clock))]), req,
                       Opened(ask, row.key, made.id));
  }

  /** The provider's date, or a day from now. */
  function Until(made: Session, now: Time): Time {
    if made.expiresAt.Some? then made.expiresAt.value else now + 24 * HOUR
  }

  lemma ProviderMakes(s: Db, req: Id, expiresAt: Option<Time>)
    requires req in s.inflight && s.inflight[req].Calling?
    ensures var p, t := s.inflight[req], Step(s, CallProvider(req, true, expiresAt));
            && SessionOf(s, t, p.ask, p.key, p.trial, expiresAt)
            && t.rows == s.rows && t.clock == s.clock && t.answers == s.answers
            && req in t.inflight && t.inflight[req] == Storing(p.ask, p.key, t.provider[p.key])
  {
    var p, t := s.inflight[req], Step(s, CallProvider(req, true, expiresAt));
    if p.key in s.provider {
      assert t == Goto(s, req, Storing(p.ask, p.key, s.provider[p.key]));
      assert s.provider == s.provider[p.key := s.provider[p.key]];
    }
  }

  // ---------------------------------------------------------------- the reservation

  /** Not expired, and with a session or less than five minutes old. */
  predicate Open(row: Row, now: Time) {
    now < row.expiresAt && (row.session.Some? || now < row.createdAt + 5 * MINUTE)
  }

  function Reserving(s: Db, req: Id): Db {
    Step(Step(Step(s, ReadRow(req)), DropRow(req)), CreateRow(req))
  }

  lemma ReserveAnswers(s: Db, req: Id, ask: Ask, trial: bool, row: Row)
    requires req in s.inflight && s.inflight[req] == Reading(ask, trial, 0) && ask.org in s.rows && s.rows[ask.org] == row
    requires Open(row, s.clock) && (row.interval == ask.interval ==> row.session.Some?)
    ensures Reserving(s, req) == s.(inflight := s.inflight - {req},
                                    answers := s.answers[req := if row.interval == ask.interval then Opened(ask, row.key, row.session.value) else Refused])
  {
    var a := Step(s, ReadRow(req));
    assert req !in a.inflight;
    assert Step(a, DropRow(req)) == a && Step(a, CreateRow(req)) == a;
  }

  lemma ReserveJoins(s: Db, req: Id, ask: Ask, trial: bool, row: Row)
    requires req in s.inflight && s.inflight[req] == Reading(ask, trial, 0) && ask.org in s.rows && s.rows[ask.org] == row
    requires Open(row, s.clock) && row.interval == ask.interval && row.session.None?
    ensures Reserving(s, req) == s.(inflight := s.inflight[req := Calling(ask, trial, row.id, row.key)])
  {
    var a := Step(s, ReadRow(req));
    assert a == Goto(s, req, Calling(ask, trial, row.id, row.key));
    assert Step(a, DropRow(req)) == a && Step(a, CreateRow(req)) == a;
  }

  /** Whatever was reserved and is no longer open makes way for a reservation of a day under a fresh key. */
  lemma ReserveAnew(s: Db, req: Id, ask: Ask, trial: bool)
    requires req in s.inflight && s.inflight[req] == Reading(ask, trial, 0) && (ask.org in s.rows ==> !Open(s.rows[ask.org], s.clock))
    ensures var t := Reserving(s, req);
            && t.rows == s.rows[ask.org := Row(s.nextId, s.nextId + 1, ask.interval, None, s.clock + 24 * HOUR, s.clock)]
            && t.inflight == s.inflight[req := Calling(ask, trial, s.nextId, s.nextId + 1)]
            && t.nextId == s.nextId + 2 && t.clock == s.clock && t.provider == s.provider && t.answers == s.answers
  {
    var b := Step(Step(s, ReadRow(req)), DropRow(req));
    DropsOld(s, req);
    DropMovesNothingElse(s, req, ask, trial);
    CreatesRow(b, req, ask, trial, 0, s.clock);
    assert b.inflight[req := Calling(ask, trial, s.nextId, s.nextId + 1)] == s.inflight[req := Calling(ask, trial, s.nextId, s.nextId + 1)];
  }

  /** Where no row stands in the way, a request gets one under a fresh key, for a day from when it read the table. */
  lemma CreatesRow(b: Db, req: Id, ask: Ask, trial: bool, attempt: nat, now: Time)
    requires req in b.inflight && b.inflight[req] == Creating(ask, trial, attempt, now) && ask.org !in b.rows
    ensures var t := Step(b, CreateRow(req));
            && t.rows == b.rows[ask.org := Row(b.nextId, b.nextId + 1, ask.interval, None, now + 24 * HOUR, b.clock)]
            && t.inflight == b.inflight[req := Calling(ask, trial, b.nextId, b.nextId + 1)]
            && t.nextId == b.nextId + 2 && t.clock == b.clock && t.provider == b.provider && t.answers == b.answers
  {
    CreateRowMoves(b, req);
  }

  lemma DropMovesNothingElse(s: Db, req: Id, ask: Ask, trial: bool)
    requires req in s.inflight && s.inflight[req] == Reading(ask, trial, 0) && (ask.org in s.rows ==> !Open(s.rows[ask.org], s.clock))
    ensures var b := Step(Step(s, ReadRow(req)), DropRow(req));
            b.inflight == s.inflight[req := Creating(ask, trial, 0, s.clock)] && b.provider == s.provider && b.answers == s.answers
  {
    var a := Step(s, ReadRow(req));
    assert a == s.(inflight := s.inflight[req := a.inflight[req]]);
    DropsOld(s, req);
  }

  /** A request that finds its place taken turns again, twice, and is then refused; the row that is there stays. */
  lemma TakenTurnsAgain(s: Db, req: Id, ask: Ask, trial: bool, attempt: nat, now: Time)
    requires req in s.inflight && s.inflight[req] == Creating(ask, trial, attempt, now) && ask.org in s.rows
    ensures Step(s, CreateRow(req))
            == if attempt < 2 then s.(inflight := s.inflight[req := Reading(ask, trial, attempt + 1)])
               else s.(inflight := s.inflight - {req}, answers := s.answers[req := Refused])
  {
  }

  // ---------------------------------------------------------------- in the presence of others

  /**
    `e` is the step of a request that gives up this very row: expired or abandoned when it was read, or
    without a session after the provider failed.
  */
  predicate GivesUp(s: Db, e: Event, org: Id)
    requires org in s.rows
  {
    var row := s.rows[org];
    match e
    case DropRow(req) =>
      && req in s.inflight && s.inflight[req].ask.org == org
      && (match s.inflight[req]
          case DroppingExpired(_, _, _, id, now) => id == row.id && row.expiresAt <= now
          case DroppingStale(_, _, _, id, now) => id == row.id && row.session.None? && row.createdAt + 5 * MINUTE <= now
          case _ => false)
    case CleanRow(req) =>
      && req in s.inflight && s.inflight[req] == Cleaning(Ask(org, s.inflight[req].ask.interval), row.id, row.key)
      && row.session.None?
    case _ => false
  }

  /** Whatever else is in flight, a request's step removes a row if and only if it gives up that very row; it never takes one that replaced it. */
  lemma RemovedExactly(s: Db, e: Event, org: Id)
    requires org in s.rows && !IsWebhook(e)
    ensures org !in Step(s, e).rows <==> GivesUp(s, e, org)
  {
    match e
    case DropRow(req) =>
    case CleanRow(req) => if req in s.inflight { assert s.inflight[req].ask == Ask(s.inflight[req].ask.org, s.inflight[req].ask.interval); }
    case _ => if !e.StoreSession? { OthersKeepRows(s, e, org); }
  }

  /** The row a deletion did not find as it was read: an abandoned one makes the request turn again, an expired one lets it go on. */
  lemma LostDrop(s: Db, req: Id)
    requires req in s.inflight && (s.inflight[req].DroppingStale? || s.inflight[req].DroppingExpired?)
    requires s.inflight[req].ask.org in s.rows ==> !GivesUp(s, DropRow(req), s.inflight[req].ask.org)
    ensures var p := s.inflight[req];
            Step(s, DropRow(req))
            == if p.DroppingExpired? then s.(inflight := s.inflight[req := Creating(p.ask, p.trial, p.attempt, p.now)])
               else if p.attempt < 2 then s.(inflight := s.inflight[req := Reading(p.ask, p.trial, p.attempt + 1)])
               else s.(inflight := s.inflight - {req}, answers := s.answers[req := Refused])
  {
  }

  /**
    Storing a session: into the row that has its key, whoever reserved it last; into a new row if the
    organization has none; and if it has another one, the request is refused and the row stays.
  */
  lemma StoreExactly(s: Db, req: Id, ask: Ask, key: Id, made: Session)
    requires req in s.inflight && s.inflight[req] == Storing(ask, key, made)
    ensures var t, done := Step(s, StoreSession(req)), Opened(ask, key, made.id);
            && req !in t.inflight && req in t.answers && t.provider == s.provider
            && (t.answers[req] == done <==> (ask.org in s.rows ==> s.rows[ask.org].key == key))
            && (t.answers[req] != done ==> t.answers[req] == Refused && t.rows == s.rows)
            && (t.answers[req] == done ==>
                  && ask.org in t.rows && t.rows == s.rows[ask.org := t.rows[ask.org]]
                  && t.rows[ask.org].key == key && t.rows[ask.org].session == Some(made.id) && t.rows[ask.org].expiresAt == Until(made, s.clock)
                  && (ask.org in s.rows ==> t.rows[ask.org].id == s.rows[ask.org].id && t.rows[ask.org].interval == s.rows[ask.org].interval)
                  && (ask.org !in s.rows ==> t.rows[ask.org].interval == ask.interval))
  {
  }

  // ---------------------------------------------------------------- the whole request

  /** An undisturbed request; the steps that do not apply change nothing. */
  function Requesting(s: Db, req: Id, ask: Ask, available: bool, expiresAt: Option<Time>): Db {
    Concluding(Reserving(Step(Step(s, Begin(req, ask)), ReadCustomer(req)), req), req, available, expiresAt)
  }

  lemma RequestReads(s: Db, req: Id, ask: Ask) returns (a: Db)
    requires req !in s.inflight && req !in s.answers && ask.org !in s.managed
    ensures a == Step(Step(s, Begin(req, ask)), ReadCustomer(req))
    ensures a == s.(inflight := s.inflight[req := Reading(ask, ask.org !in s.trialUsed, 0)])
  {
    var b := Step(s, Begin(req, ask));
    BeginExactly(s, req, ask);
    a := Step(b, ReadCustomer(req));
    CustomerExactly(b, req, ask);
    assert b.inflight[req := a.inflight[req]] == s.inflight[req := a.inflight[req]];
  }

  /** Steps of a request that has been answered change nothing. */
  lemma AnsweredStays(s: Db, req: Id, available: bool, expiresAt: Option<Time>)
    requires req !in s.inflight
    ensures Reserving(s, req) == s && Concluding(s, req, available, expiresAt) == s && Step(s, ReadCustomer(req)) == s
  {
  }

  /** A request is refused, changing nothing, for a managed subscription and for an open reservation of the other interval. */
  lemma RequestRefused(s: Db, req: Id, ask: Ask, available: bool, expiresAt: Option<Time>)
    requires req !in s.inflight && req !in s.answers
    requires ask.org in s.managed || (ask.org in s.rows && Open(s.rows[ask.org], s.clock) && s.rows[ask.org].interval != ask.interval)
    ensures Requesting(s, req, ask, available, expiresAt) == s.(answers := s.answers[req := Refused])
  {
    var done := s.(answers := s.answers[req := Refused]);
    if ask.org in s.managed {
      BeginExactly(s, req, ask);
    } else {
      var a := RequestReads(s, req, ask);
      ReserveAnswers(a, req, ask, ask.org !in s.trialUsed, s.rows[ask.org]);
      assert a.inflight - {req} == s.inflight;
    }
    AnsweredStays(done, req, available, expiresAt);
  }

  /** An open session of the same interval is answered again; nothing changes. */
  lemma RequestReopens(s: Db, req: Id, ask: Ask, available: bool, expiresAt: Option<Time>)
    requires req !in s.inflight && req !in s.answers && ask.org !in s.managed
    requires ask.org in s.rows && Open(s.rows[ask.org], s.clock) && s.rows[ask.org].interval == ask.interval && s.rows[ask.org].session.Some?
    ensures Requesting(s, req, ask, available, expiresAt)
            == s.(answers := s.answers[req := Opened(ask, s.rows[ask.org].key, s.rows[ask.org].session.value)])
  {
    var a := RequestReads(s, req, ask);
    ReserveAnswers(a, req, ask, ask.org !in s.trialUsed, s.rows[ask.org]);
    assert a.inflight - {req} == s.inflight;
    AnsweredStays(s.(answers := s.answers[req := Opened(ask, s.rows[ask.org].key, s.rows[ask.org].session.value)]), req, available, expiresAt);
  }

  /** The reservation under which a request calls the provider: an open one without a session, or a new one for a day. */
  function Reservation(s: Db, ask: Ask): Row {
    if ask.org in s.rows && Open(s.rows[ask.org], s.clock) then s.rows[ask.org]
    else Row(s.nextId, s.nextId + 1, ask.interval, None, s.clock + 24 * HOUR, s.clock)
  }

  /** The request is not refused at once and finds no session to answer with. */
  predicate Proceeds(s: Db, req: Id, ask: Ask) {
    && req !in s.inflight && req !in s.answers && ask.org !in s.managed
    && (ask.org in s.rows && Open(s.rows[ask.org], s.clock) ==> s.rows[ask.org].interval == ask.interval && s.rows[ask.org].session.None?)
  }

  lemma RequestCalls(s: Db, req: Id, ask: Ask) returns (b: Db)
    requires Proceeds(s, req, ask)
    ensures b == Reserving(Step(Step(s, Begin(req, ask)), ReadCustomer(req)), req)
    ensures var row := Reservation(s, ask);
            && req in b.inflight && b.inflight[req] == Calling(ask, ask.org !in s.trialUsed, row.id, row.key)
            && b.rows == s.rows[ask.org := row]
    ensures b.clock == s.clock && b.provider == s.provider && b.answers == s.answers && s.nextId <= b.nextId
  {
    if ask.org in s.rows && Open(s.rows[ask.org], s.clock) {
      b := RequestJoins(s, req, ask);
    } else {
      b := RequestReserves(s, req, ask);
    }
  }

  lemma RequestJoins(s: Db, req: Id, ask: Ask) returns (b: Db)
    requires Proceeds(s, req, ask) && ask.org in s.rows && Open(s.rows[ask.org], s.clock)
    ensures b == Reserving(Step(Step(s, Begin(req, ask)), ReadCustomer(req)), req)
    ensures req in b.inflight && b.inflight[req] == Calling(ask, ask.org !in s.trialUsed, s.rows[ask.org].id, s.rows[ask.org].key)
    ensures b.rows == s.rows && b.rows == s.rows[ask.org := s.rows[ask.org]]
    ensures b.clock == s.clock && b.provider == s.provider && b.answers == s.answers && b.nextId == s.nextId
  {
    var a := RequestReads(s, req, ask);
    b := Reserving(a, req);
    ReserveJoins(a, req, ask, ask.org !in s.trialUsed, s.rows[ask.org]);
  }

  lemma RequestReserves(s: Db, req: Id, ask: Ask) returns (b: Db)
    requires Proceeds(s, req, ask) && (ask.org in s.rows ==> !Open(s.rows[ask.org], s.clock))
    ensures b == Reserving(Step(Step(s, Begin(req, ask)), ReadCustomer(req)), req)
    ensures req in b.inflight && b.inflight[req] == Calling(ask, ask.org !in s.trialUsed, s.nextId, s.nextId + 1)
    ensures b.rows == s.rows[ask.org := Row(s.nextId, s.nextId + 1, ask.interval, None, s.clock + 24 * HOUR, s.clock)]
    ensures b.clock == s.clock && b.provider == s.provider && b.answers == s.answers && s.nextId <= b.nextId
  {
    var a := RequestReads(s, req, ask);
    b := Reserving(a, req);
    ReserveAnew(a, req, ask, ask.org !in s.trialUsed);
  }

  /**
    Any other request opens a session: the one made under the reservation's key before, or else a new
    one, with trial days exactly if the organization has used none. The row keeps it until the
    provider's date, or for a day.
  */
  lemma RequestOpens(s: Db, req: Id, ask: Ask, expiresAt: Option<Time>) returns (t: Db, made: Session)
    requires Proceeds(s, req, ask)
    ensures t == Requesting(s, req, ask, true, expiresAt) && req !in t.inflight
    ensures var row := Reservation(s, ask);
            && t.provider == s.provider[row.key := made]
            && (if row.key in s.provider then made == s.provider[row.key]
                else made.ask == ask && made.expiresAt == expiresAt && (made.trial <==> ask.org !in s.trialUsed))
            && t.answers == s.answers[req := Opened(ask, row.key, made.id)]
            && t.rows == s.rows[ask.org := row.(session := Some(made.id), expiresAt := Until(made, s.clock))]
  {
    var b := RequestCalls(s, req, ask);
    var row := Reservation(s, ask);
    t, made := ConcludesWith(b, req, ask, ask.org !in s.trialUsed, row, expiresAt);
    WrittenTwice(s.rows, ask.org, row, row.(session := Some(made.id), expiresAt := Until(made, s.clock)));
  }

  lemma WrittenTwice(rows: map<Id, Row>, org: Id, first: Row, second: Row)
    ensures rows[org := first][org := second] == rows[org := second]
  {
  }

  /** Without the provider it is refused, and the reservation goes. */
  lemma RequestFails(s: Db, req: Id, ask: Ask, expiresAt: Option<Time>) returns (t: Db)
    requires Proceeds(s, req, ask)
    ensures t == Requesting(s, req, ask, false, expiresAt) && req !in t.inflight
    ensures t.answers == s.answers[req := Refused] && t.rows == s.rows - {ask.org} && t.provider == s.provider
  {
    var b := RequestCalls(s, req, ask);
    t := Concluding(b, req, false, expiresAt);
    var row := Reservation(s, ask);
    ConcludesWithout(b, req, ask, ask.org !in s.trialUsed, row, expiresAt);
    assert s.rows[ask.org := row] - {ask.org} == s.rows - {ask.org};
  }

  // ---------------------------------------------------------------- webhooks

  /** A completed session takes exactly its row; a sync takes the organization's row and sets its marks. */
  lemma HooksExactly(s: Db, session: Id, org: Id, trial: bool, managed: bool)
    ensures var t := Step(s, CompletedHook(session));
            && t == s.(rows := t.rows)
            && forall o: Id :: (o in t.rows <==> o in s.rows && s.rows[o].session != Some(session)) && (o in t.rows ==> t.rows[o] == s.rows[o])
    ensures var t := Step(s, SyncHook(org, trial, managed));
            && t == s.(rows := s.rows - {org}, trialUsed := t.trialUsed, managed := t.managed)
            && forall o: Id :: (o in t.trialUsed <==> o in s.trialUsed || (o == org && trial))
                               && (o in t.managed <==> if o == org then managed else o in s.managed)
  {
  }
}
