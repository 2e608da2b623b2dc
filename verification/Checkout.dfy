/**
  Checkout reservation (backend/src/billing/billing.service.ts): a compare-and-delete protocol
  around a payment provider that is idempotent by request key.

  Every database or provider call of a request is a step of its own, so requests interleave
  freely. The table is keyed by organization, its unique column: creating over an existing row
  is the unique-constraint error. `issued` and `answers` are history; no step reads them.
*/
module Checkout {
  import opened Common

  const CREATION_LOCK: nat := 5 * MINUTE
  const ROW_TTL: nat := DAY
  const MAX_ATTEMPTS: nat := 3

  datatype Ask = Ask(org: Id, interval: Interval)

  /** A session as the provider made it; `trial` is whether it was asked for with trial days. */
  datatype Session = Session(id: Id, ask: Ask, trial: bool, expiresAt: Option<Time>)

  /** `session` stands for the session identifier and its URL, which are always written together. */
  datatype Row = Row(id: Id, key: Id, interval: Interval, session: Option<Id>, expiresAt: Time, createdAt: Time)

  /** Where a request stands; `trial` is whether it read its customer without a used trial. */
  datatype Phase =
    | Starting(ask: Ask)
    | Reading(ask: Ask, trial: bool, attempt: nat)
    | DroppingStale(ask: Ask, trial: bool, attempt: nat, row: Id, now: Time)
    | DroppingExpired(ask: Ask, trial: bool, attempt: nat, row: Id, now: Time)
    | Creating(ask: Ask, trial: bool, attempt: nat, now: Time)
    | Calling(ask: Ask, trial: bool, row: Id, key: Id)
    | Cleaning(ask: Ask, row: Id, key: Id)
    | Storing(ask: Ask, key: Id, made: Session)

  datatype Answer = Refused | Opened(ask: Ask, key: Id, session: Id)

  datatype Db = Db(
    clock: Time,
    nextId: Id,
    rows: map<Id, Row>,
    provider: map<Id, Session>,
    trialUsed: set<Id>,
    managed: set<Id>,
    inflight: map<Id, Phase>,
    issued: map<Id, Ask>,
    answers: map<Id, Answer>)

  datatype Event =
    | Tick(elapsed: nat)
    | Begin(req: Id, ask: Ask)
    | ReadCustomer(req: Id)
    | ReadRow(req: Id)
    | DropRow(req: Id)
    | CreateRow(req: Id)
    | CallProvider(req: Id, available: bool, expiresAt: Option<Time>)
    | CleanRow(req: Id)
    | StoreSession(req: Id)
    | CompletedHook(session: Id)
    | SyncHook(org: Id, trial: bool, managed: bool)

  function Goto(s: Db, req: Id, p: Phase): Db {
    s.(inflight := s.inflight[req := p])
  }

  function Finish(s: Db, req: Id, a: Answer): Db {
    s.(inflight := s.inflight - {req}, answers := s.answers[req := a])
  }

  /** The next turn of the reservation loop, or the conflict after the third. */
  function Retry(s: Db, req: Id, ask: Ask, trial: bool, attempt: nat): Db {
    if attempt + 1 < MAX_ATTEMPTS then Goto(s, req, Reading(ask, trial, attempt + 1)) else Finish(s, req, Refused)
  }

  function DoBegin(s: Db, req: Id, ask: Ask): Db {
    if req in s.inflight || req in s.answers then s
    else if ask.org in s.managed then Finish(s, req, Refused)
    else Goto(s, req, Starting(ask))
  }

  function DoReadCustomer(s: Db, req: Id): Db {
    if req in s.inflight && s.inflight[req].Starting? then
      Goto(s, req, Reading(s.inflight[req].ask, s.inflight[req].ask.org !in s.trialUsed, 0))
    else s
  }

  predicate Stale(row: Row, now: Time) {
    row.session.None? && row.createdAt + CREATION_LOCK <= now
  }

  function DoReadRow(s: Db, req: Id): Db {
    if req !in s.inflight || !s.inflight[req].Reading? then
      s
    else
      var p := s.inflight[req];
      var org := p.ask.org;
      if org !in s.rows then
        Goto(s, req, Creating(p.ask, p.trial, p.attempt, s.clock))
      else
        var row := s.rows[org];
        if row.expiresAt <= s.clock then
          Goto(s, req, DroppingExpired(p.ask, p.trial, p.attempt, row.id, s.clock))
        else if Stale(row, s.clock) then
          Goto(s, req, DroppingStale(p.ask, p.trial, p.attempt, row.id, s.clock))
        else if row.interval != p.ask.interval then
          Finish(s, req, Refused)
        else if row.session.Some? then
          Finish(s, req, Opened(p.ask, row.key, row.session.value))
        else
          Goto(s, req, Calling(p.ask, p.trial, row.id, row.key))
  }

  /** The two conditional deletes of the loop. */
  function DoDropRow(s: Db, req: Id): Db {
    if req !in s.inflight then
      s
    else
      var p := s.inflight[req];
      if p.DroppingStale? then
        if p.ask.org in s.rows && s.rows[p.ask.org].id == p.row && Stale(s.rows[p.ask.org], p.now) then
          Goto(s.(rows := s.rows - {p.ask.org}), req, Creating(p.ask, p.trial, p.attempt, p.now))
        else
          Retry(s, req, p.ask, p.trial, p.attempt)
      else if p.DroppingExpired? then
        var t := if p.ask.org in s.rows && s.rows[p.ask.org].id == p.row && s.rows[p.ask.org].expiresAt <= p.now
                 then s.(rows := s.rows - {p.ask.org}) else s;
        Goto(t, req, Creating(p.ask, p.trial, p.attempt, p.now))
      else
        s
  }

  /** A new row under a fresh request key. */
  function WithReservation(s: Db, ask: Ask, expiresAt: Time): Db {
    s.(rows := s.rows[ask.org := Row(s.nextId, s.nextId + 1, ask.interval, None, expiresAt, s.clock)],
       nextId := s.nextId + 2,
       issued := s.issued[s.nextId + 1 := ask])
  }

  function DoCreateRow(s: Db, req: Id): Db {
    if req !in s.inflight || !s.inflight[req].Creating? then
      s
    else
      var p := s.inflight[req];
      if p.ask.org in s.rows then
        Retry(s, req, p.ask, p.trial, p.attempt)
      else
        Goto(WithReservation(s, p.ask, p.now + ROW_TTL), req, Calling(p.ask, p.trial, s.nextId, s.nextId + 1))
  }

  /** A known key returns the session made under it; an unavailable provider changes nothing. */
  function DoCallProvider(s: Db, req: Id, available: bool, expiresAt: Option<Time>): Db {
    if req !in s.inflight || !s.inflight[req].Calling? then
      s
    else
      var p := s.inflight[req];
      if !available then
        Goto(s, req, Cleaning(p.ask, p.row, p.key))
      else if p.key in s.provider then
        Goto(s, req, Storing(p.ask, p.key, s.provider[p.key]))
      else
        var made := Session(s.nextId, p.ask, p.trial, expiresAt);
        Goto(s.(provider := s.provider[p.key := made], nextId := s.nextId + 1), req, Storing(p.ask, p.key, made))
  }

  function DoCleanRow(s: Db, req: Id): Db {
    if req !in s.inflight || !s.inflight[req].Cleaning? then
      s
    else
      var p := s.inflight[req];
      var org := p.ask.org;
      var t := if org in s.rows && s.rows[org].id == p.row && s.rows[org].key == p.key && s.rows[org].session.None?
               then s.(rows := s.rows - {org}) else s;
      Finish(t, req, Refused)
  }

  /** The upsert by request key: update the row, recreate it, or fail on another row of the organization. */
  function DoStoreSession(s: Db, req: Id): Db {
    if req !in s.inflight || !s.inflight[req].Storing? then
      s
    else
      var p := s.inflight[req];
      var org := p.ask.org;
      var expiresAt := if p.made.expiresAt.Some? then p.made.expiresAt.value else s.clock + DAY;
      var done := Opened(p.ask, p.key, p.made.id);
      if org in s.rows && s.rows[org].key == p.key then
        Finish(s.(rows := s.rows[org := s.rows[org].(session := Some(p.made.id), expiresAt := expiresAt)]), req, done)
      else if org in s.rows then
        Finish(s, req, Refused)
      else
        Finish(s.(rows := s.rows[org := Row(s.nextId, p.key, p.ask.interval, Some(p.made.id), expiresAt, s.clock)],
                  nextId := s.nextId + 1), req, done)
  }

  /** `processCheckout` drops the row of a completed session. */
  function DoCompletedHook(s: Db, session: Id): Db {
    s.(rows := map org | org in s.rows && s.rows[org].session != Some(session) :: s.rows[org])
  }

  /** `syncSubscription` drops the organization's row, records a trial, and sets the subscription's status. */
  function DoSyncHook(s: Db, org: Id, trial: bool, managed: bool): Db {
    s.(rows := s.rows - {org},
       trialUsed := if trial then s.trialUsed + {org} else s.trialUsed,
       managed := if managed then s.managed + {org} else s.managed - {org})
  }

  function Step(s: Db, e: Event): Db {
    match e
    case Tick(d) => s.(clock := s.clock + d)
    case Begin(r, ask) => DoBegin(s, r, ask)
    case ReadCustomer(r) => DoReadCustomer(s, r)
    case ReadRow(r) => DoReadRow(s, r)
    case DropRow(r) => DoDropRow(s, r)
    case CreateRow(r) => DoCreateRow(s, r)
    case CallProvider(r, ok, x) => DoCallProvider(s, r, ok, x)
    case CleanRow(r) => DoCleanRow(s, r)
    case StoreSession(r) => DoStoreSession(s, r)
    case CompletedHook(x) => DoCompletedHook(s, x)
    case SyncHook(org, trial, managed) => DoSyncHook(s, org, trial, managed)
  }

  function Run(s: Db, events: seq<Event>): Db
    decreases |events|
  {
    if events == [] then s else Run(Step(s, events[0]), events[1..])
  }

  function Empty(): Db {
    Db(0, 0, map[], map[], {}, {}, map[], map[], map[])
  }

  lemma {:induction false} RunAppend(s: Db, a: seq<Event>, b: seq<Event>)
    ensures Run(s, a + b) == Run(Run(s, a), b)
    decreases |a|
  {
    if a == [] {
      assert a + b == b;
    } else {
      assert (a + b)[1..] == a[1..] + b;
      RunAppend(Step(s, a[0]), a[1..], b);
    }
  }

  /** Some run leads here. */
  ghost predicate Reachable(s: Db) {
    exists events: seq<Event> :: s == Run(Empty(), events)
  }

  lemma ReachStep(s: Db, e: Event)
    requires Reachable(s)
    ensures Reachable(Step(s, e))
  {
    var events: seq<Event> :| s == Run(Empty(), events);
    RunAppend(Empty(), events, [e]);
    assert Run(s, [e]) == Run(Step(s, e), [e][1..]);
    assert Step(s, e) == Run(Empty(), events + [e]);
  }
}
