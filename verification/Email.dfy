/**
  Transactional email: the delivery loop (backend/src/email/transactional-email.service.ts) and the
  provider's webhook register (backend/src/email/resend-webhook.service.ts). What the provider
  answers, and which database writes fail, are inputs. Deliveries are keyed by idempotency key.

  A `deliver` call reads its row once and then loops over the attempts left by that reading. Every
  database write and every call to the provider is a step of its own, so calls may overlap.
*/
module Email {
  import opened Common

  const MAX_ATTEMPTS: nat := 3

  datatype Status = Pending | Sending | Sent | Delivered | Failed | Bounced | Complained | Suppressed

  datatype Error = Internal | Network | Provider(code: Id) | Temporary(cause: Error) | Rejected(cause: Error) | Reported(kind: Kind)

  datatype Row = Row(
    status: Status, attempts: nat, message: Option<Id>, sentAt: Option<Time>, deliveredAt: Option<Time>,
    failedAt: Option<Time>, lastEventAt: Option<Time>, error: Option<Error>)

  datatype Answer = Accepted(message: Id) | Refused(code: Id, retryable: bool)

  datatype Kind = KindBounced | KindComplained | KindDelivered | KindFailed | KindScheduled | KindSent | KindSuppressed | KindOther

  datatype Hook = Hook(id: Id, kind: Kind, message: Option<Id>, at: Time)

  /** What a `deliver` call in flight does next; `n` is the number of its attempt. */
  datatype Phase =
    | Attempting(key: Id, n: nat)
    | Calling(key: Id, n: nat)
    | Storing(key: Id, n: nat, message: Id)
    | Noting(key: Id, n: nat, cause: Error, retryable: bool)
    | Recording(key: Id, cause: Error)

  datatype Db = Db(
    clock: Time, rows: map<Id, Row>, seen: set<Id>, sends: map<Id, nat>,
    calls: map<Id, Phase>, nextCall: Id, reports: map<Id, bool>)

  /** The steps of a call; the flags say whether the message could be built and whether each write succeeded. */
  datatype CallStep =
    | Start(key: Id, built: bool)
    | Count(call: Id, begun: bool)
    | Send(call: Id, answer: Answer)
    | Store(call: Id, stored: bool)
    | Note(call: Id, noted: bool)
    | Record(call: Id, recorded: bool)

  datatype Event =
    | Tick(elapsed: nat)
    | Deliver(step: CallStep)
    | Webhook(hook: Hook)

  // ---------------------------------------------------------------- what a step does to the row

  function Counted(row: Row): Row {
    row.(attempts := row.attempts + 1, status := Sending)
  }

  function Stored(row: Row, message: Id, now: Time): Row {
    row.(failedAt := None, error := None, message := Some(message), sentAt := Some(now), status := Sent)
  }

  function Noted(row: Row, cause: Error, retryable: bool, final: bool, now: Time): Row {
    row.(failedAt := if final then Some(now) else None,
         error := Some(if retryable then Temporary(cause) else Rejected(cause)),
         status := if final then Failed else Pending)
  }

  /** `recordUnexpectedFailure`. */
  function FailedBy(row: Row, cause: Error, recorded: bool, now: Time): Row {
    if recorded then row.(failedAt := Some(now), error := Some(cause), status := Failed) else row
  }

  function Fresh(): Row {
    Row(Pending, 0, None, None, None, None, None, None)
  }

  function SendsOf(s: Db, key: Id): nat {
    if key in s.sends then s.sends[key] else 0
  }

  function RowOf(s: Db, key: Id): Row {
    if key in s.rows then s.rows[key] else Fresh()
  }

  function SetRow(s: Db, key: Id, row: Row): Db {
    s.(rows := s.rows[key := row])
  }

  // ---------------------------------------------------------------- the steps of a call

  function Goto(s: Db, c: Id, p: Phase): Db {
    s.(calls := s.calls[c := p])
  }

  function Finish(s: Db, c: Id, sent: bool): Db {
    s.(calls := s.calls - {c}, reports := s.reports[c := sent])
  }

  /** The upsert, and what the call decides from the row it read. */
  function DoStart(s: Db, key: Id, built: bool): Db {
    var row := RowOf(s, key);
    var c := s.nextCall;
    var t := SetRow(s, key, row).(nextCall := c + 1);
    if row.status == Sent || row.status == Delivered then Finish(t, c, true)
    else if row.message.Some? || row.attempts >= MAX_ATTEMPTS then Finish(t, c, false)
    else if !built then Goto(t, c, Recording(key, Internal))
    else Goto(t, c, Attempting(key, row.attempts + 1))
  }

  function DoCount(s: Db, c: Id, begun: bool): Db {
    if c !in s.calls || !s.calls[c].Attempting? then s
    else
      var p := s.calls[c];
      if begun then Goto(SetRow(s, p.key, Counted(RowOf(s, p.key))), c, Calling(p.key, p.n))
      else Goto(s, c, Recording(p.key, Internal))
  }

  function DoSend(s: Db, c: Id, answer: Answer): Db {
    if c !in s.calls || !s.calls[c].Calling? then s
    else
      var p := s.calls[c];
      var t := s.(sends := s.sends[p.key := SendsOf(s, p.key) + 1]);
      match answer
      case Accepted(m) => Goto(t, c, Storing(p.key, p.n, m))
      case Refused(code, retryable) => Goto(t, c, Noting(p.key, p.n, Provider(code), retryable))
  }

  /** An accepted message that cannot be stored counts as a network error. */
  function DoStore(s: Db, c: Id, stored: bool): Db {
    if c !in s.calls || !s.calls[c].Storing? then s
    else
      var p := s.calls[c];
      if stored then Finish(SetRow(s, p.key, Stored(RowOf(s, p.key), p.message, s.clock)), c, true)
      else Goto(s, c, Noting(p.key, p.n, Network, true))
  }

  function DoNote(s: Db, c: Id, noted: bool): Db {
    if c !in s.calls || !s.calls[c].Noting? then s
    else
      var p := s.calls[c];
      if !noted then Goto(s, c, Recording(p.key, Internal))
      else
        var final := !p.retryable || p.n >= MAX_ATTEMPTS;
        var t := SetRow(s, p.key, Noted(RowOf(s, p.key), p.cause, p.retryable, final, s.clock));
        if final then Goto(t, c, Recording(p.key, p.cause)) else Goto(t, c, Attempting(p.key, p.n + 1))
  }

  function DoRecord(s: Db, c: Id, recorded: bool): Db {
    if c !in s.calls || !s.calls[c].Recording? then s
    else
      var p := s.calls[c];
      Finish(SetRow(s, p.key, FailedBy(RowOf(s, p.key), p.cause, recorded, s.clock)), c, false)
  }

  function DoDeliver(s: Db, e: CallStep): Db {
    match e
    case Start(key, built) => DoStart(s, key, built)
    case Count(c, begun) => DoCount(s, c, begun)
    case Send(c, answer) => DoSend(s, c, answer)
    case Store(c, stored) => DoStore(s, c, stored)
    case Note(c, noted) => DoNote(s, c, noted)
    case Record(c, recorded) => DoRecord(s, c, recorded)
  }

  // ---------------------------------------------------------------- the webhook register

  function StatusFor(kind: Kind): Option<Status> {
    match kind
    case KindBounced => Some(Bounced)
    case KindComplained => Some(Complained)
    case KindDelivered => Some(Delivered)
    case KindFailed => Some(Failed)
    case KindScheduled => Some(Sent)
    case KindSent => Some(Sent)
    case KindSuppressed => Some(Suppressed)
    case KindOther => None
  }

  predicate IsFailure(status: Status) {
    status in {Bounced, Complained, Failed, Suppressed}
  }

  /** The hook names this row's message and maps to a status. */
  predicate Concerns(h: Hook, row: Row) {
    h.message.Some? && row.message == h.message && StatusFor(h.kind).Some?
  }

  predicate Newer(h: Hook, row: Row) {
    row.lastEventAt.None? || row.lastEventAt.value < h.at
  }

  function ApplyHook(row: Row, h: Hook): Row {
    if !Concerns(h, row) || !Newer(h, row) then row
    else
      var status := StatusFor(h.kind).value;
      row.(status := status,
           lastEventAt := Some(h.at),
           deliveredAt := if status == Delivered then Some(h.at) else row.deliveredAt,
           failedAt := if status == Delivered then None else if IsFailure(status) then Some(h.at) else row.failedAt,
           error := if status == Delivered then None else if IsFailure(status) then Some(Reported(h.kind)) else row.error)
  }

  /** `recordEvent`: an event already recorded is skipped. */
  function DoHook(s: Db, h: Hook): Db {
    if h.id in s.seen then s
    else s.(seen := s.seen + {h.id}, rows := map k | k in s.rows :: ApplyHook(s.rows[k], h))
  }

  // ---------------------------------------------------------------- runs

  function Step(s: Db, e: Event): Db {
    match e
    case Tick(d) => s.(clock := s.clock + d)
    case Deliver(d) => DoDeliver(s, d)
    case Webhook(h) => DoHook(s, h)
  }

  function Run(s: Db, events: seq<Event>): Db
    decreases |events|
  {
    if events == [] then s else Run(Step(s, events[0]), events[1..])
  }

  lemma {:induction false} RunAppend(s: Db, a: seq<Event>, b: seq<Event>)
    ensures Run(s, a + b) == Run(Run(s, a), b)
    decreases |a|
  {
    if a == [] {
      assert a + b == b;
    } else {
      assert (a + b)[1..] == a[1..] + b;
      RunAppend(Step(s, a[0]), a[1..], b);
    }
  }

  function Empty(): Db {
    Db(0, map[], {}, map[], map[], 0, map[])
  }

  // ---------------------------------------------------------------- one call by itself

  /** One pass of the attempt loop: whether it could be counted, the answer, and whether a success or an error could be written. */
  datatype Try = Try(begun: bool, answer: Answer, stored: bool, noted: bool)

  type Tries = t: seq<Try> | |t| == MAX_ATTEMPTS
    witness [Try(true, Accepted(0), true, true), Try(true, Accepted(0), true, true), Try(true, Accepted(0), true, true)]

  /** One `deliver` call: whether its message could be built, its passes, and whether a failure could be recorded. */
  datatype Call = Call(built: bool, tries: Tries, recorded: bool)

  function Cause(t: Try): Error {
    match t.answer
    case Accepted(_) => Network
    case Refused(code, _) => Provider(code)
  }

  predicate Retryable(t: Try) {
    t.answer.Accepted? || t.answer.retryable
  }

  /** How a call leaves its row, how often it called the provider, and what it threw, if anything. */
  datatype Tried = Tried(row: Row, sends: nat, sent: bool, thrown: Option<Error>)

  /** `attemptDelivery` from attempt `n` on. */
  function TryFrom(row: Row, n: nat, tries: Tries, now: Time): Tried
    requires n >= 1
    decreases MAX_ATTEMPTS + 1 - n
  {
    if n > MAX_ATTEMPTS then Tried(row, 0, false, None)
    else
      var t := tries[n - 1];
      if !t.begun then Tried(row, 0, false, Some(Internal))
      else if t.answer.Accepted? && t.stored then Tried(Stored(Counted(row), t.answer.message, now), 1, true, None)
      else if !t.noted then Tried(Counted(row), 1, false, Some(Internal))
      else
        var final := !Retryable(t) || n == MAX_ATTEMPTS;
        var r := Noted(Counted(row), Cause(t), Retryable(t), final, now);
        if final then Tried(r, 1, false, Some(Cause(t)))
        else var rest := TryFrom(r, n + 1, tries, now); rest.(sends := rest.sends + 1)
  }

  /** `deliver` on an existing row, undisturbed. */
  function DeliverRow(row: Row, call: Call, now: Time): Tried {
    if row.status == Sent || row.status == Delivered then Tried(row, 0, true, None)
    else if row.message.Some? || row.attempts >= MAX_ATTEMPTS then Tried(row, 0, false, None)
    else if !call.built then Tried(FailedBy(row, Internal, call.recorded, now), 0, false, None)
    else
      var r := TryFrom(row, row.attempts + 1, call.tries, now);
      if r.thrown.Some? then r.(row := FailedBy(r.row, r.thrown.value, call.recorded, now)) else r
  }

  /** Some run leads here. */
  ghost predicate Reachable(s: Db) {
    exists events: seq<Event> :: s == Run(Empty(), events)
  }

  lemma ReachStep(s: Db, e: Event)
    requires Reachable(s)
    ensures Reachable(Step(s, e))
  {
    var events: seq<Event> :| s == Run(Empty(), events);
    RunAppend(Empty(), events, [e]);
    assert Run(s, [e]) == Run(Step(s, e), [e][1..]);
    assert Step(s, e) == Run(Empty(), events + [e]);
  }
}
