/**
  Webhook sync (backend/src/billing/stripe-webhook.service.ts): an order-guarded replica of the
  provider's subscription, its grace deadline, the trial mark and the owner's notifications.

  A delivery carries what the provider answers while it is processed: the subscription, and the
  organization it resolves to. The provider may answer differently each time.
*/
module Subscriptions {
  import opened Common
  import opened Notifications

  datatype Status = Active | Trialing | PastDue | Incomplete | IncompleteExpired | Canceled | Unpaid | Paused

  datatype ProviderSub = ProviderSub(
    id: Id, product: Id, price: Id, status: Status, cancelAtPeriodEnd: bool, periodEnd: Time,
    trialStart: Option<Time>, trialEnd: Option<Time>)

  datatype Config = Config(product: Id, monthlyPrice: Id, annualPrice: Id, graceDays: nat)

  /** The stored row: the provider's figures, the interval, the grace deadline and the guard. */
  datatype Row = Row(copy: ProviderSub, interval: Interval, grace: Option<Time>, last: Time)

  datatype Kind = CheckoutCompleted | SubscriptionChanged | InvoiceChanged | ChargeRefunded(full: bool) | ChargeDisputed
                | Unsupported

  /** What the provider resolves for an event: a subscription, and its organization if known. */
  datatype Found = Found(org: Option<Id>, sub: ProviderSub)

  datatype Delivery = Delivery(event: Id, at: Time, kind: Kind, found: Option<Found>)

  datatype Cause = NoCause | RefundCause | DisputeCause

  datatype Sync = Sync(event: Id, at: Time, org: Id, sub: ProviderSub, interval: Interval, cause: Cause)

  datatype Replica = Replica(
    clock: Time,
    config: Config,
    rows: map<Id, Row>,
    trialUsedAt: map<Id, Time>,
    notes: Table,
    owners: map<Id, Id>,
    processed: set<Id>)

  datatype Event =
    | Tick(elapsed: nat)
    | SetOwner(org: Id, user: Id)
    | Deliver(delivery: Delivery, recorded: bool)

  function IntervalFor(config: Config, price: Id): Option<Interval> {
    if price == config.monthlyPrice then Some(Monthly)
    else if price == config.annualPrice then Some(Annual)
    else None
  }

  predicate WantsSync(kind: Kind) {
    match kind
    case ChargeRefunded(full) => full
    case Unsupported => false
    case _ => true
  }

  function CauseOf(kind: Kind): Cause {
    match kind
    case ChargeRefunded(_) => RefundCause
    case ChargeDisputed => DisputeCause
    case _ => NoCause
  }

  /** `processEvent` down to the checks of `syncSubscription`: what is to be synced, if anything. */
  function SyncOf(config: Config, d: Delivery): Option<Sync> {
    if WantsSync(d.kind) && d.found.Some? && d.found.value.org.Some?
       && d.found.value.sub.product == config.product && IntervalFor(config, d.found.value.sub.price).Some?
    then
      Some(Sync(d.event, d.at, d.found.value.org.value, d.found.value.sub,
                IntervalFor(config, d.found.value.sub.price).value, CauseOf(d.kind)))
    else
      None
  }

  // ---------------------------------------------------------------- the row

  function Grace(config: Config, existing: Option<Row>, x: Sync): Option<Time> {
    if x.sub.status != PastDue then None
    else if existing.Some? && existing.value.grace.Some? then existing.value.grace
    else Some(x.at + config.graceDays * DAY)
  }

  function NextRow(config: Config, existing: Option<Row>, x: Sync): Row {
    Row(x.sub, x.interval, Grace(config, existing, x), x.at)
  }

  function RowOf(s: Replica, org: Id): Option<Row> {
    if org in s.rows then Some(s.rows[org]) else None
  }

  /** The guard: an event no newer than the row is not applied. */
  predicate Outdated(existing: Option<Row>, x: Sync) {
    existing.Some? && x.at <= existing.value.last
  }

  // ---------------------------------------------------------------- notifications

  function NoticeFor(x: Sync): Notice {
    if x.cause == RefundCause then FullRefund else Dispute
  }

  function BillingInput(owner: Id, x: Sync, notice: Notice): Input {
    Input(owner, Some(x.org), Billing, notice, OfEvent(x.event, notice), Some(x.at))
  }

  predicate Entered(existing: Option<Row>, x: Sync, status: Status) {
    x.sub.status == status && (existing.None? || existing.value.copy.status != status)
  }

  function OptionalNote(owner: Id, x: Sync, due: bool, notice: Notice): seq<Input> {
    if due then [BillingInput(owner, x, notice)] else []
  }

  /** The notices of one applied sync, in the order they are written. */
  function Notices(existing: Option<Row>, owner: Id, x: Sync): seq<Input> {
    OptionalNote(owner, x, x.cause == RefundCause, FullRefund)
    + OptionalNote(owner, x, x.cause == DisputeCause, Dispute)
    + OptionalNote(owner, x, x.cause == NoCause && Entered(existing, x, Canceled), SubscriptionCanceled)
    + OptionalNote(owner, x, Entered(existing, x, Trialing), TrialStarted)
    + OptionalNote(owner, x, Entered(existing, x, PastDue), PaymentFailed)
    + OptionalNote(owner, x, Entered(existing, x, PastDue), GraceStarted)
    + OptionalNote(owner, x, x.sub.cancelAtPeriodEnd && (existing.None? || !existing.value.copy.cancelAtPeriodEnd),
                   CancellationScheduled)
  }

  // ---------------------------------------------------------------- one event

  /** `syncSubscription`; an organization that does not exist makes the transaction fail. */
  function DoSync(s: Replica, x: Sync): Replica {
    if x.org !in s.owners then
      s
    else
      var existing := RowOf(s, x.org);
      var owner := s.owners[x.org];
      if Outdated(existing, x) then
        if x.cause == NoCause then s
        else s.(notes := Write(s.notes, map[], BillingInput(owner, x, NoticeFor(x)), s.clock))
      else
        s.(rows := s.rows[x.org := NextRow(s.config, existing, x)],
           trialUsedAt := if x.sub.trialStart.Some? && x.org !in s.trialUsedAt then s.trialUsedAt[x.org := x.at] else s.trialUsedAt,
           notes := WriteAll(s.notes, map[], Notices(existing, owner, x), s.clock))
  }

  function DoProcess(s: Replica, d: Delivery): Replica {
    var x := SyncOf(s.config, d);
    if x.Some? then DoSync(s, x.value) else s
  }

  predicate Throws(s: Replica, d: Delivery) {
    var x := SyncOf(s.config, d);
    x.Some? && x.value.org !in s.owners
  }

  /**
    `process`: a recorded event is skipped, an event whose processing throws is not recorded, and the
    record of any other may be lost after the processing.
  */
  function DoDeliver(s: Replica, d: Delivery, recorded: bool): Replica {
    if d.event in s.processed || Throws(s, d) then
      s
    else
      var t := DoProcess(s, d);
      if recorded then t.(processed := s.processed + {d.event}) else t
  }

  function Step(s: Replica, e: Event): Replica {
    match e
    case Tick(d) => s.(clock := s.clock + d)
    case SetOwner(org, u) => s.(owners := s.owners[org := u])
    case Deliver(d, recorded) => DoDeliver(s, d, recorded)
  }

  function Run(s: Replica, events: seq<Event>): Replica
    decreases |events|
  {
    if events == [] then s else Run(Step(s, events[0]), events[1..])
  }

  function Start(config: Config): Replica {
    Replica(0, config, map[], map[], map[], map[], {})
  }

  // ---------------------------------------------------------------- access

  /** `hasPaidAccess`. */
  predicate HasPaidAccess(row: Option<Row>, now: Time) {
    row.Some?
    && match row.value.copy.status
       case Active => true
       case Trialing => true
       case PastDue => row.value.grace.Some? && now < row.value.grace.value
       case _ => false
  }

  lemma {:induction false} RunAppend(s: Replica, a: seq<Event>, b: seq<Event>)
    ensures Run(s, a + b) == Run(Run(s, a), b)
    decreases |a|
  {
    if a == [] {
      assert a + b == b;
    } else {
      assert (a + b)[1..] == a[1..] + b;
      RunAppend(Step(s, a[0]), a[1..], b);
    }
  }

  /** Some run leads here. */
  ghost predicate Reachable(s: Replica) {
    exists config: Config, events: seq<Event> :: s == Run(Start(config), events)
  }

  lemma ReachStep(s: Replica, e: Event)
    requires Reachable(s)
    ensures Reachable(Step(s, e))
  {
    var config: Config, events: seq<Event> :| s == Run(Start(config), events);
    RunAppend(Start(config), events, [e]);
    assert Run(s, [e]) == Run(Step(s, e), [e][1..]);
    assert Step(s, e) == Run(Start(config), events + [e]);
  }
}
