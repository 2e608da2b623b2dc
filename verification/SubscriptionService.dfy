/** `StripeWebhookService` and `writeNotification`, with the rows changed in place. */
module SubscriptionService {
  import opened Common
  import opened Notifications
  import opened Subscriptions
  import SubscriptionReplica

  class Service {
    var clock: Time
    var config: Config
    var rows: map<Id, Row>
    var trialUsedAt: map<Id, Time>
    var notes: Table
    var owners: map<Id, Id>
    var processed: set<Id>

    ghost function State(): Replica
      reads this
    {
      Replica(clock, config, rows, trialUsedAt, notes, owners, processed)
    }

    /** Some run of the service leads here, so whatever holds in every run holds now. */
    ghost predicate Valid()
      reads this
    {
      Reachable(State())
    }

    constructor (config: Config)
      ensures State() == Start(config) && Valid()
    {
      this.config := config;
      clock, rows, trialUsedAt, notes, owners, processed := 0, map[], map[], map[], map[], {};
      new;
      assert State() == Run(Start(config), []);
    }

    /** `writeNotification` after its preference check, which only organization news needs. */
    method WriteNotification(prefs: map<Id, bool>, input: Input)
      modifies this`notes
      ensures notes == Write(old(notes), prefs, input, clock)
    {
      if input.category == OrganizationNews && input.user in prefs && !prefs[input.user] { return; }
      if (input.user, input.key) in notes { return; }
      var createdAt := clock;
      if input.createdAt.Some? && input.createdAt.value <= clock { createdAt := input.createdAt.value; }
      notes := notes[(input.user, input.key) := Note(input.org, input.category, input.notice, createdAt, createdAt + RETENTION)];
    }

    method WriteNotifications(inputs: seq<Input>)
      modifies this`notes
      ensures notes == WriteAll(old(notes), map[], inputs, clock)
    {
      var i := 0;
      while i < |inputs|
        invariant 0 <= i <= |inputs|
        invariant WriteAll(notes, map[], inputs[i..], clock) == WriteAll(old(notes), map[], inputs, clock)
      {
        WriteNotification(map[], inputs[i]);
        i := i + 1;
      }
    }

    method SyncSubscription(x: Sync)
      modifies this`rows, this`trialUsedAt, this`notes
      ensures State() == DoSync(old(State()), x)
    {
      if x.org !in owners { return; }
      var owner := owners[x.org];
      var existing: Option<Row> := None;
      if x.org in rows { existing := Some(rows[x.org]); }
      if existing.Some? && x.at <= existing.value.last {
        if x.cause != NoCause { WriteNotification(map[], BillingInput(owner, x, NoticeFor(x))); }
        return;
      }
      var grace: Option<Time> := None;
      if x.sub.status == PastDue {
        if existing.Some? && existing.value.grace.Some? {
          grace := existing.value.grace;
        } else {
          grace := Some(x.at + config.graceDays * DAY);
        }
      }
      if x.sub.trialStart.Some? && x.org !in trialUsedAt { trialUsedAt := trialUsedAt[x.org := x.at]; }
      rows := rows[x.org := Row(x.sub, x.interval, grace, x.at)];
      WriteNotifications(Notices(existing, owner, x));
    }

    method Process(d: Delivery, recorded: bool)
      requires Valid()
      modifies this`rows, this`trialUsedAt, this`notes, this`processed
      ensures State() == DoDeliver(old(State()), d, recorded) && Valid()
    {
      ReachStep(State(), Deliver(d, recorded));
      if d.event in processed { return; }
      var x := SyncOf(config, d);
      if x.Some? {
        if x.value.org !in owners { return; }
        SyncSubscription(x.value);
      }
      if recorded { processed := processed + {d.event}; }
    }

    method ServeOne(e: Event)
      requires Valid()
      modifies this
      ensures State() == Step(old(State()), e) && Valid()
    {
      ReachStep(State(), e);
      match e
      case Tick(d) => clock := clock + d;
      case SetOwner(org, u) => owners := owners[org := u];
      case Deliver(d, recorded) => Process(d, recorded);
    }

    /** Any sequence of deliveries leaves the state that `Run` computes. */
    method Serve(events: seq<Event>)
      requires Valid()
      modifies this
      ensures State() == Run(old(State()), events) && Valid()
    {
      var i := 0;
      while i < |events|
        invariant 0 <= i <= |events| && Valid()
        invariant Run(State(), events[i..]) == Run(old(State()), events)
      {
        ServeOne(events[i]);
        i := i + 1;
      }
    }

    /** In every reachable state a deadline is set exactly for the rows that are past due. */
    lemma Guarantees(org: Id)
      requires Valid() && org in rows
      ensures rows[org].grace.Some? <==> rows[org].copy.status == PastDue
    {
      SubscriptionReplica.ReachableGrace(State(), org);
    }

    /** `getSnapshot`: the paid plan while active or trialing, and while past due up to a deadline that is always set. */
    method PaidPlan(org: Id) returns (paid: bool)
      requires Valid()
      ensures paid == HasPaidAccess(RowOf(State(), org), clock)
      ensures org in rows && rows[org].copy.status == PastDue ==> rows[org].grace.Some? && paid == (clock < rows[org].grace.value)
    {
      if org in rows { Guarantees(org); }
      if org !in rows { return false; }
      var row := rows[org];
      if row.copy.status == Active || row.copy.status == Trialing { return true; }
      paid := row.copy.status == PastDue && row.grace.Some? && clock < row.grace.value;
    }
  }
}
