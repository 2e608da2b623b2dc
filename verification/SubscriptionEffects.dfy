/**
  What one webhook does, said over the delivery itself: which deliveries change an organization's row,
  what the row then holds, and which notes the owner gets.
*/
module SubscriptionEffects {
  import opened Common
  import opened Notifications
  import opened Subscriptions
  import opened SubscriptionReplica

  /** The delivery names a subscription of the configured product at one of the two prices, and is neither unsupported nor a partial refund. */
  predicate Concerns(config: Config, d: Delivery) {
    && d.kind != Unsupported && d.kind != ChargeRefunded(false)
    && d.found.Some? && d.found.value.org.Some? && d.found.value.sub.product == config.product
    && (d.found.value.sub.price == config.monthlyPrice || d.found.value.sub.price == config.annualPrice)
  }

  /** It has not been recorded, and is for `org`, which exists. */
  predicate Reaches(s: Replica, d: Delivery, org: Id) {
    d.event !in s.processed && Concerns(s.config, d) && d.found.value.org.value == org && org in s.owners
  }

  predicate Newer(s: Replica, d: Delivery, org: Id) {
    org in s.rows ==> s.rows[org].last < d.at
  }

  // ---------------------------------------------------------------- the row

  /** The row `d` leaves for `org`. */
  predicate Copied(s: Replica, d: Delivery, org: Id, row: Row)
    requires d.found.Some?
  {
    var sub := d.found.value.sub;
    && row.copy == sub && row.last == d.at
    && (row.interval == Monthly <==> sub.price == s.config.monthlyPrice)
    && (if sub.status != PastDue then row.grace == None
        else if org in s.rows && s.rows[org].grace.Some? then row.grace == s.rows[org].grace
        else row.grace == Some(d.at + s.config.graceDays * DAY))
  }

  lemma SyncOfConcerns(config: Config, d: Delivery)
    ensures SyncOf(config, d).Some? <==> Concerns(config, d)
    ensures Concerns(config, d) ==>
              var x := SyncOf(config, d).value;
              && x.event == d.event && x.at == d.at && Some(x.org) == d.found.value.org && x.sub == d.found.value.sub
              && (x.interval == Monthly <==> d.found.value.sub.price == config.monthlyPrice)
              && (x.cause == RefundCause <==> d.kind == ChargeRefunded(true)) && (x.cause == DisputeCause <==> d.kind == ChargeDisputed)
  {
  }

  /**
    A delivery changes the row of an organization exactly when it reaches it and is newer than the row;
    the row is then the subscription, at that time, with the interval of its price.
  */
  lemma DeliveryRow(s: Replica, d: Delivery, recorded: bool, org: Id)
    ensures var t := Step(s, Deliver(d, recorded));
            if Reaches(s, d, org) && Newer(s, d, org) then org in t.rows && Copied(s, d, org, t.rows[org])
            else (org in t.rows <==> org in s.rows) && (org in s.rows ==> t.rows[org] == s.rows[org])
  {
    SyncOfConcerns(s.config, d);
    StepSyncs(s, Deliver(d, recorded));
  }

  /** The first such delivery with a trial start marks the organization's trial as used. */
  lemma DeliveryMarksTrial(s: Replica, d: Delivery, recorded: bool, org: Id)
    ensures var t := Step(s, Deliver(d, recorded));
            if Reaches(s, d, org) && Newer(s, d, org) && d.found.value.sub.trialStart.Some? && org !in s.trialUsedAt
            then org in t.trialUsedAt && t.trialUsedAt[org] == d.at
            else (org in t.trialUsedAt <==> org in s.trialUsedAt) && (org in s.trialUsedAt ==> t.trialUsedAt[org] == s.trialUsedAt[org])
  {
    SyncOfConcerns(s.config, d);
    StepSyncs(s, Deliver(d, recorded));
  }

  /** A delivery is recorded, if at all, unless it concerns an organization that does not exist. */
  lemma DeliveryRecorded(s: Replica, d: Delivery, recorded: bool)
    ensures var t := Step(s, Deliver(d, recorded));
            && t.clock == s.clock && t.owners == s.owners && t.config == s.config
            && t.processed == if recorded && (Concerns(s.config, d) ==> d.found.value.org.value in s.owners)
                              then s.processed + {d.event} else s.processed
  {
    SyncOfConcerns(s.config, d);
  }

  /** The row is at one of the two prices of the product, and its interval is that of the price. */
  predicate Priced(config: Config, row: Row) {
    && row.copy.product == config.product
    && (row.copy.price == config.monthlyPrice || row.copy.price == config.annualPrice)
    && (row.interval == Monthly <==> row.copy.price == config.monthlyPrice)
  }

  lemma {:induction false} RunKeepsPriced(s: Replica, events: seq<Event>, org: Id)
    requires org in s.rows ==> Priced(s.config, s.rows[org])
    ensures org in Run(s, events).rows ==> Priced(s.config, Run(s, events).rows[org])
    decreases |events|
  {
    if events != [] {
      var t := Step(s, events[0]);
      match events[0]
      case Deliver(d, recorded) =>
        DeliveryRow(s, d, recorded, org);
        DeliveryRecorded(s, d, recorded);
        RunKeepsPriced(t, events[1..], org);
      case _ =>
        RunKeepsPriced(t, events[1..], org);
    }
  }

  /** In every run each row is of the product, monthly exactly at the monthly price, and annual otherwise, then at the annual price. */
  lemma RowsFollowPrices(config: Config, events: seq<Event>, org: Id)
    requires org in Run(Start(config), events).rows
    ensures var row := Run(Start(config), events).rows[org];
            && row.copy.product == config.product
            && (row.interval == Monthly <==> row.copy.price == config.monthlyPrice)
            && (row.interval == Annual <==> row.copy.price == config.annualPrice && config.annualPrice != config.monthlyPrice)
  {
    RunKeepsPriced(Start(config), events, org);
  }

  // ---------------------------------------------------------------- the owner's notes

  predicate Enters(s: Replica, d: Delivery, org: Id, status: Status)
    requires d.found.Some?
  {
    d.found.value.sub.status == status && (org in s.rows ==> s.rows[org].copy.status != status)
  }

  /** The notices a delivery gives rise to: refunds and disputes always, the others when the row changes with it. */
  predicate Due(s: Replica, d: Delivery, org: Id, notice: Notice)
    requires d.found.Some?
  {
    match notice
    case FullRefund => d.kind == ChargeRefunded(true)
    case Dispute => d.kind == ChargeDisputed
    case SubscriptionCanceled =>
      Newer(s, d, org) && d.kind in {CheckoutCompleted, SubscriptionChanged, InvoiceChanged} && Enters(s, d, org, Canceled)
    case TrialStarted => Newer(s, d, org) && Enters(s, d, org, Trialing)
    case PaymentFailed => Newer(s, d, org) && Enters(s, d, org, PastDue)
    case GraceStarted => Newer(s, d, org) && Enters(s, d, org, PastDue)
    case CancellationScheduled =>
      Newer(s, d, org) && d.found.value.sub.cancelAtPeriodEnd && (org in s.rows ==> !s.rows[org].copy.cancelAtPeriodEnd)
    case OtherNotice => false
  }

  /** A note the owner of the organization has and `s` had not. */
  function NoteOf(s: Replica, d: Delivery, org: Id, notice: Notice): Note {
    var at := if d.at <= s.clock then d.at else s.clock;
    Note(Some(org), Billing, notice, at, at + 90 * DAY)
  }

  lemma SyncWrites(s: Replica, x: Sync, k: (Id, Key))
    requires x.org in s.owners
    ensures k in DoSync(s, x).notes <==>
              || k in s.notes
              || (&& k.0 == s.owners[x.org] && k.1.OfEvent? && k.1.event == x.event
                  && if Outdated(RowOf(s, x.org), x) then x.cause != NoCause && k.1.notice == NoticeFor(x)
                     else Announces(Notices(RowOf(s, x.org), s.owners[x.org], x), k.1.notice))
  {
    var owner, existing := s.owners[x.org], RowOf(s, x.org);
    if !Outdated(existing, x) {
      var inputs := Notices(existing, owner, x);
      WriteAllAdds(s.notes, map[], inputs, s.clock, k);
      BillingInputs(existing, owner, x);
      if k.1.OfEvent? { NoticesWrite(existing, owner, x, k.0, k.1.event, k.1.notice); }
    }
  }

  /** If all inputs for a key are the same, its new row is that input's. */
  lemma {:induction false} WriteAllContents(notes: Table, prefs: map<Id, bool>, inputs: seq<Input>, now: Time, v: Input)
    requires forall i :: 0 <= i < |inputs| && (inputs[i].user, inputs[i].key) == (v.user, v.key) ==> inputs[i] == v
    ensures var t, k := WriteAll(notes, prefs, inputs, now), (v.user, v.key);
            k !in notes && k in t ==>
              t[k].org == v.org && t[k].category == v.category && t[k].notice == v.notice
              && t[k].createdAt == (if v.createdAt.Some? && v.createdAt.value <= now then v.createdAt.value else now)
              && t[k].expiresAt == t[k].createdAt + 90 * DAY
    decreases |inputs|
  {
    if inputs != [] {
      var next, k := Write(notes, prefs, inputs[0], now), (v.user, v.key);
      if k in next {
        WriteAllKeeps(next, prefs, inputs[1..], now, k);
      } else {
        WriteAllContents(next, prefs, inputs[1..], now, v);
      }
    }
  }

  /** The inputs of one sync are the billing notices of its event. */
  lemma NoticesAlike(existing: Option<Row>, owner: Id, x: Sync, notice: Notice)
    ensures var v := Input(owner, Some(x.org), Billing, notice, OfEvent(x.event, notice), Some(x.at));
            var inputs := Notices(existing, owner, x);
            forall i :: 0 <= i < |inputs| && (inputs[i].user, inputs[i].key) == (v.user, v.key) ==> inputs[i] == v
  {
  }

  lemma SyncNoteContents(s: Replica, x: Sync, notice: Notice)
    requires x.org in s.owners
    ensures var k, t := (s.owners[x.org], OfEvent(x.event, notice)), DoSync(s, x);
            k !in s.notes && k in t.notes ==>
              var at := if x.at <= s.clock then x.at else s.clock;
              t.notes[k] == Note(Some(x.org), Billing, notice, at, at + 90 * DAY)
  {
    var owner, existing := s.owners[x.org], RowOf(s, x.org);
    if !Outdated(existing, x) {
      NoticesAlike(existing, owner, x, notice);
      WriteAllContents(s.notes, map[], Notices(existing, owner, x), s.clock,
                       Input(owner, Some(x.org), Billing, notice, OfEvent(x.event, notice), Some(x.at)));
    }
  }

  /** Earlier notes stay. */
  lemma SyncKeepsNotes(s: Replica, x: Sync, k: (Id, Key))
    requires k in s.notes
    ensures k in DoSync(s, x).notes && DoSync(s, x).notes[k] == s.notes[k]
  {
    if x.org in s.owners && !Outdated(RowOf(s, x.org), x) {
      WriteAllKeeps(s.notes, map[], Notices(RowOf(s, x.org), s.owners[x.org], x), s.clock, k);
    }
  }

  lemma DueIsAnnounced(s: Replica, d: Delivery, org: Id, notice: Notice)
    requires Reaches(s, d, org)
    ensures var x := SyncOf(s.config, d);
            && x.Some?
            && (Due(s, d, org, notice) <==>
                  if Outdated(RowOf(s, org), x.value) then x.value.cause != NoCause && notice == NoticeFor(x.value)
                  else Announces(Notices(RowOf(s, org), s.owners[org], x.value), notice))
  {
    SyncOfConcerns(s.config, d);
    NoticesAnnounce(RowOf(s, org), s.owners[org], SyncOf(s.config, d).value, notice);
  }

  /**
    After a delivery there is a note for a user and a key exactly if there was one, or the user owns an
    organization the delivery reaches and the notice is due; a new note is of that organization, dated
    like the event but not in the future, and kept for ninety days.
  */
  lemma DeliveryNotes(s: Replica, d: Delivery, recorded: bool, k: (Id, Key)) returns (org: Option<Id>)
    ensures org == if d.found.Some? && d.found.value.org.Some? && Reaches(s, d, d.found.value.org.value) then d.found.value.org else None
    ensures var t := Step(s, Deliver(d, recorded));
            && (k in t.notes <==>
                  || k in s.notes
                  || (&& org.Some? && k.0 == s.owners[org.value] && k.1.OfEvent? && k.1.event == d.event && Due(s, d, org.value, k.1.notice)))
            && (k in s.notes ==> k in t.notes && t.notes[k] == s.notes[k])
            && (k !in s.notes && k in t.notes ==> k.1.OfEvent? && org.Some? && t.notes[k] == NoteOf(s, d, org.value, k.1.notice))
  {
    org := None;
    SyncOfConcerns(s.config, d);
    if d.found.Some? && d.found.value.org.Some? && Reaches(s, d, d.found.value.org.value) {
      org := d.found.value.org;
      DeliveryWrites(s, d, recorded, org.value, k);
    }
  }

  lemma DeliveryWrites(s: Replica, d: Delivery, recorded: bool, org: Id, k: (Id, Key))
    requires Reaches(s, d, org)
    ensures var t := Step(s, Deliver(d, recorded));
            && (k in t.notes <==> k in s.notes || (k.0 == s.owners[org] && k.1.OfEvent? && k.1.event == d.event && Due(s, d, org, k.1.notice)))
            && (k in s.notes ==> k in t.notes && t.notes[k] == s.notes[k])
            && (k !in s.notes && k in t.notes ==> k.1.OfEvent? && t.notes[k] == NoteOf(s, d, org, k.1.notice))
  {
    SyncOfConcerns(s.config, d);
    var x := SyncOf(s.config, d).value;
    assert Step(s, Deliver(d, recorded)).notes == DoSync(s, x).notes;
    SyncWrites(s, x, k);
    if k in s.notes { SyncKeepsNotes(s, x, k); }
    if k.1.OfEvent? {
      DueIsAnnounced(s, d, org, k.1.notice);
      SyncNoteContents(s, x, k.1.notice);
    }
  }
}
