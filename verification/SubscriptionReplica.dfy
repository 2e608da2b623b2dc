/** The replica is what the strict running maxima of event time leave, and retries change nothing. */
module SubscriptionReplica {
  import opened Common
  import opened Notifications
  import opened Subscriptions

  // ---------------------------------------------------------------- the reference: running maxima, unguarded

  /** The syncs for `org` that the events bring to processing, in arrival order. */
  function Attempts(s: Replica, events: seq<Event>, org: Id): seq<Sync>
    decreases |events|
  {
    if events == [] then []
    else AttemptOf(s, events[0], org) + Attempts(Step(s, events[0]), events[1..], org)
  }

  function AttemptOf(s: Replica, e: Event, org: Id): seq<Sync> {
    if e.Deliver? && e.delivery.event !in s.processed && org in s.owners
       && SyncOf(s.config, e.delivery).Some? && SyncOf(s.config, e.delivery).value.org == org
    then [SyncOf(s.config, e.delivery).value] else []
  }

  /** The subsequence of strict running maxima of event time above `floor`. */
  function Maxima(floor: Option<Time>, xs: seq<Sync>): seq<Sync>
    decreases |xs|
  {
    if xs == [] then []
    else if floor.Some? && xs[0].at <= floor.value then Maxima(floor, xs[1..])
    else [xs[0]] + Maxima(Some(xs[0].at), xs[1..])
  }

  /** Applying syncs one after the other, with no guard at all. */
  function ApplyAll(config: Config, row: Option<Row>, xs: seq<Sync>): Option<Row>
    decreases |xs|
  {
    if xs == [] then row else ApplyAll(config, Some(NextRow(config, row, xs[0])), xs[1..])
  }

  function Floor(row: Option<Row>): Option<Time> {
    if row.Some? then Some(row.value.last) else None
  }

  /** One event touches rows and trial marks exactly as the sync it brings does, if it brings one. */
  lemma StepSyncs(s: Replica, e: Event)
    ensures Step(s, e).config == s.config
    ensures if e.Deliver? && e.delivery.event !in s.processed && SyncOf(s.config, e.delivery).Some? then
              var t := DoSync(s, SyncOf(s.config, e.delivery).value);
              Step(s, e).rows == t.rows && Step(s, e).trialUsedAt == t.trialUsedAt
            else
              Step(s, e).rows == s.rows && Step(s, e).trialUsedAt == s.trialUsedAt
  {
  }

  /** One event changes an organization's row exactly when it brings a newer sync. */
  lemma StepRow(s: Replica, e: Event, org: Id)
    ensures Step(s, e).config == s.config
    ensures var now := AttemptOf(s, e, org);
            RowOf(Step(s, e), org) == if now == [] || Outdated(RowOf(s, org), now[0]) then RowOf(s, org)
                                      else Some(NextRow(s.config, RowOf(s, org), now[0]))
  {
    StepSyncs(s, e);
  }

  lemma StepTrial(s: Replica, e: Event, org: Id)
    ensures var now := AttemptOf(s, e, org);
            TrialOf(Step(s, e), org)
            == if now == [] || Outdated(RowOf(s, org), now[0]) || TrialOf(s, org).Some? then TrialOf(s, org)
               else FirstTrial(now)
  {
    StepSyncs(s, e);
    var now := AttemptOf(s, e, org);
    if now != [] { assert FirstTrial(now) == if now[0].sub.trialStart.Some? then Some(now[0].at) else FirstTrial([]); }
  }

  /**
    The syncs that count in `s`, after one event: the new one is dropped when it is outdated, and
    otherwise heads the maxima above its own time.
  */
  lemma StepMaxima(s: Replica, events: seq<Event>, org: Id)
    requires events != []
    ensures var now := AttemptOf(s, events[0], org);
            var floor := Floor(RowOf(s, org));
            var rest := Attempts(Step(s, events[0]), events[1..], org);
            Maxima(floor, Attempts(s, events, org))
            == if now == [] || Outdated(RowOf(s, org), now[0]) then Maxima(floor, rest)
               else [now[0]] + Maxima(Some(now[0].at), rest)
  {
    var now := AttemptOf(s, events[0], org);
    var rest := Attempts(Step(s, events[0]), events[1..], org);
    if now == [] {
      assert Attempts(s, events, org) == rest;
    } else {
      assert Attempts(s, events, org)[1..] == rest;
    }
  }

  /**
    For any sequence of webhooks, with duplicates, reordering and lost records, an organization's row
    is the one that applying only the strict running maxima of event time leaves.
  */
  lemma {:induction false} RowIsRunningMaxima(s: Replica, events: seq<Event>, org: Id)
    ensures RowOf(Run(s, events), org)
            == ApplyAll(s.config, RowOf(s, org), Maxima(Floor(RowOf(s, org)), Attempts(s, events, org)))
    decreases |events|
  {
    if events != [] {
      var t := Step(s, events[0]);
      var now := AttemptOf(s, events[0], org);
      RowIsRunningMaxima(t, events[1..], org);
      StepRow(s, events[0], org);
      StepMaxima(s, events, org);
      if now != [] && !Outdated(RowOf(s, org), now[0]) {
        var xs := Maxima(Floor(RowOf(s, org)), Attempts(s, events, org));
        assert xs[1..] == Maxima(Floor(RowOf(t, org)), Attempts(t, events[1..], org));
      }
    }
  }

  lemma {:induction false} MaximaIncrease(floor: Option<Time>, xs: seq<Sync>)
    ensures forall i :: 0 <= i < |Maxima(floor, xs)| ==> floor.Some? ==> floor.value < Maxima(floor, xs)[i].at
    ensures forall i, j :: 0 <= i < j < |Maxima(floor, xs)| ==> Maxima(floor, xs)[i].at < Maxima(floor, xs)[j].at
    decreases |xs|
  {
    if xs != [] {
      if floor.Some? && xs[0].at <= floor.value { MaximaIncrease(floor, xs[1..]); } else { MaximaIncrease(Some(xs[0].at), xs[1..]); }
    }
  }

  // ---------------------------------------------------------------- the grace deadline

  /** The time of the first event of the past-due stretch that ends with the last of `xs`. */
  function StretchStart(xs: seq<Sync>): Time
    requires xs != []
    decreases |xs|
  {
    var n := |xs| - 1;
    if n == 0 || xs[n - 1].sub.status != PastDue then xs[n].at else StretchStart(xs[..n])
  }

  lemma {:induction false} ApplyAllLast(config: Config, row: Option<Row>, xs: seq<Sync>)
    requires xs != []
    ensures ApplyAll(config, row, xs)
            == Some(NextRow(config, ApplyAll(config, row, xs[..|xs| - 1]), xs[|xs| - 1]))
    decreases |xs|
  {
    if |xs| > 1 {
      ApplyAllLast(config, Some(NextRow(config, row, xs[0])), xs[1..]);
      assert xs[1..][..|xs| - 2] == xs[..|xs| - 1][1..];
    }
  }

  /** The deadline is set exactly while past due, and counts from the first event of the unbroken stretch. */
  lemma {:induction false} GraceCountsFromStretchStart(config: Config, xs: seq<Sync>)
    requires xs != []
    ensures var row := ApplyAll(config, None, xs);
            row.Some? && row.value.copy == xs[|xs| - 1].sub
            && row.value.grace == if xs[|xs| - 1].sub.status == PastDue
                                  then Some(StretchStart(xs) + config.graceDays * DAY) else None
    decreases |xs|
  {
    var n := |xs| - 1;
    ApplyAllLast(config, None, xs);
    if n > 0 {
      assert xs[..n][n - 1] == xs[n - 1];
      GraceCountsFromStretchStart(config, xs[..n]);
    } else {
      assert xs[..n] == [];
    }
  }

  /**
    Paid access in every run that starts without a row: granted while the newest applied event says
    ACTIVE or TRIALING, and while past due until the configured days after the stretch's first applied
    event, however many events follow.
  */
  lemma AccessInEveryRun(s: Replica, events: seq<Event>, org: Id, now: Time)
    requires org !in s.rows
    ensures var xs := Maxima(None, Attempts(s, events, org));
            HasPaidAccess(RowOf(Run(s, events), org), now) <==>
              && xs != []
              && var status := xs[|xs| - 1].sub.status;
                 || status == Active || status == Trialing
                 || (status == PastDue && now < StretchStart(xs) + s.config.graceDays * DAY)
  {
    var xs := Maxima(None, Attempts(s, events, org));
    RowIsRunningMaxima(s, events, org);
    if xs != [] { GraceCountsFromStretchStart(s.config, xs); }
  }

  // ---------------------------------------------------------------- notices

  predicate Announces(inputs: seq<Input>, notice: Notice) {
    exists k :: 0 <= k < |inputs| && inputs[k].notice == notice
  }

  /** The status that each of these notices announces. */
  function StatusOf(notice: Notice): Option<Status> {
    match notice
    case TrialStarted => Some(Trialing)
    case PaymentFailed => Some(PastDue)
    case GraceStarted => Some(PastDue)
    case _ => None
  }

  lemma AnnouncesEither(a: seq<Input>, b: seq<Input>, notice: Notice)
    ensures Announces(a + b, notice) <==> Announces(a, notice) || Announces(b, notice)
  {
    var c := a + b;
    if Announces(a, notice) {
      var k :| 0 <= k < |a| && a[k].notice == notice;
      assert c[k].notice == notice;
    }
    if Announces(b, notice) {
      var k :| 0 <= k < |b| && b[k].notice == notice;
      assert c[|a| + k].notice == notice;
    }
    if Announces(c, notice) {
      var k :| 0 <= k < |c| && c[k].notice == notice;
      assert if k < |a| then a[k].notice == notice else b[k - |a|].notice == notice;
    }
  }

  lemma AnnouncesOptional(owner: Id, x: Sync, due: bool, notice: Notice, asked: Notice)
    ensures Announces(OptionalNote(owner, x, due, notice), asked) <==> due && asked == notice
  {
    if due { assert OptionalNote(owner, x, due, notice)[0].notice == notice; }
  }

  /** `a` with one more optional note. */
  lemma AnnouncesAlso(a: seq<Input>, owner: Id, x: Sync, due: bool, notice: Notice, asked: Notice)
    ensures Announces(a + OptionalNote(owner, x, due, notice), asked) <==> Announces(a, asked) || (due && asked == notice)
  {
    AnnouncesEither(a, OptionalNote(owner, x, due, notice), asked);
    AnnouncesOptional(owner, x, due, notice, asked);
  }

  predicate NewlyScheduled(existing: Option<Row>, x: Sync) {
    x.sub.cancelAtPeriodEnd && (existing.None? || !existing.value.copy.cancelAtPeriodEnd)
  }

  /** Which notices one sync announces. */
  lemma NoticesAnnounce(existing: Option<Row>, owner: Id, x: Sync, asked: Notice)
    ensures Announces(Notices(existing, owner, x), asked) <==>
              match asked
              case FullRefund => x.cause == RefundCause
              case Dispute => x.cause == DisputeCause
              case SubscriptionCanceled => x.cause == NoCause && Entered(existing, x, Canceled)
              case TrialStarted => Entered(existing, x, Trialing)
              case PaymentFailed => Entered(existing, x, PastDue)
              case GraceStarted => Entered(existing, x, PastDue)
              case CancellationScheduled => NewlyScheduled(existing, x)
              case OtherNotice => false
  {
    var a := OptionalNote(owner, x, x.cause == RefundCause, FullRefund);
    var b := a + OptionalNote(owner, x, x.cause == DisputeCause, Dispute);
    var c := b + OptionalNote(owner, x, x.cause == NoCause && Entered(existing, x, Canceled), SubscriptionCanceled);
    var d := c + OptionalNote(owner, x, Entered(existing, x, Trialing), TrialStarted);
    var e := d + OptionalNote(owner, x, Entered(existing, x, PastDue), PaymentFailed);
    var f := e + OptionalNote(owner, x, Entered(existing, x, PastDue), GraceStarted);
    AnnouncesOptional(owner, x, x.cause == RefundCause, FullRefund, asked);
    AnnouncesAlso(a, owner, x, x.cause == DisputeCause, Dispute, asked);
    AnnouncesAlso(b, owner, x, x.cause == NoCause && Entered(existing, x, Canceled), SubscriptionCanceled, asked);
    AnnouncesAlso(c, owner, x, Entered(existing, x, Trialing), TrialStarted, asked);
    AnnouncesAlso(d, owner, x, Entered(existing, x, PastDue), PaymentFailed, asked);
    AnnouncesAlso(e, owner, x, Entered(existing, x, PastDue), GraceStarted, asked);
    AnnouncesAlso(f, owner, x, NewlyScheduled(existing, x), CancellationScheduled, asked);
    assert Notices(existing, owner, x) == f + OptionalNote(owner, x, NewlyScheduled(existing, x), CancellationScheduled);
  }

  /** The event `ev` is among the syncs and announces `notice` when it is applied after those before it. */
  predicate Tells(config: Config, row: Option<Row>, xs: seq<Sync>, owner: Id, ev: Id, notice: Notice)
    decreases |xs|
  {
    && xs != []
    && (|| (xs[0].event == ev && Announces(Notices(row, owner, xs[0]), notice))
        || Tells(config, Some(NextRow(config, row, xs[0])), xs[1..], owner, ev, notice))
  }

  lemma {:induction false} TellsAt(config: Config, row: Option<Row>, xs: seq<Sync>, owner: Id, ev: Id, notice: Notice)
    ensures Tells(config, row, xs, owner, ev, notice) <==>
              exists i :: 0 <= i < |xs| && xs[i].event == ev && Announces(Notices(ApplyAll(config, row, xs[..i]), owner, xs[i]), notice)
    decreases |xs|
  {
    if xs != [] {
      var next, rest := Some(NextRow(config, row, xs[0])), xs[1..];
      TellsAt(config, next, rest, owner, ev, notice);
      assert xs[..0] == [];
      forall i | 0 <= i < |rest|
        ensures rest[i] == xs[i + 1] && ApplyAll(config, next, rest[..i]) == ApplyAll(config, row, xs[..i + 1])
      {
        assert xs[..i + 1][1..] == rest[..i];
      }
      if Tells(config, next, rest, owner, ev, notice) {
        var i :| 0 <= i < |rest| && rest[i].event == ev && Announces(Notices(ApplyAll(config, next, rest[..i]), owner, rest[i]), notice);
        assert xs[i + 1].event == ev && Announces(Notices(ApplyAll(config, row, xs[..i + 1]), owner, xs[i + 1]), notice);
      }
      if i :| 0 <= i < |xs| && xs[i].event == ev && Announces(Notices(ApplyAll(config, row, xs[..i]), owner, xs[i]), notice) {
        if i > 0 {
          assert rest[i - 1].event == ev && Announces(Notices(ApplyAll(config, next, rest[..i - 1]), owner, rest[i - 1]), notice);
        }
      }
    }
  }

  /** Not one of the two notices that are also written for an outdated event. */
  predicate Regular(notice: Notice) {
    notice != FullRefund && notice != Dispute
  }

  /** The owner of `org` stays, and whatever is delivered as `ev` resolves to `org` or to nothing. */
  predicate Settled(config: Config, e: Event, org: Id, owner: Id, ev: Id) {
    match e
    case Tick(_) => true
    case SetOwner(o, u) => o == org ==> u == owner
    case Deliver(d, _) => d.event == ev && SyncOf(config, d).Some? ==> SyncOf(config, d).value.org == org
  }

  /** The notices of one sync write exactly the keys they announce, for the owner. */
  lemma NoticesWrite(existing: Option<Row>, owner: Id, x: Sync, user: Id, ev: Id, notice: Notice)
    ensures WritesTo(map[], Notices(existing, owner, x), (user, OfEvent(ev, notice)))
            <==> owner == user && x.event == ev && Announces(Notices(existing, owner, x), notice)
  {
    var inputs := Notices(existing, owner, x);
    BillingInputs(existing, owner, x);
    if owner == user && x.event == ev && Announces(inputs, notice) {
      var k :| 0 <= k < |inputs| && inputs[k].notice == notice;
      assert Wanted(map[], inputs[k]) && (inputs[k].user, inputs[k].key) == (user, OfEvent(ev, notice));
    }
  }

  lemma SyncNotes(s: Replica, x: Sync, user: Id, ev: Id, notice: Notice)
    requires x.org in s.owners && Regular(notice)
    ensures (user, OfEvent(ev, notice)) in DoSync(s, x).notes <==>
              || (user, OfEvent(ev, notice)) in s.notes
              || (&& !Outdated(RowOf(s, x.org), x) && s.owners[x.org] == user && x.event == ev
                  && Announces(Notices(RowOf(s, x.org), user, x), notice))
  {
    var owner, existing := s.owners[x.org], RowOf(s, x.org);
    if !Outdated(existing, x) {
      WriteAllAdds(s.notes, map[], Notices(existing, owner, x), s.clock, (user, OfEvent(ev, notice)));
      NoticesWrite(existing, owner, x, user, ev, notice);
    }
  }

  lemma BillingInputs(existing: Option<Row>, owner: Id, x: Sync)
    ensures forall k :: 0 <= k < |Notices(existing, owner, x)| ==>
              var input := Notices(existing, owner, x)[k];
              input.user == owner && input.key == OfEvent(x.event, input.notice) && Wanted(map[], input)
  {
  }

  lemma StepNotes(s: Replica, e: Event, org: Id, owner: Id, ev: Id, notice: Notice)
    requires org in s.owners && s.owners[org] == owner && Regular(notice) && Settled(s.config, e, org, owner, ev)
    ensures var now := AttemptOf(s, e, org);
            (owner, OfEvent(ev, notice)) in Step(s, e).notes <==>
              || (owner, OfEvent(ev, notice)) in s.notes
              || (&& now != [] && !Outdated(RowOf(s, org), now[0]) && now[0].event == ev
                  && Announces(Notices(RowOf(s, org), owner, now[0]), notice))
    ensures org in Step(s, e).owners && Step(s, e).owners[org] == owner
  {
    if e.Deliver? && e.delivery.event !in s.processed && SyncOf(s.config, e.delivery).Some? {
      var x := SyncOf(s.config, e.delivery).value;
      if x.org in s.owners {
        SyncNotes(s, x, owner, ev, notice);
        assert Step(s, e).notes == DoSync(s, x).notes;
      }
    }
  }

  /** The notes of a run are those of the applied events. */
  lemma {:induction false} NotesInARun(s: Replica, events: seq<Event>, org: Id, owner: Id, ev: Id, notice: Notice)
    requires org in s.owners && s.owners[org] == owner && Regular(notice)
    requires forall i :: 0 <= i < |events| ==> Settled(s.config, events[i], org, owner, ev)
    ensures (owner, OfEvent(ev, notice)) in Run(s, events).notes <==>
              || (owner, OfEvent(ev, notice)) in s.notes
              || Tells(s.config, RowOf(s, org), Maxima(Floor(RowOf(s, org)), Attempts(s, events, org)), owner, ev, notice)
    decreases |events|
  {
    if events != [] {
      var t := Step(s, events[0]);
      var now := AttemptOf(s, events[0], org);
      StepNotes(s, events[0], org, owner, ev, notice);
      StepRow(s, events[0], org);
      StepMaxima(s, events, org);
      NotesInARun(t, events[1..], org, owner, ev, notice);
      if now != [] && !Outdated(RowOf(s, org), now[0]) {
        var xs := Maxima(Floor(RowOf(s, org)), Attempts(s, events, org));
        assert xs[0] == now[0] && xs[1..] == Maxima(Floor(RowOf(t, org)), Attempts(t, events[1..], org));
      }
    }
  }

  /** `xs[i]` is the first of an unbroken stretch of `status`. */
  predicate Enters(xs: seq<Sync>, i: int, status: Status) {
    0 <= i < |xs| && xs[i].sub.status == status && (i == 0 || xs[i - 1].sub.status != status)
  }

  predicate Schedules(xs: seq<Sync>, i: int) {
    0 <= i < |xs| && xs[i].sub.cancelAtPeriodEnd && (i == 0 || !xs[i - 1].sub.cancelAtPeriodEnd)
  }

  lemma AppliedStatus(config: Config, xs: seq<Sync>, i: nat)
    requires 0 < i <= |xs|
    ensures ApplyAll(config, None, xs[..i]).Some? && ApplyAll(config, None, xs[..i]).value.copy == xs[i - 1].sub
  {
    GraceCountsFromStretchStart(config, xs[..i]);
  }

  /**
    In every run with one owner that starts without a row, the owner has a note of a trial, a failed
    payment or a grace period for an event if and only if that event is the first of an unbroken
    stretch of that status among the applied events: once for each stretch.
  */
  lemma OneNoticePerStretch(s: Replica, events: seq<Event>, org: Id, owner: Id, ev: Id, notice: Notice)
    requires org !in s.rows && org in s.owners && s.owners[org] == owner && (owner, OfEvent(ev, notice)) !in s.notes
    requires StatusOf(notice).Some?
    requires forall i :: 0 <= i < |events| ==> Settled(s.config, events[i], org, owner, ev)
    ensures var xs := Maxima(None, Attempts(s, events, org));
            (owner, OfEvent(ev, notice)) in Run(s, events).notes <==>
              exists i :: Enters(xs, i, StatusOf(notice).value) && xs[i].event == ev
  {
    var xs, status := Maxima(None, Attempts(s, events, org)), StatusOf(notice).value;
    NotesInARun(s, events, org, owner, ev, notice);
    TellsAt(s.config, None, xs, owner, ev, notice);
    forall i | 0 <= i < |xs| ensures Announces(Notices(ApplyAll(s.config, None, xs[..i]), owner, xs[i]), notice) <==> Enters(xs, i, status) {
      NoticesAnnounce(ApplyAll(s.config, None, xs[..i]), owner, xs[i], notice);
      if i > 0 { AppliedStatus(s.config, xs, i); } else { assert xs[..i] == []; }
    }
  }

  /**
    The same for the end of a subscription: a note for each event that first schedules the
    cancellation, and for each that first says CANCELED, unless a refund or dispute caused it.
  */
  lemma OneNoticePerEnding(s: Replica, events: seq<Event>, org: Id, owner: Id, ev: Id)
    requires org !in s.rows && org in s.owners && s.owners[org] == owner
    requires (owner, OfEvent(ev, CancellationScheduled)) !in s.notes && (owner, OfEvent(ev, SubscriptionCanceled)) !in s.notes
    requires forall i :: 0 <= i < |events| ==> Settled(s.config, events[i], org, owner, ev)
    ensures var xs := Maxima(None, Attempts(s, events, org));
            && ((owner, OfEvent(ev, CancellationScheduled)) in Run(s, events).notes <==> exists i :: Schedules(xs, i) && xs[i].event == ev)
            && ((owner, OfEvent(ev, SubscriptionCanceled)) in Run(s, events).notes <==>
                  exists i :: Enters(xs, i, Canceled) && xs[i].event == ev && xs[i].cause == NoCause)
  {
    var xs := Maxima(None, Attempts(s, events, org));
    NotesInARun(s, events, org, owner, ev, CancellationScheduled);
    NotesInARun(s, events, org, owner, ev, SubscriptionCanceled);
    TellsAt(s.config, None, xs, owner, ev, CancellationScheduled);
    TellsAt(s.config, None, xs, owner, ev, SubscriptionCanceled);
    forall i | 0 <= i < |xs|
      ensures var inputs := Notices(ApplyAll(s.config, None, xs[..i]), owner, xs[i]);
              && (Announces(inputs, CancellationScheduled) <==> Schedules(xs, i))
              && (Announces(inputs, SubscriptionCanceled) <==> Enters(xs, i, Canceled) && xs[i].cause == NoCause)
    {
      NoticesAnnounce(ApplyAll(s.config, None, xs[..i]), owner, xs[i], CancellationScheduled);
      NoticesAnnounce(ApplyAll(s.config, None, xs[..i]), owner, xs[i], SubscriptionCanceled);
      if i > 0 { AppliedStatus(s.config, xs, i); } else { assert xs[..i] == []; }
    }
  }

  // ---------------------------------------------------------------- retries

  /** What an event already processed for `org` has left behind: a row at least as new, and its cause's notice. */
  ghost predicate Absorbed(s: Replica, x: Sync, owner: Id) {
    && x.org in s.rows && x.at <= s.rows[x.org].last
    && (x.cause != NoCause ==> (owner, OfEvent(x.event, NoticeFor(x))) in s.notes)
  }

  lemma SyncAbsorbs(s: Replica, x: Sync)
    requires x.org in s.owners
    ensures Absorbed(DoSync(s, x), x, s.owners[x.org])
  {
    var owner := s.owners[x.org];
    var existing := RowOf(s, x.org);
    if !Outdated(existing, x) && x.cause != NoCause {
      var inputs := Notices(existing, owner, x);
      var k := (owner, OfEvent(x.event, NoticeFor(x)));
      assert inputs[0] == BillingInput(owner, x, NoticeFor(x));
      var next := Write(s.notes, map[], inputs[0], s.clock);
      assert k in next;
      WriteAllKeeps(next, map[], inputs[1..], s.clock, k);
    }
  }

  lemma SyncKeepsAbsorbed(s: Replica, y: Sync, x: Sync, owner: Id)
    requires Absorbed(s, x, owner)
    ensures Absorbed(DoSync(s, y), x, owner)
  {
    if x.cause != NoCause && y.org in s.owners && !Outdated(RowOf(s, y.org), y) {
      WriteAllKeeps(s.notes, map[], Notices(RowOf(s, y.org), s.owners[y.org], y), s.clock, (owner, OfEvent(x.event, NoticeFor(x))));
    }
  }

  lemma {:induction false} RunKeepsAbsorbed(s: Replica, events: seq<Event>, x: Sync, owner: Id)
    requires Absorbed(s, x, owner)
    ensures Absorbed(Run(s, events), x, owner)
    decreases |events|
  {
    if events != [] {
      var e := events[0];
      if e.Deliver? && SyncOf(s.config, e.delivery).Some? {
        SyncKeepsAbsorbed(s, SyncOf(s.config, e.delivery).value, x, owner);
      }
      RunKeepsAbsorbed(Step(s, e), events[1..], x, owner);
    }
  }

  /**
    An event processed once, whose record was lost, can be delivered again after any other events:
    whatever the provider answers then, as long as it resolves to the same organization (or to
    nothing) and the owner is the same, no row, trial mark or notification changes.
  */
  lemma RetryChangesNothing(s: Replica, first: Delivery, between: seq<Event>, again: Delivery, recorded: bool)
    requires first.event !in s.processed && SyncOf(s.config, first).Some?
    requires SyncOf(s.config, first).value.org in s.owners
    requires again.event == first.event && again.at == first.at && again.kind == first.kind
    requires var org := SyncOf(s.config, first).value.org;
             var t := Run(Step(s, Deliver(first, false)), between);
             && (SyncOf(t.config, again).Some? ==> SyncOf(t.config, again).value.org == org)
             && org in t.owners && t.owners[org] == s.owners[org]
    ensures var t := Run(Step(s, Deliver(first, false)), between);
            var u := Step(t, Deliver(again, recorded));
            u.rows == t.rows && u.trialUsedAt == t.trialUsedAt && u.notes == t.notes
  {
    var x := SyncOf(s.config, first).value;
    SyncAbsorbs(s, x);
    RunKeepsAbsorbed(Step(s, Deliver(first, false)), between, x, s.owners[x.org]);
    RunKeepsConfig(Step(s, Deliver(first, false)), between);
  }

  lemma {:induction false} RunKeepsConfig(s: Replica, events: seq<Event>)
    ensures Run(s, events).config == s.config
    decreases |events|
  {
    if events != [] { RunKeepsConfig(Step(s, events[0]), events[1..]); }
  }

  // ---------------------------------------------------------------- the trial mark

  function TrialOf(s: Replica, org: Id): Option<Time> {
    if org in s.trialUsedAt then Some(s.trialUsedAt[org]) else None
  }

  /** The time of the first sync that has a trial start. */
  function FirstTrial(xs: seq<Sync>): Option<Time>
    decreases |xs|
  {
    if xs == [] then None else if xs[0].sub.trialStart.Some? then Some(xs[0].at) else FirstTrial(xs[1..])
  }

  /** The trial mark is set by the first applied event that has a trial start, and then never moves. */
  lemma {:induction false} TrialMarkIsFirst(s: Replica, events: seq<Event>, org: Id)
    ensures TrialOf(Run(s, events), org)
            == if TrialOf(s, org).Some? then TrialOf(s, org)
               else FirstTrial(Maxima(Floor(RowOf(s, org)), Attempts(s, events, org)))
    decreases |events|
  {
    if events != [] {
      var t := Step(s, events[0]);
      var now := AttemptOf(s, events[0], org);
      TrialMarkIsFirst(t, events[1..], org);
      StepRow(s, events[0], org);
      StepTrial(s, events[0], org);
      StepMaxima(s, events, org);
      if now != [] && !Outdated(RowOf(s, org), now[0]) {
        var xs := Maxima(Floor(RowOf(s, org)), Attempts(s, events, org));
        assert xs[1..] == Maxima(Floor(RowOf(t, org)), Attempts(t, events[1..], org));
        assert now[1..] == [];
      }
    }
  }

  /** In every state some run leads to, a deadline is set exactly for the rows that are past due. */
  lemma ReachableGrace(s: Replica, org: Id)
    requires Reachable(s) && org in s.rows
    ensures s.rows[org].grace.Some? <==> s.rows[org].copy.status == PastDue
  {
    var config: Config, events: seq<Event> :| s == Run(Start(config), events);
    RowIsRunningMaxima(Start(config), events, org);
    var xs := Maxima(None, Attempts(Start(config), events, org));
    assert xs != [];
    GraceCountsFromStretchStart(config, xs);
  }
}
