/** Usage stays within the plan's quota, and reservations within their limits, in every run. */
module FileQuota {
  import opened Common
  import opened Totals
  import opened Files
  import opened FileMoves

  ghost predicate Bounded(s: Store) {
    forall id :: id in s.files ==> id < s.nextId
  }

  // ---------------------------------------------------------------- steps that add no file

  /**
    A row that counts (or reserves) in `t` counted (or reserved) in `s`, with the same
    organization, uploader and size.
  */
  ghost predicate RowShrinks(s: Store, t: Store, id: Id)
    requires id in t.files
  {
    && id in s.files
    && var f, g := s.files[id], t.files[id];
       && f.org == g.org && f.uploader == g.uploader && f.size == g.size
       && (Counted(g, t.clock) ==> Counted(f, s.clock))
       && (Reserving(g, t.clock) ==> Reserving(f, s.clock))
  }

  ghost predicate Shrinks(s: Store, t: Store) {
    && t.nextId == s.nextId
    && forall id :: id in t.files ==> RowShrinks(s, t, id)
  }

  lemma ShrinkLowersUsage(s: Store, t: Store, org: Id, user: Id)
    requires Shrinks(s, t)
    ensures UsedBytes(t, org, t.clock) <= UsedBytes(s, org, s.clock)
    ensures UsedFiles(t, org, t.clock) <= UsedFiles(s, org, s.clock)
    ensures OrgReservations(t, org, t.clock) <= OrgReservations(s, org, s.clock)
    ensures UserReservations(t, org, user, t.clock) <= UserReservations(s, org, user, s.clock)
  {
    TotalMonotone(ByteWeight(t.files, org, t.clock), ByteWeight(s.files, org, s.clock), s.nextId);
    TotalMonotone(FileWeight(t.files, org, t.clock), FileWeight(s.files, org, s.clock), s.nextId);
    TotalMonotone(OrgWeight(t.files, org, t.clock), OrgWeight(s.files, org, s.clock), s.nextId);
    TotalMonotone(UserWeight(t.files, org, user, t.clock), UserWeight(s.files, org, user, s.clock), s.nextId);
  }

  lemma ChangeShrinks(s: Store, t: Store, c: Change)
    requires ChangedBy(s, t, c) && !c.New?
    ensures Shrinks(s, t)
  {
  }

  // ---------------------------------------------------------------- reserving

  /** Reservations only run out, so figures read at an earlier time are upper bounds. */
  lemma LaterUsageIsLower(s: Store, org: Id, user: Id, early: Time, late: Time)
    requires early <= late
    ensures UsedBytes(s, org, late) <= UsedBytes(s, org, early)
    ensures UsedFiles(s, org, late) <= UsedFiles(s, org, early)
    ensures OrgReservations(s, org, late) <= OrgReservations(s, org, early)
    ensures UserReservations(s, org, user, late) <= UserReservations(s, org, user, early)
  {
    ShrinkLowersUsage(s.(clock := early), s.(clock := late), org, user);
  }

  /** Adding one file raises each figure by exactly what that file weighs. */
  lemma AddingOne(s: Store, f: File, org: Id, user: Id, now: Time)
    requires Bounded(s)
    ensures var t := s.(files := s.files[s.nextId := f], nextId := s.nextId + 1);
            && UsedBytes(t, org, now) == UsedBytes(s, org, now) + (if f.org == org && Counted(f, now) then f.size else 0)
            && UsedFiles(t, org, now) == UsedFiles(s, org, now) + (if f.org == org && Counted(f, now) then 1 else 0)
            && OrgReservations(t, org, now) == OrgReservations(s, org, now) + (if f.org == org && Reserving(f, now) then 1 else 0)
            && UserReservations(t, org, user, now)
               == UserReservations(s, org, user, now) + (if f.org == org && f.uploader == user && Reserving(f, now) then 1 else 0)
  {
    AddingOneCounts(s, f, org, now);
    AddingOneReserves(s, f, org, user, now);
  }

  lemma AddingOneCounts(s: Store, f: File, org: Id, now: Time)
    requires Bounded(s)
    ensures var t := s.(files := s.files[s.nextId := f], nextId := s.nextId + 1);
            && UsedBytes(t, org, now) == UsedBytes(s, org, now) + (if f.org == org && Counted(f, now) then f.size else 0)
            && UsedFiles(t, org, now) == UsedFiles(s, org, now) + (if f.org == org && Counted(f, now) then 1 else 0)
  {
    var files := s.files[s.nextId := f];
    TotalSame(ByteWeight(s.files, org, now), ByteWeight(files, org, now), s.nextId);
    TotalSame(FileWeight(s.files, org, now), FileWeight(files, org, now), s.nextId);
  }

  lemma AddingOneReserves(s: Store, f: File, org: Id, user: Id, now: Time)
    requires Bounded(s)
    ensures var t := s.(files := s.files[s.nextId := f], nextId := s.nextId + 1);
            && OrgReservations(t, org, now) == OrgReservations(s, org, now) + (if f.org == org && Reserving(f, now) then 1 else 0)
            && UserReservations(t, org, user, now)
               == UserReservations(s, org, user, now) + (if f.org == org && f.uploader == user && Reserving(f, now) then 1 else 0)
  {
    var files := s.files[s.nextId := f];
    TotalSame(OrgWeight(s.files, org, now), OrgWeight(files, org, now), s.nextId);
    TotalSame(UserWeight(s.files, org, user, now), UserWeight(files, org, user, now), s.nextId);
  }

  /** Quotes are read before the transaction that uses them. */
  ghost predicate QuotesOk(s: Store) {
    forall r :: r in s.inflight && s.inflight[r].Quoted? ==> s.inflight[r].now <= s.clock
  }

  ghost predicate UsageOk(s: Store) {
    Bounded(s) && QuotesOk(s)
  }

  /** What a successful reservation leaves, in the figures of the present moment. */
  lemma ReservingFits(s: Store, t: Store, req: Id, f: File, org: Id, user: Id)
    requires UsageOk(s) && Admits(s, req, f) && ChangedBy(s, t, New(f))
    ensures org == f.org ==>
              && UsedBytes(t, org, t.clock) <= s.inflight[req].quota.maxBytes
              && UsedFiles(t, org, t.clock) <= s.inflight[req].quota.maxFiles
              && OrgReservations(t, org, t.clock) <= MAX_RESERVATIONS_PER_ORGANIZATION
    ensures org != f.org ==>
              && UsedBytes(t, org, t.clock) == UsedBytes(s, org, s.clock)
              && UsedFiles(t, org, t.clock) == UsedFiles(s, org, s.clock)
              && OrgReservations(t, org, t.clock) == OrgReservations(s, org, s.clock)
    ensures if org == f.org && user == f.uploader
            then UserReservations(t, org, user, t.clock) <= MAX_RESERVATIONS_PER_USER
            else UserReservations(t, org, user, t.clock) == UserReservations(s, org, user, s.clock)
  {
    var full := s.(files := s.files[s.nextId := f], nextId := s.nextId + 1);
    LaterUsageIsLower(s, org, user, s.inflight[req].now, s.clock);
    AddingOne(s, f, org, user, s.clock);
    SameTableSameUsage(full, t, org, user);
  }

  lemma SameTableSameUsage(s: Store, t: Store, org: Id, user: Id)
    requires t.files == s.files && t.nextId == s.nextId && t.clock == s.clock
    ensures UsedBytes(t, org, t.clock) == UsedBytes(s, org, s.clock) && UsedFiles(t, org, t.clock) == UsedFiles(s, org, s.clock)
    ensures OrgReservations(t, org, t.clock) == OrgReservations(s, org, s.clock)
    ensures UserReservations(t, org, user, t.clock) == UserReservations(s, org, user, s.clock)
  {
  }

  /** Every quote was there before, and the clock has not gone back. */
  ghost predicate NoNewQuote(s: Store, t: Store) {
    && s.clock <= t.clock
    && forall r :: r in t.inflight && t.inflight[r].Quoted? ==> r in s.inflight && s.inflight[r] == t.inflight[r]
  }

  lemma ReserveAddsNoQuote(s: Store, r: Id)
    ensures NoNewQuote(s, DoReserve(s, r)) && DoReserve(s, r).plans == s.plans
  {
  }

  lemma IssueAddsNoQuote(s: Store, r: Id, ok: bool)
    ensures NoNewQuote(s, DoIssueTarget(s, r, ok)) && DoIssueTarget(s, r, ok).plans == s.plans
  {
  }

  lemma FileStepsAddNoQuote(s: Store, org: Id, id: Id, ok: bool)
    ensures NoNewQuote(s, DoComplete(s, org, id, ok)) && DoComplete(s, org, id, ok).plans == s.plans
    ensures NoNewQuote(s, DoDelete(s, org, id)) && DoDelete(s, org, id).plans == s.plans
    ensures NoNewQuote(s, DoRestore(s, org, id)) && DoRestore(s, org, id).plans == s.plans
  {
  }

  /** Only asking for a quote adds one, and only setting a plan changes plans. */
  lemma ServingAddsNoQuote(s: Store, e: FileEvent)
    requires !e.QuoteUpload?
    ensures NoNewQuote(s, ServeStep(s, e)) && (e.SetPlan? || ServeStep(s, e).plans == s.plans)
  {
    match e
    case ReserveUpload(r) => ReserveAddsNoQuote(s, r);
    case IssueTarget(r, ok) => IssueAddsNoQuote(s, r, ok);
    case CompleteUpload(org, id, ok) => FileStepsAddNoQuote(s, org, id, ok);
    case DeleteFile(org, id) => FileStepsAddNoQuote(s, org, id, true);
    case RestoreFile(org, id) => FileStepsAddNoQuote(s, org, id, true);
    case QuoteUpload(_, _, _, _) =>
    case Tick(_) =>
    case SetPlan(_, _) =>
    case PutObject(_) =>
  }

  lemma QuotesKept(s: Store, e: FileEvent)
    requires QuotesOk(s)
    ensures QuotesOk(ServeStep(s, e))
  {
    if !e.QuoteUpload? { ServingAddsNoQuote(s, e); }
  }

  /** Maintenance touches neither quotes nor plans. */
  ghost predicate SameQuotes(s: Store, t: Store) {
    && t.clock == s.clock && t.plans == s.plans
    && forall r :: r in t.inflight && t.inflight[r].Quoted? ==> r in s.inflight && s.inflight[r] == t.inflight[r]
  }

  lemma ScanningKeepsQuotes(s: Store, r: Id, ids: seq<Id>, o: Outcome)
    ensures SameQuotes(s, DoSelectScans(s, r, ids)) && SameQuotes(s, DoApplyScan(s, r, o))
  {
  }

  lemma SelectPurgeKeepsQuotes(s: Store, r: Id, ids: seq<Id>)
    ensures SameQuotes(s, DoSelectPurge(s, r, ids))
  {
  }

  lemma PurgeObjectKeepsQuotes(s: Store, r: Id, ok: bool)
    ensures SameQuotes(s, DoPurgeObject(s, r, ok))
  {
  }

  lemma PurgeRowKeepsQuotes(s: Store, r: Id)
    ensures SameQuotes(s, DoPurgeRow(s, r))
  {
  }

  lemma MaintainingKeepsQuotes(s: Store, e: MaintenanceEvent)
    ensures SameQuotes(s, MaintainStep(s, e))
  {
    match e
    case SelectScans(r, ids) => ScanningKeepsQuotes(s, r, ids, Errored);
    case ApplyScan(r, o) => ScanningKeepsQuotes(s, r, [], o);
    case SelectPurge(r, ids) => SelectPurgeKeepsQuotes(s, r, ids);
    case PurgeObject(r, ok) => PurgeObjectKeepsQuotes(s, r, ok);
    case PurgeRow(r) => PurgeRowKeepsQuotes(s, r);
    case ExpireAudit =>
  }

  lemma ReconcilingKeepsQuotes(s: Store, e: OrphanEvent)
    ensures SameQuotes(s, ReconcileStep(s, e))
  {
  }

  lemma StepKeepsUsageOk(s: Store, e: Event)
    requires UsageOk(s)
    ensures UsageOk(Step(s, e))
  {
    var c := StepChange(s, e);
    match e
    case Serving(f) => QuotesKept(s, f);
    case Maintaining(w) => MaintainingKeepsQuotes(s, w);
    case Reconciling(o) => ReconcilingKeepsQuotes(s, o);
  }

  lemma {:induction false} RunKeepsUsageOk(s: Store, events: seq<Event>)
    requires UsageOk(s)
    ensures UsageOk(Run(s, events))
    decreases |events|
  {
    if events != [] {
      StepKeepsUsageOk(s, events[0]);
      RunKeepsUsageOk(Step(s, events[0]), events[1..]);
    }
  }

  // ---------------------------------------------------------------- what every step keeps

  predicate Within(s: Store, org: Id, quota: Quota) {
    UsedBytes(s, org, s.clock) <= quota.maxBytes && UsedFiles(s, org, s.clock) <= quota.maxFiles
  }

  /**
    A step raises an organization's counted bytes or files only by reserving an upload for it,
    and then leaves both within the quota that request read.
  */
  lemma OnlyReservingRaises(s: Store, e: Event, org: Id)
    requires UsageOk(s)
    ensures var t := Step(s, e);
            || (UsedBytes(t, org, t.clock) <= UsedBytes(s, org, s.clock) && UsedFiles(t, org, t.clock) <= UsedFiles(s, org, s.clock))
            || (e.Serving? && e.file.ReserveUpload? && e.file.req in s.inflight && s.inflight[e.file.req].Quoted?
                && s.inflight[e.file.req].org == org && Within(t, org, s.inflight[e.file.req].quota))
  {
    var t := Step(s, e);
    var c := StepChange(s, e);
    if c.New? {
      ReservingFits(s, t, e.file.req, c.row, org, 0);
      if c.row.org == org {
        assert Within(t, org, s.inflight[e.file.req].quota) && s.inflight[e.file.req].org == org;
      } else {
        assert UsedBytes(t, org, t.clock) == UsedBytes(s, org, s.clock) && UsedFiles(t, org, t.clock) == UsedFiles(s, org, s.clock);
      }
    } else {
      ChangeShrinks(s, t, c);
      ShrinkLowersUsage(s, t, org, 0);
    }
  }

  predicate Limited(s: Store, org: Id, user: Id) {
    && OrgReservations(s, org, s.clock) <= MAX_RESERVATIONS_PER_ORGANIZATION
    && UserReservations(s, org, user, s.clock) <= MAX_RESERVATIONS_PER_USER
  }

  lemma StepKeepsLimits(s: Store, e: Event, org: Id, user: Id)
    requires UsageOk(s) && Limited(s, org, user)
    ensures Limited(Step(s, e), org, user)
  {
    var t := Step(s, e);
    var c := StepChange(s, e);
    if c.New? {
      ReservingFits(s, t, e.file.req, c.row, org, user);
    } else {
      ChangeShrinks(s, t, c);
      ShrinkLowersUsage(s, t, org, user);
    }
  }

  lemma {:induction false} RunKeepsLimits(s: Store, events: seq<Event>, org: Id, user: Id)
    requires UsageOk(s) && Limited(s, org, user)
    ensures Limited(Run(s, events), org, user)
    decreases |events|
  {
    if events != [] {
      StepKeepsUsageOk(s, events[0]);
      StepKeepsLimits(s, events[0], org, user);
      RunKeepsLimits(Step(s, events[0]), events[1..], org, user);
    }
  }

  /** Active reservations never exceed 20 for an organization or 5 for a user in it. */
  lemma ReservationsAreLimited(scannerEnabled: bool, plans: map<Id, Plan>, events: seq<Event>, org: Id, user: Id)
    ensures Limited(Run(Empty(scannerEnabled, plans), events), org, user)
  {
    RunKeepsLimits(Empty(scannerEnabled, plans), events, org, user);
  }

  // ---------------------------------------------------------------- a fixed plan

  predicate KeepsPlan(e: Event, org: Id) {
    !(e.Serving? && e.file.SetPlan? && e.file.org == org)
  }

  /** Usage and every outstanding quote of `org` agree with the plan in force. */
  ghost predicate PlanOk(s: Store, org: Id) {
    Within(s, org, QuotaOf(PlanOf(s, org))) && QuotesCurrent(s, org, QuotaOf(PlanOf(s, org)))
  }

  ghost predicate QuotesCurrent(s: Store, org: Id, quota: Quota) {
    forall r :: r in s.inflight && s.inflight[r].Quoted? && s.inflight[r].org == org ==> s.inflight[r].quota == quota
  }

  lemma ServingKeepsQuotes(s: Store, e: FileEvent, org: Id)
    requires QuotesCurrent(s, org, QuotaOf(PlanOf(s, org))) && KeepsPlan(Serving(e), org)
    ensures PlanOf(ServeStep(s, e), org) == PlanOf(s, org)
    ensures QuotesCurrent(ServeStep(s, e), org, QuotaOf(PlanOf(s, org)))
  {
    if !e.QuoteUpload? { ServingAddsNoQuote(s, e); }
  }

  lemma StepKeepsQuotes(s: Store, e: Event, org: Id)
    requires QuotesCurrent(s, org, QuotaOf(PlanOf(s, org))) && KeepsPlan(e, org)
    ensures PlanOf(Step(s, e), org) == PlanOf(s, org)
    ensures QuotesCurrent(Step(s, e), org, QuotaOf(PlanOf(s, org)))
  {
    match e
    case Serving(f) => ServingKeepsQuotes(s, f, org);
    case Maintaining(w) => MaintainingKeepsQuotes(s, w);
    case Reconciling(o) => ReconcilingKeepsQuotes(s, o);
  }

  lemma {:induction false} RunKeepsPlan(s: Store, events: seq<Event>, org: Id)
    requires UsageOk(s) && PlanOk(s, org)
    requires forall i :: 0 <= i < |events| ==> KeepsPlan(events[i], org)
    ensures PlanOk(Run(s, events), org) && PlanOf(Run(s, events), org) == PlanOf(s, org)
    decreases |events|
  {
    if events != [] {
      StepKeepsUsageOk(s, events[0]);
      StepKeepsQuotes(s, events[0], org);
      OnlyReservingRaises(s, events[0], org);
      RunKeepsPlan(Step(s, events[0]), events[1..], org);
    }
  }

  /**
    While an organization's plan does not change, its usage never exceeds the plan's quota,
    however time passes and files complete, fail, are deleted, restored or purged.
  */
  lemma UsageWithinPlan(scannerEnabled: bool, plans: map<Id, Plan>, events: seq<Event>, org: Id)
    requires forall i :: 0 <= i < |events| ==> KeepsPlan(events[i], org)
    ensures var s := Run(Empty(scannerEnabled, plans), events);
            Within(s, org, QuotaOf(PlanOf(Empty(scannerEnabled, plans), org)))
  {
    RunKeepsPlan(Empty(scannerEnabled, plans), events, org);
  }

  // ---------------------------------------------------------------- the plan in force

  /** One more file of `size` fits the plan in force. */
  predicate FitsPlan(s: Store, org: Id, size: nat) {
    var quota := QuotaOf(PlanOf(s, org));
    UsedBytes(s, org, s.clock) + size <= quota.maxBytes && UsedFiles(s, org, s.clock) + 1 <= quota.maxFiles
  }

  ghost predicate Raises(s: Store, t: Store, org: Id) {
    UsedBytes(t, org, t.clock) > UsedBytes(s, org, s.clock) || UsedFiles(t, org, t.clock) > UsedFiles(s, org, s.clock)
  }

  lemma ReservingFollowsPlan(s: Store, t: Store, f: File, org: Id)
    requires Bounded(s) && t == s.(files := s.files[s.nextId := f], nextId := s.nextId + 1, inflight := t.inflight) && Raises(s, t, org)
    ensures f.org == org && (Within(t, org, QuotaOf(PlanOf(t, org))) <==> FitsPlan(s, org, f.size))
  {
    AddingOneCounts(s, f, org, s.clock);
  }

  lemma ReserveIsNew(s: Store, req: Id)
    requires DoReserve(s, req).nextId != s.nextId
    ensures req in s.inflight && s.inflight[req].Quoted?
    ensures var p := s.inflight[req];
            var f := NewFile(s, p.org, p.user, p.size, p.now);
            var t := DoReserve(s, req);
            t == s.(files := s.files[s.nextId := f], nextId := s.nextId + 1, inflight := t.inflight) && f.org == p.org && f.size == p.size
  {
  }

  /**
    A step that raises an organization's usage reserves an upload, and leaves usage within the plan
    in force if and only if the figures before it and the file fit that plan; a quote under the plan
    in force always does.
  */
  lemma RaiseFitsPlanExactlyWhen(s: Store, e: Event, org: Id)
    requires UsageOk(s) && Raises(s, Step(s, e), org)
    ensures e.Serving? && e.file.ReserveUpload? && e.file.req in s.inflight && s.inflight[e.file.req].Quoted?
    ensures var t, p := Step(s, e), s.inflight[e.file.req];
            && p.org == org
            && (Within(t, org, QuotaOf(PlanOf(t, org))) <==> FitsPlan(s, org, p.size))
            && (p.quota == QuotaOf(PlanOf(s, org)) ==> Within(t, org, QuotaOf(PlanOf(t, org))))
  {
    var t := Step(s, e);
    OnlyReservingRaises(s, e, org);
    var c := StepChange(s, e);
    assert c.New? by { if !c.New? { ChangeShrinks(s, t, c); ShrinkLowersUsage(s, t, org, 0); } }
    var req := e.file.req;
    assert t == DoReserve(s, req);
    ReserveIsNew(s, req);
    var p := s.inflight[req];
    ReservingFollowsPlan(s, t, NewFile(s, p.org, p.user, p.size, p.now), org);
    assert PlanOf(t, org) == PlanOf(s, org);
  }

  /** Undisturbed uploads of the largest size, one after the other. */
  function Uploads(org: Id, user: Id, k: nat): seq<Event> {
    if k == 0 then []
    else Uploads(org, user, k - 1) + [Serving(QuoteUpload(k - 1, org, user, MAX_SIZE)), Serving(ReserveUpload(k - 1))]
  }

  /** The row of an upload of the largest size, reserved at time 0. */
  function LargestFile(enabled: bool, org: Id, user: Id): File {
    NewFile(Empty(enabled, map[]), org, user, MAX_SIZE, 0)
  }

  function Copies(f: File, k: nat): (files: map<Id, File>)
    ensures forall i: Id :: i in files <==> i < k
    ensures forall i: Id :: i in files ==> files[i] == f
  {
    if k == 0 then map[] else Copies(f, k - 1)[k - 1 := f]
  }

  /** The table holds `k` reserved uploads of the largest size by `user`, and nothing else. */
  ghost predicate HoldsUploads(s: Store, org: Id, user: Id, k: nat) {
    && s.clock == 0 && s.nextId == k && s.files == Copies(LargestFile(s.scannerEnabled, org, user), k)
    && forall r :: r in s.inflight ==> r < k
  }

  lemma UsageOfUploads(s: Store, org: Id, user: Id, k: nat)
    requires s.nextId == k && s.files == Copies(LargestFile(s.scannerEnabled, org, user), k)
    ensures UsedBytes(s, org, 0) == k * MAX_SIZE && UsedFiles(s, org, 0) == k
    ensures OrgReservations(s, org, 0) == k && UserReservations(s, org, user, 0) == k
  {
    TotalConstant(ByteWeight(s.files, org, 0), k, MAX_SIZE);
    TotalConstant(FileWeight(s.files, org, 0), k, 1);
    TotalConstant(OrgWeight(s.files, org, 0), k, 1);
    TotalConstant(UserWeight(s.files, org, user, 0), k, 1);
  }

  /** A reservation under a Pro quote is admitted, and adds one upload of the largest size. */
  lemma ReserveLargest(q: Store, org: Id, user: Id, k: nat)
    requires q.clock == 0 && q.nextId == k < MAX_RESERVATIONS_PER_USER
    requires q.files == Copies(LargestFile(q.scannerEnabled, org, user), k)
    requires k in q.inflight && q.inflight[k] == Quoted(org, user, MAX_SIZE, QuotaOf(Pro), 0)
    ensures DoReserve(q, k) == q.(files := Copies(LargestFile(q.scannerEnabled, org, user), k + 1), nextId := k + 1,
                                  inflight := q.inflight[k := Reserved(k)])
  {
    UsageOfUploads(q, org, user, k);
    assert Fits(q, org, user, MAX_SIZE, QuotaOf(Pro), 0);
    assert q.files[k := LargestFile(q.scannerEnabled, org, user)] == Copies(LargestFile(q.scannerEnabled, org, user), k + 1);
  }

  lemma RunPair(s: Store, d: Event, e: Event)
    ensures Run(s, [d, e]) == Step(Step(s, d), e)
  {
    assert [d, e][1..] == [e] && [e][1..] == [];
    assert Run(Step(s, d), [e]) == Run(Step(Step(s, d), e), []);
  }

  lemma UploadsSplit(start: Store, org: Id, user: Id, k: nat)
    ensures Run(start, Uploads(org, user, k + 1)) == DoReserve(DoQuote(Run(start, Uploads(org, user, k)), k, org, user, MAX_SIZE), k)
  {
    var quote, reserve := Serving(QuoteUpload(k, org, user, MAX_SIZE)), Serving(ReserveUpload(k));
    assert Uploads(org, user, k + 1) == Uploads(org, user, k) + [quote, reserve];
    RunAppend(start, Uploads(org, user, k), [quote, reserve]);
    RunPair(Run(start, Uploads(org, user, k)), quote, reserve);
  }

  lemma {:induction false} AfterUploads(enabled: bool, plans: map<Id, Plan>, org: Id, user: Id, k: nat) returns (s: Store)
    requires org in plans && plans[org] == Pro && k < MAX_RESERVATIONS_PER_USER
    ensures s == Run(Empty(enabled, plans), Uploads(org, user, k)) && HoldsUploads(s, org, user, k) && s.plans == plans
  {
    if k == 0 {
      s := Empty(enabled, plans);
      assert Copies(LargestFile(enabled, org, user), 0) == map[];
    } else {
      var before := AfterUploads(enabled, plans, org, user, k - 1);
      UploadsSplit(Empty(enabled, plans), org, user, k - 1);
      ReserveLargest(DoQuote(before, k - 1, org, user, MAX_SIZE), org, user, k - 1);
      s := DoReserve(DoQuote(before, k - 1, org, user, MAX_SIZE), k - 1);
    }
  }

  /** One more upload is quoted, and then the plan is lowered. */
  function Lowering(org: Id, user: Id, k: nat): seq<Event> {
    [Serving(QuoteUpload(k, org, user, MAX_SIZE)), Serving(SetPlan(org, Free))]
  }

  lemma LoweringSplit(start: Store, org: Id, user: Id, k: nat)
    ensures var q := DoQuote(Run(start, Uploads(org, user, k)), k, org, user, MAX_SIZE);
            Run(start, Uploads(org, user, k) + Lowering(org, user, k)) == q.(plans := q.plans[org := Free])
  {
    RunAppend(start, Uploads(org, user, k), Lowering(org, user, k));
    RunPair(Run(start, Uploads(org, user, k)), Serving(QuoteUpload(k, org, user, MAX_SIZE)), Serving(SetPlan(org, Free)));
  }

  lemma BeyondFree(s: Store, t: Store, org: Id, user: Id, k: nat)
    requires s.clock == t.clock == 0 && s.nextId == k && t.nextId == k + 1 && PlanOf(t, org) == Free
    requires s.files == Copies(LargestFile(s.scannerEnabled, org, user), k) && t.files == Copies(LargestFile(t.scannerEnabled, org, user), k + 1)
    requires QuotaOf(Free).maxBytes < (k + 1) * MAX_SIZE
    ensures Raises(s, t, org) && !Within(t, org, QuotaOf(PlanOf(t, org)))
  {
    UsageOfUploads(s, org, user, k);
    UsageOfUploads(t, org, user, k + 1);
  }

  /** The last upload is reserved although the plan is Free by then. */
  lemma ReservedAnyway(s: Store, org: Id, user: Id, k: nat) returns (t: Store)
    requires s.clock == 0 && s.nextId == k < MAX_RESERVATIONS_PER_USER && PlanOf(s, org) == Free
    requires s.files == Copies(LargestFile(s.scannerEnabled, org, user), k)
    requires k in s.inflight && s.inflight[k] == Quoted(org, user, MAX_SIZE, QuotaOf(Pro), 0)
    requires QuotaOf(Free).maxBytes < (k + 1) * MAX_SIZE
    ensures t == Step(s, Serving(ReserveUpload(k))) && Raises(s, t, org) && !Within(t, org, QuotaOf(PlanOf(t, org)))
  {
    t := s.(files := Copies(LargestFile(s.scannerEnabled, org, user), k + 1), nextId := k + 1, inflight := s.inflight[k := Reserved(k)]);
    assert t == Step(s, Serving(ReserveUpload(k))) by { ReserveLargest(s, org, user, k); }
    BeyondFree(s, t, org, user, k);
  }

  /**
    It does happen, from any initial table with an organization on Pro: some uploads of 25 MiB are
    reserved, one more is quoted, the plan is lowered to Free, and that one is reserved as well. With
    four before it, within the limit of five a user, the fifth exceeds the 100 MiB of Free.
  */
  lemma RaiseBeyondPlan(enabled: bool, plans: map<Id, Plan>, org: Id, user: Id, k: nat) returns (s: Store, t: Store)
    requires org in plans && plans[org] == Pro && k < MAX_RESERVATIONS_PER_USER && QuotaOf(Free).maxBytes < (k + 1) * MAX_SIZE
    ensures s == Run(Empty(enabled, plans), Uploads(org, user, k) + Lowering(org, user, k)) && t == Step(s, Serving(ReserveUpload(k)))
    ensures Raises(s, t, org) && !Within(t, org, QuotaOf(PlanOf(t, org)))
  {
    s := Lowered(enabled, plans, org, user, k);
    t := ReservedAnyway(s, org, user, k);
  }

  lemma Lowered(enabled: bool, plans: map<Id, Plan>, org: Id, user: Id, k: nat) returns (s: Store)
    requires org in plans && plans[org] == Pro && k < MAX_RESERVATIONS_PER_USER
    ensures s == Run(Empty(enabled, plans), Uploads(org, user, k) + Lowering(org, user, k))
    ensures s.clock == 0 && s.nextId == k && PlanOf(s, org) == Free
    ensures s.files == Copies(LargestFile(s.scannerEnabled, org, user), k)
    ensures k in s.inflight && s.inflight[k] == Quoted(org, user, MAX_SIZE, QuotaOf(Pro), 0)
  {
    var before := AfterUploads(enabled, plans, org, user, k);
    LoweringSplit(Empty(enabled, plans), org, user, k);
    var q := DoQuote(before, k, org, user, MAX_SIZE);
    s := q.(plans := q.plans[org := Free]);
  }

  // ---------------------------------------------------------------- admission

  function WithFile(s: Store, f: File): Store {
    s.(files := s.files[s.nextId := f], nextId := s.nextId + 1)
  }

  /** The figures of the table at `now` respect the quota and both reservation limits. */
  predicate Respects(s: Store, org: Id, user: Id, quota: Quota, now: Time) {
    && UsedBytes(s, org, now) <= quota.maxBytes && UsedFiles(s, org, now) <= quota.maxFiles
    && OrgReservations(s, org, now) <= MAX_RESERVATIONS_PER_ORGANIZATION
    && UserReservations(s, org, user, now) <= MAX_RESERVATIONS_PER_USER
  }

  /** An upload fits exactly when the table with its row in it respects every limit. */
  lemma FitsIsRespects(s: Store, org: Id, user: Id, size: nat, quota: Quota, now: Time)
    requires Bounded(s)
    ensures Fits(s, org, user, size, quota, now) <==> Respects(WithFile(s, NewFile(s, org, user, size, now)), org, user, quota, now)
  {
    AddingOne(s, NewFile(s, org, user, size, now), org, user, now);
  }

  lemma ReachableIsBounded(s: Store)
    requires Reachable(s)
    ensures Bounded(s)
  {
    var enabled: bool, plans: map<Id, Plan>, events: seq<Event> :| s == Run(Empty(enabled, plans), events);
    RunKeepsUsageOk(Empty(enabled, plans), events);
  }

  /** An undisturbed request is admitted exactly when its size is allowed and the table with its file in it respects every limit. */
  lemma AdmittedExactlyWhenItFits(s: Store, req: Id, org: Id, user: Id, size: nat)
    requires UsageOk(s) && req !in s.inflight
    ensures var t := Step(Step(s, Serving(QuoteUpload(req, org, user, size))), Serving(ReserveUpload(req)));
            var full := WithFile(s, NewFile(s, org, user, size, s.clock));
            if Declarable(size) && Respects(full, org, user, QuotaOf(PlanOf(s, org)), s.clock)
            then t == full.(inflight := s.inflight[req := Reserved(s.nextId)])
            else t == s
  {
    QuoteThenReserve(s, req, org, user, size);
    FitsIsRespects(s, org, user, size, QuotaOf(PlanOf(s, org)), s.clock);
  }

  lemma QuoteThenReserve(s: Store, req: Id, org: Id, user: Id, size: nat)
    requires req !in s.inflight
    ensures var t := DoReserve(DoQuote(s, req, org, user, size), req);
            if Declarable(size) && Fits(s, org, user, size, QuotaOf(PlanOf(s, org)), s.clock)
            then t == WithFile(s, NewFile(s, org, user, size, s.clock)).(inflight := s.inflight[req := Reserved(s.nextId)])
            else t == s
  {
    var q := DoQuote(s, req, org, user, size);
    if Declarable(size) {
      assert Fits(q, org, user, size, QuotaOf(PlanOf(s, org)), s.clock) == Fits(s, org, user, size, QuotaOf(PlanOf(s, org)), s.clock);
      assert s.inflight[req := q.inflight[req]] - {req} == s.inflight;
    } else {
      assert q == s;
    }
  }
}
