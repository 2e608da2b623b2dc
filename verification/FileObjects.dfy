/**
  Which stored objects may be removed, and when: purging and restoring never overlap, even
  though a purge is a select, an object removal and a row update with other steps in between,
  and orphan collection removes only old objects that no record names.
*/
module FileObjects {
  import opened Common
  import opened Files
  import opened FileMoves

  /** Rows no user action can bring back. */
  predicate Doomed(f: File, now: Time) {
    match f.status
    case Pending => f.reservedUntil <= now
    case Deleted => f.purgeAfter.Some? && f.purgeAfter.value <= now
    case Scanning => false
    case Ready => false
    case _ => true
  }

  /** An issued identifier whose row is doomed or gone. */
  ghost predicate Lost(s: Store, id: Id) {
    id < s.nextId && (id in s.files ==> Doomed(s.files[id], s.clock))
  }

  /** A key nobody can write any more, whose object is old if it exists. */
  ghost predicate Sealed(s: Store, key: Id) {
    && key < s.nextId
    && key in s.uploadUntil && s.uploadUntil[key] / SECOND < s.clock / SECOND
    && (key in s.objects ==> s.objects[key] + ORPHAN_AGE <= s.clock)
  }

  ghost predicate RequestOk(s: Store, p: Request) {
    match p
    case Reserved(k) => k < s.nextId && k !in s.uploadUntil
    case PurgePass(ids, _) => forall i :: 0 <= i < |ids| ==> Lost(s, ids[i])
    case Listed(keys) => forall i :: 0 <= i < |keys| ==> Sealed(s, keys[i])
    case Orphans(keys) => forall i :: 0 <= i < |keys| ==> Sealed(s, keys[i]) && keys[i] !in s.files
    case _ => true
  }

  /** Objects are written only through issued URLs, and each URL is issued once. */
  ghost predicate ObjectsOk(s: Store) {
    && (forall k :: k in s.objects ==> k in s.uploadUntil && s.uploadUntil[k] <= s.objects[k] + UPLOAD_URL_TTL)
    && (forall k :: k in s.uploadUntil ==> k < s.nextId && s.uploadUntil[k] <= s.clock + UPLOAD_URL_TTL)
  }

  ghost predicate IssuedOnce(s: Store) {
    forall q, r :: q in s.inflight && r in s.inflight && s.inflight[q].Reserved? && s.inflight[r] == s.inflight[q] ==> q == r
  }

  ghost predicate StoreOk(s: Store) {
    && (forall id :: id in s.files ==> id < s.nextId)
    && ObjectsOk(s) && IssuedOnce(s)
    && forall r :: r in s.inflight ==> RequestOk(s, s.inflight[r])
  }

  lemma LostStays(s: Store, t: Store, c: Change, id: Id)
    requires ChangedBy(s, t, c) && Lost(s, id)
    ensures Lost(t, id)
  {
  }

  /** Exactly the listed keys without a record remain. */
  lemma {:induction false} WithoutRecordIsExact(files: map<Id, File>, keys: seq<Id>)
    ensures forall k :: k in WithoutRecord(files, keys) <==> k in keys && k !in files
  {
    if keys != [] {
      WithoutRecordIsExact(files, keys[1..]);
      assert keys == [keys[0]] + keys[1..];
    }
  }

  // ---------------------------------------------------------------- every step keeps it

  /** No URL is issued and no object is written; objects may be removed. */
  ghost predicate Calm(s: Store, t: Store, c: Change) {
    && ChangedBy(s, t, c) && t.uploadUntil == s.uploadUntil
    && forall k :: k in t.objects ==> k in s.objects && t.objects[k] == s.objects[k]
  }

  lemma CalmKeepsStore(s: Store, t: Store, c: Change)
    requires StoreOk(s) && Calm(s, t, c) && IssuedOnce(t)
    requires forall r :: r in t.inflight ==> RequestOk(s, t.inflight[r])
    ensures StoreOk(t)
  {
  }

  lemma CalmSame(s: Store, t: Store, c: Change)
    requires StoreOk(s) && Calm(s, t, c) && t.inflight == s.inflight
    ensures StoreOk(t)
  {
  }

  lemma CalmDrop(s: Store, t: Store, c: Change, r: Id)
    requires StoreOk(s) && Calm(s, t, c) && t.inflight == s.inflight - {r}
    ensures StoreOk(t)
  {
  }

  lemma CalmSet(s: Store, t: Store, c: Change, r: Id, p: Request)
    requires StoreOk(s) && Calm(s, t, c) && t.inflight == s.inflight[r := p]
    requires RequestOk(s, p) && !p.Reserved?
    ensures StoreOk(t)
  {
    CalmKeepsStore(s, t, c);
  }

  lemma IssuedKeepsStore(s: Store, r: Id)
    requires StoreOk(s) && r in s.inflight && s.inflight[r].Reserved?
    ensures StoreOk(DoIssueTarget(s, r, true))
  {
  }

  lemma IssueKeepsStore(s: Store, r: Id, ok: bool)
    requires StoreOk(s)
    ensures StoreOk(DoIssueTarget(s, r, ok))
  {
    if r in s.inflight && s.inflight[r].Reserved? {
      if ok {
        IssuedKeepsStore(s, r);
      } else {
        var c := IssueChange(s, r, ok);
        CalmDrop(s, DoIssueTarget(s, r, ok), c, r);
      }
    }
  }

  lemma DropKeepsStore(s: Store, r: Id)
    requires StoreOk(s)
    ensures StoreOk(s.(inflight := s.inflight - {r}))
  {
  }

  lemma ReservedKeepsStore(s: Store, r: Id, f: File)
    requires StoreOk(s) && f.status == Pending && f.attempts == 0
    ensures StoreOk(s.(files := s.files[s.nextId := f], nextId := s.nextId + 1, inflight := s.inflight[r := Reserved(s.nextId)]))
  {
  }

  lemma ReserveKeepsStore(s: Store, r: Id)
    requires StoreOk(s)
    ensures StoreOk(DoReserve(s, r))
  {
    if r in s.inflight && s.inflight[r].Quoted? {
      var p := s.inflight[r];
      if Fits(s, p.org, p.user, p.size, p.quota, p.now) {
        var f := NewFile(s, p.org, p.user, p.size, p.now);
        ReservedKeepsStore(s, r, f);
        assert DoReserve(s, r)
            == s.(files := s.files[s.nextId := f], nextId := s.nextId + 1, inflight := s.inflight[r := Reserved(s.nextId)]);
      } else {
        DropKeepsStore(s, r);
        assert DoReserve(s, r) == s.(inflight := s.inflight - {r});
      }
    }
  }

  lemma PutKeepsStore(s: Store, k: Id)
    requires StoreOk(s)
    ensures StoreOk(DoPutObject(s, k))
  {
  }

  lemma QuoteKeepsStore(s: Store, r: Id, org: Id, u: Id, n: nat)
    requires StoreOk(s)
    ensures StoreOk(DoQuote(s, r, org, u, n))
  {
  }

  lemma CompleteKeepsStore(s: Store, org: Id, id: Id, ok: bool)
    requires StoreOk(s)
    ensures StoreOk(DoComplete(s, org, id, ok))
  {
  }

  lemma DeleteKeepsStore(s: Store, org: Id, id: Id)
    requires StoreOk(s)
    ensures StoreOk(DoDelete(s, org, id))
  {
    var c := DeleteChange(s, org, id);
    CalmSame(s, DoDelete(s, org, id), c);
  }

  lemma RestoreKeepsStore(s: Store, org: Id, id: Id)
    requires StoreOk(s)
    ensures StoreOk(DoRestore(s, org, id))
  {
  }

  lemma TickKeepsStore(s: Store, d: nat)
    requires StoreOk(s)
    ensures StoreOk(s.(clock := s.clock + d))
  {
  }

  lemma SetPlanKeepsStore(s: Store, org: Id, plan: Plan)
    requires StoreOk(s)
    ensures StoreOk(s.(plans := s.plans[org := plan]))
  {
  }

  lemma ServingKeepsStore(s: Store, e: FileEvent)
    requires StoreOk(s)
    ensures StoreOk(ServeStep(s, e))
  {
    match e
    case Tick(d) => TickKeepsStore(s, d);
    case SetPlan(org, plan) => SetPlanKeepsStore(s, org, plan);
    case QuoteUpload(r, org, u, n) => QuoteKeepsStore(s, r, org, u, n);
    case ReserveUpload(r) => ReserveKeepsStore(s, r);
    case IssueTarget(r, ok) => IssueKeepsStore(s, r, ok);
    case PutObject(k) => PutKeepsStore(s, k);
    case CompleteUpload(org, id, ok) => CompleteKeepsStore(s, org, id, ok);
    case DeleteFile(org, id) => DeleteKeepsStore(s, org, id);
    case RestoreFile(org, id) => RestoreKeepsStore(s, org, id);
  }

  lemma ScanKeepsStore(s: Store, r: Id, o: Outcome)
    requires StoreOk(s)
    ensures StoreOk(DoApplyScan(s, r, o))
  {
    if r in s.inflight && s.inflight[r].ScanPass? {
      var t := DoApplyScan(s, r, o);
      var c := ScanChange(s, r, o);
      if s.inflight[r].batch == [] { CalmDrop(s, t, c, r); } else { CalmSet(s, t, c, r, t.inflight[r]); }
    }
  }

  lemma SelectPurgeKeepsStore(s: Store, r: Id, ids: seq<Id>)
    requires StoreOk(s)
    ensures StoreOk(DoSelectPurge(s, r, ids))
  {
  }

  lemma PurgeTail(s: Store, ids: seq<Id>, gone: bool, next: bool)
    requires RequestOk(s, PurgePass(ids, gone)) && ids != []
    ensures RequestOk(s, PurgePass(ids[1..], next)) && RequestOk(s, PurgePass(ids, next)) && Lost(s, ids[0])
  {
  }

  lemma PurgeKeepsStore(s: Store, r: Id, ok: bool)
    requires StoreOk(s)
    ensures StoreOk(DoPurgeObject(s, r, ok)) && StoreOk(DoPurgeRow(s, r))
  {
    if r in s.inflight && s.inflight[r].PurgePass? {
      var p := s.inflight[r];
      assert RequestOk(s, p);
      if p.ids == [] {
        CalmDrop(s, DoPurgeObject(s, r, ok), Same, r);
      } else {
        PurgeTail(s, p.ids, p.objectGone, false);
        PurgeTail(s, p.ids, p.objectGone, true);
        if p.objectGone {
          var c := PurgeRowChange(s, r);
          CalmSet(s, DoPurgeRow(s, r), c, r, PurgePass(p.ids[1..], false));
        } else {
          CalmSet(s, DoPurgeObject(s, r, ok), Same, r, if ok then PurgePass(p.ids, true) else PurgePass(p.ids[1..], false));
        }
      }
    }
  }

  lemma SelectScansKeepsStore(s: Store, r: Id, ids: seq<Id>)
    requires StoreOk(s)
    ensures StoreOk(DoSelectScans(s, r, ids))
  {
  }

  lemma MaintainingKeepsStore(s: Store, e: MaintenanceEvent)
    requires StoreOk(s)
    ensures StoreOk(MaintainStep(s, e))
  {
    match e
    case SelectScans(r, ids) => SelectScansKeepsStore(s, r, ids);
    case ApplyScan(r, o) => ScanKeepsStore(s, r, o);
    case SelectPurge(r, ids) => SelectPurgeKeepsStore(s, r, ids);
    case PurgeObject(r, ok) => PurgeKeepsStore(s, r, ok);
    case PurgeRow(r) => PurgeKeepsStore(s, r, true);
    case ExpireAudit => CalmSame(s, DoExpireAudit(s), Pruned);
  }

  lemma ListKeepsStore(s: Store, r: Id, keys: seq<Id>)
    requires StoreOk(s)
    ensures StoreOk(DoListObjects(s, r, keys))
  {
  }

  lemma MatchKeepsStore(s: Store, r: Id)
    requires StoreOk(s)
    ensures StoreOk(DoMatchRecords(s, r))
  {
    if r in s.inflight && s.inflight[r].Listed? {
      assert RequestOk(s, s.inflight[r]);
      WithoutRecordIsExact(s.files, s.inflight[r].candidates);
      CalmSet(s, DoMatchRecords(s, r), Same, r, DoMatchRecords(s, r).inflight[r]);
    }
  }

  lemma CollectKeepsStore(s: Store, r: Id)
    requires StoreOk(s)
    ensures StoreOk(DoDeleteOrphan(s, r))
  {
    if r in s.inflight && s.inflight[r].Orphans? {
      assert RequestOk(s, s.inflight[r]);
      var keys := s.inflight[r].keys;
      if keys == [] {
        CalmDrop(s, DoDeleteOrphan(s, r), Same, r);
      } else {
        CalmSet(s, DoDeleteOrphan(s, r), Same, r, Orphans(keys[1..]));
      }
    }
  }

  lemma ReconcilingKeepsStore(s: Store, e: OrphanEvent)
    requires StoreOk(s)
    ensures StoreOk(ReconcileStep(s, e))
  {
    match e
    case ListObjects(r, keys) => ListKeepsStore(s, r, keys);
    case MatchRecords(r) => MatchKeepsStore(s, r);
    case DeleteOrphan(r) => CollectKeepsStore(s, r);
  }

  lemma StepKeepsStore(s: Store, e: Event)
    requires StoreOk(s)
    ensures StoreOk(Step(s, e))
  {
    match e
    case Serving(f) => ServingKeepsStore(s, f);
    case Maintaining(w) => MaintainingKeepsStore(s, w);
    case Reconciling(o) => ReconcilingKeepsStore(s, o);
  }

  lemma {:induction false} RunKeepsStore(s: Store, events: seq<Event>)
    requires StoreOk(s)
    ensures StoreOk(Run(s, events))
    decreases |events|
  {
    if events != [] {
      StepKeepsStore(s, events[0]);
      RunKeepsStore(Step(s, events[0]), events[1..]);
    }
  }

  // ---------------------------------------------------------------- what may be removed

  /** Not SCANNING, not READY, and not DELETED inside its recovery window. */
  predicate MayLoseObject(f: File, now: Time) {
    f.status != Scanning && f.status != Ready && !Restorable(f, now)
  }

  lemma ServingRemoves(s: Store, e: FileEvent, key: Id)
    requires key in s.objects && key !in ServeStep(s, e).objects
    ensures key in s.files && s.files[key].status == Pending
  {
  }

  lemma MaintainingRemoves(s: Store, e: MaintenanceEvent, key: Id)
    requires StoreOk(s) && key in s.objects && key !in MaintainStep(s, e).objects
    ensures Lost(s, key)
  {
  }

  lemma ReconcilingRemoves(s: Store, e: OrphanEvent, key: Id)
    requires StoreOk(s) && key in s.objects && key !in ReconcileStep(s, e).objects
    ensures key !in s.files && s.objects[key] + ORPHAN_AGE <= s.clock
  {
  }

  /**
    In every run, a step that removes an object finds its file neither SCANNING, READY nor
    DELETED inside its recovery window; orphan collection finds no file at all and an old object.
  */
  lemma RemovalsAreSafe(scannerEnabled: bool, plans: map<Id, Plan>, events: seq<Event>, e: Event, key: Id)
    requires var s := Run(Empty(scannerEnabled, plans), events);
             key in s.objects && key !in Step(s, e).objects
    ensures var s := Run(Empty(scannerEnabled, plans), events);
            && (key in s.files ==> MayLoseObject(s.files[key], s.clock))
            && (e.Reconciling? ==> key !in s.files && s.objects[key] + ORPHAN_AGE <= s.clock)
  {
    var s := Run(Empty(scannerEnabled, plans), events);
    RunKeepsStore(Empty(scannerEnabled, plans), events);
    match e
    case Serving(f) => ServingRemoves(s, f, key);
    case Maintaining(w) => MaintainingRemoves(s, w, key);
    case Reconciling(o) => ReconcilingRemoves(s, o, key);
  }

  /** Once a purge may select a file, no later step restores or completes it. */
  lemma {:induction false} PurgeAndRestoreAreDisjoint(s: Store, events: seq<Event>, org: Id, id: Id, valid: bool)
    requires id in s.files && id < s.nextId && Expired(s.files[id], s.clock)
    ensures var t := Run(s, events);
            Lost(t, id) && DoRestore(t, org, id) == t && DoComplete(t, org, id, valid) == t
  {
    RunKeepsLost(s, events, id);
  }

  lemma {:induction false} RunKeepsLost(s: Store, events: seq<Event>, id: Id)
    requires Lost(s, id)
    ensures Lost(Run(s, events), id)
    decreases |events|
  {
    if events != [] {
      var c := StepChange(s, events[0]);
      LostStays(s, Step(s, events[0]), c, id);
      RunKeepsLost(Step(s, events[0]), events[1..], id);
    }
  }

  /** Deleting and restoring inside the window gives the row back, unless a verdict arrived mid-scan. */
  lemma DeleteThenRestore(s: Store, org: Id, id: Id, elapsed: nat)
    requires id in s.files && s.files[id].org == org && (s.files[id].status == Ready || s.files[id].status == Scanning)
    requires s.files[id].deletedAt.None? && s.files[id].purgeAfter.None?
    ensures var deleted := DoDelete(s, org, id);
            var t := DoRestore(deleted.(clock := s.clock + elapsed), org, id);
            t.files == s.files <==>
              elapsed < SOFT_DELETE_RETENTION && s.files[id].status == RestoredStatus(s.files[id].malware)
  {
  }
}
