/**
  What a file's status says about its malware verdict. With the scanner enabled a file becomes
  READY on a clean verdict, with one exception that is stated exactly: restoring a file that was
  deleted while its scans had been inconclusive.
*/
module FileVerdicts {
  import opened Common
  import opened Files

  predicate Inconclusive(m: Malware) {
    m == Unsupported || m == ScanFailed
  }

  predicate VerdictOk(f: File, enabled: bool) {
    match f.status
    case Scanning => enabled && (f.malware == Awaited || Inconclusive(f.malware))
    case Ready => if enabled then f.malware == Clean || Inconclusive(f.malware) else f.malware == NotRequired
    case Deleted =>
      if enabled then f.malware == Clean || f.malware == Awaited || Inconclusive(f.malware) else f.malware == NotRequired
    case _ => true
  }

  ghost predicate VerdictsOk(s: Store) {
    forall id :: id in s.files ==> VerdictOk(s.files[id], s.scannerEnabled)
  }

  /** READY although no scan found it clean. */
  predicate ReadyUnscanned(f: File) {
    f.status == Ready && f.malware != Clean
  }

  /** `e` restores `id`, which was deleted after an inconclusive scan. */
  predicate RestoresInconclusive(s: Store, e: Event, id: Id) {
    && e.Serving? && e.file.RestoreFile? && e.file.id == id
    && id in s.files && s.files[id].org == e.file.org
    && Restorable(s.files[id], s.clock) && Inconclusive(s.files[id].malware)
  }

  /** What one step does to the row of `id`, as far as verdicts go. */
  ghost predicate RowFollows(s: Store, t: Store, id: Id, unscanned: bool) {
    && t.scannerEnabled == s.scannerEnabled
    && (id in t.files ==>
          && VerdictOk(t.files[id], t.scannerEnabled)
          && (id in s.files && s.scannerEnabled && !ReadyUnscanned(s.files[id]) ==> (ReadyUnscanned(t.files[id]) <==> unscanned))
          && (id !in s.files ==> t.files[id].status == Pending && !unscanned))
    && (id !in t.files ==> !unscanned)
  }

  lemma ReserveFollows(s: Store, r: Id, id: Id)
    requires VerdictsOk(s)
    ensures RowFollows(s, DoReserve(s, r), id, false)
  {
  }

  lemma UploadFollows(s: Store, r: Id, ok: bool, org: Id, file: Id, valid: bool, id: Id)
    requires VerdictsOk(s)
    ensures RowFollows(s, DoIssueTarget(s, r, ok), id, false) && RowFollows(s, DoComplete(s, org, file, valid), id, false)
  {
  }

  lemma DeleteFollows(s: Store, org: Id, file: Id, id: Id)
    requires VerdictsOk(s)
    ensures RowFollows(s, DoDelete(s, org, file), id, false)
  {
  }

  lemma RestoreFollows(s: Store, org: Id, file: Id, id: Id)
    requires VerdictsOk(s)
    ensures RowFollows(s, DoRestore(s, org, file), id, s.scannerEnabled && RestoresInconclusive(s, Serving(RestoreFile(org, file)), id))
  {
  }

  lemma ServingFollows(s: Store, e: FileEvent, id: Id)
    requires VerdictsOk(s)
    ensures RowFollows(s, ServeStep(s, e), id, s.scannerEnabled && RestoresInconclusive(s, Serving(e), id))
  {
    match e
    case ReserveUpload(r) => ReserveFollows(s, r, id);
    case IssueTarget(r, ok) => UploadFollows(s, r, ok, 0, 0, true, id);
    case CompleteUpload(org, file, valid) => UploadFollows(s, 0, true, org, file, valid, id);
    case DeleteFile(org, file) => DeleteFollows(s, org, file, id);
    case RestoreFile(org, file) => RestoreFollows(s, org, file, id);
    case _ => assert ServeStep(s, e).files == s.files;
  }

  lemma ScanFollows(s: Store, r: Id, o: Outcome, id: Id)
    requires VerdictsOk(s)
    ensures RowFollows(s, DoApplyScan(s, r, o), id, false)
  {
    if r in s.inflight && s.inflight[r].ScanPass? && s.inflight[r].batch != [] {
      var (k, seen) := s.inflight[r].batch[0];
      if k in s.files && s.files[k].status == Scanning { ScannedIsOk(s.files[k], seen, o, s.clock, s.scannerEnabled); }
    }
  }

  lemma ScannedIsOk(f: File, seen: File, o: Outcome, now: Time, enabled: bool)
    requires f.status == Scanning && VerdictOk(f, enabled)
    ensures VerdictOk(Scanned(f, seen, o, now), enabled) && !ReadyUnscanned(Scanned(f, seen, o, now))
  {
  }

  lemma MaintainingFollows(s: Store, e: MaintenanceEvent, id: Id)
    requires VerdictsOk(s)
    ensures RowFollows(s, MaintainStep(s, e), id, false)
  {
    match e
    case ApplyScan(r, o) => ScanFollows(s, r, o, id);
    case PurgeRow(r) => assert RowFollows(s, DoPurgeRow(s, r), id, false);
    case ExpireAudit => assert RowFollows(s, DoExpireAudit(s), id, false);
    case _ => assert MaintainStep(s, e).files == s.files;
  }

  lemma StepFollows(s: Store, e: Event, id: Id)
    requires VerdictsOk(s)
    ensures RowFollows(s, Step(s, e), id, s.scannerEnabled && RestoresInconclusive(s, e, id))
  {
    match e
    case Serving(f) => ServingFollows(s, f, id);
    case Maintaining(m) => MaintainingFollows(s, m, id);
    case Reconciling(o) => assert ReconcileStep(s, o).files == s.files;
  }

  lemma {:induction false} RunKeepsVerdicts(s: Store, events: seq<Event>)
    requires VerdictsOk(s)
    ensures VerdictsOk(Run(s, events)) && Run(s, events).scannerEnabled == s.scannerEnabled
    decreases |events|
  {
    if events != [] {
      var t := Step(s, events[0]);
      StepFollows(s, events[0], 0);
      forall id | id in t.files ensures VerdictOk(t.files[id], t.scannerEnabled) { StepFollows(s, events[0], id); }
      RunKeepsVerdicts(t, events[1..]);
    }
  }

  /**
    In every run with the scanner enabled, a READY file was found clean or its last scan was
    inconclusive, and no infected or unscanned file is READY; without a scanner no file is ever SCANNING.
  */
  lemma ReadyMeans(scannerEnabled: bool, plans: map<Id, Plan>, events: seq<Event>, id: Id)
    requires id in Run(Empty(scannerEnabled, plans), events).files
    ensures VerdictOk(Run(Empty(scannerEnabled, plans), events).files[id], scannerEnabled)
  {
    RunKeepsVerdicts(Empty(scannerEnabled, plans), events);
  }

  /** With the scanner enabled, a step makes a file READY unscanned exactly when it restores an inconclusive one. */
  lemma ReadyUnscannedExactlyWhen(s: Store, e: Event, id: Id)
    requires VerdictsOk(s) && s.scannerEnabled && (id in s.files ==> !ReadyUnscanned(s.files[id]))
    ensures id in Step(s, e).files && ReadyUnscanned(Step(s, e).files[id]) <==> RestoresInconclusive(s, e, id)
  {
    StepFollows(s, e, id);
  }

  lemma InconclusiveScan(s: Store, req: Id, id: Id)
    requires s.scannerEnabled && req !in s.inflight && id in s.files && s.files[id].status == Scanning
    requires s.files[id].attempts + 1 < MAX_SCAN_ATTEMPTS
    requires s.files[id].uploadedAt.Some? && s.clock < s.files[id].uploadedAt.value + SCAN_TIMEOUT
    ensures var a := DoApplyScan(DoSelectScans(s, req, [id]), req, FoundFailed);
            && a.files == s.files[id := s.files[id].(attempts := s.files[id].attempts + 1, malware := ScanFailed)]
            && a.scannerEnabled && a.clock == s.clock
  {
    var b := DoSelectScans(s, req, [id]);
    assert AllScanning(s.files, [id]);
    assert b.inflight[req] == ScanPass(Snapshots(s.files, [id]));
    assert Snapshots(s.files, [id])[0] == (id, s.files[id]);
  }

  lemma DeletedAndRestored(a: Store, org: Id, id: Id)
    requires Scoped(a, org, id) && a.files[id].status == Scanning && Inconclusive(a.files[id].malware)
    ensures var t := DoRestore(DoDelete(a, org, id), org, id);
            id in t.files && ReadyUnscanned(t.files[id]) && t.scannerEnabled == a.scannerEnabled
  {
  }

  /** It does happen: an inconclusive scan, a deletion and a restore. */
  lemma InconclusiveThenRestored(s: Store, req: Id, org: Id, id: Id)
    requires s.scannerEnabled && req !in s.inflight && Scoped(s, org, id) && s.files[id].status == Scanning
    requires s.files[id].attempts + 1 < MAX_SCAN_ATTEMPTS
    requires s.files[id].uploadedAt.Some? && s.clock < s.files[id].uploadedAt.value + SCAN_TIMEOUT
    ensures var a := DoApplyScan(DoSelectScans(s, req, [id]), req, FoundFailed);
            var t := DoRestore(DoDelete(a, org, id), org, id);
            id in t.files && ReadyUnscanned(t.files[id]) && t.scannerEnabled
  {
    InconclusiveScan(s, req, id);
    DeletedAndRestored(DoApplyScan(DoSelectScans(s, req, [id]), req, FoundFailed), org, id);
  }

  /** A fresh upload reaches SCANNING. */
  lemma ScanningIsReachable() returns (s: Store)
    ensures Reachable(s) && s.scannerEnabled && s.clock == 0 && s.inflight == map[]
    ensures s.files.Keys == {0} && s.files[0].org == 0 && s.files[0].status == Scanning
    ensures s.files[0].attempts == 0 && s.files[0].uploadedAt == Some(0)
  {
    var a := ReservedIsReachable();
    ReachStep(a, Serving(IssueTarget(0, true)));
    var b := DoIssueTarget(a, 0, true);
    assert b.files == a.files && b.uploadUntil == map[0 := UPLOAD_URL_TTL] && b.inflight == map[];
    ReachStep(b, Serving(PutObject(0)));
    var c := DoPutObject(b, 0);
    assert c.files == a.files && 0 in c.objects;
    ReachStep(c, Serving(CompleteUpload(0, 0, true)));
    s := DoComplete(c, 0, 0, true);
  }

  lemma ReservedIsReachable() returns (s: Store)
    ensures Reachable(s) && s.scannerEnabled && s.clock == 0 && s.inflight == map[0 := Reserved(0)] && s.uploadUntil == map[] && s.objects == map[]
    ensures s.files.Keys == {0} && s.files[0].org == 0 && Reserving(s.files[0], 0) && s.files[0].attempts == 0
  {
    var a := Empty(true, map[]);
    assert a == Run(Empty(true, map[]), []);
    ReachStep(a, Serving(QuoteUpload(0, 0, 0, 1)));
    var b := DoQuote(a, 0, 0, 0, 1);
    assert b.inflight == map[0 := Quoted(0, 0, 1, QuotaOf(Free), 0)];
    assert Fits(b, 0, 0, 1, QuotaOf(Free), 0);
    ReachStep(b, Serving(ReserveUpload(0)));
    s := DoReserve(b, 0);
  }

  lemma RestoringReaches(s: Store, req: Id, org: Id, id: Id)
    requires Reachable(s)
    ensures Reachable(DoRestore(DoDelete(DoApplyScan(DoSelectScans(s, req, [id]), req, FoundFailed), org, id), org, id))
  {
    ReachStep(s, Maintaining(SelectScans(req, [id])));
    var b := DoSelectScans(s, req, [id]);
    ReachStep(b, Maintaining(ApplyScan(req, FoundFailed)));
    var c := DoApplyScan(b, req, FoundFailed);
    ReachStep(c, Serving(DeleteFile(org, id)));
    ReachStep(DoDelete(c, org, id), Serving(RestoreFile(org, id)));
  }

  /** So some run from the empty table does make a file READY unscanned. */
  lemma ReadyUnscannedIsReachable()
    ensures exists t :: Reachable(t) && t.scannerEnabled && 0 in t.files && ReadyUnscanned(t.files[0])
  {
    var s := ScanningIsReachable();
    InconclusiveThenRestored(s, 1, 0, 0);
    RestoringReaches(s, 1, 0, 0);
  }
}
