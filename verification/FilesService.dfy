/**
  `FilesService` and `FileMaintenanceService`: rows and objects updated in place. Each method is
  one atomic step, proved to have the effect that the file modules reason about.
*/
module FilesService {
  import opened Common
  import opened Files
  import FileScans
  import FileObjects
  import FileQuota
  import FileVerdicts

  lemma ReachReserve(s: Store, req: Id)
    requires Reachable(s)
    ensures Reachable(DoReserve(s, req))
  {
    ReachStep(s, Serving(ReserveUpload(req)));
  }

  class Service {
    var clock: Time
    var nextId: Id
    const scannerEnabled: bool
    var plans: map<Id, Plan>
    var files: map<Id, File>
    var objects: map<Id, Time>
    var uploadUntil: map<Id, Time>
    var inflight: map<Id, Request>

    function Rows(): Store
      reads this
    {
      Store(clock, nextId, scannerEnabled, plans, files, objects, uploadUntil, inflight)
    }

    /** Some run of the service leads here, so whatever holds in every run holds now. */
    ghost predicate Valid()
      reads this
    {
      Reachable(Rows())
    }

    constructor (scannerEnabled: bool, plans: map<Id, Plan>)
      ensures Rows() == Empty(scannerEnabled, plans) && Valid()
    {
      this.scannerEnabled, this.plans := scannerEnabled, plans;
      clock, nextId, files, objects, uploadUntil, inflight := 0, 0, map[], map[], map[], map[];
      new;
      assert Rows() == Run(Empty(scannerEnabled, plans), []);
    }

    method QuoteUpload(req: Id, org: Id, user: Id, size: nat)
      requires Valid()
      modifies this`inflight
      ensures Rows() == DoQuote(old(Rows()), req, org, user, size)
      ensures Valid()
    {
      ReachStep(Rows(), Serving(FileEvent.QuoteUpload(req, org, user, size)));
      if req in inflight || size < 1 || size > MAX_SIZE { return; }
      var plan := Free;
      if org in plans { plan := plans[org]; }
      inflight := inflight[req := Quoted(org, user, size, QuotaOf(plan), clock)];
    }

    /** The upload is admitted exactly when the table with its row in it would respect the quota and both reservation limits. */
    method CheckLimits(org: Id, user: Id, size: nat, quota: Quota, now: Time) returns (fits: bool)
      requires Valid()
      ensures fits == Fits(Rows(), org, user, size, quota, now)
      ensures fits <==> FileQuota.Respects(FileQuota.WithFile(Rows(), NewFile(Rows(), org, user, size, now)), org, user, quota, now)
    {
      FileQuota.ReachableIsBounded(Rows());
      FileQuota.FitsIsRespects(Rows(), org, user, size, quota, now);
      var usedBytes, usedFiles := UsedBytes(Rows(), org, now), UsedFiles(Rows(), org, now);
      if usedBytes + size > quota.maxBytes || usedFiles + 1 > quota.maxFiles { return false; }
      var ofOrganization, ofUser := OrgReservations(Rows(), org, now), UserReservations(Rows(), org, user, now);
      fits := ofOrganization < MAX_RESERVATIONS_PER_ORGANIZATION && ofUser < MAX_RESERVATIONS_PER_USER;
    }

    /** The row of a reserved upload, which the request holds from now on. */
    method Admit(req: Id, org: Id, user: Id, size: nat, now: Time)
      modifies this`files, this`inflight, this`nextId
      ensures files == old(files)[old(nextId) := NewFile(old(Rows()), org, user, size, now)]
      ensures nextId == old(nextId) + 1 && inflight == old(inflight)[req := Reserved(old(nextId))]
    {
      var malware := if scannerEnabled then Awaited else NotRequired;
      files := files[nextId := File(org, user, size, Pending, malware, 0, now + RESERVATION_TTL, None, None, None, None)];
      inflight := inflight[req := Reserved(nextId)];
      nextId := nextId + 1;
    }

    method ReserveUpload(req: Id)
      requires Valid()
      modifies this
      ensures Rows() == DoReserve(old(Rows()), req)
      ensures Valid()
    {
      ReachReserve(Rows(), req);
      if req !in inflight || !inflight[req].Quoted? { return; }
      var p := inflight[req];
      var fits := CheckLimits(p.org, p.user, p.size, p.quota, p.now);
      if fits {
        Admit(req, p.org, p.user, p.size, p.now);
        assert Rows() == DoReserve(old(Rows()), req);
      } else {
        inflight := inflight - {req};
        assert Rows() == DoReserve(old(Rows()), req);
      }
    }

    method IssueTarget(req: Id, available: bool)
      requires Valid()
      modifies this
      ensures Rows() == DoIssueTarget(old(Rows()), req, available)
      ensures Valid()
    {
      ReachStep(Rows(), Serving(FileEvent.IssueTarget(req, available)));
      if req !in inflight || !inflight[req].Reserved? { return; }
      var id := inflight[req].file;
      inflight := inflight - {req};
      if available {
        uploadUntil := uploadUntil[id := clock + UPLOAD_URL_TTL];
      } else if id in files {
        files := files[id := files[id].(status := Failed, purgeAfter := Some(clock))];
      }
    }

    method CompleteUpload(org: Id, id: Id, valid: bool)
      requires Valid()
      modifies this`files
      ensures Rows() == DoComplete(old(Rows()), org, id, valid)
      ensures Valid()
    {
      ReachStep(Rows(), Serving(FileEvent.CompleteUpload(org, id, valid)));
      if id !in files || files[id].org != org { return; }
      var file := files[id];
      if file.status != Pending || file.reservedUntil <= clock || id !in objects { return; }
      if !valid {
        file := file.(status := Rejected, malware := Unsupported, uploadedAt := Some(clock),
                      purgeAfter := Some(clock + FAILED_RETENTION));
      } else if scannerEnabled {
        file := file.(status := Scanning, malware := Awaited, uploadedAt := Some(clock));
      } else {
        file := file.(status := Ready, malware := NotRequired, uploadedAt := Some(clock));
      }
      files := files[id := file];
    }

    method DeleteFile(org: Id, id: Id)
      requires Valid()
      modifies this`files, this`objects
      ensures Rows() == DoDelete(old(Rows()), org, id)
      ensures Valid()
    {
      ReachStep(Rows(), Serving(FileEvent.DeleteFile(org, id)));
      if id !in files || files[id].org != org || files[id].status == Purged { return; }
      var file := files[id];
      match file.status {
        case Pending =>
          objects := objects - {id};
          files := files[id := file.(status := Purged, auditUntil := Some(clock + AUDIT_RETENTION))];
        case Ready => files := files[id := SoftDeleted(file, clock)];
        case Scanning => files := files[id := SoftDeleted(file, clock)];
        case _ =>
      }
    }

    method RestoreFile(org: Id, id: Id)
      requires Valid()
      modifies this`files
      ensures Rows() == DoRestore(old(Rows()), org, id)
      ensures Valid()
    {
      ReachStep(Rows(), Serving(FileEvent.RestoreFile(org, id)));
      if id !in files || files[id].org != org { return; }
      var file := files[id];
      if file.status != Deleted || file.purgeAfter.None? || file.purgeAfter.value <= clock { return; }
      var status := Ready;
      if file.malware == Awaited { status := Scanning; }
      files := files[id := file.(status := status, deletedAt := None, purgeAfter := None)];
    }

    method PutObject(key: Id)
      requires Valid()
      modifies this`objects
      ensures Rows() == DoPutObject(old(Rows()), key)
      ensures Valid()
    {
      ReachStep(Rows(), Serving(FileEvent.PutObject(key)));
      if key in uploadUntil && clock / SECOND <= uploadUntil[key] / SECOND {
        objects := objects[key := clock];
      }
    }

    method ServeRequest(e: FileEvent)
      requires Valid()
      modifies this
      ensures Rows() == ServeStep(old(Rows()), e)
      ensures Valid()
    {
      ReachStep(Rows(), Serving(e));
      match e
      case Tick(d) => clock := clock + d;
      case SetPlan(org, plan) => plans := plans[org := plan];
      case QuoteUpload(r, org, u, n) => QuoteUpload(r, org, u, n);
      case ReserveUpload(r) => ReserveUpload(r);
      case IssueTarget(r, ok) => IssueTarget(r, ok);
      case PutObject(k) => PutObject(k);
      case CompleteUpload(org, id, ok) => CompleteUpload(org, id, ok);
      case DeleteFile(org, id) => DeleteFile(org, id);
      case RestoreFile(org, id) => RestoreFile(org, id);
    }

    // -------------------------------------------------------------- maintenance

    method FailScan(id: Id, malware: Malware, attempts: nat)
      modifies this`files
      ensures files == old(if id in files && files[id].status == Scanning
                           then files[id := FailedScan(files[id], malware, attempts, clock)] else files)
    {
      if id in files && files[id].status == Scanning {
        files := files[id := files[id].(status := Failed, malware := malware, attempts := attempts, purgeAfter := Some(clock))];
      }
    }

    /** One turn of the scan loop, with every update conditional on SCANNING. */
    method ScanFile(id: Id, seen: File, outcome: Outcome)
      modifies this`files
      ensures files == ScanOne(old(files), id, seen, outcome, clock)
    {
      var scanning := id in files && files[id].status == Scanning;
      var attempts := seen.attempts + 1;
      if seen.uploadedAt.Some? && seen.uploadedAt.value + SCAN_TIMEOUT <= clock {
        FailScan(id, ScanFailed, attempts);
        return;
      }
      match outcome {
        case FoundClean =>
          if scanning { files := files[id := files[id].(status := Ready, malware := Clean)]; }
        case FoundInfected =>
          if scanning { files := files[id := files[id].(status := Rejected, malware := Infected, purgeAfter := Some(clock))]; }
        case Errored =>
          if attempts >= MAX_SCAN_ATTEMPTS {
            FailScan(id, ScanFailed, attempts);
          } else if scanning {
            files := files[id := files[id].(attempts := attempts)];
          }
        case _ =>
          var malware := if outcome.FoundUnsupported? then Unsupported else ScanFailed;
          if attempts >= MAX_SCAN_ATTEMPTS {
            FailScan(id, malware, attempts);
          } else if scanning {
            files := files[id := files[id].(attempts := attempts, malware := malware)];
          }
      }
    }

    /** `processScans` undisturbed: the loop over a batch, with the time each scan takes and the scanner's answers. */
    method ProcessScans(ids: seq<Id>, scans: seq<FileScans.Scan>)
      requires AllScanning(files, ids) && |scans| == |ids|
      modifies this`files, this`clock
      ensures files == FileScans.PassOver(old(files), old(Snapshots(files, ids)), scans, old(clock))
    {
      var batch := Snapshots(files, ids);
      var i := 0;
      while i < |batch|
        invariant 0 <= i <= |batch|
        invariant FileScans.PassOver(files, batch[i..], scans[i..], clock)
                  == FileScans.PassOver(old(files), batch, scans, old(clock))
      {
        clock := clock + scans[i].wait;
        ScanFile(batch[i].0, batch[i].1, scans[i].outcome);
        i := i + 1;
      }
    }

    method SelectScans(req: Id, ids: seq<Id>)
      requires Valid()
      modifies this`inflight
      ensures Rows() == DoSelectScans(old(Rows()), req, ids)
      ensures Valid()
    {
      ReachStep(Rows(), Maintaining(MaintenanceEvent.SelectScans(req, ids)));
      if scannerEnabled && req !in inflight && |ids| <= BATCH && AllScanning(files, ids) {
        inflight := inflight[req := ScanPass(Snapshots(files, ids))];
      }
    }

    method ApplyScan(req: Id, outcome: Outcome)
      requires Valid()
      modifies this`files, this`inflight
      ensures Rows() == DoApplyScan(old(Rows()), req, outcome)
      ensures Valid()
    {
      ReachStep(Rows(), Maintaining(MaintenanceEvent.ApplyScan(req, outcome)));
      if req !in inflight || !inflight[req].ScanPass? { return; }
      var batch := inflight[req].batch;
      if batch == [] {
        inflight := inflight - {req};
        return;
      }
      ScanFile(batch[0].0, batch[0].1, outcome);
      inflight := inflight[req := ScanPass(batch[1..])];
    }

    method SelectPurge(req: Id, ids: seq<Id>)
      requires Valid()
      modifies this`inflight
      ensures Rows() == DoSelectPurge(old(Rows()), req, ids)
      ensures Valid()
    {
      ReachStep(Rows(), Maintaining(MaintenanceEvent.SelectPurge(req, ids)));
      if req !in inflight && |ids| <= BATCH
         && forall i :: 0 <= i < |ids| ==> ids[i] in files && Expired(files[ids[i]], clock) {
        inflight := inflight[req := PurgePass(ids, false)];
      }
    }

    method PurgeObject(req: Id, removed: bool)
      requires Valid()
      modifies this`objects, this`inflight
      ensures Rows() == DoPurgeObject(old(Rows()), req, removed)
      ensures Valid()
    {
      ReachStep(Rows(), Maintaining(MaintenanceEvent.PurgeObject(req, removed)));
      if req !in inflight || !inflight[req].PurgePass? { return; }
      var p := inflight[req];
      if p.ids == [] {
        inflight := inflight - {req};
      } else if !p.objectGone {
        if removed {
          objects := objects - {p.ids[0]};
          inflight := inflight[req := PurgePass(p.ids, true)];
        } else {
          inflight := inflight[req := PurgePass(p.ids[1..], false)];
        }
      }
    }

    method PurgeRow(req: Id)
      requires Valid()
      modifies this`files, this`inflight
      ensures Rows() == DoPurgeRow(old(Rows()), req)
      ensures Valid()
    {
      ReachStep(Rows(), Maintaining(MaintenanceEvent.PurgeRow(req)));
      if req !in inflight || !inflight[req].PurgePass? { return; }
      var p := inflight[req];
      if p.ids == [] || !p.objectGone { return; }
      inflight := inflight[req := PurgePass(p.ids[1..], false)];
      var id := p.ids[0];
      if id in files {
        files := files[id := files[id].(status := Purged, auditUntil := Some(clock + AUDIT_RETENTION))];
      }
    }

    method ExpireAudit()
      requires Valid()
      modifies this`files
      ensures Rows() == DoExpireAudit(old(Rows()))
      ensures Valid()
    {
      ReachStep(Rows(), Maintaining(MaintenanceEvent.ExpireAudit));
      files := map id | id in files
                     && !(files[id].status == Purged && files[id].auditUntil.Some? && files[id].auditUntil.value <= clock)
                 :: files[id];
    }

    method Maintain(e: MaintenanceEvent)
      requires Valid()
      modifies this
      ensures Rows() == MaintainStep(old(Rows()), e)
      ensures Valid()
    {
      ReachStep(Rows(), Maintaining(e));
      match e
      case SelectScans(r, ids) => SelectScans(r, ids);
      case ApplyScan(r, o) => ApplyScan(r, o);
      case SelectPurge(r, ids) => SelectPurge(r, ids);
      case PurgeObject(r, ok) => PurgeObject(r, ok);
      case PurgeRow(r) => PurgeRow(r);
      case ExpireAudit => ExpireAudit();
    }

    method Reconcile(e: OrphanEvent)
      requires Valid()
      modifies this
      ensures Rows() == ReconcileStep(old(Rows()), e)
      ensures Valid()
    {
      ReachStep(Rows(), Reconciling(e));
      match e
      case ListObjects(r, keys) =>
        if r !in inflight
           && forall i :: 0 <= i < |keys| ==> keys[i] in objects && objects[keys[i]] + ORPHAN_AGE <= clock {
          inflight := inflight[r := Listed(keys)];
        }
      case MatchRecords(r) =>
        if r in inflight && inflight[r].Listed? {
          var orphans := FilterRecords(inflight[r].candidates);
          inflight := inflight[r := Orphans(orphans)];
        }
      case DeleteOrphan(r) =>
        if r in inflight && inflight[r].Orphans? {
          var keys := inflight[r].keys;
          if keys == [] {
            inflight := inflight - {r};
          } else {
            objects := objects - {keys[0]};
            inflight := inflight[r := Orphans(keys[1..])];
          }
        }
    }

    method FilterRecords(keys: seq<Id>) returns (orphans: seq<Id>)
      ensures orphans == WithoutRecord(files, keys)
      ensures forall k :: k in orphans <==> k in keys && k !in files
    {
      FileObjects.WithoutRecordIsExact(files, keys);
      orphans := [];
      var i := |keys|;
      while i > 0
        invariant 0 <= i <= |keys|
        invariant orphans == WithoutRecord(files, keys[i..])
      {
        i := i - 1;
        if keys[i] !in files { orphans := [keys[i]] + orphans; }
        assert keys[i..][1..] == keys[i + 1..];
      }
    }

    /** Any interleaving of steps leaves the rows and objects that `Run` computes. */
    method Serve(events: seq<Event>)
      requires Valid()
      modifies this
      ensures Rows() == Run(old(Rows()), events)
      ensures Valid()
    {
      var i := 0;
      while i < |events|
        invariant 0 <= i <= |events| && Valid()
        invariant Run(Rows(), events[i..]) == Run(old(Rows()), events)
      {
        match events[i] {
          case Serving(f) => ServeRequest(f);
          case Maintaining(w) => Maintain(w);
          case Reconciling(o) => Reconcile(o);
        }
        i := i + 1;
      }
    }

    /** In every reachable state: removable objects are lost for good, usage figures are sound, scans have attempts left, and verdicts match. */
    lemma Guarantees()
      requires Valid()
      ensures FileObjects.StoreOk(Rows()) && FileQuota.UsageOk(Rows()) && FileScans.AttemptsLeft(files) && FileVerdicts.VerdictsOk(Rows())
    {
      var enabled: bool, initial: map<Id, Plan>, events: seq<Event> :| Rows() == Run(Empty(enabled, initial), events);
      FileObjects.RunKeepsStore(Empty(enabled, initial), events);
      FileQuota.RunKeepsUsageOk(Empty(enabled, initial), events);
      FileScans.RunKeepsAttempts(Empty(enabled, initial), events);
      FileVerdicts.RunKeepsVerdicts(Empty(enabled, initial), events);
    }
  }
}
