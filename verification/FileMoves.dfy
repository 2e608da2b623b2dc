/** The file state machine: what one step can do to the table of files. */
module FileMoves {
  import opened Common
  import opened Files

  /** A legal transition of one row. FAILED and PURGED are reachable from anywhere; nothing leads back to PENDING. */
  predicate Moves(f: File, g: File, now: Time) {
    && g.org == f.org && g.uploader == f.uploader && g.size == f.size
    && (g.attempts == f.attempts || g.attempts < MAX_SCAN_ATTEMPTS || g.status == Failed)
    && match g.status
       case Pending => false
       case Scanning => Reserving(f, now) || f.status == Scanning || Restorable(f, now)
       case Ready => Reserving(f, now) || f.status == Scanning || Restorable(f, now)
       case Deleted => (f.status == Ready || f.status == Scanning) && g.purgeAfter == Some(now + SOFT_DELETE_RETENTION)
       case Rejected => Reserving(f, now) || f.status == Scanning
       case Failed => true
       case Purged => true
  }

  datatype Change = Same | Row(id: Id, row: File) | Pruned | New(row: File)

  ghost predicate ChangedBy(s: Store, t: Store, c: Change) {
    && s.clock <= t.clock
    && match c
       case Same => t.files == s.files && t.nextId == s.nextId
       case Row(id, g) =>
         && id in s.files && Moves(s.files[id], g, s.clock)
         && t.files == s.files[id := g] && t.nextId == s.nextId && t.clock == s.clock
       case Pruned =>
         && t.nextId == s.nextId
         && forall id :: id in t.files ==> id in s.files && t.files[id] == s.files[id]
       case New(g) =>
         && g.status == Pending && g.attempts == 0
         && t.files == s.files[s.nextId := g] && t.nextId == s.nextId + 1 && t.clock == s.clock
  }

  lemma IssueChange(s: Store, r: Id, ok: bool) returns (c: Change)
    ensures ChangedBy(s, DoIssueTarget(s, r, ok), c) && !c.New?
  {
    c := Same;
    if r in s.inflight && s.inflight[r].Reserved? && !ok {
      var id := s.inflight[r].file;
      if id in s.files { c := Row(id, s.files[id].(status := Failed, purgeAfter := Some(s.clock))); }
    }
  }

  /** Request `r` holds a quote under which `f` fits. */
  predicate Admits(s: Store, r: Id, f: File) {
    && r in s.inflight && s.inflight[r].Quoted?
    && var p := s.inflight[r];
       Fits(s, p.org, p.user, p.size, p.quota, p.now) && f == NewFile(s, p.org, p.user, p.size, p.now)
  }

  lemma ReserveChange(s: Store, r: Id) returns (c: Change)
    ensures ChangedBy(s, DoReserve(s, r), c)
    ensures c.New? ==> Admits(s, r, c.row)
    ensures !c.New? ==> c.Same?
  {
    c := Same;
    if r in s.inflight && s.inflight[r].Quoted? {
      var p := s.inflight[r];
      if Fits(s, p.org, p.user, p.size, p.quota, p.now) { c := New(NewFile(s, p.org, p.user, p.size, p.now)); }
    }
  }

  lemma CompleteChange(s: Store, org: Id, id: Id, ok: bool) returns (c: Change)
    ensures ChangedBy(s, DoComplete(s, org, id, ok), c) && !c.New?
  {
    c := Same;
    if Scoped(s, org, id) && Reserving(s.files[id], s.clock) && id in s.objects {
      c := Row(id, Completed(s.files[id], s.clock, ok, s.scannerEnabled));
    }
  }

  lemma DeleteChange(s: Store, org: Id, id: Id) returns (c: Change)
    ensures ChangedBy(s, DoDelete(s, org, id), c) && !c.New?
  {
    c := Same;
    if Scoped(s, org, id) {
      var f := s.files[id];
      if f.status == Pending {
        c := Row(id, f.(status := Purged, auditUntil := Some(s.clock + AUDIT_RETENTION)));
      } else if f.status == Ready || f.status == Scanning {
        c := Row(id, SoftDeleted(f, s.clock));
      }
    }
  }

  lemma RestoreChange(s: Store, org: Id, id: Id) returns (c: Change)
    ensures ChangedBy(s, DoRestore(s, org, id), c) && !c.New?
  {
    c := Same;
    if Scoped(s, org, id) && Restorable(s.files[id], s.clock) { c := Row(id, Restored(s.files[id])); }
  }

  lemma ScanChange(s: Store, r: Id, o: Outcome) returns (c: Change)
    ensures ChangedBy(s, DoApplyScan(s, r, o), c) && !c.New?
  {
    c := Same;
    if r in s.inflight && s.inflight[r].ScanPass? && s.inflight[r].batch != [] {
      var (id, seen) := s.inflight[r].batch[0];
      if id in s.files && s.files[id].status == Scanning { c := Row(id, Scanned(s.files[id], seen, o, s.clock)); }
    }
  }

  lemma PurgeRowChange(s: Store, r: Id) returns (c: Change)
    ensures ChangedBy(s, DoPurgeRow(s, r), c) && !c.New?
  {
    c := Same;
    if r in s.inflight && s.inflight[r].PurgePass? {
      var p := s.inflight[r];
      if p.ids != [] && p.objectGone && p.ids[0] in s.files {
        c := Row(p.ids[0], s.files[p.ids[0]].(status := Purged, auditUntil := Some(s.clock + AUDIT_RETENTION)));
      }
    }
  }

  lemma ServeChange(s: Store, e: FileEvent) returns (c: Change)
    ensures ChangedBy(s, ServeStep(s, e), c)
    ensures c.New? ==> e.ReserveUpload? && Admits(s, e.req, c.row)
  {
    match e
    case ReserveUpload(r) => c := ReserveChange(s, r);
    case IssueTarget(r, ok) => c := IssueChange(s, r, ok);
    case CompleteUpload(org, id, ok) => c := CompleteChange(s, org, id, ok);
    case DeleteFile(org, id) => c := DeleteChange(s, org, id);
    case RestoreFile(org, id) => c := RestoreChange(s, org, id);
    case _ => c := Same;
  }

  lemma MaintainChange(s: Store, e: MaintenanceEvent) returns (c: Change)
    ensures ChangedBy(s, MaintainStep(s, e), c) && !c.New?
  {
    match e
    case ApplyScan(r, o) => c := ScanChange(s, r, o);
    case PurgeRow(r) => c := PurgeRowChange(s, r);
    case ExpireAudit => c := Pruned;
    case _ => c := Same;
  }

  lemma StepChange(s: Store, e: Event) returns (c: Change)
    ensures ChangedBy(s, Step(s, e), c)
    ensures c.New? ==> e.Serving? && e.file.ReserveUpload? && Admits(s, e.file.req, c.row)
  {
    match e
    case Serving(f) => c := ServeChange(s, f);
    case Maintaining(w) => c := MaintainChange(s, w);
    case Reconciling(_) => c := Same;
  }
}
