/**
  Stored files (backend/src/files): quota reservations, the file state machine, malware
  scanning, purging and orphan collection over one table of rows and one object store.

  The object key of a file is derived from its identifier, so the key is the identifier.
  Queries that pick a batch are answered by the database: the answer is part of the event and
  is taken only if it satisfies the query. Several maintenance passes may run at once.
*/
module Files {
  import opened Common
  import opened Totals

  const RESERVATION_TTL: nat := 15 * MINUTE
  const UPLOAD_URL_TTL: nat := 10 * MINUTE
  const STALE_PENDING: nat := HOUR
  const SCAN_TIMEOUT: nat := DAY
  const SOFT_DELETE_RETENTION: nat := 30 * DAY
  const AUDIT_RETENTION: nat := 90 * DAY
  const FAILED_RETENTION: nat := DAY
  const ORPHAN_AGE: nat := DAY
  const MAX_RESERVATIONS_PER_USER: nat := 5
  const MAX_RESERVATIONS_PER_ORGANIZATION: nat := 20
  const MAX_SCAN_ATTEMPTS: nat := 3
  const BATCH: nat := 100
  const MAX_SIZE: nat := 25 * 1024 * 1024

  datatype Status = Pending | Scanning | Ready | Deleted | Rejected | Failed | Purged

  datatype Malware = NotRequired | Awaited | Clean | Infected | Unsupported | ScanFailed

  datatype File = File(
    org: Id, uploader: Id, size: nat, status: Status, malware: Malware, attempts: nat,
    reservedUntil: Time, uploadedAt: Option<Time>, deletedAt: Option<Time>, purgeAfter: Option<Time>,
    auditUntil: Option<Time>)

  datatype Plan = Free | Pro

  datatype Quota = Quota(maxBytes: nat, maxFiles: nat)

  function QuotaOf(plan: Plan): Quota {
    match plan
    case Free => Quota(100 * 1024 * 1024, 100)
    case Pro => Quota(10 * 1024 * 1024 * 1024, 10_000)
  }

  datatype Outcome = FoundClean | FoundInfected | FoundUnsupported | FoundFailed | Errored

  datatype Request =
    | Quoted(org: Id, user: Id, size: nat, quota: Quota, now: Time)
    | Reserved(file: Id)
    | ScanPass(batch: seq<(Id, File)>)
    | PurgePass(ids: seq<Id>, objectGone: bool)
    | Listed(candidates: seq<Id>)
    | Orphans(keys: seq<Id>)

  datatype Store = Store(
    clock: Time,
    nextId: Id,
    scannerEnabled: bool,
    plans: map<Id, Plan>,
    files: map<Id, File>,
    objects: map<Id, Time>,
    uploadUntil: map<Id, Time>,
    inflight: map<Id, Request>)

  datatype FileEvent =
    | Tick(elapsed: nat)
    | SetPlan(org: Id, plan: Plan)
    | QuoteUpload(req: Id, org: Id, user: Id, size: nat)
    | ReserveUpload(req: Id)
    | IssueTarget(req: Id, available: bool)
    | PutObject(key: Id)
    | CompleteUpload(org: Id, id: Id, valid: bool)
    | DeleteFile(org: Id, id: Id)
    | RestoreFile(org: Id, id: Id)

  datatype MaintenanceEvent =
    | SelectScans(req: Id, ids: seq<Id>)
    | ApplyScan(req: Id, outcome: Outcome)
    | SelectPurge(req: Id, ids: seq<Id>)
    | PurgeObject(req: Id, removed: bool)
    | PurgeRow(req: Id)
    | ExpireAudit

  datatype OrphanEvent =
    | ListObjects(req: Id, keys: seq<Id>)
    | MatchRecords(req: Id)
    | DeleteOrphan(req: Id)

  datatype Event = Serving(file: FileEvent) | Maintaining(work: MaintenanceEvent) | Reconciling(sweep: OrphanEvent)

  // ---------------------------------------------------------------- counting

  predicate Reserving(f: File, now: Time) {
    f.status == Pending && now < f.reservedUntil
  }

  /** What counts against the quota: retained files and reservations that have not run out. */
  predicate Counted(f: File, now: Time) {
    f.status == Scanning || f.status == Ready || f.status == Deleted || Reserving(f, now)
  }

  function ByteWeight(files: map<Id, File>, org: Id, now: Time): nat -> nat {
    (i: nat) => if i in files && files[i].org == org && Counted(files[i], now) then files[i].size else 0
  }

  function FileWeight(files: map<Id, File>, org: Id, now: Time): nat -> nat {
    (i: nat) => if i in files && files[i].org == org && Counted(files[i], now) then 1 else 0
  }

  function OrgWeight(files: map<Id, File>, org: Id, now: Time): nat -> nat {
    (i: nat) => if i in files && files[i].org == org && Reserving(files[i], now) then 1 else 0
  }

  function UserWeight(files: map<Id, File>, org: Id, user: Id, now: Time): nat -> nat {
    (i: nat) => if i in files && files[i].org == org && files[i].uploader == user && Reserving(files[i], now) then 1 else 0
  }

  function UsedBytes(s: Store, org: Id, now: Time): nat {
    Total(ByteWeight(s.files, org, now), s.nextId)
  }

  function UsedFiles(s: Store, org: Id, now: Time): nat {
    Total(FileWeight(s.files, org, now), s.nextId)
  }

  function OrgReservations(s: Store, org: Id, now: Time): nat {
    Total(OrgWeight(s.files, org, now), s.nextId)
  }

  function UserReservations(s: Store, org: Id, user: Id, now: Time): nat {
    Total(UserWeight(s.files, org, user, now), s.nextId)
  }

  function PlanOf(s: Store, org: Id): Plan {
    if org in s.plans then s.plans[org] else Free
  }

  // ---------------------------------------------------------------- serving requests

  /** What `validateDeclaration` asks of the size; its other checks are on names and types. */
  predicate Declarable(size: nat) {
    1 <= size <= MAX_SIZE
  }

  /** `initiateUpload` up to its transaction: the plan in force and `now` are read here. */
  function DoQuote(s: Store, req: Id, org: Id, user: Id, size: nat): Store {
    if req in s.inflight || !Declarable(size) then s
    else s.(inflight := s.inflight[req := Quoted(org, user, size, QuotaOf(PlanOf(s, org)), s.clock)])
  }

  predicate Fits(s: Store, org: Id, user: Id, size: nat, quota: Quota, now: Time) {
    && UsedBytes(s, org, now) + size <= quota.maxBytes
    && UsedFiles(s, org, now) + 1 <= quota.maxFiles
    && OrgReservations(s, org, now) < MAX_RESERVATIONS_PER_ORGANIZATION
    && UserReservations(s, org, user, now) < MAX_RESERVATIONS_PER_USER
  }

  function NewFile(s: Store, org: Id, user: Id, size: nat, now: Time): File {
    File(org, user, size, Pending, if s.scannerEnabled then Awaited else NotRequired, 0,
         now + RESERVATION_TTL, None, None, None, None)
  }

  /** The transaction under the organization's advisory lock. */
  function DoReserve(s: Store, req: Id): Store {
    if req !in s.inflight || !s.inflight[req].Quoted? then
      s
    else
      var p := s.inflight[req];
      if Fits(s, p.org, p.user, p.size, p.quota, p.now) then
        s.(files := s.files[s.nextId := NewFile(s, p.org, p.user, p.size, p.now)],
           nextId := s.nextId + 1,
           inflight := s.inflight[req := Reserved(s.nextId)])
      else
        s.(inflight := s.inflight - {req})
  }

  function DoIssueTarget(s: Store, req: Id, available: bool): Store {
    if req !in s.inflight || !s.inflight[req].Reserved? then
      s
    else
      var id := s.inflight[req].file;
      var t := s.(inflight := s.inflight - {req});
      if available then
        t.(uploadUntil := s.uploadUntil[id := s.clock + UPLOAD_URL_TTL])
      else if id in s.files then
        t.(files := s.files[id := s.files[id].(status := Failed, purgeAfter := Some(s.clock))])
      else
        t
  }

  /** A client writes through a signed URL, which is honoured to the second. */
  function DoPutObject(s: Store, key: Id): Store {
    if key in s.uploadUntil && s.clock / SECOND <= s.uploadUntil[key] / SECOND then
      s.(objects := s.objects[key := s.clock])
    else
      s
  }

  predicate Scoped(s: Store, org: Id, id: Id) {
    id in s.files && s.files[id].org == org && s.files[id].status != Purged
  }

  function Completed(f: File, now: Time, valid: bool, scannerEnabled: bool): File {
    if !valid then
      f.(status := Rejected, malware := Unsupported, uploadedAt := Some(now), purgeAfter := Some(now + FAILED_RETENTION))
    else if scannerEnabled then
      f.(status := Scanning, malware := Awaited, uploadedAt := Some(now))
    else
      f.(status := Ready, malware := NotRequired, uploadedAt := Some(now))
  }

  /** `valid` is whether the stored object passes content validation. */
  function DoComplete(s: Store, org: Id, id: Id, valid: bool): Store {
    if Scoped(s, org, id) && Reserving(s.files[id], s.clock) && id in s.objects then
      s.(files := s.files[id := Completed(s.files[id], s.clock, valid, s.scannerEnabled)])
    else
      s
  }

  function SoftDeleted(f: File, now: Time): File {
    f.(status := Deleted, deletedAt := Some(now), purgeAfter := Some(now + SOFT_DELETE_RETENTION))
  }

  function DoDelete(s: Store, org: Id, id: Id): Store {
    if !Scoped(s, org, id) then
      s
    else
      var f := s.files[id];
      if f.status == Pending then
        s.(objects := s.objects - {id},
           files := s.files[id := f.(status := Purged, auditUntil := Some(s.clock + AUDIT_RETENTION))])
      else if f.status == Ready || f.status == Scanning then
        s.(files := s.files[id := SoftDeleted(f, s.clock)])
      else
        s
  }

  /** Only an awaited verdict sends a restored file back to the scanner. */
  function RestoredStatus(m: Malware): Status {
    if m == Awaited then Scanning else Ready
  }

  predicate Restorable(f: File, now: Time) {
    f.status == Deleted && f.purgeAfter.Some? && now < f.purgeAfter.value
  }

  function Restored(f: File): File {
    f.(status := RestoredStatus(f.malware), deletedAt := None, purgeAfter := None)
  }

  function DoRestore(s: Store, org: Id, id: Id): Store {
    if Scoped(s, org, id) && Restorable(s.files[id], s.clock) then
      s.(files := s.files[id := Restored(s.files[id])])
    else
      s
  }

  function ServeStep(s: Store, e: FileEvent): Store {
    match e
    case Tick(d) => s.(clock := s.clock + d)
    case SetPlan(org, plan) => s.(plans := s.plans[org := plan])
    case QuoteUpload(r, org, u, n) => DoQuote(s, r, org, u, n)
    case ReserveUpload(r) => DoReserve(s, r)
    case IssueTarget(r, ok) => DoIssueTarget(s, r, ok)
    case PutObject(k) => DoPutObject(s, k)
    case CompleteUpload(org, id, ok) => DoComplete(s, org, id, ok)
    case DeleteFile(org, id) => DoDelete(s, org, id)
    case RestoreFile(org, id) => DoRestore(s, org, id)
  }

  // ---------------------------------------------------------------- maintenance

  predicate AllScanning(files: map<Id, File>, ids: seq<Id>) {
    forall i :: 0 <= i < |ids| ==> ids[i] in files && files[ids[i]].status == Scanning
  }

  function Snapshots(files: map<Id, File>, ids: seq<Id>): seq<(Id, File)>
    requires AllScanning(files, ids)
  {
    seq(|ids|, i requires 0 <= i < |ids| => (ids[i], files[ids[i]]))
  }

  function DoSelectScans(s: Store, req: Id, ids: seq<Id>): Store {
    if s.scannerEnabled && req !in s.inflight && |ids| <= BATCH && AllScanning(s.files, ids) then
      s.(inflight := s.inflight[req := ScanPass(Snapshots(s.files, ids))])
    else
      s
  }

  function FailedScan(f: File, malware: Malware, attempts: nat, now: Time): File {
    f.(status := Failed, malware := malware, attempts := attempts, purgeAfter := Some(now))
  }

  /** The row after one scan of a file that is still SCANNING; `seen` is the row as the pass read it. */
  function Scanned(f: File, seen: File, outcome: Outcome, now: Time): File {
    var n := seen.attempts + 1;
    if seen.uploadedAt.Some? && seen.uploadedAt.value + SCAN_TIMEOUT <= now then
      FailedScan(f, ScanFailed, n, now)
    else
      match outcome
      case FoundClean => f.(status := Ready, malware := Clean)
      case FoundInfected => f.(status := Rejected, malware := Infected, purgeAfter := Some(now))
      case FoundUnsupported =>
        if n >= MAX_SCAN_ATTEMPTS then FailedScan(f, Unsupported, n, now) else f.(attempts := n, malware := Unsupported)
      case FoundFailed =>
        if n >= MAX_SCAN_ATTEMPTS then FailedScan(f, ScanFailed, n, now) else f.(attempts := n, malware := ScanFailed)
      case Errored =>
        if n >= MAX_SCAN_ATTEMPTS then FailedScan(f, ScanFailed, n, now) else f.(attempts := n)
  }

  /** The conditional update: it counts a row only while the file is still SCANNING. */
  function ScanOne(files: map<Id, File>, id: Id, seen: File, outcome: Outcome, now: Time): map<Id, File> {
    if id in files && files[id].status == Scanning
    then files[id := Scanned(files[id], seen, outcome, now)]
    else files
  }

  function DoApplyScan(s: Store, req: Id, outcome: Outcome): Store {
    if req !in s.inflight || !s.inflight[req].ScanPass? then
      s
    else
      var batch := s.inflight[req].batch;
      if batch == [] then
        s.(inflight := s.inflight - {req})
      else
        s.(files := ScanOne(s.files, batch[0].0, batch[0].1, outcome, s.clock),
           inflight := s.inflight[req := ScanPass(batch[1..])])
  }

  predicate Expired(f: File, now: Time) {
    || (f.status == Pending && f.reservedUntil + STALE_PENDING <= now)
    || ((f.status == Deleted || f.status == Rejected || f.status == Failed)
        && f.purgeAfter.Some? && f.purgeAfter.value <= now)
  }

  function DoSelectPurge(s: Store, req: Id, ids: seq<Id>): Store {
    if req !in s.inflight && |ids| <= BATCH
       && (forall i :: 0 <= i < |ids| ==> ids[i] in s.files && Expired(s.files[ids[i]], s.clock)) then
      s.(inflight := s.inflight[req := PurgePass(ids, false)])
    else
      s
  }

  /** The object goes first; a failed removal leaves the row for the next pass. */
  function DoPurgeObject(s: Store, req: Id, removed: bool): Store {
    if req !in s.inflight || !s.inflight[req].PurgePass? then
      s
    else
      var p := s.inflight[req];
      if p.ids == [] then
        s.(inflight := s.inflight - {req})
      else if p.objectGone then
        s
      else if removed then
        s.(objects := s.objects - {p.ids[0]}, inflight := s.inflight[req := PurgePass(p.ids, true)])
      else
        s.(inflight := s.inflight[req := PurgePass(p.ids[1..], false)])
  }

  /** An unconditional update by identifier. */
  function DoPurgeRow(s: Store, req: Id): Store {
    if req !in s.inflight || !s.inflight[req].PurgePass? then
      s
    else
      var p := s.inflight[req];
      if p.ids == [] || !p.objectGone then
        s
      else
        var t := s.(inflight := s.inflight[req := PurgePass(p.ids[1..], false)]);
        if p.ids[0] in s.files then
          t.(files := s.files[p.ids[0] := s.files[p.ids[0]].(status := Purged, auditUntil := Some(s.clock + AUDIT_RETENTION))])
        else
          t
  }

  function DoExpireAudit(s: Store): Store {
    s.(files := map id | id in s.files
                      && !(s.files[id].status == Purged && s.files[id].auditUntil.Some?
                           && s.files[id].auditUntil.value <= s.clock)
                  :: s.files[id])
  }

  /** Keys of stored objects that were last modified long enough ago. */
  function DoListObjects(s: Store, req: Id, keys: seq<Id>): Store {
    if req !in s.inflight && (forall i :: 0 <= i < |keys| ==> keys[i] in s.objects && s.objects[keys[i]] + ORPHAN_AGE <= s.clock) then
      s.(inflight := s.inflight[req := Listed(keys)])
    else
      s
  }

  function WithoutRecord(files: map<Id, File>, keys: seq<Id>): seq<Id> {
    if keys == [] then []
    else (if keys[0] in files then [] else [keys[0]]) + WithoutRecord(files, keys[1..])
  }

  function DoMatchRecords(s: Store, req: Id): Store {
    if req in s.inflight && s.inflight[req].Listed? then
      s.(inflight := s.inflight[req := Orphans(WithoutRecord(s.files, s.inflight[req].candidates))])
    else
      s
  }

  function DoDeleteOrphan(s: Store, req: Id): Store {
    if req !in s.inflight || !s.inflight[req].Orphans? then
      s
    else
      var keys := s.inflight[req].keys;
      if keys == [] then s.(inflight := s.inflight - {req})
      else s.(objects := s.objects - {keys[0]}, inflight := s.inflight[req := Orphans(keys[1..])])
  }

  function MaintainStep(s: Store, e: MaintenanceEvent): Store {
    match e
    case SelectScans(r, ids) => DoSelectScans(s, r, ids)
    case ApplyScan(r, o) => DoApplyScan(s, r, o)
    case SelectPurge(r, ids) => DoSelectPurge(s, r, ids)
    case PurgeObject(r, ok) => DoPurgeObject(s, r, ok)
    case PurgeRow(r) => DoPurgeRow(s, r)
    case ExpireAudit => DoExpireAudit(s)
  }

  function ReconcileStep(s: Store, e: OrphanEvent): Store {
    match e
    case ListObjects(r, keys) => DoListObjects(s, r, keys)
    case MatchRecords(r) => DoMatchRecords(s, r)
    case DeleteOrphan(r) => DoDeleteOrphan(s, r)
  }

  function Step(s: Store, e: Event): Store {
    match e
    case Serving(f) => ServeStep(s, f)
    case Maintaining(w) => MaintainStep(s, w)
    case Reconciling(o) => ReconcileStep(s, o)
  }

  function Run(s: Store, events: seq<Event>): Store
    decreases |events|
  {
    if events == [] then s else Run(Step(s, events[0]), events[1..])
  }

  function Empty(scannerEnabled: bool, plans: map<Id, Plan>): Store {
    Store(0, 0, scannerEnabled, plans, map[], map[], map[], map[])
  }

  lemma {:induction false} RunAppend(s: Store, a: seq<Event>, b: seq<Event>)
    ensures Run(s, a + b) == Run(Run(s, a), b)
    decreases |a|
  {
    if a == [] {
      assert a + b == b;
    } else {
      assert (a + b)[1..] == a[1..] + b;
      RunAppend(Step(s, a[0]), a[1..], b);
    }
  }

  /** Some run leads here. */
  ghost predicate Reachable(s: Store) {
    exists enabled: bool, plans: map<Id, Plan>, events: seq<Event> :: s == Run(Empty(enabled, plans), events)
  }

  lemma ReachStep(s: Store, e: Event)
    requires Reachable(s)
    ensures Reachable(Step(s, e))
  {
    var enabled: bool, plans: map<Id, Plan>, events: seq<Event> :| s == Run(Empty(enabled, plans), events);
    RunAppend(Empty(enabled, plans), events, [e]);
    assert Run(s, [e]) == Run(Step(s, e), [e][1..]);
    assert Step(s, e) == Run(Empty(enabled, plans), events + [e]);
  }
}
