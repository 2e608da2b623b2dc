/**
  The life of a file from its reservation to its end, said in terms of the rows and objects before
  and after: when an upload is admitted, may be written and completed, how long a deleted file can
  be restored, and when objects and rows finally go.
*/
module FileLifecycle {
  import opened Common
  import opened Totals
  import opened Files
  import opened FileQuota
  import opened FileAnswers

  // ---------------------------------------------------------------- what the figures count

  /** The files of `org` that are SCANNING, READY or DELETED, or PENDING with a reservation that has not run out. */
  function CountedFiles(files: map<Id, File>, org: Id, now: Time): set<Id> {
    set id | id in files && files[id].org == org
             && (files[id].status in {Scanning, Ready, Deleted} || (files[id].status == Pending && now < files[id].reservedUntil))
  }

  function ReservingFiles(files: map<Id, File>, org: Id, now: Time): set<Id> {
    set id | id in files && files[id].org == org && files[id].status == Pending && now < files[id].reservedUntil
  }

  function ReservingFilesOf(files: map<Id, File>, org: Id, user: Id, now: Time): set<Id> {
    set id | id in ReservingFiles(files, org, now) && files[id].uploader == user
  }

  /** A sum of ones counts a set. */
  lemma {:induction false} TotalIsCount(w: nat -> nat, n: nat, ids: set<Id>)
    requires forall i :: 0 <= i < n ==> w(i) == if i in ids then 1 else 0
    requires forall i :: i in ids ==> i < n
    ensures Total(w, n) == |ids|
  {
    if n == 0 {
      assert ids == {};
    } else {
      TotalIsCount(w, n - 1, ids - {n - 1});
    }
  }

  /** The number of files used and the two numbers of reservations are the sizes of these sets. */
  lemma FiguresCount(s: Store, org: Id, user: Id, now: Time)
    requires Bounded(s)
    ensures UsedFiles(s, org, now) == |CountedFiles(s.files, org, now)|
    ensures OrgReservations(s, org, now) == |ReservingFiles(s.files, org, now)|
    ensures UserReservations(s, org, user, now) == |ReservingFilesOf(s.files, org, user, now)|
  {
    TotalIsCount(FileWeight(s.files, org, now), s.nextId, CountedFiles(s.files, org, now));
    TotalIsCount(OrgWeight(s.files, org, now), s.nextId, ReservingFiles(s.files, org, now));
    TotalIsCount(UserWeight(s.files, org, user, now), s.nextId, ReservingFilesOf(s.files, org, user, now));
  }

  /** The bytes used are the sizes of the counted files, summed: taking one file away lowers them by its size. */
  lemma BytesAreSizes(s: Store, org: Id, now: Time, id: Id)
    requires Bounded(s) && id in s.files
    ensures var t := s.(files := s.files - {id});
            && UsedBytes(s, org, now) == UsedBytes(t, org, now) + (if id in CountedFiles(s.files, org, now) then s.files[id].size else 0)
            && (CountedFiles(s.files, org, now) == {} ==> UsedBytes(s, org, now) == 0)
  {
    var files := s.files - {id};
    TotalChange(ByteWeight(s.files, org, now), ByteWeight(files, org, now), s.nextId, id);
    if CountedFiles(s.files, org, now) == {} {
      forall i | 0 <= i < s.nextId ensures ByteWeight(s.files, org, now)(i) == 0 {
        assert i !in CountedFiles(s.files, org, now);
      }
      TotalConstant(ByteWeight(s.files, org, now), s.nextId, 0);
    }
  }

  // ---------------------------------------------------------------- uploading

  /** The limits as the plans state them: 100 MB and 100 files, or 10 GB and 10000 files; 20 reservations and 5 of the user. */
  predicate WithinLimits(t: Store, org: Id, user: Id, pro: bool, now: Time) {
    && UsedBytes(t, org, now) <= (if pro then 10737418240 else 104857600)
    && UsedFiles(t, org, now) <= (if pro then 10000 else 100)
    && OrgReservations(t, org, now) <= 20 && UserReservations(t, org, user, now) <= 5
  }

  /**
    Asking for an upload reserves a PENDING row for 15 minutes exactly when the size is from 1 byte to
    25 MB and the table with that row is within the limits; otherwise the table is as before. Both are
    reckoned from when the request was made, however long the transaction has to wait.
  */
  lemma UploadAdmitted(s: Store, req: Id, org: Id, user: Id, size: nat, wait: nat) returns (f: File, t: Store)
    requires UsageOk(s) && req !in s.inflight
    ensures f == File(org, user, size, Pending, if s.scannerEnabled then Awaited else NotRequired, 0,
                      s.clock + 15 * MINUTE, None, None, None, None)
    ensures t == Step(Step(Step(s, Serving(QuoteUpload(req, org, user, size))), Serving(Tick(wait))), Serving(ReserveUpload(req)))
    ensures var full := s.(files := s.files[s.nextId := f], nextId := s.nextId + 1);
            var pro := org in s.plans && s.plans[org] == Pro;
            if 1 <= size <= 26214400 && WithinLimits(full, org, user, pro, s.clock)
            then t == full.(inflight := s.inflight[req := Reserved(s.nextId)], clock := s.clock + wait)
            else t == s.(clock := s.clock + wait)
  {
    f := NewFile(s, org, user, size, s.clock);
    t := Step(Step(Step(s, Serving(QuoteUpload(req, org, user, size))), Serving(Tick(wait))), Serving(ReserveUpload(req)));
    AdmittedExactlyWhenItFits(s, req, org, user, size);
    WaitsToReserve(s, req, org, user, size, wait);
    var full := s.(files := s.files[s.nextId := f], nextId := s.nextId + 1);
    assert full == WithFile(s, f);
    LimitsOfPlan(s, full, org, user, s.clock);
  }

  /** Waiting between the two steps changes nothing but the clock. */
  lemma WaitsToReserve(s: Store, req: Id, org: Id, user: Id, size: nat, wait: nat)
    requires req !in s.inflight
    ensures var q := Step(s, Serving(QuoteUpload(req, org, user, size)));
            Step(Step(q, Serving(Tick(wait))), Serving(ReserveUpload(req))) == Step(q, Serving(ReserveUpload(req))).(clock := s.clock + wait)
  {
    var q := Step(s, Serving(QuoteUpload(req, org, user, size)));
    var w := Step(q, Serving(Tick(wait)));
    assert q.clock == s.clock && w == q.(clock := s.clock + wait);
    SameFit(q, w, req);
  }

  lemma SameFit(q: Store, w: Store, req: Id)
    requires w == q.(clock := w.clock)
    ensures DoReserve(w, req) == DoReserve(q, req).(clock := w.clock)
  {
    if req in q.inflight && q.inflight[req].Quoted? {
      var p := q.inflight[req];
      assert Fits(w, p.org, p.user, p.size, p.quota, p.now) == Fits(q, p.org, p.user, p.size, p.quota, p.now);
      assert NewFile(w, p.org, p.user, p.size, p.now) == NewFile(q, p.org, p.user, p.size, p.now);
    }
  }

  lemma LimitsOfPlan(s: Store, t: Store, org: Id, user: Id, now: Time)
    ensures WithinLimits(t, org, user, org in s.plans && s.plans[org] == Pro, now) <==> Respects(t, org, user, QuotaOf(PlanOf(s, org)), now)
  {
  }

  /** The target of a reservation: a URL for ten minutes, or else the row has failed and is due for purging. */
  lemma TargetExactly(s: Store, req: Id, id: Id, available: bool)
    requires req in s.inflight && s.inflight[req] == Reserved(id) && id in s.files
    ensures var t, done := Step(s, Serving(IssueTarget(req, available))), s.(inflight := s.inflight - {req});
            if available then t == done.(uploadUntil := s.uploadUntil[id := s.clock + 10 * MINUTE])
            else t == done.(files := s.files[id := s.files[id].(status := Failed, purgeAfter := Some(s.clock))])
  {
  }

  /** An upload is completed by its organization while its reservation lasts and its object is there, and not otherwise. */
  lemma CompleteExactly(s: Store, org: Id, id: Id, valid: bool)
    ensures var t := Step(s, Serving(CompleteUpload(org, id, valid)));
            if id in s.files && s.files[id].org == org && s.files[id].status == Pending && s.clock < s.files[id].reservedUntil && id in s.objects
            then
              && id in t.files && t == s.(files := s.files[id := t.files[id]])
              && t.files[id].uploadedAt == Some(s.clock)
              && t.files[id] == s.files[id].(status := t.files[id].status, malware := t.files[id].malware,
                                             uploadedAt := t.files[id].uploadedAt, purgeAfter := t.files[id].purgeAfter)
              && (t.files[id].status == Rejected <==> !valid)
              && (t.files[id].status == Scanning <==> valid && s.scannerEnabled)
              && (t.files[id].status == Ready <==> valid && !s.scannerEnabled)
              && t.files[id].malware == (if !valid then Unsupported else if s.scannerEnabled then Awaited else NotRequired)
              && t.files[id].purgeAfter == (if valid then s.files[id].purgeAfter else Some(s.clock + 24 * HOUR))
            else t == s
  {
  }

  /** The object of a URL, put some time after the URL was issued. */
  lemma PutAfter(s: Store, req: Id, id: Id, wait: nat) returns (a: Store)
    requires req in s.inflight && s.inflight[req] == Reserved(id) && id in s.files && id !in s.objects
    ensures a == Step(Step(Step(s, Serving(IssueTarget(req, true))), Serving(Tick(wait))), Serving(PutObject(id)))
    ensures a.files == s.files && a.clock == s.clock + wait && a.scannerEnabled == s.scannerEnabled
    ensures id in a.objects <==> (s.clock + wait) / 1000 <= (s.clock + 10 * MINUTE) / 1000
    ensures a.objects == if id in a.objects then s.objects[id := a.clock] else s.objects
  {
    TargetExactly(s, req, id, true);
    var b := Step(s, Serving(IssueTarget(req, true)));
    var c := Step(b, Serving(Tick(wait)));
    assert c == b.(clock := b.clock + wait);
    a := Step(c, Serving(PutObject(id)));
  }

  /**
    A reserved upload leaves PENDING exactly if its object was put within ten minutes, to the second,
    and it was completed within fifteen.
  */
  lemma UploadInTime(s: Store, req: Id, id: Id, toPut: nat, toComplete: nat, valid: bool) returns (t: Store)
    requires req in s.inflight && s.inflight[req] == Reserved(id) && id in s.files && id !in s.objects
    requires s.files[id].status == Pending && s.files[id].reservedUntil == s.clock + 15 * MINUTE
    ensures var a := Step(Step(Step(s, Serving(IssueTarget(req, true))), Serving(Tick(toPut))), Serving(PutObject(id)));
            t == Step(Step(a, Serving(Tick(toComplete))), Serving(CompleteUpload(s.files[id].org, id, valid)))
    ensures id in t.files && t.files == s.files[id := t.files[id]]
    ensures t.files[id].status != Pending <==>
              (s.clock + toPut) / 1000 <= (s.clock + 10 * MINUTE) / 1000 && toPut + toComplete < 15 * MINUTE
    ensures t.files[id].status in {Scanning, Ready} ==> valid && id in t.objects
  {
    var a := PutAfter(s, req, id, toPut);
    var b := Step(a, Serving(Tick(toComplete)));
    assert b == a.(clock := a.clock + toComplete);
    CompleteExactly(b, s.files[id].org, id, valid);
    t := Step(b, Serving(CompleteUpload(s.files[id].org, id, valid)));
  }

  // ---------------------------------------------------------------- deleting and restoring

  /** Deleting an upload in progress ends it at once; deleting a file keeps it for thirty days; anything else is left alone. */
  lemma DeleteExactly(s: Store, org: Id, id: Id)
    ensures var t := Step(s, Serving(DeleteFile(org, id)));
            if id !in s.files || s.files[id].org != org || s.files[id].status in {Deleted, Rejected, Failed, Purged} then t == s
            else if s.files[id].status == Pending then
              t == s.(objects := s.objects - {id},
                      files := s.files[id := s.files[id].(status := Purged, auditUntil := Some(s.clock + 90 * DAY))])
            else
              t == s.(files := s.files[id := s.files[id].(status := Deleted, deletedAt := Some(s.clock),
                                                          purgeAfter := Some(s.clock + 30 * DAY))])
  {
  }

  /** A deleted file comes back inside its window: to the scanner if its verdict is still awaited, else as READY. */
  lemma RestoreExactly(s: Store, org: Id, id: Id)
    ensures var t := Step(s, Serving(RestoreFile(org, id)));
            if id in s.files && s.files[id].org == org && s.files[id].status == Deleted
               && s.files[id].purgeAfter.Some? && s.clock < s.files[id].purgeAfter.value
            then t == s.(files := s.files[id := s.files[id].(status := if s.files[id].malware == Awaited then Scanning else Ready,
                                                             deletedAt := None, purgeAfter := None)])
            else t == s
  {
  }

  // ---------------------------------------------------------------- purging

  /** PENDING an hour past its reservation, or DELETED, REJECTED or FAILED and due. */
  predicate Purgeable(f: File, now: Time) {
    || (f.status == Pending && f.reservedUntil + HOUR <= now)
    || (f.status in {Deleted, Rejected, Failed} && f.purgeAfter.Some? && f.purgeAfter.value <= now)
  }

  /** One undisturbed purge, which waits for the storage. */
  function Purging(s: Store, req: Id, id: Id, removed: bool, wait: nat): Store {
    var a := Step(Step(s, Maintaining(SelectPurge(req, [id]))), Maintaining(PurgeObject(req, removed)));
    Step(Step(a, Serving(Tick(wait))), Maintaining(PurgeRow(req)))
  }

  /** It purges exactly a row that is due, object first; if the object cannot be removed, row and object stay. */
  lemma PurgeExactly(s: Store, req: Id, id: Id, removed: bool, wait: nat)
    requires req !in s.inflight
    ensures var t := Purging(s, req, id, removed, wait);
            if id in s.files && Purgeable(s.files[id], s.clock) && removed
               then t.objects == s.objects - {id}
                    && t.files == s.files[id := s.files[id].(status := Purged, auditUntil := Some(s.clock + wait + 90 * DAY))]
               else t.objects == s.objects && t.files == s.files
  {
    var a := Step(s, Maintaining(SelectPurge(req, [id])));
    assert [id][0] == id;
    if id in s.files && Purgeable(s.files[id], s.clock) {
      assert a == s.(inflight := s.inflight[req := PurgePass([id], false)]);
      PurgeSteps(a, req, id, removed, wait);
    } else {
      assert a == s;
    }
  }

  lemma PurgeSteps(a: Store, req: Id, id: Id, removed: bool, wait: nat)
    requires req in a.inflight && a.inflight[req] == PurgePass([id], false) && id in a.files
    ensures var t := DoPurgeRow(ServeStep(DoPurgeObject(a, req, removed), Tick(wait)), req);
            && t.objects == (if removed then a.objects - {id} else a.objects)
            && t.files == if removed then a.files[id := a.files[id].(status := Purged, auditUntil := Some(a.clock + wait + 90 * DAY))] else a.files
  {
    var b := DoPurgeObject(a, req, removed);
    assert [id][1..] == [];
    if removed {
      assert b == a.(objects := a.objects - {id}, inflight := a.inflight[req := PurgePass([id], true)]);
    } else {
      assert b == a.(inflight := a.inflight[req := PurgePass([], false)]);
    }
  }

  /** A purge pass takes up to a hundred rows that are all due, and changes no row by that. */
  lemma SelectPurgeExactly(s: Store, req: Id, ids: seq<Id>)
    requires req !in s.inflight
    ensures Step(s, Maintaining(SelectPurge(req, ids)))
            == if |ids| <= 100 && (forall i :: 0 <= i < |ids| ==> ids[i] in s.files && Purgeable(s.files[ids[i]], s.clock))
               then s.(inflight := s.inflight[req := PurgePass(ids, false)]) else s
  {
    forall i | 0 <= i < |ids| && ids[i] in s.files ensures Purgeable(s.files[ids[i]], s.clock) <==> Expired(s.files[ids[i]], s.clock) {
    }
  }

  /** A deleted file can be restored for thirty days, and from then on, and no sooner, it is purged. */
  lemma RestoredOrPurged(s: Store, req: Id, id: Id, wait: nat) returns (a: Store)
    requires req !in s.inflight && id in s.files && s.files[id].status in {Ready, Scanning}
    ensures a == Step(Step(s, Serving(DeleteFile(s.files[id].org, id))), Serving(Tick(wait)))
    ensures var back, gone := Step(a, Serving(RestoreFile(s.files[id].org, id))), Purging(a, req, id, true, 0);
            && id in back.files && id in gone.files
            && (back.files[id].status in {Ready, Scanning} <==> wait < 30 * DAY)
            && (gone.files[id].status == Purged <==> 30 * DAY <= wait)
            && (wait < 30 * DAY ==> gone.objects == s.objects && back.objects == s.objects)
  {
    var d := Step(s, Serving(DeleteFile(s.files[id].org, id)));
    DeleteExactly(s, s.files[id].org, id);
    a := Step(d, Serving(Tick(wait)));
    assert a == d.(clock := d.clock + wait);
    RestoreExactly(a, s.files[id].org, id);
    PurgeExactly(a, req, id, true, 0);
  }

  /** Exactly the PURGED rows past their audit date go. */
  lemma AuditRowsExpire(s: Store)
    ensures var t := Step(s, Maintaining(ExpireAudit));
            && t == s.(files := t.files)
            && forall id: Id ::
                 && (id in t.files <==> id in s.files && !(s.files[id].status == Purged && s.files[id].auditUntil.Some?
                                                           && s.files[id].auditUntil.value <= s.clock))
                 && (id in t.files ==> t.files[id] == s.files[id])
  {
  }

  // ---------------------------------------------------------------- orphans

  /** One undisturbed collection of one key. */
  function Collecting(s: Store, req: Id, key: Id): Store {
    Step(Step(Step(s, Reconciling(ListObjects(req, [key]))), Reconciling(MatchRecords(req))), Reconciling(DeleteOrphan(req)))
  }

  /** It removes an object exactly if that is a day old and no row has its key, and nothing else. */
  lemma CollectExactly(s: Store, req: Id, key: Id)
    requires req !in s.inflight
    ensures var t := Collecting(s, req, key);
            && t.files == s.files
            && t.objects == if key in s.objects && s.objects[key] + 24 * HOUR <= s.clock && key !in s.files then s.objects - {key} else s.objects
  {
    var a := Step(s, Reconciling(ListObjects(req, [key])));
    assert [key][0] == key;
    if key in s.objects && s.objects[key] + 24 * HOUR <= s.clock {
      assert a == s.(inflight := s.inflight[req := Listed([key])]);
      CollectSteps(a, req, key);
    } else {
      assert a == s;
    }
  }

  lemma CollectSteps(a: Store, req: Id, key: Id)
    requires req in a.inflight && a.inflight[req] == Listed([key])
    ensures var t := DoDeleteOrphan(DoMatchRecords(a, req), req);
            t.files == a.files && t.objects == if key !in a.files then a.objects - {key} else a.objects
  {
    var left := WithoutRecord(a.files, [key]);
    assert [key][1..] == [] && WithoutRecord(a.files, []) == [];
    assert left == (if key in a.files then [] else [key]) + WithoutRecord(a.files, [key][1..]);
    var b := DoMatchRecords(a, req);
    assert b == a.(inflight := a.inflight[req := Orphans(left)]);
  }
}
