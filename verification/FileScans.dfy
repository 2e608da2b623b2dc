/** The scan backlog drains: every pass makes progress on each file it takes, whatever the scanner answers. */
module FileScans {
  import opened Common
  import opened Totals
  import opened Files
  import opened FileMoves

  // ---------------------------------------------------------------- retries are bounded

  /** A file that is or may again be SCANNING has attempts left. */
  ghost predicate AttemptsLeft(files: map<Id, File>) {
    forall id :: id in files && files[id].status != Failed && files[id].status != Rejected && files[id].status != Purged ==>
      files[id].attempts < MAX_SCAN_ATTEMPTS
  }

  lemma {:induction false} RunKeepsAttempts(s: Store, events: seq<Event>)
    requires AttemptsLeft(s.files)
    ensures AttemptsLeft(Run(s, events).files)
    decreases |events|
  {
    if events != [] {
      var c := StepChange(s, events[0]);
      RunKeepsAttempts(Step(s, events[0]), events[1..]);
    }
  }

  // ---------------------------------------------------------------- one undisturbed pass

  function Remaining(files: map<Id, File>): nat -> nat {
    (i: nat) => if i in files && files[i].status == Scanning && files[i].attempts < MAX_SCAN_ATTEMPTS
                then MAX_SCAN_ATTEMPTS - files[i].attempts else 0
  }

  function Waiting(files: map<Id, File>): nat -> nat {
    (i: nat) => if i in files && files[i].status == Scanning then 1 else 0
  }

  /** The sum over SCANNING files of the attempts they have left. */
  function Potential(files: map<Id, File>, n: nat): nat {
    Total(Remaining(files), n)
  }

  function Backlog(files: map<Id, File>, n: nat): nat {
    Total(Waiting(files), n)
  }

  /** One scan of a pass: the time since the previous one, and the scanner's answer. */
  datatype Scan = Scan(wait: nat, outcome: Outcome)

  /** `processScans` without interference, begun at `now`: each row of the batch with the scan it gets. */
  function PassOver(files: map<Id, File>, batch: seq<(Id, File)>, scans: seq<Scan>, now: Time): map<Id, File>
    requires |scans| == |batch|
    decreases |batch|
  {
    if batch == [] then files
    else
      var at := now + scans[0].wait;
      PassOver(ScanOne(files, batch[0].0, batch[0].1, scans[0].outcome, at), batch[1..], scans[1..], at)
  }

  /** A batch as read: distinct SCANNING rows, up to the batch size. Which ones come first does not matter here. */
  ghost predicate IsBatch(files: map<Id, File>, n: nat, ids: seq<Id>) {
    && AllScanning(files, ids)
    && (forall i, j :: 0 <= i < j < |ids| ==> ids[i] != ids[j])
    && |ids| == Min(BATCH, Backlog(files, n))
  }

  ghost predicate Current(files: map<Id, File>, batch: seq<(Id, File)>, n: nat) {
    && (forall i :: 0 <= i < |batch| ==>
          batch[i].0 < n && batch[i].0 in files && files[batch[i].0] == batch[i].1 && batch[i].1.status == Scanning)
    && (forall i, j :: 0 <= i < j < |batch| ==> batch[i].0 != batch[j].0)
  }

  /** One scan takes at least one attempt from the file, or takes the file out of the backlog. */
  lemma ScanOneDrops(files: map<Id, File>, n: nat, id: Id, outcome: Outcome, now: Time)
    requires AttemptsLeft(files) && id in files && id < n && files[id].status == Scanning
    ensures var after := ScanOne(files, id, files[id], outcome, now);
            AttemptsLeft(after) && Potential(after, n) < Potential(files, n)
  {
    var after := ScanOne(files, id, files[id], outcome, now);
    TotalChange(Remaining(after), Remaining(files), n, id);
  }

  /** Scanning the first file of a batch leaves the others as the batch has them. */
  lemma CurrentStays(files: map<Id, File>, n: nat, batch: seq<(Id, File)>, outcome: Outcome, now: Time)
    requires Current(files, batch, n) && batch != []
    ensures var next := ScanOne(files, batch[0].0, batch[0].1, outcome, now);
            Current(next, batch[1..], n) && next.Keys == files.Keys
  {
  }

  /** `k` attempts fewer, and attempts left wherever a scan may follow. */
  ghost predicate Drained(files: map<Id, File>, after: map<Id, File>, n: nat, k: nat) {
    AttemptsLeft(after) && after.Keys == files.Keys && Potential(after, n) + k <= Potential(files, n)
  }

  lemma DrainedTrans(files: map<Id, File>, next: map<Id, File>, after: map<Id, File>, n: nat, k: nat)
    requires Drained(files, next, n, 1) && Drained(next, after, n, k)
    ensures Drained(files, after, n, k + 1)
  {
  }

  lemma FirstScan(files: map<Id, File>, n: nat, batch: seq<(Id, File)>, scans: seq<Scan>, now: Time) returns (next: map<Id, File>)
    requires AttemptsLeft(files) && Current(files, batch, n) && |scans| == |batch| > 0
    ensures Current(next, batch[1..], n) && Drained(files, next, n, 1)
    ensures PassOver(files, batch, scans, now) == PassOver(next, batch[1..], scans[1..], now + scans[0].wait)
  {
    var at := now + scans[0].wait;
    next := ScanOne(files, batch[0].0, batch[0].1, scans[0].outcome, at);
    ScanOneDrops(files, n, batch[0].0, scans[0].outcome, at);
    CurrentStays(files, n, batch, scans[0].outcome, at);
  }

  lemma {:induction false} PassOverDrops(files: map<Id, File>, n: nat, batch: seq<(Id, File)>, scans: seq<Scan>, now: Time)
    requires AttemptsLeft(files) && |scans| == |batch| && Current(files, batch, n)
    ensures Drained(files, PassOver(files, batch, scans, now), n, |batch|)
    decreases |batch|
  {
    if batch == [] {
      assert PassOver(files, batch, scans, now) == files;
    } else {
      var next := FirstScan(files, n, batch, scans, now);
      var rest, later, at := batch[1..], scans[1..], now + scans[0].wait;
      PassOverDrops(next, n, rest, later, at);
      DrainedTrans(files, next, PassOver(next, rest, later, at), n, |rest|);
    }
  }

  ghost predicate BelowCounter(files: map<Id, File>, n: nat) {
    forall id :: id in files ==> id < n
  }

  /** Every pass lowers the sum by at least min(100, backlog), for any mix of verdicts, errors and timeouts. */
  lemma PassDrains(files: map<Id, File>, n: nat, ids: seq<Id>, scans: seq<Scan>, now: Time)
    requires BelowCounter(files, n) && AttemptsLeft(files) && IsBatch(files, n, ids) && |scans| == |ids|
    ensures var after := PassOver(files, Snapshots(files, ids), scans, now);
            && AttemptsLeft(after) && BelowCounter(after, n)
            && Potential(after, n) + Min(BATCH, Backlog(files, n)) <= Potential(files, n)
  {
    PassOverDrops(files, n, Snapshots(files, ids), scans, now);
  }

  // ---------------------------------------------------------------- many passes

  datatype Pass = Pass(ids: seq<Id>, scans: seq<Scan>, now: Time)

  /** The table after some passes, each over a batch read from the table the previous one left. */
  ghost function After(files: map<Id, File>, n: nat, passes: seq<Pass>): Option<map<Id, File>>
    decreases |passes|
  {
    if passes == [] then Some(files)
    else if IsBatch(files, n, passes[0].ids) && |passes[0].scans| == |passes[0].ids| then
      After(PassOver(files, Snapshots(files, passes[0].ids), passes[0].scans, passes[0].now), n, passes[1..])
    else None
  }

  lemma {:induction false} WaitingHasPotential(files: map<Id, File>, n: nat, id: Id)
    requires id < n && id in files && files[id].status == Scanning && files[id].attempts < MAX_SCAN_ATTEMPTS
    ensures 0 < Potential(files, n) && 0 < Backlog(files, n)
    decreases n
  {
    if id < n - 1 { WaitingHasPotential(files, n - 1, id); }
  }

  /** With no new arrivals, as many passes as the sum says leave no file waiting. */
  lemma {:induction false} BacklogDrains(files: map<Id, File>, n: nat, passes: seq<Pass>)
    requires BelowCounter(files, n) && AttemptsLeft(files)
    requires After(files, n, passes).Some? && Potential(files, n) <= |passes|
    ensures forall id :: id in After(files, n, passes).value ==> After(files, n, passes).value[id].status != Scanning
    decreases |passes|
  {
    if passes == [] {
      forall id | id in files ensures files[id].status != Scanning {
        if files[id].status == Scanning { WaitingHasPotential(files, n, id); }
      }
    } else {
      PassDrains(files, n, passes[0].ids, passes[0].scans, passes[0].now);
      var next := PassOver(files, Snapshots(files, passes[0].ids), passes[0].scans, passes[0].now);
      if Backlog(files, n) == 0 {
        forall id | id in files ensures files[id].status != Scanning {
          if files[id].status == Scanning { WaitingHasPotential(files, n, id); }
        }
        NoneWaiting(files, n);
      }
      BacklogDrains(next, n, passes[1..]);
    }
  }

  lemma {:induction false} NoneWaiting(files: map<Id, File>, n: nat)
    requires forall id :: id in files ==> files[id].status != Scanning
    ensures Potential(files, n) == 0
  {
    if n > 0 { NoneWaiting(files, n - 1); }
  }

  // ---------------------------------------------------------------- a pass is a run of steps

  function Applies(req: Id, scans: seq<Scan>): seq<Event> {
    if scans == [] then []
    else [Serving(Tick(scans[0].wait)), Maintaining(ApplyScan(req, scans[0].outcome))] + Applies(req, scans[1..])
  }

  lemma {:induction false} AppliesPass(s: Store, req: Id, scans: seq<Scan>)
    requires req in s.inflight && s.inflight[req].ScanPass? && |scans| == |s.inflight[req].batch|
    ensures Run(s, Applies(req, scans)).files == PassOver(s.files, s.inflight[req].batch, scans, s.clock)
    decreases |scans|
  {
    if scans != [] {
      var t := s.(clock := s.clock + scans[0].wait);
      var events := Applies(req, scans);
      assert events[1..][1..] == Applies(req, scans[1..]);
      assert Run(s, events) == Run(t, events[1..]);
      var u := DoApplyScan(t, req, scans[0].outcome);
      assert Run(t, events[1..]) == Run(u, events[1..][1..]);
      AppliesPass(u, req, scans[1..]);
    }
  }

  /** Selecting a batch and applying one answer per file, however long each takes, is exactly one pass. */
  lemma PassIsARun(s: Store, req: Id, ids: seq<Id>, scans: seq<Scan>)
    requires s.scannerEnabled && req !in s.inflight && IsBatch(s.files, s.nextId, ids) && |scans| == |ids|
    ensures Run(Step(s, Maintaining(SelectScans(req, ids))), Applies(req, scans)).files
            == PassOver(s.files, Snapshots(s.files, ids), scans, s.clock)
  {
    AppliesPass(Step(s, Maintaining(SelectScans(req, ids))), req, scans);
  }
}
