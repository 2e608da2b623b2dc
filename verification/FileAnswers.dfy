/**
  What the scanner's answers do: which answer changes a file and how, exactly when a file leaves
  SCANNING for READY, REJECTED or FAILED, and that the stored verdict is the last answer given.
*/
module FileAnswers {
  import opened Common
  import opened Files
  import opened FileObjects
  import opened FileVerdicts

  // ---------------------------------------------------------------- answers of the scanner

  /** `e` is a pass applying an answer to `id`. */
  predicate Answers(s: Store, e: Event, id: Id) {
    && e.Maintaining? && e.work.ApplyScan? && e.work.req in s.inflight
    && s.inflight[e.work.req].ScanPass? && s.inflight[e.work.req].batch != [] && s.inflight[e.work.req].batch[0].0 == id
  }

  /** The row as that pass read it. */
  function Seen(s: Store, e: Event, id: Id): File
    requires Answers(s, e, id)
  {
    s.inflight[e.work.req].batch[0].1
  }

  /** A day has passed since the upload. */
  predicate TimedOut(seen: File, now: Time) {
    seen.uploadedAt.Some? && seen.uploadedAt.value + 24 * HOUR <= now
  }

  /** `e` applies `answer` to `id` before its scan times out. */
  predicate Applied(s: Store, e: Event, id: Id, answer: Outcome) {
    Answers(s, e, id) && !TimedOut(Seen(s, e, id), s.clock) && e.work.outcome == answer
  }

  predicate Conclusive(answer: Outcome) {
    answer == FoundClean || answer == FoundInfected
  }

  /** `e` applies an answer too late, or the third one that settles nothing. */
  predicate GivesUp(s: Store, e: Event, id: Id) {
    && Answers(s, e, id)
    && (TimedOut(Seen(s, e, id), s.clock) || (!Conclusive(e.work.outcome) && 3 <= Seen(s, e, id).attempts + 1))
  }

  /** What an answer leaves of a SCANNING row. */
  predicate Decided(s: Store, e: Event, id: Id, f: File, g: File)
    requires Answers(s, e, id)
  {
    if GivesUp(s, e, id) then
      && g.status == Failed && g.purgeAfter == Some(s.clock) && g.attempts == Seen(s, e, id).attempts + 1
      && (g.malware == ScanFailed || (g.malware == Unsupported && e.work.outcome == FoundUnsupported))
      && g == f.(status := g.status, purgeAfter := g.purgeAfter, attempts := g.attempts, malware := g.malware)
    else match e.work.outcome
      case FoundClean => g == f.(status := Ready, malware := Clean)
      case FoundInfected => g == f.(status := Rejected, malware := Infected, purgeAfter := Some(s.clock))
      case FoundUnsupported => g == f.(malware := Unsupported, attempts := Seen(s, e, id).attempts + 1)
      case FoundFailed => g == f.(malware := ScanFailed, attempts := Seen(s, e, id).attempts + 1)
      case Errored => g == f.(attempts := Seen(s, e, id).attempts + 1)
  }

  /** An answer decides its file if that is still SCANNING, and touches no other file and no object. */
  lemma AnswerDecides(s: Store, e: Event, id: Id)
    requires Answers(s, e, id)
    ensures var t := Step(s, e);
            && t.objects == s.objects && t.clock == s.clock && t.uploadUntil == s.uploadUntil
            && if id in s.files && s.files[id].status == Scanning
               then id in t.files && t.files == s.files[id := t.files[id]] && Decided(s, e, id, s.files[id], t.files[id])
               else t.files == s.files
  {
    assert Step(s, e) == DoApplyScan(s, e.work.req, e.work.outcome);
  }

  /** A pass reads the SCANNING rows it takes as they are, up to a hundred, and only with a scanner; it changes no row. */
  lemma SelectExactly(s: Store, req: Id, ids: seq<Id>)
    requires req !in s.inflight
    ensures var t := Step(s, Maintaining(SelectScans(req, ids)));
            if s.scannerEnabled && |ids| <= 100 && (forall i :: 0 <= i < |ids| ==> ids[i] in s.files && s.files[ids[i]].status == Scanning)
            then req in t.inflight && t == s.(inflight := s.inflight[req := t.inflight[req]]) && t.inflight[req].ScanPass?
                 && |t.inflight[req].batch| == |ids|
                 && forall i :: 0 <= i < |ids| ==> t.inflight[req].batch[i] == (ids[i], s.files[ids[i]])
            else t == s
  {
  }

  /** The same for a file scanned on its own, however long the scanner takes. */
  lemma ScanOfOne(s: Store, req: Id, id: Id, wait: nat, answer: Outcome) returns (t: Store)
    requires s.scannerEnabled && req !in s.inflight && id in s.files && s.files[id].status == Scanning
    requires s.files[id].uploadedAt.Some?
    ensures t == Step(Step(Step(s, Maintaining(SelectScans(req, [id]))), Serving(Tick(wait))), Maintaining(ApplyScan(req, answer)))
    ensures id in t.files && t.files == s.files[id := t.files[id]] && t.objects == s.objects
    ensures var late, n := s.files[id].uploadedAt.value + 24 * HOUR <= s.clock + wait, s.files[id].attempts + 1;
            && (t.files[id].status == Ready <==> !late && answer == FoundClean)
            && (t.files[id].status == Rejected <==> !late && answer == FoundInfected)
            && (t.files[id].status == Failed <==> late || (answer in {FoundUnsupported, FoundFailed, Errored} && 3 <= n))
            && (t.files[id].status == Scanning <==> !late && answer in {FoundUnsupported, FoundFailed, Errored} && n < 3)
            && (t.files[id].status in {Scanning, Failed} ==> t.files[id].attempts == n)
  {
    var a := Step(s, Maintaining(SelectScans(req, [id])));
    SelectExactly(s, req, [id]);
    var b := Step(a, Serving(Tick(wait)));
    assert b == a.(clock := a.clock + wait);
    t := Step(b, Maintaining(ApplyScan(req, answer)));
    AnswerDecides(b, Maintaining(ApplyScan(req, answer)), id);
  }

  // ---------------------------------------------------------------- leaving SCANNING

  /** A file whose upload was completed had a URL. */
  ghost predicate HadTarget(s: Store) {
    forall id: Id :: id in s.files && s.files[id].status !in {Pending, Failed, Purged} ==> id in s.uploadUntil
  }

  /** Rows that count as uploaded in `t` did so in `s`, and URLs stay. */
  ghost predicate NoUpload(s: Store, t: Store) {
    && (forall id: Id :: id in s.uploadUntil ==> id in t.uploadUntil)
    && (forall id: Id :: id in t.files && t.files[id].status !in {Pending, Failed, Purged} ==>
          id in s.files && s.files[id].status !in {Pending, Failed, Purged})
  }

  lemma CompleteKeepsTargets(s: Store, org: Id, id: Id, valid: bool)
    requires StoreOk(s) && HadTarget(s)
    ensures HadTarget(DoComplete(s, org, id, valid))
  {
  }

  lemma RestoreUploadsNothing(s: Store, org: Id, id: Id)
    ensures NoUpload(s, DoRestore(s, org, id))
  {
  }

  lemma DeleteUploadsNothing(s: Store, org: Id, id: Id)
    ensures NoUpload(s, DoDelete(s, org, id))
  {
  }

  lemma ReserveUploadsNothing(s: Store, r: Id)
    ensures NoUpload(s, DoReserve(s, r))
  {
  }

  lemma IssueUploadsNothing(s: Store, r: Id, ok: bool)
    ensures NoUpload(s, DoIssueTarget(s, r, ok))
  {
  }

  lemma MaintainingUploadsNothing(s: Store, e: MaintenanceEvent)
    ensures NoUpload(s, MaintainStep(s, e))
  {
  }

  lemma ServingKeepsTargets(s: Store, e: FileEvent)
    requires StoreOk(s) && HadTarget(s)
    ensures HadTarget(ServeStep(s, e))
  {
    var t := ServeStep(s, e);
    match e
    case CompleteUpload(org, id, valid) => CompleteKeepsTargets(s, org, id, valid);
    case RestoreFile(org, id) => RestoreUploadsNothing(s, org, id);
    case DeleteFile(org, id) => DeleteUploadsNothing(s, org, id);
    case ReserveUpload(r) => ReserveUploadsNothing(s, r);
    case IssueTarget(r, ok) => IssueUploadsNothing(s, r, ok);
    case _ => assert t.files == s.files && t.uploadUntil == s.uploadUntil;
  }

  lemma MaintainingKeepsTargets(s: Store, e: MaintenanceEvent)
    requires HadTarget(s)
    ensures HadTarget(MaintainStep(s, e))
  {
    MaintainingUploadsNothing(s, e);
  }

  lemma ReconcilingMovesNoRow(s: Store, e: OrphanEvent)
    ensures var t := ReconcileStep(s, e); t.files == s.files && t.uploadUntil == s.uploadUntil && t.nextId == s.nextId
  {
  }

  lemma StepKeepsTargets(s: Store, e: Event)
    requires StoreOk(s) && HadTarget(s)
    ensures HadTarget(Step(s, e))
  {
    match e
    case Serving(f) => ServingKeepsTargets(s, f);
    case Maintaining(w) => MaintainingKeepsTargets(s, w);
    case Reconciling(o) => ReconcilingMovesNoRow(s, o);
  }

  lemma {:induction false} RunKeepsTargets(s: Store, events: seq<Event>)
    requires StoreOk(s) && HadTarget(s)
    ensures StoreOk(Run(s, events)) && HadTarget(Run(s, events))
    decreases |events|
  {
    if events != [] {
      StepKeepsStore(s, events[0]);
      StepKeepsTargets(s, events[0]);
      RunKeepsTargets(Step(s, events[0]), events[1..]);
    }
  }

  /** Anything but an answer leaves a SCANNING file as it is or deletes it. */
  lemma OthersOnlyDelete(s: Store, e: Event, id: Id)
    requires StoreOk(s) && HadTarget(s) && id in s.files && s.files[id].status == Scanning && !Answers(s, e, id)
    ensures id in Step(s, e).files && (Step(s, e).files[id] == s.files[id] || Step(s, e).files[id].status == Deleted)
  {
    match e
    case Serving(f) => ServingOnlyDeletes(s, f, id);
    case Maintaining(w) => MaintainingLeaves(s, w, id);
    case Reconciling(o) => ReconcilingMovesNoRow(s, o);
  }

  ghost predicate KeptOrDeleted(s: Store, t: Store, id: Id)
    requires id in s.files
  {
    id in t.files && (t.files[id] == s.files[id] || t.files[id].status == Deleted)
  }

  lemma IssueLeaves(s: Store, r: Id, ok: bool, id: Id)
    requires StoreOk(s) && HadTarget(s) && id in s.files && s.files[id].status == Scanning
    ensures KeptOrDeleted(s, DoIssueTarget(s, r, ok), id)
  {
    if r in s.inflight { assert RequestOk(s, s.inflight[r]); }
  }

  lemma RequestsLeave(s: Store, e: FileEvent, id: Id)
    requires id in s.files && id != s.nextId && s.files[id].status == Scanning && !e.IssueTarget?
    ensures KeptOrDeleted(s, ServeStep(s, e), id)
  {
  }

  lemma ServingOnlyDeletes(s: Store, e: FileEvent, id: Id)
    requires StoreOk(s) && HadTarget(s) && id in s.files && s.files[id].status == Scanning
    ensures KeptOrDeleted(s, ServeStep(s, e), id)
  {
    match e
    case IssueTarget(r, ok) => IssueLeaves(s, r, ok, id);
    case _ => RequestsLeave(s, e, id);
  }

  lemma MaintainingLeaves(s: Store, e: MaintenanceEvent, id: Id)
    requires StoreOk(s) && id in s.files && s.files[id].status == Scanning && !Answers(s, Maintaining(e), id)
    ensures id in MaintainStep(s, e).files && MaintainStep(s, e).files[id] == s.files[id]
  {
    match e
    case PurgeRow(r) => if r in s.inflight { assert RequestOk(s, s.inflight[r]); }
    case _ =>
  }

  /**
    In every run, a step takes a file from SCANNING to READY if and only if it applies a clean answer
    in time, to REJECTED if and only if it applies an infected one in time, and to FAILED if and only
    if the answer came too late or was the third that settled nothing.
  */
  lemma ScanDecidesExactly(scannerEnabled: bool, plans: map<Id, Plan>, events: seq<Event>, e: Event, id: Id) returns (s: Store, t: Store)
    requires id in Run(Empty(scannerEnabled, plans), events).files
    requires Run(Empty(scannerEnabled, plans), events).files[id].status == Scanning
    ensures s == Run(Empty(scannerEnabled, plans), events) && t == Step(s, e) && id in t.files
    ensures t.files[id].status == Ready <==> Applied(s, e, id, FoundClean)
    ensures t.files[id].status == Rejected <==> Applied(s, e, id, FoundInfected)
    ensures t.files[id].status == Failed <==> GivesUp(s, e, id)
    ensures t.files[id].status in {Scanning, Ready, Rejected, Failed, Deleted}
    ensures t.files[id].status in {Rejected, Failed} ==> t.files[id].purgeAfter == Some(s.clock)
    ensures t.files[id].status == Ready ==> t.files[id].malware == Clean
    ensures t.files[id].status == Rejected ==> t.files[id].malware == Infected
  {
    s := Run(Empty(scannerEnabled, plans), events);
    t := Step(s, e);
    RunKeepsTargets(Empty(scannerEnabled, plans), events);
    if Answers(s, e, id) { AnswerDecides(s, e, id); } else { OthersOnlyDelete(s, e, id); }
  }

  // ---------------------------------------------------------------- the answers of a run

  /** The last answer each file was given in time while SCANNING, through one more event. */
  function Noted(s: Store, e: Event, heard: map<Id, Outcome>): map<Id, Outcome> {
    if e.Maintaining? && e.work.ApplyScan? && e.work.req in s.inflight && s.inflight[e.work.req].ScanPass?
       && s.inflight[e.work.req].batch != [] then
      var (id, seen) := s.inflight[e.work.req].batch[0];
      if id in s.files && s.files[id].status == Scanning && !TimedOut(seen, s.clock) then heard[id := e.work.outcome] else heard
    else
      heard
  }

  function LastAnswers(s: Store, events: seq<Event>, heard: map<Id, Outcome>): map<Id, Outcome>
    decreases |events|
  {
    if events == [] then heard else LastAnswers(Step(s, events[0]), events[1..], Noted(s, events[0], heard))
  }

  predicate Says(heard: map<Id, Outcome>, id: Id, answer: Outcome) {
    id in heard && heard[id] == answer
  }

  predicate VerdictHeard(f: File, heard: map<Id, Outcome>, id: Id) {
    (f.malware == Clean <==> Says(heard, id, FoundClean)) && (f.malware == Infected <==> Says(heard, id, FoundInfected))
  }

  ghost predicate VerdictsHeard(s: Store, heard: map<Id, Outcome>) {
    && (forall id: Id :: id in s.files ==> id < s.nextId && VerdictHeard(s.files[id], heard, id))
    && (forall id: Id :: id in heard ==> id < s.nextId)
    && (forall id: Id :: id in s.files && s.files[id].status in {Pending, Scanning} ==> s.files[id].malware !in {Clean, Infected})
  }

  /** A step that applies no answer and starts no file leaves the malware column alone, or completes an upload. */
  ghost predicate VerdictsStay(s: Store, t: Store) {
    && s.nextId <= t.nextId
    && (forall id: Id :: id in t.files ==>
          if id in s.files then
            && (t.files[id].malware == s.files[id].malware || (s.files[id].status == Pending && t.files[id].malware !in {Clean, Infected}))
            && (t.files[id].status in {Pending, Scanning} ==> s.files[id].status in {Pending, Scanning} || t.files[id].malware == Awaited)
          else s.nextId <= id < t.nextId && t.files[id].malware !in {Clean, Infected})
  }

  lemma StayKeepsHeard(s: Store, t: Store, heard: map<Id, Outcome>)
    requires VerdictsHeard(s, heard) && VerdictsStay(s, t)
    ensures VerdictsHeard(t, heard)
  {
  }

  lemma UploadStays(s: Store, r: Id, ok: bool, org: Id, id: Id, valid: bool)
    ensures VerdictsStay(s, DoIssueTarget(s, r, ok)) && VerdictsStay(s, DoComplete(s, org, id, valid))
  {
  }

  lemma ReserveStays(s: Store, r: Id)
    requires s.nextId !in s.files
    ensures VerdictsStay(s, DoReserve(s, r))
  {
  }

  lemma DeleteStays(s: Store, org: Id, id: Id)
    ensures VerdictsStay(s, DoDelete(s, org, id))
  {
  }

  lemma RestoreStays(s: Store, org: Id, id: Id)
    ensures VerdictsStay(s, DoRestore(s, org, id))
  {
  }

  lemma ServingStays(s: Store, e: FileEvent)
    requires s.nextId !in s.files
    ensures VerdictsStay(s, ServeStep(s, e))
  {
    var t := ServeStep(s, e);
    match e
    case CompleteUpload(org, id, valid) => UploadStays(s, 0, true, org, id, valid);
    case IssueTarget(r, ok) => UploadStays(s, r, ok, 0, 0, true);
    case RestoreFile(org, id) => RestoreStays(s, org, id);
    case DeleteFile(org, id) => DeleteStays(s, org, id);
    case ReserveUpload(r) => ReserveStays(s, r);
    case _ => assert t.files == s.files && t.nextId == s.nextId;
  }

  lemma MaintainingStays(s: Store, e: MaintenanceEvent)
    requires !e.ApplyScan?
    ensures VerdictsStay(s, MaintainStep(s, e))
  {
  }

  lemma AnswerKeepsHeard(s: Store, e: Event, id: Id, heard: map<Id, Outcome>)
    requires VerdictsHeard(s, heard) && Answers(s, e, id)
    ensures VerdictsHeard(Step(s, e), Noted(s, e, heard))
  {
    AnswerDecides(s, e, id);
    assert Step(s, e).nextId == s.nextId;
  }

  lemma ServingKeepsHeard(s: Store, e: FileEvent, heard: map<Id, Outcome>)
    requires VerdictsHeard(s, heard)
    ensures VerdictsHeard(ServeStep(s, e), heard)
  {
    ServingStays(s, e);
    StayKeepsHeard(s, ServeStep(s, e), heard);
  }

  lemma MaintainingKeepsHeard(s: Store, e: MaintenanceEvent, heard: map<Id, Outcome>)
    requires VerdictsHeard(s, heard)
    ensures VerdictsHeard(MaintainStep(s, e), Noted(s, Maintaining(e), heard))
  {
    if !e.ApplyScan? {
      MaintainingStays(s, e);
      StayKeepsHeard(s, MaintainStep(s, e), heard);
    } else if e.req in s.inflight && s.inflight[e.req].ScanPass? && s.inflight[e.req].batch != [] {
      AnswerKeepsHeard(s, Maintaining(e), s.inflight[e.req].batch[0].0, heard);
    }
  }

  lemma StepKeepsHeard(s: Store, e: Event, heard: map<Id, Outcome>)
    requires VerdictsHeard(s, heard)
    ensures VerdictsHeard(Step(s, e), Noted(s, e, heard))
  {
    match e
    case Serving(f) => ServingKeepsHeard(s, f, heard);
    case Maintaining(w) => MaintainingKeepsHeard(s, w, heard);
    case Reconciling(o) => ReconcilingMovesNoRow(s, o);
  }

  lemma {:induction false} RunKeepsHeard(s: Store, events: seq<Event>, heard: map<Id, Outcome>)
    requires VerdictsHeard(s, heard)
    ensures VerdictsHeard(Run(s, events), LastAnswers(s, events, heard))
    decreases |events|
  {
    if events != [] {
      StepKeepsHeard(s, events[0], heard);
      RunKeepsHeard(Step(s, events[0]), events[1..], Noted(s, events[0], heard));
    }
  }

  /** In every run the stored verdict of a file is clean, or infected, exactly if its last answer in time was. */
  lemma VerdictIsLastAnswer(scannerEnabled: bool, plans: map<Id, Plan>, events: seq<Event>, id: Id) returns (t: Store, heard: map<Id, Outcome>)
    requires id in Run(Empty(scannerEnabled, plans), events).files
    ensures t == Run(Empty(scannerEnabled, plans), events) && heard == LastAnswers(Empty(scannerEnabled, plans), events, map[])
    ensures t.files[id].malware == Clean <==> Says(heard, id, FoundClean)
    ensures t.files[id].malware == Infected <==> Says(heard, id, FoundInfected)
    ensures scannerEnabled && t.files[id].status == Ready ==>
              Says(heard, id, FoundClean) || t.files[id].malware in {Unsupported, ScanFailed}
  {
    t := Run(Empty(scannerEnabled, plans), events);
    heard := LastAnswers(Empty(scannerEnabled, plans), events, map[]);
    RunKeepsHeard(Empty(scannerEnabled, plans), events, map[]);
    ReadyMeans(scannerEnabled, plans, events, id);
  }
}
