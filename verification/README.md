# Verified protocols of the backend

The backend is a set of transactional protocols over database rows. Most follow one shape: read a
row, decide, commit a conditional update and check its count. This project models the hardest of
them in Dafny and proves what every run keeps while other requests are in flight.

Each component comes as three kinds of files.

- A model (`Auth`, `Files`, `Checkout`, `Subscriptions`, `Notifications`, `NotificationPages`,
  `Organizations`, `Roles`, `Slug`, `Email`, `ClamAv`, `ClamAvReply`, `ClamAvVerdict`, `Audit`): the rows and the
  clock as a value, one function per database step, and `Run` over any sequence of steps. What a
  request remembers between two of its steps is part of the state (`inflight`), so a run interleaves
  any number of requests.
- Theorems about that model (`SessionFamilies`, `SecondFactor`, `SignInGuard`, `SetupSecret`;
  `FileMoves`, `FileQuota`, `FileObjects`, `FileScans`, `FileVerdicts`; `CheckoutSafety`,
  `CheckoutTrial`, `TrialMarks`; `SubscriptionReplica`; `OrganizationSafety`; `EmailCalls`, `EmailSingle`,
  `EmailRegister`, `EmailFailures`; `AuditSafety`) over all runs. Beside them `AuthEffects`, `FileAnswers`,
  `FileLifecycle`, `CheckoutEffects`, `SubscriptionEffects`, `OrganizationEffects` and `AuditEffects` say
  what each operation does and exactly when, in terms of the rows before and after.
- The service itself (`AuthService`, `FilesService`, `CheckoutService`, `SubscriptionService`,
  `OrganizationsService`, `NotificationsService`, `EmailService`, `AuditService`,
  `ClamAvReply.Listener`): a class whose methods change its fields step by step. Each step method is
  proved equal to its step function and the `Serve` loop equal to `Run`. The six services that
  serve interleaved steps (`AuthService` to `OrganizationsService`, and `EmailService`) have a
  `Valid()` that says some run leads to the present state; the constructor establishes it, every step
  keeps it, and `Guarantees` draws the invariants of the component from it, so what is proved of runs
  holds of the object.

`dafny verify dfyconfig.toml` checks everything.

## What is assumed

- One transaction, `updateMany`, `upsert` or `deleteMany` is one atomic step. `completeFirstFactor`,
  `beginSetup`, `completeUpload`, `deleteFile`, `restoreFile`, `syncSubscription` and each organization
  request are one step. A `deliver` call is not: its reads, writes and sends interleave with others.
- The clock never goes back. Fresh identifiers and tokens come from a counter. Hashes are injective,
  so presenting a token or a recovery code is naming the row that stores its hash.
- Tables with a unique key are keyed by it: credentials by user, checkout rows and subscriptions by
  organization, memberships by organization and user, notifications by user and dedupe key,
  deliveries by idempotency key. A request names a member by user; membership identifiers are not kept.
- The payment, email and scan providers answer anything; their answers, and the failures of database
  writes where the code handles them, are inputs. The payment provider is idempotent by key.
- A query that picks a batch is answered by the database: the answer is an input that is used only
  if it satisfies the query.

## Where a promise does not hold of the code

- One trial per organization: a request that read its customer before the trial was recorded can
  store a trial session after the webhook has cleared the table, and a later request is handed it.
  `CheckoutTrial.TrialAgainHappens` is such a run and `CheckoutTrial.TrialAgainExactlyWhen` says
  exactly when it is possible.
- READY only after a clean verdict: restoring a file that was deleted after an inconclusive scan
  makes it READY (backend/src/files/files.service.ts:410).
  `FileVerdicts.InconclusiveThenRestored` shows it and `FileVerdicts.ReadyUnscannedExactlyWhen` says
  exactly when.
- Deleting and restoring a file gives it back, except in that same case:
  `FileObjects.DeleteThenRestore`.
- The scanner's reply is read the same however it is split, except above 16 KiB with an early zero
  byte: `ClamAvReply.SplitIndependentExactlyWhen`. A terminated reply is not trimmed, so a line end
  after OK makes it count as failed: `ClamAvVerdict.LineEndMatters`.
- Any step that raises usage leaves it within the plan in force: the quota is read before the
  transaction that uses it, so a plan lowered in between is not respected.
  `FileQuota.RaiseBeyondPlan` shows it and `FileQuota.RaiseFitsPlanExactlyWhen` says exactly when.
- Three sends for one email: `deliver` calls that overlap send up to three times each, and a call in
  flight can send after another has recorded a success, or overwrite it with a failure.
  `EmailCalls.SendsBoundedByOverlap` and `EmailCalls.BoundIsReached` give the exact bound,
  `EmailCalls.SendsAgainExactlyWhen` and `EmailRegister.SuccessStandsExactlyWhen` the exact conditions.
- A delivery ends with its newest mapped event in any order of arrival: an event registered before
  the message identifier is stored finds no row and is skipped when it is repeated.
  `EmailRegister.EarlyEventIsLost` shows it and `EmailRegister.ShowsNewestExactlyWhen` says exactly when.
- The failure time of a delivery depends on the order of arrival when the newest event says SENT and
  an older one reports a failure, and only then: `EmailFailures.FailureTimeExactlyWhen`.
- The secret enabled is the one the confirming code was checked against: beginning setup again between
  the check and the commit replaces it. `SetupSecret.UncheckedSecretEnabled` shows it and
  `SetupSecret.CheckedSecretExactlyWhen` says exactly when.

## Model

| member | source | states |
|---|---|---|
| SessionFamilies.FamiliesAreChains | backend/src/auth/auth.service.ts:217-291 | in every run, with any refreshes in flight, the sessions of a family form one chain of replacement links: one user, every session but the last rotated into the next, at most the last unrevoked |
| SessionFamilies.ChainIsLinear | backend/src/auth/auth.service.ts:252-284 | in such a chain no two sessions share a successor, there is no cycle, and an unrevoked session is the last |
| SessionFamilies.RefreshRotates | backend/src/auth/auth.service.ts:217-291 | an undisturbed refresh rotates exactly a live, unexpired session of an active user, into a fresh session of the same family, and touches no other session |
| SessionFamilies.ReuseObliges | backend/src/auth/auth.service.ts:231-284 | presenting a rotated token, or losing the rotation race, leaves the request with a family to revoke |
| SessionFamilies.ReuseKillsFamily | backend/src/auth/auth.service.ts:594-602 | whatever runs between noticing the reuse and revoking, and whatever runs later, the family has no live session afterwards |
| SessionFamilies.RunKeepsDead | backend/src/auth/auth.service.ts:252-284 | a family without a live session never gets one again, not even by a refresh that read its session earlier |
| SessionFamilies.RunKeepsSessions | backend/src/auth/auth.service.ts:217-323 | no run removes a session row or changes its user or family |
| SignInGuard.ReusedTokenEndsFamily | backend/src/auth/auth.service.ts:231-237 | from the empty database, presenting a rotated token ends its family for the rest of the run |
| SignInGuard.LostRaceEndsFamily | backend/src/auth/auth.service.ts:252-284 | from the empty database, a refresh that finds its session revoked since it was read ends the family for the rest of the run |
| SecondFactor.FactorsAreSingleUse | backend/src/auth/two-factor/two-factor.service.ts:402-467 | in every run accepted time steps strictly increase on a credential, each recovery code and each challenge is consumed at most once, and an enabled credential has ten codes, consumed or not |
| SecondFactor.ClaimMeansEnabled | backend/src/auth/two-factor/two-factor.service.ts:436-467 | a factor can only be claimed on an enabled credential that has a last accepted step |
| SecondFactor.RunKeepsFactors | backend/src/auth/two-factor/two-factor.service.ts:77-467 | every step keeps the bookkeeping of accepted steps, codes and challenges |
| SignInGuard.EnabledUsersAreGuarded | backend/src/auth/two-factor/two-factor.service.ts:121-344 | in every run, an unrevoked session of a user with two-factor enabled ends a rotation chain whose first session was opened in one sign-in with a factor claimed, and a challenge consumed, after enablement |
| SignInGuard.VerifySignsIn | backend/src/auth/two-factor/two-factor.service.ts:270-344 | an undisturbed verification signs in exactly when the challenge is open, the user active and enabled and the factor unused; then neither challenge nor factor works again; otherwise nothing changes |
| SignInGuard.RunKeepsAuth | backend/src/auth/two-factor/two-factor.service.ts:121-344 | every step keeps the invariants of sessions, factors and their guard together |
| AuthEffects.FirstFactorExactly | backend/src/auth/auth.service.ts:523-557 | a first factor opens a session for an active user without two-factor, for one with it issues a challenge for five minutes in place of the spent ones, and does nothing for anyone else |
| AuthEffects.LoginWithSecondFactor | backend/src/auth/two-factor/two-factor.service.ts:235-344 | after a first factor, the challenge signs in within five minutes with a factor that was not used, and not otherwise |
| AuthEffects.RefreshReadExactly | backend/src/auth/auth.service.ts:217-250 | reading a token leads to revoking its family exactly if it was rotated, and to a rotation exactly if it is live, unexpired and of an active user |
| AuthEffects.RevokeFamilyExactly | backend/src/auth/auth.service.ts:594-602 | the live sessions of the family end as reused, and no other session changes |
| AuthEffects.BeginSetupExactly | backend/src/auth/two-factor/two-factor.service.ts:77-119 | setup begins exactly for an active user without an enabled credential: a new secret waits, without step and codes |
| AuthEffects.ConfirmExactly | backend/src/auth/two-factor/two-factor.service.ts:121-175 | an undisturbed confirmation enables a waiting credential with the step of its code and exactly ten unconsumed codes, and ends the live sessions of the user and of nobody else; otherwise nothing changes |
| AuthEffects.ConfirmCommitExactly | backend/src/auth/two-factor/two-factor.service.ts:143-175 | whatever happened since the read, the commit enables exactly a credential that is still the one read and still waits, and does nothing otherwise |
| AuthEffects.VerifyCommitExactly | backend/src/auth/two-factor/two-factor.service.ts:314-344 | whatever happened since the read, the commit signs in exactly if the challenge is there, unconsumed and was open when the verification began, and the factor can still be claimed; otherwise it does nothing |
| AuthEffects.StepUpCommitNeedsClaim | backend/src/auth/two-factor/two-factor.service.ts:185-224 | whatever happened since the read, the commit of a step-up does nothing exactly if its factor can no longer be claimed |
| AuthEffects.RegenerateExactly | backend/src/auth/two-factor/two-factor.service.ts:177-199 | an undisturbed request for new codes takes effect exactly for an active, enabled user with an unused factor: still enabled, ten new codes and no old one, sessions and challenges untouched; a refusal changes nothing |
| AuthEffects.DisableExactly | backend/src/auth/two-factor/two-factor.service.ts:201-224 | an undisturbed request to disable takes effect exactly then: no credential, code, challenge or live session of the user is left and those of others are unchanged; a refusal changes nothing |
| AuthEffects.LogoutExactly | backend/src/auth/auth.service.ts:293-323 | logging out ends the presented live session, logging out everywhere all live sessions and challenges of the user, neither as a rotation |
| AuthEffects.RegisterSignsIn | backend/src/auth/auth.service.ts:62-121 | whoever registers is active and has one live session, and nobody else is affected |
| AuthService.Service.Logout | backend/src/auth/auth.service.ts:293-308 | the presented session is no longer live, no row is removed, and every other session and every session already revoked is unchanged |
| AuthService.Service.LogoutAll | backend/src/auth/auth.service.ts:310-323 | no session of the user is live, no challenge of the user is left, and other users' sessions and challenges are unchanged |
| AuthService.Service.ResolveSecondFactor | backend/src/auth/two-factor/two-factor.service.ts:402-434 | for an enabled credential, a factor resolves exactly when claiming it now would succeed |
| AuthService.Service.ClaimSecondFactor | backend/src/auth/two-factor/two-factor.service.ts:436-467 | the conditional update succeeds exactly when the factor is still unused, and afterwards the factor cannot be claimed |
| AuthService.Service.Serve | backend/src/auth/auth.service.ts:217-323 | any interleaving of steps leaves the state that `Run` computes, which some run from the empty database leads to; what each step does there is said by the rows of AuthEffects |
| AuthService.Service.Guarantees | backend/src/auth/two-factor/two-factor.service.ts:121-467 | whatever steps the service has taken, families are chains, factors are single-use and enabled users are guarded |
| SetupSecret.CheckedSecretExactlyWhen | backend/src/auth/two-factor/two-factor.service.ts:121-175 | a confirmation that takes effect enables the secret its code was checked against if and only if setup was not begun anew between its read and its commit |
| SetupSecret.UncheckedSecretEnabled | backend/src/auth/two-factor/two-factor.service.ts:77-175 | a run in which it enables another secret |
| FileMoves.StepChange | backend/src/files/files.service.ts:71-425 | every step changes at most one row by a legal transition, adds one reserved row that fits its quote, or prunes rows |
| FileQuota.OnlyReservingRaises | backend/src/files/files.service.ts:71-161 | a step raises counted bytes or files only by reserving, and then leaves both within the quota that request read |
| FileQuota.RaiseFitsPlanExactlyWhen | backend/src/files/files.service.ts:71-161 | a step that raises usage leaves it within the plan in force if and only if the figures before it and the file fit that plan; a quote under the plan in force always does |
| FileQuota.RaiseBeyondPlan | backend/src/files/files.service.ts:71-161 | from any initial table on Pro: four uploads of 25 MiB reserved, a fifth quoted, the plan lowered to Free, and the fifth is reserved and leaves usage above the plan |
| FileQuota.UsageWithinPlan | backend/src/files/files.service.ts:71-161 | while the plan does not change, usage never exceeds its quota, however files complete, fail, are deleted, restored or purged |
| FileQuota.ReservationsAreLimited | backend/src/files/files.service.ts:71-161 | in every run at most 20 active reservations for an organization and 5 for a user |
| FileQuota.AdmittedExactlyWhenItFits | backend/src/files/files.service.ts:71-161 | an undisturbed upload is admitted exactly when its size is 1 byte to 25 MiB and the table with its file respects every limit, and a refusal changes nothing |
| FileQuota.AddingOne | backend/src/files/files.service.ts:314-339 | one more file raises each usage figure by exactly its own weight |
| FileLifecycle.FiguresCount | backend/src/files/files.service.ts:314-339 | the number of files used counts the SCANNING, READY and DELETED files and the unexpired reservations of the organization, and the two numbers of reservations count those |
| FileLifecycle.BytesAreSizes | backend/src/files/files.service.ts:314-339 | the bytes used are the sizes of those files, summed |
| FileLifecycle.UploadAdmitted | backend/src/files/files.service.ts:71-161 | asking for an upload reserves a PENDING row for 15 minutes exactly if the size is 1 byte to 25 MiB and the table with it holds 100 MiB and 100 files, or on Pro 10 GiB and 10000, and 20 and 5 reservations; otherwise nothing changes |
| FileLifecycle.TargetExactly | backend/src/files/files.service.ts:141-188 | the reservation gets a URL for ten minutes, or the row has failed and is due for purging |
| FileLifecycle.UploadInTime | backend/src/files/files.service.ts:141-274 | a reserved upload leaves PENDING exactly if its object was put within ten minutes, to the second, and it was completed within fifteen |
| FileLifecycle.CompleteExactly | backend/src/files/files.service.ts:190-274 | an upload is completed by its organization while the reservation lasts and its object is there, as SCANNING, READY or REJECTED by its content and the scanner, and not otherwise |
| FileLifecycle.DeleteExactly | backend/src/files/files.service.ts:357-397 | deleting ends a PENDING upload with its object, keeps a READY or SCANNING file for thirty days, and leaves anything else alone |
| FileLifecycle.RestoreExactly | backend/src/files/files.service.ts:399-425 | a deleted file comes back exactly inside its window, to the scanner if its verdict is awaited and else as READY |
| FileLifecycle.RestoredOrPurged | backend/src/files/files.service.ts:357-425 | a deleted file can be restored for thirty days, and from then on, and no sooner, it is purged |
| FileLifecycle.PurgeExactly | backend/src/files/file-maintenance.service.ts:232-275 | an undisturbed purge, however long the storage takes, removes the object and marks the row exactly if the row is due, keeps it 90 days for audit, and changes neither if the object cannot be removed |
| FileLifecycle.SelectPurgeExactly | backend/src/files/file-maintenance.service.ts:232-253 | a purge pass takes up to a hundred rows, PENDING an hour past their reservation or DELETED, REJECTED or FAILED and due |
| FileLifecycle.AuditRowsExpire | backend/src/files/file-maintenance.service.ts:60-81 | exactly the PURGED rows past their audit date go |
| FileLifecycle.CollectExactly | backend/src/files/file-maintenance.service.ts:83-110 | an undisturbed collection removes an object exactly if it is a day old and no row has its key |
| FileObjects.RemovalsAreSafe | backend/src/files/file-maintenance.service.ts:83-110 | in every run, a step that removes an object finds its file neither SCANNING, READY nor DELETED inside its recovery window; orphan collection finds no record and an old object |
| FileObjects.PurgeAndRestoreAreDisjoint | backend/src/files/file-maintenance.service.ts:232-275 | once a purge may select a file, no continuation restores or completes it |
| FileObjects.DeleteThenRestore | backend/src/files/files.service.ts:357-425 | deleting and restoring gives the row back exactly inside the recovery window and when the restored status is the one it had |
| FileObjects.RunKeepsStore | backend/src/files/file-maintenance.service.ts:60-275 | keys are written only through URLs issued once, and what passes remember stays purgeable or orphaned until they act |
| FileVerdicts.ReadyMeans | backend/src/files/file-maintenance.service.ts:112-230 | in every run with the scanner enabled the malware column of a READY file says clean or inconclusive, never infected or awaited; without it nothing is SCANNING (FileAnswers ties the column to the answers) |
| FileVerdicts.ReadyUnscannedExactlyWhen | backend/src/files/files.service.ts:399-425 | a step makes a file READY without a clean verdict exactly when it restores one deleted after an inconclusive scan |
| FileVerdicts.InconclusiveThenRestored | backend/src/files/files.service.ts:399-425 | an inconclusive scan, a deletion and a restore do lead there |
| FileVerdicts.ReadyUnscannedIsReachable | backend/src/files/files.service.ts:399-425 | some run from the empty table makes a file READY without a clean verdict |
| FileAnswers.ScanDecidesExactly | backend/src/files/file-maintenance.service.ts:112-230 | in every run a step takes a file from SCANNING to READY if and only if it applies a clean answer in time, to REJECTED if and only if an infected one in time, due for purge then, and to FAILED if and only if the answer came a day after the upload or is the third that settles nothing |
| FileAnswers.VerdictIsLastAnswer | backend/src/files/file-maintenance.service.ts:156-230 | in every run the stored verdict is clean, or infected, if and only if the last answer given in time while the file was SCANNING was; so a READY file was last found clean, or its verdict is inconclusive |
| FileAnswers.AnswerDecides | backend/src/files/file-maintenance.service.ts:156-230 | an answer changes the columns of its own file as the answer says, if that is still SCANNING, and no other file or object |
| FileAnswers.SelectExactly | backend/src/files/file-maintenance.service.ts:112-124 | with a scanner a pass takes up to a hundred SCANNING rows as they are, and changes none |
| FileAnswers.ScanOfOne | backend/src/files/file-maintenance.service.ts:112-230 | scanned by itself a file leaves SCANNING for READY, REJECTED or FAILED exactly by the answer, its attempts and a day since the upload |
| FileScans.RunKeepsAttempts | backend/src/files/file-maintenance.service.ts:112-230 | in every run a SCANNING file, or one that can be again, has fewer than three attempts |
| FileScans.PassDrains | backend/src/files/file-maintenance.service.ts:112-230 | every pass lowers the sum of attempts left by at least min(100, backlog), for any mix of verdicts, errors and timeouts |
| FileScans.BacklogDrains | backend/src/files/file-maintenance.service.ts:112-230 | with no arrivals, as many passes as that sum leave no file SCANNING |
| FileScans.PassIsARun | backend/src/files/file-maintenance.service.ts:112-154 | selecting a batch and applying one answer per file, however long each scan takes, is exactly one pass |
| FilesService.Service.ProcessScans | backend/src/files/file-maintenance.service.ts:112-154 | the loop over a batch, with time passing at each scan, equals one pass of answers, each of which does what FileAnswers.AnswerDecides says |
| FilesService.Service.FilterRecords | backend/src/files/file-maintenance.service.ts:83-110 | exactly the listed keys without a record remain |
| FilesService.Service.Serve | backend/src/files/files.service.ts:71-425 | any interleaving of steps leaves the state that `Run` computes, which some run from an empty table leads to |
| FilesService.Service.CheckLimits | backend/src/files/files.service.ts:88-139 | an upload passes exactly when the table with its row in it would respect the quota and both reservation limits |
| FilesService.Service.Guarantees | backend/src/files/files.service.ts:71-425 | whatever steps the service has taken, removable objects are lost for good, scans have attempts left and verdicts match statuses |
| CheckoutSafety.SessionsMatch | backend/src/billing/billing.service.ts:58-241 | in every run a stored session is the one the provider made under that row's key for that organization and interval, and every answered request got a session made for what its first call asked |
| CheckoutSafety.OpenRowsEndByWebhook | backend/src/billing/billing.service.ts:183-241 | no request removes an unexpired row with a session or changes its session; only a webhook does |
| CheckoutSafety.TurnReuses | backend/src/billing/billing.service.ts:183-241 | an undisturbed turn reuses an open reservation of the same interval and refuses one of the other |
| CheckoutSafety.TurnReplaces | backend/src/billing/billing.service.ts:183-241 | an undisturbed turn replaces a missing, expired or abandoned reservation under a fresh key |
| CheckoutSafety.RunKeeps | backend/src/billing/billing.service.ts:58-241 | every step keeps rows, keys, provider sessions, requests and answers consistent |
| CheckoutEffects.BeginExactly | backend/src/billing/billing.service.ts:58-73 | a request is refused at once for an organization with a managed subscription, and goes on for any other |
| CheckoutEffects.CustomerExactly | backend/src/billing/billing.service.ts:75-91 | a request asks for trial days exactly if no trial was used when it read the customer |
| CheckoutEffects.RequestRefused | backend/src/billing/billing.service.ts:58-241 | an undisturbed request is refused, changing nothing, for a managed subscription and for an open reservation of the other interval |
| CheckoutEffects.RequestReopens | backend/src/billing/billing.service.ts:75-86 | an open session of the same interval is answered again, changing nothing |
| CheckoutEffects.RequestOpens | backend/src/billing/billing.service.ts:58-131 | any other undisturbed request opens the session made under its reservation's key, or a new one with trial days exactly if none was used, and stores it until the provider's date or for a day |
| CheckoutEffects.RequestFails | backend/src/billing/billing.service.ts:107-118 | without the provider it is refused and its reservation goes |
| CheckoutEffects.TakenTurnsAgain | backend/src/billing/billing.service.ts:183-241 | a request whose place is taken turns again twice, then is refused; the row that is there stays |
| CheckoutEffects.CreatesRow | backend/src/billing/billing.service.ts:227-240 | where no row stands in the way a request gets one under a fresh key, for a day from when it read the table |
| CheckoutEffects.RemovedExactly | backend/src/billing/billing.service.ts:107-226 | whatever else is in flight, a request removes a row if and only if it is the very row it read as expired or abandoned, or reserved before the provider failed, and never one that replaced it |
| CheckoutEffects.LostDrop | backend/src/billing/billing.service.ts:183-226 | a request that does not find the row as it read it turns again if it was abandoned, and goes on if it was expired |
| CheckoutEffects.StoreExactly | backend/src/billing/billing.service.ts:119-140 | a session is stored in the row with its key, or in a new one if the organization has none; with another row the request fails and the row stays |
| CheckoutEffects.HooksExactly | backend/src/billing/stripe-webhook.service.ts:116-262 | a completed session takes exactly its row; a sync takes the organization's row and sets its marks |
| CheckoutTrial.TrialAgainExactlyWhen | backend/src/billing/billing.service.ts:75-108 | after a trial is recorded, some later checkout can carry trial days if and only if a request is in flight that read its customer before and can still store an unexpired trial session |
| CheckoutTrial.TrialAgainHappens | backend/src/billing/billing.service.ts:75-108 | a concrete run in which that happens |
| CheckoutTrial.NobodyStoresNoTrial | backend/src/billing/billing.service.ts:75-108 | without such a request no run gives a new request of the organization trial days |
| TrialMarks.MarksAgree | backend/src/billing/stripe-webhook.service.ts:228-262 | a run of webhook syncs and a run of checkout that sees exactly their hooks agree on who has used a trial and who has a managed subscription |
| TrialMarks.RefusedWhileSubscribed | backend/src/billing/billing.service.ts:62-73 | after such runs a new request is refused at once if and only if the webhooks left a subscription that is active, trialing, past due or incomplete |
| TrialMarks.RecordedTrialExactlyWhen | backend/src/billing/billing.service.ts:75-108 | when a sync records a trial mark, a later checkout can carry trial days if and only if such a request is then in flight |
| CheckoutService.Service.ServeAll | backend/src/billing/billing.service.ts:58-241 | any interleaving of steps leaves the state that `Run` computes, which some run from the empty table leads to |
| CheckoutService.Service.CompletedHook | backend/src/billing/stripe-webhook.service.ts:116-121 | exactly the rows that hold the completed session go |
| CheckoutService.Service.Guarantees | backend/src/billing/billing.service.ts:58-241 | whatever steps the service has taken, rows, keys, sessions, requests and answers are consistent |
| SubscriptionReplica.RowIsRunningMaxima | backend/src/billing/stripe-webhook.service.ts:159-271 | for any webhooks, with duplicates, reordering and lost records, the row is the one that applying only the strict running maxima of event time leaves (SubscriptionEffects says which deliveries count and what each leaves) |
| SubscriptionReplica.MaximaIncrease | backend/src/billing/stripe-webhook.service.ts:183-197 | those maxima are strictly increasing in event time |
| SubscriptionReplica.GraceCountsFromStretchStart | backend/src/billing/stripe-webhook.service.ts:199-213 | the deadline is set exactly while past due, the configured days after the first event of the unbroken stretch |
| SubscriptionReplica.AccessInEveryRun | backend/src/billing/billing-entitlement.service.ts:56-76 | in every run paid access is ACTIVE or TRIALING, or past due until the configured days after the stretch's first applied event |
| SubscriptionReplica.RetryChangesNothing | backend/src/billing/stripe-webhook.service.ts:37-68 | an event processed once whose record was lost changes no row, trial mark or notification when delivered again, after any other events (same organization and owner) |
| SubscriptionReplica.TrialMarkIsFirst | backend/src/billing/stripe-webhook.service.ts:228-252 | the trial mark is the time of the first applied event with a trial start, and never moves |
| SubscriptionReplica.OneNoticePerStretch | backend/src/billing/stripe-webhook.service.ts:298-376 | in every run with one owner, the owner has a note of a trial, a failed payment or a grace period for an event if and only if that event is the first of an unbroken stretch of that status among the applied events |
| SubscriptionReplica.OneNoticePerEnding | backend/src/billing/stripe-webhook.service.ts:298-376 | in every run with one owner, there is a note for an event if and only if it first schedules the cancellation, or first says CANCELED without a refund or dispute |
| SubscriptionReplica.NotesInARun | backend/src/billing/stripe-webhook.service.ts:159-377 | the notes of a run are those that applying only the running maxima announces |
| SubscriptionEffects.DeliveryRow | backend/src/billing/stripe-webhook.service.ts:70-262 | a delivery changes an organization's row if and only if it is not recorded, names a subscription of the product at one of the two prices for that known organization, is neither unsupported nor a partial refund, and is newer; the row is then the subscription with the interval of its price and the deadline |
| SubscriptionEffects.RowsFollowPrices | backend/src/billing/stripe-webhook.service.ts:413-427 | in every run each row is of the product, Monthly if and only if its price is the monthly one, and Annual if and only if it is the annual one and not the monthly one |
| SubscriptionEffects.DeliveryNotes | backend/src/billing/stripe-webhook.service.ts:190-411 | after a delivery there is a note for a user and key if and only if there was one or the delivery reaches the organization the user owns and the notice is due: a refund exactly for a full refund, a dispute exactly for a dispute, the others by what changed; its organization, date and expiry are given |
| SubscriptionEffects.DeliveryMarksTrial | backend/src/billing/stripe-webhook.service.ts:228-252 | the first delivery that changes the row and has a trial start marks the trial, and nothing else does |
| SubscriptionEffects.DeliveryRecorded | backend/src/billing/stripe-webhook.service.ts:37-68 | a delivery is recorded unless the record is lost or it concerns an organization that does not exist |
| SubscriptionService.Service.PaidPlan | backend/src/billing/billing-entitlement.service.ts:10-76 | the paid plan while active or trialing, and while past due until a deadline that is always set |
| SubscriptionService.Service.Serve | backend/src/billing/stripe-webhook.service.ts:37-411 | any sequence of deliveries leaves the state that `Run` computes, which some run from the start leads to |
| SubscriptionService.Service.Guarantees | backend/src/billing/stripe-webhook.service.ts:199-213 | whatever has been delivered, a deadline is set exactly for the rows that are past due |
| Notifications.WriteExactly | backend/src/notifications/notification.writer.ts:26-69 | one write adds a row exactly if there is none for the user and key and it is not organization news switched off; the row is dated like its event but not ahead, and kept ninety days |
| Notifications.FirstWriteWins | backend/src/notifications/notification.writer.ts:41-68 | of the wanted writes to one key exactly the first takes effect, dated no later than its write and expiring 90 days after |
| Notifications.WriteAllAdds | backend/src/notifications/notification.writer.ts:30-68 | the rows after some writes are exactly those before and those that a wanted write names |
| Notifications.WriteAllKeeps | backend/src/notifications/notification.writer.ts:46-68 | a row, once written, is left alone by every later write |
| OrganizationSafety.OneOwner | backend/src/organizations/organizations.service.ts:107-718 | in every run an organization has exactly one OWNER membership, and it is its owner's |
| OrganizationSafety.AdminsComeFromOwners | backend/src/organizations/organizations.service.ts:424-718 | every ADMIN membership has been ADMIN without a break since a role change or transfer by the owner at that time, or since redeeming a token that the owner at an earlier time issued |
| OrganizationSafety.AdminInvitationsComeFromOwners | backend/src/organizations/organizations.service.ts:244-395 | every token for an invitation to administer was issued by an invitation or a resend that took effect, by the owner at that time |
| OrganizationSafety.EachInvitationOnce | backend/src/organizations/organizations.service.ts:424-528 | no invitation is redeemed twice in a run |
| OrganizationSafety.MembershipsBeginOneWay | backend/src/organizations/organizations.service.ts:107-528 | a membership begins only with its organization, for the owner, or with an accepted invitation, in the invited role |
| OrganizationSafety.ClosedStays | backend/src/organizations/organizations.service.ts:335-422 | an accepted or revoked invitation never changes again |
| OrganizationEffects.RevokedIsNeverRedeemed | backend/src/organizations/organizations.service.ts:397-422 | in every run, once an actor above the invited role has revoked an open invitation of the organization, it is revoked and no continuation redeems it |
| OrganizationEffects.InviteThenAccept | backend/src/organizations/organizations.service.ts:244-528 | an invitation that may be issued lets its addressee in, in the invited role, exactly for seven days, and is marked expired after |
| OrganizationEffects.ResendRetiresToken | backend/src/organizations/organizations.service.ts:335-395 | after a resend that may take effect the old token is refused and the new one lets the addressee in for seven days |
| OrganizationEffects.RevokeExactly | backend/src/organizations/organizations.service.ts:397-422 | after a revocation the invitation is revoked if and only if it was, or it is an open one of the live organization and the actor is an administrator or owner above its role; nothing else changes apart from expiries |
| OrganizationEffects.InviteExactly | backend/src/organizations/organizations.service.ts:244-303 | an invitation for seven days is issued if and only if the actor is above the role and nobody with the address is a member or holds an open invitation; nothing else changes apart from expiries |
| OrganizationEffects.ResendExactly | backend/src/organizations/organizations.service.ts:335-395 | an invitation opens again for seven days under a new token if and only if the actor is above its role, it is pending or expired and of the organization, and has no open rival |
| OrganizationEffects.AcceptExactly | backend/src/organizations/organizations.service.ts:424-528 | accepting makes a verified user a member in the invited role exactly if the invitation is theirs, open, presented with its token and to a live organization they do not belong to; a lapsed one is marked; nothing else changes |
| OrganizationEffects.ListMarksLapsed | backend/src/organizations/organizations.service.ts:305-333 | listing marks exactly the lapsed invitations of the organization, for an administrator or the owner |
| OrganizationEffects.CreateExactly | backend/src/organizations/organizations.service.ts:107-156 | a verified founder owns the new organization under the smallest number whose slug is unused, if any of a hundred is; otherwise nothing changes |
| OrganizationEffects.DeleteExactly | backend/src/organizations/organizations.service.ts:218-242 | exactly the owner deletes a live organization, which revokes its pending invitations and changes nothing else |
| OrganizationEffects.TransferExactly | backend/src/organizations/organizations.service.ts:670-718 | exactly the owner hands a live organization over, to another member, and becomes an administrator |
| OrganizationSafety.AlwaysOnePending | backend/src/organizations/organizations.service.ts:244-395 | in every run an address has at most one pending invitation to an organization |
| OrganizationSafety.ChangeRoleNeedsRank | backend/src/organizations/organizations.service.ts:555-611 | a role changes exactly when the actor outranks both the target and the new role |
| OrganizationSafety.RemovalNeedsRank | backend/src/organizations/organizations.service.ts:613-668 | a member goes exactly when the actor outranks them, or they leave and do not own the organization |
| OrganizationSafety.TransferBack | backend/src/organizations/organizations.service.ts:670-718 | transferring ownership and back restores the owner and leaves the other an administrator |
| OrganizationSafety.SlugsAlwaysFit | backend/src/organizations/organizations.service.ts:107-156 | in every run the slugs of all organizations, deleted ones included, are well formed, at most 63 characters and distinct |
| Organizations.FirstFreeIsSmallest | backend/src/organizations/organizations.service.ts:114-155 | the smallest free suffix is taken, and a conflict arises exactly when all 100 are in use |
| Roles.OnlyDownwards | backend/src/authorization/authorization.service.ts:76-121 | a role change is allowed exactly when actor is an administrator or owner above both the target and the given role |
| Roles.RolesNest | backend/src/authorization/authorization.service.ts:10-52 | each role may do what the one below may and exactly the listed capabilities more |
| OrganizationsService.Service.Guard | backend/src/authorization/organization-context.service.ts:34-75 | the owner passes in a live organization, and only the owner for what only the owner may do |
| OrganizationsService.Service.CreateOrganization | backend/src/organizations/organizations.service.ts:107-156 | the loop over suffixes creates the organization with its owner's membership, or changes nothing |
| OrganizationsService.Service.DeleteOrganization | backend/src/organizations/organizations.service.ts:218-242 | if the owner asks, nobody may do anything in the organization afterwards and no invitation to it is pending; other organizations and invitations are unchanged |
| OrganizationsService.Service.ExpireInvitations | backend/src/organizations/organizations.service.ts:726-739 | afterwards no invitation in question is pending past its deadline, and every other invitation is unchanged |
| OrganizationsService.Service.Serve | backend/src/organizations/organizations.service.ts:107-718 | any sequence of requests leaves the state that `Run` computes, which some run from the empty database leads to |
| OrganizationsService.Service.Guarantees | backend/src/organizations/organizations.service.ts:107-718 | whatever requests were served, each organization has one owner, addresses have one pending invitation and slugs are well formed and distinct |
| Slug.SlugifyIsSlug | backend/src/organizations/organizations.service.ts:761-770 | every slug is lowercase alphanumeric groups joined by single hyphens and keeps the name's letters and digits in order; the fallback is used exactly for names without any |
| Slug.SlugifyIdempotent | backend/src/organizations/organizations.service.ts:761-770 | a well-formed slug is its own slug |
| Slug.WordsAreJoined | backend/src/organizations/organizations.service.ts:761-770 | whatever separates two words, the slug joins theirs with one hyphen |
| Slug.WithSuffixIsSlug | backend/src/organizations/organizations.service.ts:772-775 | for every suffix from 1 to 100 the slug is well formed and has 1 to 63 characters |
| Slug.SuffixesDiffer | backend/src/organizations/organizations.service.ts:772-775 | the slugs for suffixes 2 to 100 are pairwise distinct |
| Slug.SuffixIsAppended | backend/src/organizations/organizations.service.ts:772-775 | the slug for a suffix is a beginning of the base as long as fits, without hyphens at the cut, a hyphen and the number; the first has no number |
| NotificationPages.PageIsNext | backend/src/notifications/notifications.service.ts:31-63 | a page lists matching keys below the cursor in descending order; the last leaves none out, any other is full and leaves out exactly those below its next cursor |
| NotificationPages.PageNewestFirst | backend/src/notifications/notifications.service.ts:31-63 | a page lists the newest first, those of one time by descending identifier, and only what follows the cursor in that order |
| NotificationPages.ViewExactly | backend/src/notifications/notifications.service.ts:146-157 | a list is of the user's notifications dated by now and not expired, of the organization if one is asked for, and unread if asked |
| NotificationPages.EachListedOnce | backend/src/notifications/notifications.service.ts:31-63 | whatever happens between pages, a finished walk lists nothing twice and exactly once everything that matched at every page read |
| NotificationPages.WalkDescends | backend/src/notifications/notifications.service.ts:43-48 | a walk lists strictly descending keys below its cursor |
| NotificationPages.WalkEnds | backend/src/notifications/notifications.service.ts:50-62 | over a finite universe of keys a walk ends, within n pages for n times limit keys |
| NotificationsService.ReadAllClears | backend/src/notifications/notifications.service.ts:107-123 | nothing matching is unread afterwards, later only what is dated after it, other users' unread lists and all full lists are unchanged, and a repetition changes no row it marked |
| NotificationsService.MarkOneTakesOne | backend/src/notifications/notifications.service.ts:79-105 | exactly the named notification leaves the unread list, once |
| NotificationsService.MarkingDates | backend/src/notifications/notifications.service.ts:79-123 | exactly the due rows get the time of marking, and every other row stays |
| NotificationsService.Service.List | backend/src/notifications/notifications.service.ts:31-63 | the page of the active rows that the filter selects |
| NotificationsService.Service.MarkRead | backend/src/notifications/notifications.service.ts:79-105 | found exactly if active and the user's own; read time set once |
| NotificationsService.Service.MarkAllRead | backend/src/notifications/notifications.service.ts:107-123 | the count is the number of unread notifications there were, and none is left |
| EmailCalls.SendsBoundedByOverlap | backend/src/email/transactional-email.service.ts:93-220 | in every run the provider is called for a key at most three times as often as calls for it are ever in flight together |
| EmailCalls.BoundIsReached | backend/src/email/transactional-email.service.ts:93-220 | for every number of overlapping calls some run reaches that bound: two calls can send six times |
| EmailCalls.AtMostThreeSends | backend/src/email/transactional-email.service.ts:93-220 | calls that do not overlap send at most three times |
| EmailCalls.SendsAreCounted | backend/src/email/transactional-email.service.ts:160-169 | in every run the attempts of a row are the sends made and those counted but not yet made |
| EmailCalls.SendsAgainExactlyWhen | backend/src/email/transactional-email.service.ts:93-220 | once a success is recorded the provider is called again if and only if a call then in flight has attempts left |
| EmailSingle.CallIsARun | backend/src/email/transactional-email.service.ts:93-220 | the steps of a call, undisturbed, leave the row, the sends and the report that the loop computes |
| EmailSingle.DeliverRowCounts | backend/src/email/transactional-email.service.ts:93-220 | an undisturbed call counts each send, reports success exactly when the row records one (the accepted message, sent now, no error), and otherwise leaves it failed if it could write that |
| EmailSingle.RetriesUntilTheLimit | backend/src/email/transactional-email.service.ts:152-220 | with only retryable refusals and unstored acceptances every attempt left is made |
| EmailSingle.CallFollowsAnswers | backend/src/email/transactional-email.service.ts:93-220 | an undisturbed call whose writes succeed sends until it is not told to try again, three times at most in the life of the row; the row is then SENT with the accepted message or FAILED with the provider's code, and the call reports which |
| EmailSingle.SettledSendsNothing | backend/src/email/transactional-email.service.ts:104-121 | a call on a row that has its message, a success or no attempt left sends nothing and reports what the row says |
| EmailRegister.RegisterIsNewestSince | backend/src/email/resend-webhook.service.ts:51-132 | in every run a delivery that got its message with no other call for it in flight shows, as the status of its kind, the newest of the mapped events first registered after that, in any order and repetition, and SENT if there is none |
| EmailRegister.TimeIsLatestHeard | backend/src/email/resend-webhook.service.ts:76-86 | in every run, whatever calls are in flight, the event time is the latest of the mapped events that named the delivery's message when they were first registered |
| EmailRegister.StatusIsLastWritten | backend/src/email/resend-webhook.service.ts:51-111 | in every run, whatever calls overlap, the status is the last one written by a call or by an event newer than those heard before |
| EmailRegister.RegisterSinceQuiet | backend/src/email/resend-webhook.service.ts:51-111 | from any moment at which a delivery has its message and its last call has ended, it shows the newest event first registered since, unless none is newer than what it had heard of |
| EmailRegister.ShowsNewestExactlyWhen | backend/src/email/resend-webhook.service.ts:51-111 | it shows its newest mapped event if and only if that event was not registered before the message was stored |
| EmailRegister.EarlyEventIsLost | backend/src/email/resend-webhook.service.ts:59-111 | for every mapped event there is a run in which it comes before the message is stored, is repeated, and is lost |
| EmailRegister.RunIsApplyAll | backend/src/email/resend-webhook.service.ts:51-111 | from then on a run leaves the row that applying each event once, in order of first arrival, leaves |
| EmailRegister.SuccessStandsExactlyWhen | backend/src/email/transactional-email.service.ts:152-220 | a recorded success is never overwritten by calls if and only if no other call for the key is in flight |
| EmailFailures.FailureTimeExactlyWhen | backend/src/email/resend-webhook.service.ts:84-102 | the failure time is the same for all orders of events with distinct times if and only if it is not the case that the newest says SENT and one reports a failure |
| EmailFailures.FailureTimeOverRuns | backend/src/email/resend-webhook.service.ts:51-111 | the same for the orders in which runs of the register receive new events |
| EmailFailures.FinalEventDecides | backend/src/email/resend-webhook.service.ts:76-132 | of events in any order the newest decides: delivered gives DELIVERED with that time and no failure; bounced, complained, failed or suppressed give the status of that name, that failure time and error; sent or scheduled give SENT |
| EmailFailures.NewestEventShows | backend/src/email/resend-webhook.service.ts:51-132 | the same in every run, for a delivery that had its message and no call in flight, of the events that name it and were not registered before |
| EmailFailures.HookExactly | backend/src/email/resend-webhook.service.ts:51-132 | an event registered for the first time changes exactly the rows it names that have heard of nothing as new; an event of another kind changes no row |
| EmailService.Service.AttemptDelivery | backend/src/email/transactional-email.service.ts:152-220 | the attempt loop: each pass counted before it sends, errors noted, the last one thrown |
| EmailService.Service.Deliver | backend/src/email/transactional-email.service.ts:93-150 | the row, the sends and the report of one undisturbed call |
| EmailService.Service.Serve | backend/src/email/transactional-email.service.ts:93-220 | any interleaving of calls and webhooks leaves the state that `Run` computes, which some run from the empty database leads to |
| EmailService.Service.Guarantees | backend/src/email/transactional-email.service.ts:93-220 | whatever steps were taken, every attempt is accounted for and rows without a message show no success and no event |
| ClamAv.WriteRequest | backend/src/files/malware/clamav-malware-scanner.ts:115-132 | the loop writes the command, one length-prefixed frame per chunk and the terminator |
| ClamAv.RequestRoundTrip | backend/src/files/malware/clamav-malware-scanner.ts:115-132 | the daemon's reading gives back exactly the body in chunks of 1 to 65536 bytes and stops at the end of the request |
| ClamAv.RequestsArePrefixFree | backend/src/files/malware/clamav-malware-scanner.ts:115-132 | no request is the beginning of another |
| ClamAv.ChunksPartition | backend/src/files/malware/clamav-malware-scanner.ts:122-127 | the chunks make up the body and all but the last are full |
| ClamAvReply.SmallReplyAnySplit | backend/src/files/malware/clamav-malware-scanner.ts:58-71 | a reply of at most 16 KiB means the same however it is split into data events |
| ClamAvReply.SplitIndependentExactlyWhen | backend/src/files/malware/clamav-malware-scanner.ts:58-71 | any reply does, if and only if it is within 16 KiB or has no zero byte in its first 16 KiB |
| ClamAvReply.SplitMatters | backend/src/files/malware/clamav-malware-scanner.ts:58-71 | two splits of any other reply, one refused and one read |
| ClamAvReply.SettledStays | backend/src/files/malware/clamav-malware-scanner.ts:45-51 | the first outcome stands |
| ClamAvReply.Listener.HandleData | backend/src/files/malware/clamav-malware-scanner.ts:58-68 | the buffer grows and settles on size or on the first zero byte |
| ClamAvReply.Listener.Listen | backend/src/files/malware/clamav-malware-scanner.ts:53-72 | any sequence of events leaves what the model computes |
| ClamAvVerdict.VerdictExactly | backend/src/files/malware/clamav-malware-scanner.ts:28-34 | clean if and only if the reply ends in the word OK, infected if and only if in FOUND, never both, and unsupported if and only if neither and it mentions the size limit |
| ClamAvVerdict.LastWordDecides | backend/src/files/malware/clamav-malware-scanner.ts:28-34 | whatever precedes it, a signature name included, the last word decides |
| ClamAvVerdict.SizeLimitReply | backend/src/files/malware/clamav-malware-scanner.ts:28-34 | a reply about the size limit that ends in no such word is unsupported |
| ClamAvVerdict.DaemonReplies | backend/src/files/malware/clamav-malware-scanner.ts:28-34 | the daemon's replies for a clean stream and for any report of a signature get their verdicts |
| ClamAvVerdict.VerdictAnySplit | backend/src/files/malware/clamav-malware-scanner.ts:28-71 | however a terminated reply within the limit is split, the answer is the verdict of its text |
| ClamAvVerdict.LineEndMatters | backend/src/files/malware/clamav-malware-scanner.ts:28-71 | a line end before the zero byte makes a clean reply count as failed, and one before the end of the stream does not |
| ClamAvVerdict.RequestBegins | backend/src/files/malware/clamav-malware-scanner.ts:115-121 | every request begins with the command and its zero byte |
| AuditSafety.SecretsDoNotShow | backend/src/audit/audit.service.ts:110-147 | trees that differ only under sensitive keys, at any depth, sanitize to the same output |
| AuditSafety.SanitizedIsBounded | backend/src/audit/audit.service.ts:92-133 | every output has nesting at most seven, 50 entries a container with distinct keys, printable strings of at most 500 units and keys of 1 to 100 |
| AuditSafety.PlainIsKept | backend/src/audit/audit.service.ts:110-133 | a tree within the limits without sensitive keys is recorded as it is |
| AuditSafety.LastEntryCounts | backend/src/audit/audit.service.ts:123-132 | of entries whose cleaned keys coincide the last one counts |
| AuditSafety.PrefixDoesNotMatter | backend/src/audit/audit.service.ts:135-147 | a key that ends in a sensitive word is sensitive whatever precedes it |
| AuditSafety.SpellingDoesNotMatter | backend/src/audit/audit.service.ts:135-147 | case, separators and look-alike letters inside a key do not change its sensitivity |
| AuditEffects.SensitiveExactly | backend/src/audit/audit.service.ts:12-147 | a key is sensitive if and only if it spells, in any case and with anything but letters and digits in between, one of the 17 listed names or one that ends in one of the six words; the three exempted codes never matter |
| AuditEffects.OrdinaryKeys | backend/src/audit/audit.service.ts:135-147 | in particular no key that ends in another letter, or in a digit, is sensitive |
| AuditEffects.CleanExactly | backend/src/audit/audit.service.ts:91-102 | nothing is left of a text without visible units; of any other the part from the first to the last visible one, cut to the limit, with spaces for control characters |
| AuditEffects.FieldBecomes | backend/src/audit/audit.service.ts:110-133 | each of the first fifty fields is recorded under its cleaned key, unless a later one has the same: as redacted exactly if the key is sensitive, and else sanitized one level down |
| AuditEffects.ItemsBecome | backend/src/audit/audit.service.ts:115-119 | the first fifty items are recorded, each sanitized one level down |
| AuditEffects.ScalarsBecome | backend/src/audit/audit.service.ts:110-122 | from the seventh level on everything becomes the truncation mark; above, what JSON cannot hold becomes null |
| AuditEffects.BigIntIsSpelled | backend/src/audit/audit.service.ts:120 | a big integer becomes its decimal text |
| AuditService.RowFits | backend/src/audit/audit.service.ts:38-102 | every text of a row fits its column and is printable, the metadata is bounded, and the row is not dated ahead and expires after 365 days |
| AuditService.RowHidesSecrets | backend/src/audit/audit.service.ts:38-67 | inputs that differ only under sensitive metadata keys leave the same row |
| AuditService.RowKeepsTidy | backend/src/audit/audit.service.ts:38-80 | texts that need no cleaning are stored as they are, each in its own column, and the date unless it lies ahead, for a year |
| AuditService.RowKeepsPlain | backend/src/audit/audit.service.ts:38-108 | so is plain metadata; missing metadata is an empty object |
| AuditService.Log.Record | backend/src/audit/audit.service.ts:38-67 | earlier rows stay, the new row is within its limits, and it is the row of every input that differs only under sensitive metadata keys |

## Left out

- The frontend, controllers, guards, DTO validation, configuration and logging: wiring without state of its own.
- Argon2, JWT, AES-GCM, HMAC, SHA-256 and TOTP generation: a presented code is the time step or recovery code it matches.
- Credential checks of `login` and the OAuth sign-in: they end in `completeFirstFactor`, which is modelled.
- Email verification and password reset token rows; `resetPassword` acts on sessions and challenges as `logoutAll` does.
- Access tokens: only refresh sessions are modelled.
- Races inside the requests that are one step here.
- Membership identifiers, profile and name fields, and the lists of members and organizations with their page counts.
- NFKD normalization, removal of combining marks and lower-casing before `slugify` collapses a name; email normalization.
- Customer identifiers at the payment provider and the lookup of an organization by customer: a delivery says which organization it resolves to.
- Billing columns that are copied without a decision (invoice, tax, period start, cancellation times).
- Base64 encoding of the notification cursor, notification preferences endpoints and the pruning of expired rows.
- Lifecycle tags of stored objects and their retry, local upload and download routes, name and type checks and checksums: of a declaration only the size is checked, and content validation is an input.
- The `running` flag of file maintenance: the model lets several passes run at once, which includes what the flag allows.
- `checkConnection` of the scanner, a failing socket write, and the trimming of spaces beyond ASCII from a scan reply.
- Delays between email attempts, message building (only whether it succeeds) and webhook signature checks.
- UUID and IP address checks of an audit row, and JavaScript's ordering of object keys in metadata.
- SubscriptionReplica.RetryChangesNothing: assumes that the repeated event resolves to the same organization or to none, because the provider may otherwise move a subscription between organizations.
