# Fluxa core protocols: model and proofs

This project models the parts of Fluxa where an error would cost money or trust, and proves what they promise for
every input and every interleaving: fiscal documents and their workers, the one-shot submission to the Agenzia delle
Entrate (AdE), refresh-token rotation, table sessions and reservations, an event's table inventory, floor-plan
versions, the session pools, the VAT arithmetic of the posted payload, and three smaller loops.

Check everything with `dafny verify dfyconfig.toml`.

## How it is organised

Each component has a specification on values (a function from rows and inputs to rows and an answer) and, where the
code changes state, a class whose methods perform the same steps and are proved equal to that specification. Protocols
add a step function over a whole system (tables plus the workers or callers that hold something in memory), an
invariant, one lemma per step, and theorems over all runs. The `Effects` files, `AdeRecourse` and `FloorPlanReading` state
independently of those specifications what each operation writes, column by column, and exactly when it does so. A step that its guard refuses changes nothing, so a run is
any sequence of steps.

| files | component |
|---|---|
| `FiscalPolicy`, `FiscalStore`, `FiscalProtocol`, `FiscalSafety`, `FiscalAnswers`, `FiscalEffects` | issue, retry, void, claim, success, failure, crash, recovery |
| `SubmitInput`, `OperationLock`, `AdeErrors`, `FastSubmit`, `FastSubmitMetrics`, `AdeSubmit`, `AdeRecourse` | one submission to AdE, its fast path, its metrics, its memory |
| `AuthSessions`, `AuthSafety`, `AuthEffects` | refresh-token rotation, replay detection, revocation |
| `TableSessions`, `TableSessionEffects`, `Reservations`, `ReservationSafety`, `ReservationCompletion`, `ReservationEffects` | table sessions, and the reservations that depend on them |
| `EventInventory`, `EventInventorySafety`, `EventInventoryEffects` | merge, split, publication |
| `FloorPlanDocument`, `FloorPlanReading`, `FloorPlans` | validation of the document, draft and published versions |
| `LruMap`, `PoolAccounts`, `SessionPools`, `HttpContexts` | the two least-recently-used pools and who owns their contexts |
| `DecimalText`, `DcoPayload` | amounts as text, VAT in exact numbers |
| `CanonicalJson`, `CatalogPrices` | request-hash canonical form, price index |
| `JsText`, `Wrappers` | `trim`, Option and Result |

## What is taken as given

- A database transaction is one atomic step; row locks and advisory locks are what makes it so. Unique indexes, keys
  and check constraints are guards that abort the step.
- Hashes are injective, random identifiers and tokens are fresh, clocks are replaced by a free choice ("stale", "due",
  "in the future").
- External services (the fiscal provider, AdE over HTTP, the browser) answer anything: every theorem quantifies over
  their answers, over crashes and over duplicate queue deliveries.
- Submissions of one worker process are serialised by the global lock that the submit controller takes before `run`
  (`apps/ade-fiscal-worker/src/ade-document-submit.controller.ts`); `run` takes it through the lock service itself too.
- Numbers the code divides or prints with `toFixed` are exact; `toFixed` rounds to the nearest unit, halves upwards.
- Identifiers of products contain no colon, as uuids do not.

## What the proofs found

- `succeed` and `fail` overwrite the status without reading it. Safety rests on the global invariant, and UNKNOWN is
  final exactly when no live worker still holds the claim (`UnknownIsFinalExactlyWhen`). A document whose worker died
  stays PROCESSING for good exactly when it is not an ADE document (`CrashedStaysProcessingExactlyWhen`).
- A success whose recording throws is classified like a failure of the provider. Such a document is executed again in
  some run exactly when it is not an ADE document (`UnrecordedSuccessExecutedAgainExactlyWhen`): with attempts left the
  queue delivers it again, with none left it is REJECTED and a manual retry queues it. So an ADE document is the only
  one whose provider succeeds at most once (`SucceedsOnceExactlyWhen`; two successes are reached in
  `TwiceSoldIsReached`).
- Only the immediate predecessor of the current refresh token triggers revocation; older tokens are merely refused, and
  switching organization never compares the previous token (`ReplayVerdict`).
- The request hash of a table-session mutation does not cover the session, so reusing a mutation id on another session
  is answered with success although that session never changed: exactly those calls (`SwallowedExactlyWhen`), and a
  run leads there (`RepetitionOnAnotherSession`).
- A reservation at its table can be completed exactly when its session was not cancelled (`CompletableExactlyWhen`);
  three steps lead to the dead end (`DeadEndIsReached`).
- Replacing a draft's tables while a group exists breaks the inventory (`ReplaceOrphansGroup`), and a split can leave a
  published event without any unit for its largest party (`SplitCanUnseat`); both with their exact conditions.
- Floor-plan revisions restart at 1 with each publication, so an editor of the previous draft can overwrite the next
  (`EditorOfPreviousDraft`; reached in `UnnoticedSaveIsReached`).
- A negative answer to the POST is still turned into success when the later read of the last document proves the new
  one (`SucceedsExactlyWhenProved`).
- The empty key is taken for "no oldest key" and stops eviction (`WithinLimitExactly`). No present caller passes it:
  both pools are asked for a session file whose size and date were read just before
  (`apps/ade-fiscal-worker/src/ade-document-submit-browser.service.ts`, `pageForSession`, and `contextForSession`), and
  reading those of an empty path fails.
- With the supported rates 4, 5, 10 and 22 a printed line and the printed header always add up to the last decimal:
  half-unit ties are impossible (`LinePartsAddUp`, `HeaderPartsAddUp`).
- The canonical form is only as good as its comparison: keys that `localeCompare` takes for equal keep their order in
  the hash, value by value (`OneFormExactlyWhenSeparated`). The present callers hash objects with a few fixed ASCII
  keys, so no request reaches this.

## Model

| member | source | states |
|---|---|---|
| FiscalPolicy.RetryExactlyWhen | apps/fiscal-worker/src/fiscal-execution-policy.ts:39-98 | Exactly which failures leave a document in RETRY, AUTH_REQUIRED or UNKNOWN; the queue redelivers for RETRY and only for RETRY. |
| FiscalStore.FiscalDatabase.Claim | apps/fiscal-worker/src/fiscal-execution.service.ts:75-99 | The locked row, when claimable, becomes PROCESSING with one more attempt and a STARTED attempt row; otherwise nothing changes and nothing is returned. |
| FiscalStore.FiscalDatabase.Succeed | apps/fiscal-worker/src/fiscal-execution.service.ts:101-140 | The claimed document ends ISSUED or VOIDED, whatever its status was meanwhile, and its attempt row SUCCEEDED. |
| FiscalStore.FiscalDatabase.Fail | apps/fiscal-worker/src/fiscal-execution.service.ts:142-192 | The claimed document takes the decided status, whatever its status was meanwhile, and its attempt row records it. |
| FiscalStore.FiscalDatabase.Execute | apps/fiscal-worker/src/fiscal-execution.service.ts:36-73 | One delivery: claim and provider call, then success recorded, or the error classified and recorded: the provider's own, or the unclassified one of a success whose recording threw, which the queue delivers again exactly outside ADE with attempts left; when recording the failure fails too, or the worker dies, the document stays as claimed. RETRY is always rethrown to the queue. |
| FiscalStore.FiscalDatabase.MarkUnknown | apps/fiscal-worker/src/ade-processing-recovery.service.ts:95-155 | The row turns UNKNOWN if it is still PROCESSING, whatever its attempt number; independently of that, the attempt row with the number that was read is closed if it is still open. |
| FiscalStore.FiscalDatabase.Recover | apps/fiscal-worker/src/ade-processing-recovery.service.ts:52-93 | The rows selected as stale are handled one by one, and the number selected is returned; a recovery already running makes the call a no-op. |
| FiscalStore.FiscalDatabase.Issue | apps/api/src/fiscal/fiscal-documents.service.ts:210-401 | A new QUEUED sale document for the order, or why not: disabled profile, repeated request, or a sale that exists already. |
| FiscalStore.FiscalDatabase.RetryDocument | apps/api/src/fiscal/fiscal-documents.service.ts:403-444 | RETRY or REJECTED goes back to QUEUED with a new version and a recorded mutation; a repetition, a reused id and a version conflict are told apart. |
| FiscalStore.FiscalDatabase.VoidDocument | apps/api/src/fiscal/fiscal-documents.service.ts:446-549 | A QUEUED void beside its issued sale, the sale versioned and the mutation recorded, in one transaction. |
| FiscalProtocol.ClaimKeepsInv | apps/fiscal-worker/src/fiscal-execution.service.ts:75-99 | A claim, by any worker and under duplicate delivery, keeps the invariant of the whole protocol. |
| FiscalProtocol.SucceedKeepsInv | apps/fiscal-worker/src/fiscal-execution.service.ts:101-140 | A success report keeps it, although it does not look at the status it overwrites. |
| FiscalProtocol.FailKeepsInv | apps/fiscal-worker/src/fiscal-execution.service.ts:142-192 | So does a failure report. |
| FiscalProtocol.RetryKeepsInv | apps/api/src/fiscal/fiscal-documents.service.ts:403-444 | So does a manual retry, which raises the number of attempts allowed by one. |
| FiscalProtocol.IssueKeepsInv | apps/api/src/fiscal/fiscal-documents.service.ts:210-401 | So does issuing. |
| FiscalProtocol.VoidKeepsInv | apps/api/src/fiscal/fiscal-documents.service.ts:446-549 | So does voiding a sale that was read earlier: it is still the issued sale that was read. |
| FiscalProtocol.MarkUnknownKeepsInv | apps/fiscal-worker/src/ade-processing-recovery.service.ts:95-155 | So does marking one row UNKNOWN while a live worker may still hold its claim. |
| FiscalProtocol.RecoverMeaning | apps/fiscal-worker/src/ade-processing-recovery.service.ts:52-93 | One recovery turns exactly the stale candidates UNKNOWN, leaves every other status alone, and keeps the invariant. |
| FiscalProtocol.RunKeepsInv | apps/fiscal-worker/src/fiscal-execution.service.ts:36-192 | Every interleaving of issue, retry, void, duplicate delivery, claim, success, failure, crash and recovery keeps the invariant. |
| FiscalSafety.OneExecutionInFlight | apps/fiscal-worker/src/fiscal-execution.service.ts:75-192 | In every reachable state a document has at most one execution in flight, and while it has one it is PROCESSING or UNKNOWN. |
| FiscalSafety.AttemptRowsAreOneToN | apps/fiscal-worker/src/fiscal-execution.service.ts:83-97 | The attempt rows of a document are exactly the numbers 1 to its attempt count, one each. |
| FiscalSafety.SuccessIsFinalAndUnique | apps/fiscal-worker/src/fiscal-execution.service.ts:101-140 | A succeeded attempt is the last one and belongs to an ISSUED or VOIDED document that nobody executes any more. |
| FiscalSafety.AttemptsBounded | apps/fiscal-worker/src/fiscal-execution-policy.ts:39-98 | Attempts never exceed the effective maximum plus the manual retries; RETRY implies attempts are left. |
| FiscalSafety.VoidsHangOnIssuedSales | apps/api/src/fiscal/fiscal-documents.service.ts:446-549 | Every void has an issued sale of its order and provider as parent; an order never has two sales or two voids. |
| FiscalSafety.HaltedForever | apps/fiscal-worker/src/fiscal-execution.service.ts:83-97 | A document that is neither claimable nor open to a manual retry, with no worker in flight, keeps its attempts in every run: issued, voided, UNKNOWN, AUTH_REQUIRED, or crashed and not recovered yet. |
| FiscalSafety.ExecutedAgainExactlyWhen | apps/fiscal-worker/src/fiscal-execution.service.ts:75-99 | Exactly the other documents are executed again in some run: those in flight, claimable, or open to a manual retry. |
| FiscalSafety.UnrecordedSuccessExecutedAgainExactlyWhen | apps/fiscal-worker/src/fiscal-execution.service.ts:40-72 | After a success that could not be recorded, some run executes the document again exactly when it is not an ADE document, attempts left or not. |
| FiscalAnswers.AdeSucceedsAtMostOnce | apps/fiscal-worker/src/fiscal-execution-policy.ts:60-98 | In every run, with lost answers and crashes after the answer, the provider succeeds at most once for an ADE document, and for any document at most once per attempt. |
| FiscalAnswers.SucceedsOnceExactlyWhen | apps/fiscal-worker/src/fiscal-execution-policy.ts:60-98 | No run makes a provider succeed a second time for the same document exactly when it is ADE; for any other, every number of successes is reached. |
| FiscalAnswers.TwiceSoldIsReached | apps/fiscal-worker/src/fiscal-execution.service.ts:36-73 | From empty tables: the first success is lost, the queue delivers again, the second is recorded; the document is ISSUED after two successes. |
| FiscalSafety.SettledForever | apps/fiscal-worker/src/fiscal-execution.service.ts:83-97 | A dead-end document with no worker in flight keeps status, attempts and every other column the protocol reads, in any future. |
| FiscalSafety.AdeUnclassifiedFailureSettles | apps/fiscal-worker/src/fiscal-execution-policy.ts:60-98 | An unclassified failure of an ADE document stops it as UNKNOWN for good, with no further attempt. |
| FiscalSafety.RecoveredCrashSettles | apps/fiscal-worker/src/ade-processing-recovery.service.ts:52-155 | A crashed ADE execution found by recovery is UNKNOWN for good, with no further attempt. |
| FiscalSafety.CrashedStaysProcessingExactlyWhen | apps/fiscal-worker/src/ade-processing-recovery.service.ts:52-93 | With no worker in flight, a PROCESSING document stays PROCESSING in every run exactly when it is not an ADE document. |
| FiscalSafety.OvertakenWorkerIsReached | apps/fiscal-worker/src/ade-processing-recovery.service.ts:52-155 | From empty tables: issue, claim and recovery leave a document UNKNOWN while its worker still holds the claim. |
| FiscalSafety.UnknownIsFinalExactlyWhen | apps/fiscal-worker/src/fiscal-execution.service.ts:101-192 | UNKNOWN is final exactly when no live worker still holds the claim; otherwise some run moves the document. |
| FiscalSafety.RetryAcceptedOnce | apps/api/src/fiscal/fiscal-documents.service.ts:590-631 | A retry repeated with its mutation id changes nothing, whatever happened in between. |
| FiscalEffects.ClaimIsRecorded | apps/fiscal-worker/src/fiscal-execution.service.ts:75-99 | A free worker takes a QUEUED or RETRY document: PROCESSING, one more attempt, its STARTED row, and the copy of the row it works from; in every other case nothing changes. |
| FiscalEffects.SuccessIsRecorded | apps/fiscal-worker/src/fiscal-execution.service.ts:101-140 | The row takes identifier and status of the answer each in its column, its error is cleared, its version raised; a void also marks its sale voided at the provider; no other row changes. |
| FiscalEffects.FailureIsRecorded | apps/fiscal-worker/src/fiscal-execution.service.ts:142-192 | The row takes the status and code its error demands, with the maxima 5 and 10 spelled out, and identifiers only where the error brings one; no other row changes. |
| FiscalEffects.RecoveryIsRecorded | apps/fiscal-worker/src/ade-processing-recovery.service.ts:52-155 | Exactly the PROCESSING ADE candidates become UNKNOWN with the stale code, their newest attempt closed as UNKNOWN; every other row and attempt is kept. |
| FiscalEffects.IssueIsRecorded | apps/api/src/fiscal/fiscal-documents.service.ts:210-401 | The new row, column by column, exactly for an enabled profile, an unused request and an order without a sale. |
| FiscalEffects.IssueAnswered | apps/api/src/fiscal/fiscal-documents.service.ts:210-401 | Which other answer issuing gives: the earlier document, or which refusal, each exactly in its case. |
| FiscalEffects.RetryIsRecorded | apps/api/src/fiscal/fiscal-documents.service.ts:403-444 | Exactly RETRY and REJECTED documents at the expected version are queued again, once per mutation id; each refusal exactly in its case. |
| FiscalEffects.VoidIsRecorded | apps/api/src/fiscal/fiscal-documents.service.ts:446-549 | The void row, column by column, beside its sale one version further; each other answer exactly in its case. |
| FiscalEffects.ReadingIsRecorded | apps/api/src/fiscal/fiscal-documents.service.ts:446-470 | A void starts from an issued sale with a provider identifier. |
| SubmitInput.ReadItem | apps/ade-fiscal-worker/src/ade-document-submit.service.ts:94-132 | The item a raw line stands for, or nothing exactly when no acceptable item does. |
| SubmitInput.ReadItems | apps/ade-fiscal-worker/src/ade-document-submit.service.ts:94-132 | All lines read, or at least one line is unreadable. |
| SubmitInput.SumGross | apps/ade-fiscal-worker/src/ade-document-submit.service.ts:104-131 | The gross total, with every partial sum a safe integer: the range checks of the loop never fire on acceptable lines. |
| SubmitInput.NormalizeInput | apps/ade-fiscal-worker/src/ade-document-submit.service.ts:76-169 | Accepts exactly the inputs that carry a valid request: a refusal means that no valid request fits the input. |
| SubmitInput.AcceptedTotalIsSafe | apps/ade-fiscal-worker/src/ade-document-submit.service.ts:108-168 | Every accepted document totals less than 5e12 cents, far below 2^53. |
| OperationLock.OneHolderPerKey | apps/ade-fiscal-worker/src/ade-document-operation-lock.service.ts:7-19 | Over every sequence of acquisitions and late or repeated releases a key has at most one unreleased holder, and is busy exactly while it has one. |
| OperationLock.LateReleaseIsHarmless | apps/ade-fiscal-worker/src/ade-document-operation-lock.service.ts:13-18 | Releasing a handle again, after anything else happened, changes nothing. |
| OperationLock.AdeDocumentOperationLock.TryAcquire | apps/ade-fiscal-worker/src/ade-document-operation-lock.service.ts:9-12 | A handle exactly when the key is free; the key is then busy. |
| OperationLock.AdeDocumentOperationLock.ReleaseHandle | apps/ade-fiscal-worker/src/ade-document-operation-lock.service.ts:13-18 | The first release frees the key; every later one does nothing. |
| AdeSubmit.LockedAtMostOnce | apps/ade-fiscal-worker/src/ade-document-submit.service.ts:245-301 | For every behaviour of session, refresh, HTTP path and browser: at most one irreversible step, it is the last effect, and an error after it says so. |
| AdeSubmit.BoundedEffort | apps/ade-fiscal-worker/src/ade-document-submit.service.ts:245-319 | One run refreshes the session at most once, tries the fast path at most twice and the browser at most three times. |
| AdeSubmit.RunAtMostOnce | apps/ade-fiscal-worker/src/ade-document-submit.service.ts:205-301 | Whenever the irreversible step started, the operation is in the memory on exit, on success and on every error; otherwise the memory is unchanged; a remembered operation has no effect at all. |
| AdeSubmit.MemoryIsWindow | apps/ade-fiscal-worker/src/ade-document-submit.service.ts:227-240 | Over any sequence of runs the memory is exactly the last 2000 operations that crossed the boundary, oldest first. |
| AdeSubmit.RefusedUntilForgotten | apps/ade-fiscal-worker/src/ade-document-submit.service.ts:393-399 | An operation that crossed is refused until 2000 others crossed after it. |
| AdeSubmit.AdeDocumentSubmitService.RememberAttempt | apps/ade-fiscal-worker/src/ade-document-submit.service.ts:393-399 | Insertion into the bounded memory: already present changes nothing, overflow forgets the oldest. |
| AdeSubmit.AdeDocumentSubmitService.BrowserSubmit | apps/ade-fiscal-worker/src/ade-document-submit-browser.service.ts:131-303 | The mutable flag around the browser steps: an error before the boundary does not carry it, an error after does. |
| AdeSubmit.AdeDocumentSubmitService.RunBrowser | apps/ade-fiscal-worker/src/ade-document-submit.service.ts:357-391 | The effects and the answer of one browser attempt. |
| AdeSubmit.AdeDocumentSubmitService.RunHttpFast | apps/ade-fiscal-worker/src/ade-document-submit.service.ts:321-355 | The effects and the answer of one fast-path attempt. |
| AdeSubmit.AdeDocumentSubmitService.RunConfiguredTransport | apps/ade-fiscal-worker/src/ade-document-submit.service.ts:303-319 | Fast path first, browser only after a failure that allows the fallback. |
| AdeSubmit.AdeDocumentSubmitService.RunLocked | apps/ade-fiscal-worker/src/ade-document-submit.service.ts:245-301 | Transport, one session refresh, second transport and the last browser fallback, as composed in the code. |
| AdeSubmit.AdeDocumentSubmitService.Run | apps/ade-fiscal-worker/src/ade-document-submit.service.ts:205-301 | The whole run, lock and memory included, equals the model the theorems are about; the lock is free again afterwards. |
| OperationLock.AcquiredExactlyWhenFree | apps/ade-fiscal-worker/src/ade-document-operation-lock.service.ts:9-12 | A handle exactly for a free key; no other key or handle changes. |
| OperationLock.ReleasedOnce | apps/ade-fiscal-worker/src/ade-document-operation-lock.service.ts:13-18 | The first release frees its own key and no other; any other release changes nothing. |
| AdeRecourse.FastAttempt | apps/ade-fiscal-worker/src/ade-document-submit.service.ts:321-355 | One fast-path attempt: posted exactly when login, preflight and POST context are fine; its answer is the POST's, or the error met before it. |
| AdeRecourse.BrowserAttempt | apps/ade-fiscal-worker/src/ade-document-submit.service.ts:357-391 | One browser attempt: clicked exactly when nothing fails before; after the click an error always carries the flag. |
| AdeRecourse.BrowserFollowsExactlyWhen | apps/ade-fiscal-worker/src/ade-document-submit.service.ts:303-319 | The browser follows the fast path exactly after an early FAST_PATH_UNAVAILABLE or NAVIGATION_FAILED, and then its answer counts. |
| AdeRecourse.RefreshesExactlyWhen | apps/ade-fiscal-worker/src/ade-document-submit.service.ts:171-276 | The session is refreshed exactly when the first attempt ends with an early SESSION_REQUIRED, SESSION_INVALID or the flow mismatch of the missing entry; otherwise that answer stands. |
| AdeRecourse.RefreshedAnswer | apps/ade-fiscal-worker/src/ade-document-submit.service.ts:276-298 | After the refresh the answer is the refresh's own failure, the second attempt's, or the last browser's when the fast path still finds the session invalid. |
| AdeRecourse.RunPassesGates | apps/ade-fiscal-worker/src/ade-document-submit.service.ts:205-243 | A run stopped by configuration, input, memory or lock has no effect and says which; any other is the locked part. |
| AdeRecourse.ExpiredLoginIsCured | apps/ade-fiscal-worker/src/ade-document-submit.service.ts:245-276 | An expired login at the preflight is refreshed and the sale is submitted by the second attempt. |
| FastSubmit.FlagTellsThePost | apps/ade-fiscal-worker/src/ade-dco-fast-submit.service.ts:199-228 | A call starts at most one POST, and an error carries the flag exactly when it was started. |
| FastSubmit.SucceedsExactlyWhenProved | apps/ade-fiscal-worker/src/ade-dco-fast-submit.service.ts:271-357 | Exactly when a call succeeds: a later read proves a new document with the expected total, or the POST was answered 2xx with a positive result and an identifier. A negative POST answer can still be outweighed by the last read. |
| FastSubmit.NewDocumentMeans | apps/ade-fiscal-worker/src/ade-dco-fast-submit.service.ts:124-138 | A read proves a new document exactly when it names it, with the expected total, and does not name the last one. |
| FastSubmit.AnswerAfterPost | apps/ade-fiscal-worker/src/ade-dco-fast-submit.service.ts:214-357 | The answer once the POST was started, with its identifiers and date: first read, positive POST answer, second read, rejected, unknown, in this order. |
| FastSubmit.OutcomeTells | apps/ade-fiscal-worker/src/ade-dco-fast-submit.service.ts:183-195 | Which counter an answer raises: success, rejected and unknown after the POST, failed-pre-submit before it. |
| FastSubmit.CountersMatchPosts | apps/ade-fiscal-worker/src/ade-dco-fast-submit.service.ts:167-197 | Over any calls, success + rejected + unknown count the POSTs started, failed-pre-submit counts the calls without one. |
| FastSubmit.AdeDcoFastSubmit.Submit | apps/ade-fiscal-worker/src/ade-dco-fast-submit.service.ts:167-197 | The result, the posts and the metric recorded for it, on success and on every error. |
| FastSubmit.AdeDcoFastSubmit.Perform | apps/ade-fiscal-worker/src/ade-dco-fast-submit.service.ts:199-228 | Preflight, POST, reconciliation, in this order. |
| FastSubmitMetrics.PercentileIsNearestRank | apps/ade-fiscal-worker/src/ade-fast-submit-metrics.service.ts:20-25 | The percentile is an element of the window with at least ceil(q n) samples not above it and fewer than ceil(q n) below it. |
| FastSubmitMetrics.PercentileMonotone | apps/ade-fiscal-worker/src/ade-fast-submit-metrics.service.ts:20-25 | A larger quantile gives a larger or equal percentile; p50 <= p95. |
| FastSubmitMetrics.WindowAndCounters | apps/ade-fiscal-worker/src/ade-fast-submit-metrics.service.ts:36-60 | After any calls the window is exactly the last 200 durations and each counter counts its outcome. |
| FastSubmitMetrics.AdeFastSubmitMetrics.RecordOutcome | apps/ade-fiscal-worker/src/ade-fast-submit-metrics.service.ts:36-67 | Push, cut to 200, count, and the snapshot that follows from it. |
| FastSubmitMetrics.AdeFastSubmitMetrics.TakeSnapshot | apps/ade-fiscal-worker/src/ade-fast-submit-metrics.service.ts:69-81 | Sample count, last value, counters and the two percentiles, in order. |
| AuthSessions.SwapKeepsInv | apps/api/src/auth/auth.service.ts:459-502 | The compare-and-set of a rotation keeps the invariant under any number of concurrent callers. |
| AuthSessions.RevokeKeepsInv | apps/api/src/auth/auth.service.ts:810-830 | So do logout, device-wide revocation, logout everywhere and the end of a device assignment. |
| AuthSessions.RunKeepsInv | apps/api/src/auth/auth.service.ts:200-322 | So does every interleaving of load, check, swap and revoke steps. |
| AuthSafety.RotationsFormChain | apps/api/src/auth/auth.service.ts:459-502 | The successful rotations of a session form one chain without repetition; the stored current and previous tokens are always its last two. |
| AuthSafety.EachTokenWinsOnce | apps/api/src/auth/auth.service.ts:459-502 | Each refresh token wins at most one rotation. |
| AuthSafety.RevokedForever | apps/api/src/auth/auth.service.ts:795-830 | A REVOKED session never rotates and never becomes ACTIVE again. |
| AuthSafety.DetectionRevokes | apps/api/src/auth/auth.service.ts:200-245 | A caller that detected a replay, or lost the swap, leaves its session REVOKED for good. |
| AuthSafety.ReplayVerdict | apps/api/src/auth/auth.service.ts:200-284 | What each token of the chain is told: only the immediate predecessor triggers revocation, older ones are merely refused, and switching organization never detects a replay. |
| AuthSafety.NeverCurrentAgain | apps/api/src/auth/auth.service.ts:459-502 | A token once rotated away is never current again. |
| AuthSafety.SecondSwapLoses | apps/api/src/auth/auth.service.ts:459-502 | Of two callers that passed the checks with one token, the second to swap changes nothing and must revoke. |
| AuthSafety.ReplayAfterRotationRevokes | apps/api/src/auth/auth.service.ts:200-245 | Using a token twice in a row: the first use rotates, the second revokes every session of the device. |
| AuthSafety.AuthDatabase.SwapRow | apps/api/src/auth/auth.service.ts:466-489 | The conditional update: it rotates the row exactly when it is ACTIVE and still holds the token presented. |
| AuthSafety.AuthDatabase.RevokeDeviceSessions | apps/api/src/auth/auth.service.ts:810-830 | The living sessions are those from before without the user's on the device; exactly the living ones among these change, and only in status and reason. |
| AuthSafety.AuthDatabase.RotateSession | apps/api/src/auth/auth.service.ts:459-527 | Swap, and on a lost swap revocation of the device before the error. |
| AuthSafety.AuthDatabase.Refresh | apps/api/src/auth/auth.service.ts:200-245 | Refresh with nothing in between, equal to its transaction model. |
| AuthSafety.AuthDatabase.SwitchOrganization | apps/api/src/auth/auth.service.ts:247-284 | The switch rotates like a refresh but never looks at the previous token. |
| AuthSafety.AuthDatabase.Logout | apps/api/src/auth/auth.service.ts:286-303 | The living sessions are those from before without the given one, if it is the caller's; no other row changes, and this one only in status and reason. |
| AuthSafety.AuthDatabase.LogoutAll | apps/api/src/auth/auth.service.ts:305-322 | The living sessions are those from before without the user's; exactly the living ones among these change, and only in status and reason. |
| AuthEffects.LoginIsRecorded | apps/api/src/auth/auth.service.ts:413-457 | A login adds one active session, column by column. |
| AuthEffects.CheckIsRecorded | apps/api/src/auth/auth.service.ts:200-221 | What the checks make of a caller: reuse must revoke, a usable current token may rotate, anything else is refused. |
| AuthEffects.SwapIsRecorded | apps/api/src/auth/auth.service.ts:459-502 | The conditional update wins exactly on an active row with the token presented, and writes both tokens and the organization of that row alone; otherwise the caller must revoke. |
| AuthEffects.RevocationIsRecorded | apps/api/src/auth/auth.service.ts:286-322 | Each kind of revocation writes status and reason of exactly the rows it names. |
| AuthEffects.OrganizationChangesOnlyBySwitch | apps/api/src/auth/auth.service.ts:247-284 | In every run a session changes organization only by a won switch, and then to its target: a refresh that read the row before cannot bring the old one back. |
| AuthEffects.RefreshIsRecorded | apps/api/src/auth/auth.service.ts:200-245 | Exactly how an uninterrupted refresh answers and what it leaves; the organization stays. |
| TableSessions.OneOpenSessionPerTable | libs/database/src/schema.ts:1402-1410 | Two OPEN sessions of one organization are never on the same table. |
| TableSessions.InsertKeepsInv | apps/api/src/hospitality/hospitality.service.ts:405-473 | Opening a session, by the point of sale or by a check-in, keeps the invariant. |
| TableSessions.WorkEffect | apps/api/src/hospitality/hospitality.service.ts:507-689 | What each mutation may change: one session, one version further, its key naming its table exactly while OPEN; orders are only ever attached to it. |
| TableSessions.MutateKeepsInv | apps/api/src/hospitality/hospitality.service.ts:691-757 | Every mutation keeps the invariant: key exactly for OPEN, one key per table, version = 1 + recorded mutations. |
| TableSessions.MutateMonotone | apps/api/src/hospitality/hospitality.service.ts:691-757 | An attached order never changes session, a recorded mutation is never rewritten, and a session that left OPEN never changes again. |
| TableSessions.LeavesOpenOnlySettled | apps/api/src/hospitality/hospitality.service.ts:657-689 | A session leaves OPEN only when every order attached to it is PAID or CANCELLED. |
| TableSessions.SuccessIsTrueExactlyWhen | apps/api/src/hospitality/hospitality.service.ts:691-757 | An answer of success means that the named session carries the change exactly when the mutation id was fresh or had been used on that very session. |
| TableSessions.SwallowedExactlyWhen | apps/api/src/hospitality/hospitality.service.ts:691-757 | Exactly the calls answered with success although the session they name never got the change: the id is on record for the same change of another session. |
| TableSessions.HospitalityDatabase.OpenSession | apps/api/src/hospitality/hospitality.service.ts:405-473 | Opening equals its transaction model, repetition and reuse of the client id included. |
| TableSessions.HospitalityDatabase.AttachOrderTo | apps/api/src/hospitality/hospitality.service.ts:507-584 | Attaching an order: its checks in order, table service switched on, session versioned. |
| TableSessions.HospitalityDatabase.MoveTo | apps/api/src/hospitality/hospitality.service.ts:586-640 | Moving re-keys the session; an occupied table is refused. |
| TableSessions.HospitalityDatabase.FinishSession | apps/api/src/hospitality/hospitality-policy.ts:12-42 | Close and cancel: only from OPEN, only with settled orders, key cleared. |
| TableSessions.HospitalityDatabase.MutateSession | apps/api/src/hospitality/hospitality.service.ts:691-757 | The shared mutation frame equals its transaction model. |
| TableSessionEffects.InsertIsRecorded | apps/api/src/hospitality/hospitality.service.ts:434-455 | The insert of point of sale and check-in: exactly on a free table, key and client id, column by column. |
| TableSessionEffects.OpeningIsRecorded | apps/api/src/hospitality/hospitality.service.ts:405-473 | A new session exactly on a free table in service for an unused client id; each refusal exactly in its case. |
| TableSessionEffects.MutationIsRecorded | apps/api/src/hospitality/hospitality.service.ts:480-757 | Exactly when each of the five changes is performed, and what it leaves on the session, the attached order and the record: counts and trimmed note, the attachment, the table and its key, CLOSED or CANCELLED. |
| TableSessionEffects.RefusalsOfTheFrame | apps/api/src/hospitality/hospitality.service.ts:691-757 | Which answer the shared frame gives instead, each exactly in its case. |
| TableSessionEffects.RefusalsOfTheChange | apps/api/src/hospitality/hospitality.service.ts:507-689 | Which refusal the change itself gives. |
| Reservations.OperateKeepsInv | apps/api/src/control-center/reservation-operations.service.ts:54-245 | Check-in, seat, complete and no-show keep the invariant of reservations and sessions together. |
| Reservations.ExpireAllKeepsInv | apps/background-worker/src/reservation-payment-expiry.service.ts:18-151 | So does a pass of payment expiry. |
| Reservations.RunKeepsInv | apps/api/src/control-center/reservation-operations.service.ts:54-245 | So does every interleaving with payments and with the point of sale's own mutations. |
| ReservationSafety.GuestsOwnTheirSession | apps/api/src/control-center/reservation-operations.service.ts:288-369 | A CHECKED_IN, SEATED or COMPLETED reservation - and no other - has a session, nobody else has it, and a completed one's is CLOSED. |
| ReservationSafety.TablesGivenBack | apps/api/src/control-center/reservation-operations.service.ts:449-474 | COMPLETED, NO_SHOW, EXPIRED and REFUND_PENDING reservations hold no active assignment. |
| ReservationSafety.HistoryIsUnbroken | apps/api/src/control-center/reservation-operations.service.ts:145-174 | The history rows are a chain from creation to the current status, one row per version. |
| ReservationSafety.NoTableOpenedTwice | apps/api/src/control-center/reservation-operations.service.ts:288-369 | Two writers, one table: no run has two OPEN sessions on it. |
| ReservationSafety.SessionsKeyedAndCounted | apps/api/src/hospitality/hospitality-policy.ts:91-96 | In every run a session's key is set exactly while it is OPEN and names its current table, and its version is 1 plus its recorded mutations. |
| ReservationSafety.MutationAppliedOnce | apps/api/src/hospitality/hospitality.service.ts:691-757 | A session mutation is performed once: its key changes nothing in any later state. |
| ReservationSafety.ExpiryMeaning | apps/background-worker/src/reservation-payment-expiry.service.ts:37-147 | What expiring selected rows does to each reservation, its history and its assignment, however often a row repeats. |
| ReservationSafety.ExpiryPass | apps/background-worker/src/reservation-payment-expiry.service.ts:18-151 | A pass not cut short by its limit expires exactly the due pending reservations. |
| ReservationSafety.CompletedForever | apps/api/src/control-center/reservation-operations.service.ts:371-409 | A completed reservation and its closed session never change again. |
| ReservationSafety.OperationAppliedOnce | apps/api/src/control-center/reservation-operations.service.ts:74-98 | An operation repeated with its mutation id changes nothing in any later state; another action under that id is refused. |
| ReservationSafety.CompletesExactlyWhen | apps/api/src/control-center/reservation-operations.service.ts:100-126 | A fresh completion is accepted exactly at the current version, from SEATED, with the session CLOSED. |
| ReservationSafety.CancelledSessionNeverCompletes | apps/api/src/control-center/reservation-operations.service.ts:371-409 | Once the session of a party at its table is CANCELLED, no run completes the reservation. |
| ReservationEffects.OperationAccepted | apps/api/src/control-center/reservation-operations.service.ts:54-126 | Exactly when each of the four operations is performed; otherwise nothing changes. |
| ReservationEffects.OperationIsRecorded | apps/api/src/control-center/reservation-operations.service.ts:118-190 | What a performed operation leaves on reservation, assignment, history and record; only a check-in touches sessions, by one new row. |
| ReservationEffects.CheckInSeatsAtItsTable | apps/api/src/control-center/reservation-operations.service.ts:288-369 | The session of a check-in is open at the table of the active assignment, at the reservation's organization and location, for its party, keyed by that table. |
| ReservationEffects.OperationRefused | apps/api/src/control-center/reservation-operations.service.ts:54-126 | Which refusal an operation gets, each exactly in its case. |
| ReservationCompletion.SettleOrders | apps/api/src/hospitality/hospitality.service.ts:657-689 | Some run settles every order of a session and changes nothing else. |
| ReservationCompletion.CompletableExactlyWhen | apps/api/src/control-center/reservation-operations.service.ts:371-409 | For every CHECKED_IN or SEATED reservation: some run completes it exactly when its session is not CANCELLED. |
| ReservationCompletion.DeadEndIsReached | apps/api/src/control-center/reservation-operations.service.ts:371-409 | Three steps from the opening lead to a party at its table whose session is CANCELLED, and no continuation completes it. |
| ReservationCompletion.RepetitionOnAnotherSession | apps/api/src/hospitality/hospitality.service.ts:691-757 | Three steps from the opening lead to a state in which closing the open second session is answered with success, nothing changes, and the record on file is the first session's. |
| ReservationSafety.ReservationDesk.OpenReservationTableSession | apps/api/src/control-center/reservation-operations.service.ts:288-369 | The session of a check-in, or which check refused it. |
| ReservationSafety.ReservationDesk.AssertTableSessionClosed | apps/api/src/control-center/reservation-operations.service.ts:371-409 | Passes exactly when the linked session exists and is CLOSED. |
| ReservationSafety.ReservationDesk.ReleaseEventAssignment | apps/api/src/control-center/reservation-operations.service.ts:449-474 | The reservation has no active assignment any more; its table stays on record, and no other assignment changes. |
| ReservationSafety.ReservationDesk.Apply | apps/api/src/control-center/reservation-operations.service.ts:54-245 | The operation, step by step, equals its transaction model. |
| ReservationSafety.ReservationDesk.ExpireAvailable | apps/background-worker/src/reservation-payment-expiry.service.ts:18-151 | The loop over the selected rows equals the expiry step, and returns how many were selected. |
| EventInventory.SeatsAreSum | apps/api/src/events/event-table-groups.service.ts:143-147 | The running total of a merge is the capacity of the chosen rows. |
| EventInventory.MembersAdded | apps/api/src/events/event-table-groups.service.ts:165-188 | Exactly the chosen tables become members, numbered in the order of the request. |
| EventInventory.MergeKeepsPartition | apps/api/src/events/event-table-groups.service.ts:110-230 | A merge keeps the units a partition of the same physical tables with the same enabled capacity. |
| EventInventory.SplitKeepsPartition | apps/api/src/events/event-table-groups.service.ts:245-340 | So does a split. |
| EventInventoryEffects.DistinctKeepsOrder | apps/api/src/events/event-table-groups.service.ts:114-114 | The tables asked for keep the order of their first mention. |
| EventInventoryEffects.CodeIsUpperCase | apps/api/src/events/event-table-groups.service.ts:158-158 | A group's code is the trimmed text with its letters a to z in upper case. |
| EventInventoryEffects.MergeAccepted | apps/api/src/events/event-table-groups.service.ts:110-230 | Exactly when a merge is accepted, and which refusal it gets otherwise. |
| EventInventoryEffects.MergeIsRecorded | apps/api/src/events/event-table-groups.service.ts:143-213 | The tables leave the inventory and become members in order, and the group's unit has their seats; nothing else changes. |
| EventInventoryEffects.SplitIsRecorded | apps/api/src/events/event-table-groups.service.ts:245-340 | Exactly when a split is accepted, which refusal it gets otherwise, and the rows it leaves. |
| EventInventoryEffects.PublicationIsRecorded | apps/api/src/events/event-policy.ts:250-282 | Exactly which events are published. |
| EventInventoryEffects.PublicationRefused | apps/api/src/events/event-policy.ts:212-282 | Which refusal a publication gets, each exactly in its case. |
| EventInventoryEffects.CapacityCountsEnabled | apps/api/src/events/event-inventory-publishing.service.ts:111-140 | Only enabled units count for the capacity of an inventory. |
| EventInventorySafety.ReplaceKeepsPartitionExactly | apps/api/src/events/events.service.ts:1108-1140 | Replacing a draft's tables keeps the partition exactly when the draft has no group. |
| EventInventorySafety.ReplaceOrphansGroup | apps/api/src/events/events.service.ts:1113-1120 | From an empty draft: tables placed, merged and replaced; a table is then sold as a single while its group survives. |
| EventInventorySafety.RunKeepsPartition | apps/api/src/events/event-table-groups.service.ts:110-340 | Every run of merges, splits, publication and edits keeps the partition, tables being replaced only without groups. |
| EventInventorySafety.RunKeepsTables | apps/api/src/events/event-table-groups.service.ts:110-340 | Such a run without replacement keeps every physical table, its seats and the total enabled capacity. |
| EventInventorySafety.SinglesAreOriginal | apps/api/src/events/event-table-groups.service.ts:297-318 | From an ungrouped inventory: every single table is always the original row, and ungrouping everything restores the original inventory. |
| EventInventorySafety.SplitUndoesMerge | apps/api/src/events/event-table-groups.service.ts:245-340 | Splitting right after merging gives back the very same rows, two versions later. |
| EventInventorySafety.PublishedHasRoom | apps/api/src/events/event-inventory-publishing.service.ts:55-76 | An event published through the checks has inventory capacity at least its event capacity in every later state, whatever steps follow. |
| EventInventorySafety.MergeKeepsSeating | apps/api/src/events/event-table-groups.service.ts:143-213 | A merge never takes away the unit a party of n needs. |
| EventInventorySafety.SplitSeatsExactly | apps/api/src/events/event-policy.ts:187-210 | After a split a party of n can be seated exactly when a member or another unit is large enough. |
| EventInventorySafety.SplitCanUnseat | apps/api/src/events/event-policy.ts:250-282 | From an empty draft: placed, merged and published, an event whose largest party nobody can seat after a split. |
| EventInventorySafety.EventTableGroups.InsertMembers | apps/api/src/events/event-table-groups.service.ts:165-188 | The loop over the tables writes exactly the member rows and sums their capacity. |
| EventInventorySafety.EventTableGroups.Merge | apps/api/src/events/event-table-groups.service.ts:110-230 | The merge, check by check and write by write, equals its transaction model. |
| EventInventorySafety.EventTableGroups.RestoreTables | apps/api/src/events/event-table-groups.service.ts:297-318 | The loop over the members restores exactly their rows. |
| EventInventorySafety.EventTableGroups.Split | apps/api/src/events/event-table-groups.service.ts:245-340 | The split equals its transaction model. |
| FloorPlanDocument.AddElement | apps/api/src/floor-plans/floor-plan-document.ts:74-89 | One step of the element loop: the two sets stay the identifiers and tables seen so far. |
| FloorPlanDocument.MapElements | apps/api/src/floor-plans/floor-plan-document.ts:72-89 | The loop stops at the first invalid or duplicate element, with that element's error. |
| FloorPlanDocument.ValidateFloorPlanDocument | apps/api/src/floor-plans/floor-plan-document.ts:41-98 | The method with its two sets equals the specification the theorems are about. |
| FloorPlanDocument.ValidatedIsWellFormed | apps/api/src/floor-plans/floor-plan-document.ts:41-196 | Only documents within every limit, with distinct elements and tables, come out of validation. |
| FloorPlanDocument.DocumentRoundTrip | apps/api/src/floor-plans/floor-plan-document.ts:41-196 | A well-formed document, written back and validated, is itself. |
| FloorPlanDocument.ValidDocuments | apps/api/src/floor-plans/floor-plan-document.ts:41-196 | Exactly the well-formed documents are results of validation. |
| FloorPlanDocument.ValidationIsIdempotent | apps/api/src/floor-plans/floor-plan-document.ts:41-98 | Validation is idempotent. |
| FloorPlanReading.ValidatesExactly | apps/api/src/floor-plans/floor-plan-document.ts:41-230 | Validation returns a document exactly when the JSON value says it, field by field, and it is well-formed. |
| FloorPlanReading.IdentifierMeans | apps/api/src/floor-plans/floor-plan-document.ts:119-121 | Which texts are identifiers, in code points. |
| FloorPlanReading.UuidMeans | apps/api/src/floor-plans/floor-plan-document.ts:226-230 | Which texts are uuids, in code points. |
| FloorPlanReading.CanvasRefusalIsTrue | apps/api/src/floor-plans/floor-plan-document.ts:41-98 | Which fault of the canvas each refusal names. |
| FloorPlanReading.GeometryRefusalIsTrue | apps/api/src/floor-plans/floor-plan-document.ts:108-161 | Which fault of an element's fields each refusal names. |
| FloorPlanReading.ShapeRefusalIsTrue | apps/api/src/floor-plans/floor-plan-document.ts:162-194 | Which fault of a text or a table each refusal names. |
| FloorPlanReading.ElementRefusalIsTrue | apps/api/src/floor-plans/floor-plan-document.ts:72-89 | An element is refused for its own fault or because its identifier or table was there before. |
| FloorPlanDocument.ReferencesExactly | apps/api/src/floor-plans/floor-plans.service.ts:403-427 | The reference check accepts exactly the documents whose tables are all in service and pairwise different, letter case apart. |
| FloorPlanDocument.SpellingsEscapeValidation | apps/api/src/floor-plans/floor-plan-document.ts:81-86 | Validation accepts a document with one table under two spellings; the reference check always refuses it. |
| FloorPlans.EnsureKeepsInv | apps/api/src/floor-plans/floor-plans.service.ts:351-401 | Initialisation keeps the invariant of the versions. |
| FloorPlans.SaveKeepsInv | apps/api/src/floor-plans/floor-plans.service.ts:209-256 | So does saving, and every stored document re-validates to itself. |
| FloorPlans.PublishKeepsInv | apps/api/src/floor-plans/floor-plans.service.ts:258-349 | So does publishing. |
| FloorPlans.FreezeEffect | apps/api/src/floor-plans/floor-plans.service.ts:302-332 | What a publication writes: the draft frozen, the published version set to it, the next draft with the same document and revision 1. |
| FloorPlans.PublishedIsForever | apps/api/src/floor-plans/floor-plans.service.ts:302-308 | A published version's row, document included, is never changed by any later step. |
| FloorPlans.OneDraftAtTheEnd | apps/api/src/floor-plans/floor-plans.service.ts:351-401 | Once initialised: versions 1..n, exactly the last a draft, the published version n-1 (none when n = 1), in every later state. |
| FloorPlans.PublishFailsExactly | apps/api/src/floor-plans/floor-plans.service.ts:258-300 | Publishing never fails on the document's shape; exactly revision, table references and a key collision decide. |
| FloorPlans.EnsureIsRecorded | apps/api/src/floor-plans/floor-plans.service.ts:351-401 | Initialisation leaves a plan with rows alone and otherwise inserts version 1 with the empty canvas of 1200 by 800. |
| FloorPlans.SaveIsRecorded | apps/api/src/floor-plans/floor-plans.service.ts:209-256 | An accepted save call leaves the draft with the validated document, one revision further, and no other row changed. |
| FloorPlans.SaveThenPublish | apps/api/src/floor-plans/floor-plans.service.ts:209-332 | What was saved is what is published, and what the next draft starts from. |
| FloorPlans.SaveAcceptedExactly | apps/api/src/floor-plans/floor-plans.service.ts:219-239 | A valid save is accepted exactly at the draft's current revision, whichever version that draft is. |
| FloorPlans.SaveCallAcceptedExactly | apps/api/src/floor-plans/floor-plans.service.ts:209-239 | Exactly when a save call is accepted: a valid document at the draft's revision, or at revision 1 on a plan that the call itself initialises. |
| FloorPlans.PublishCallFailsExactly | apps/api/src/floor-plans/floor-plans.service.ts:258-300 | Exactly why a publish call fails, on an initialised plan or not. |
| FloorPlans.CallsAreRuns | apps/api/src/floor-plans/floor-plans.service.ts:216-263 | Both calls are runs of the steps: the initialisation, then the transaction. |
| FloorPlans.SaveCallRefused | apps/api/src/floor-plans/floor-plans.service.ts:209-239 | Which refusal a save call gets, each exactly in its case, and what it leaves. |
| FloorPlans.OneSavePerRevision | apps/api/src/floor-plans/floor-plans.service.ts:219-239 | Until the next publication one revision is saved at most once. |
| FloorPlans.EditorOfPreviousDraft | apps/api/src/floor-plans/floor-plans.service.ts:316-332 | Right after any publication a valid save is accepted exactly when it carries revision 1, whichever draft its editor had loaded. |
| FloorPlans.UnnoticedSaveIsReached | apps/api/src/floor-plans/floor-plans.service.ts:219-332 | From nothing: initialise, publish, and a save prepared for the first draft lands in the second. |
| FloorPlans.FloorPlansService.SaveDraft | apps/api/src/floor-plans/floor-plans.service.ts:209-256 | The save call: validation and references, initialisation of the plan, then the update of the draft. |
| FloorPlans.FloorPlansService.PublishDraft | apps/api/src/floor-plans/floor-plans.service.ts:258-349 | The publish call: initialisation of the plan, then the transaction, check by check. |
| LruMap.OverflowStops | apps/ade-fiscal-worker/src/ade-reusable-browser-session-pool.ts:80-87 | Exactly how far eviction goes: to the limit, or to the first empty key on the way. |
| LruMap.CutExactly | apps/ade-fiscal-worker/src/ade-reusable-browser-session-pool.ts:80-87 | The pool is cut to its limit exactly when no entry that has to go is stored under the empty key. |
| SessionPools.SuccessIsOneUse | apps/ade-fiscal-worker/src/ade-reusable-browser-session-pool.ts:23-59 | A successful call is one use of a list cache: moved or appended last, oldest cut; the entry has the fingerprint asked for and the page handed out. |
| SessionPools.FittingSessionIsReused | apps/ade-fiscal-worker/src/ade-reusable-browser-session-pool.ts:23-46 | A stored session made from the same file is handed out again, with its page if open, else with a new one. |
| SessionPools.OtherwiseCreated | apps/ade-fiscal-worker/src/ade-reusable-browser-session-pool.ts:31-58 | Otherwise the stored session is closed first and a new one is asked for; the call ends with its page or with the failure. |
| SessionPools.FailureDropsOnlyItsKey | apps/ade-fiscal-worker/src/ade-reusable-browser-session-pool.ts:39-51 | A failed call drops the session under its key, if any, and nothing else. |
| SessionPools.EmptyKeyStopsEviction | apps/ade-fiscal-worker/src/ade-reusable-browser-session-pool.ts:82-83 | An entry stored under the empty key, while oldest, stops eviction whatever the limit. |
| SessionPools.WithinLimitExactly | apps/ade-fiscal-worker/src/ade-reusable-browser-session-pool.ts:80-87 | Exactly when a new session leaves the pool within its limit. |
| SessionPools.ContextsAreConserved | apps/ade-fiscal-worker/src/ade-reusable-browser-session-pool.ts:23-93 | What was owned or created is afterwards owned, closed or leaked, each exactly once. |
| SessionPools.LeaksExactly | apps/ade-fiscal-worker/src/ade-reusable-browser-session-pool.ts:50-56 | A context leaks exactly when it was created and the page callback then threw. |
| SessionPools.RunKeepsAccount | apps/ade-fiscal-worker/src/ade-reusable-browser-session-pool.ts:23-93 | From the empty pool, every sequence of calls (served or failed) and resets keeps one entry per key, and every context created is owned, closed or leaked. |
| SessionPools.ClosedAtMostOnce | apps/ade-fiscal-worker/src/ade-reusable-browser-session-pool.ts:61-92 | In every such history with fresh contexts: closed at most once, never while owned, and none is lost. |
| SessionPools.PoolIsListCache | apps/ade-fiscal-worker/src/ade-reusable-browser-session-pool.ts:23-87 | In every history of non-empty keys the pool is the list cache - a served key moves last, a failed or reset one goes, the oldest are cut - and never exceeds its limit. |
| SessionPools.HoldsMostRecent | apps/ade-fiscal-worker/src/ade-reusable-browser-session-pool.ts:23-87 | In every such history the pool holds the most recently used of the keys served and not dropped since, in that order; while nothing is dropped it is as full as its limit allows. |
| SessionPools.AdeReusableBrowserSessionPool.ResetKey | apps/ade-fiscal-worker/src/ade-reusable-browser-session-pool.ts:61-68 | One reset of a key, as a step of the history. |
| SessionPools.AdeReusableBrowserSessionPool.ResetEverything | apps/ade-fiscal-worker/src/ade-reusable-browser-session-pool.ts:70-73 | The loop closes every context in order and leaves the pool empty. |
| SessionPools.AdeReusableBrowserSessionPool.EvictOverflow | apps/ade-fiscal-worker/src/ade-reusable-browser-session-pool.ts:80-87 | The loop terminates and drops exactly the specified prefix, closing its contexts in order. |
| SessionPools.AdeReusableBrowserSessionPool.GetPageFor | apps/ade-fiscal-worker/src/ade-reusable-browser-session-pool.ts:23-59 | The whole call, its closed, created and leaked contexts included, is one step of the history. |
| PoolAccounts.OwnedOrClosedOnce | apps/ade-fiscal-worker/src/ade-reusable-browser-session-pool.ts:61-92 | What a kept account is worth: with fresh contexts each is in exactly one place. |
| LruMap.CacheIsMostRecent | apps/ade-fiscal-worker/src/ade-reusable-browser-session-pool.ts:75-87 | For every sequence of uses and drops the list cache is the tail of the keys by last use, within its limit. |
| LruMap.CacheIsFull | apps/ade-fiscal-worker/src/ade-reusable-browser-session-pool.ts:75-87 | While nothing is dropped it is that tail cut to the limit, no shorter. |
| HttpContexts.ContextIsOneUse | apps/ade-fiscal-worker/src/ade-dco-http.client.ts:394-422 | A successful call of the HTTP client is one use of the same list cache. |
| HttpContexts.FittingContextIsReused | apps/ade-fiscal-worker/src/ade-dco-http.client.ts:394-403 | A stored context made from the same file is handed out again. |
| HttpContexts.OtherwiseCreated | apps/ade-fiscal-worker/src/ade-dco-http.client.ts:397-422 | Otherwise an unreadable file fails at once, a stored context is disposed first, and a new one is asked for. |
| HttpContexts.FailureDropsOnlyItsPath | apps/ade-fiscal-worker/src/ade-dco-http.client.ts:394-436 | A failed call drops the context under its path and nothing else - or nothing at all when the session file cannot be read. |
| HttpContexts.ContextsAreConserved | apps/ade-fiscal-worker/src/ade-dco-http.client.ts:394-466 | What was owned or created is afterwards owned or disposed, each exactly once. |
| HttpContexts.DisposedAtMostOnce | apps/ade-fiscal-worker/src/ade-dco-http.client.ts:394-466 | In every history of calls and resets with fresh contexts: disposed at most once, never while owned, and none leaks. |
| HttpContexts.PoolIsListCache | apps/ade-fiscal-worker/src/ade-dco-http.client.ts:394-466 | In every history of non-empty paths the client is the list cache and never exceeds its limit. |
| HttpContexts.HoldsMostRecent | apps/ade-fiscal-worker/src/ade-dco-http.client.ts:394-466 | In every such history it holds the most recently used of the paths served and not dropped since, in that order. |
| HttpContexts.AdeDcoHttpClient.EvictOverflow | apps/ade-fiscal-worker/src/ade-dco-http.client.ts:443-450 | The same eviction loop over the HTTP contexts. |
| HttpContexts.AdeDcoHttpClient.ResetKey | apps/ade-fiscal-worker/src/ade-dco-http.client.ts:452-459 | One reset of a path, as a step of the history. |
| HttpContexts.AdeDcoHttpClient.ResetEverything | apps/ade-fiscal-worker/src/ade-dco-http.client.ts:461-465 | The loop disposes every context in order and leaves none. |
| HttpContexts.AdeDcoHttpClient.ContextForSession | apps/ade-fiscal-worker/src/ade-dco-http.client.ts:394-422 | The whole call, an unreadable session file and a failed creation included, is one step of the history. |
| DecimalText.FixedReadsBack | apps/ade-fiscal-worker/src/ade-dco-payload.mapper.ts:182-195 | A number printed with k decimals reads back as exactly that many units. |
| DecimalText.EuroInputRoundTrip | apps/ade-fiscal-worker/src/ade-document-submit-browser.service.ts:64-78 | For every amount from zero up, the form's text, with point or comma, parses to the same cents. |
| DecimalText.EchoedTotal | apps/ade-fiscal-worker/src/ade-dco-fast-submit.service.ts:78-85 | The eight-decimal total of any cents parses back to them exactly when they are a safe integer. |
| DecimalText.NegativeAmountIsRefused | apps/ade-fiscal-worker/src/ade-document-submit-browser.service.ts:72-78 | A negative amount, printed, is refused by both parsers. |
| DcoPayload.PrintedLineAddsUp | apps/ade-fiscal-worker/src/ade-dco-payload.mapper.ts:222-256 | The texts of an acceptable line read back as amounts, taxable and VAT adding up to the total. |
| DcoPayload.PrintedLineSays | apps/ade-fiscal-worker/src/ade-dco-payload.mapper.ts:230-253 | Every text of a line read back: quantity, gross and net unit price, total, taxable amount and rate, each in its place. |
| DcoPayload.RoundedIsNearest | apps/ade-fiscal-worker/src/ade-dco-payload.mapper.ts:182-195 | Printing rounds to the nearest unit of the eighth decimal, upwards from half way. |
| DcoPayload.MapLines | apps/ade-fiscal-worker/src/ade-dco-payload.mapper.ts:218-256 | The three accumulators are the exact sums over the lines. |
| DcoPayload.MapSalePayload | apps/ade-fiscal-worker/src/ade-dco-payload.mapper.ts:208-303 | The mapper refuses exactly on a total or a payment mismatch, and otherwise prints the exact sums. |
| DcoPayload.VatDecomposition | apps/ade-fiscal-worker/src/ade-dco-payload.mapper.ts:186-191 | Taxable amount and VAT make the gross, and the VAT is the rate's share of the taxable amount. |
| DcoPayload.SumsAddUp | apps/ade-fiscal-worker/src/ade-dco-payload.mapper.ts:218-237 | Over any lines the exact taxable and VAT sums make the gross total. |
| DcoPayload.LineRounding | apps/ade-fiscal-worker/src/ade-dco-payload.mapper.ts:230-253 | For any rate, the printed taxable amount and VAT exceed the printed gross by one unit of the eighth decimal exactly on a tie, and are otherwise equal to it. |
| DcoPayload.HeaderRounding | apps/ade-fiscal-worker/src/ade-dco-payload.mapper.ts:280-284 | The same for the header sums. |
| DcoPayload.RoundedLinesNearTotal | apps/ade-fiscal-worker/src/ade-dco-payload.mapper.ts:236-252 | The n printed line taxables are within (n+1)/2 units of the printed total. |
| DcoPayload.LinePartsAddUp | apps/ade-fiscal-worker/src/ade-dco-payload.mapper.ts:230-253 | Under the supported rates no line ever ties: its printed parts add up exactly. |
| DcoPayload.HeaderPartsAddUp | apps/ade-fiscal-worker/src/ade-dco-payload.mapper.ts:280-284 | And so do the header's, for every mix of rates. |
| DcoPayload.MapAccepted | apps/ade-fiscal-worker/src/ade-dco-payload.mapper.ts:208-303 | An accepted document is never refused by the mapper; every printed line and the printed header add up, the printed total parses to the document's total, and the two payments read back as cash and electronic. |
| DcoPayload.EchoReconciles | apps/ade-fiscal-worker/src/ade-dco-fast-submit.service.ts:130-138 | A last document that echoes the posted total reconciles exactly when it has an identifier that is not the baseline's. |
| CanonicalJson.SortCommutes | apps/api/src/fiscal/fiscal-idempotency.ts:7-10 | Sorting before or after the values are made canonical gives the same members. |
| CanonicalJson.CanonicalIsIdempotent | apps/api/src/fiscal/fiscal-idempotency.ts:3-13 | The canonical form is idempotent. |
| CanonicalJson.CanonicalKeepsMeaning | apps/api/src/fiscal/fiscal-idempotency.ts:3-13 | It keeps every object's key-to-value meaning at all depths. |
| CanonicalJson.SameHasOneForm | apps/api/src/fiscal/fiscal-idempotency.ts:3-13 | Values that differ only in key order have one form, if the comparison tells their keys apart. |
| CanonicalJson.OneFormIsSame | apps/api/src/fiscal/fiscal-idempotency.ts:3-13 | Values with one form differ only in key order, whatever the comparison. |
| CanonicalJson.OneFormExactlyWhenSame | apps/api/src/fiscal/fiscal-idempotency.ts:3-13 | Both directions together. |
| CanonicalJson.ConflatedKeysKeepTheirOrder | apps/api/src/fiscal/fiscal-idempotency.ts:8 | Two keys the comparison takes for equal give two forms to one meaning. |
| CanonicalJson.HashesByMeaningExactly | apps/api/src/fiscal/fiscal-idempotency.ts:3-19 | For all values at once: the form depends on the meaning alone exactly when no two different keys compare as equal. |
| CanonicalJson.OneFormExactlyWhenSeparated | apps/api/src/fiscal/fiscal-idempotency.ts:3-13 | Value by value: every reordering of a value has its form exactly when, at every depth, its keys compare as different. |
| CatalogPrices.BuildRank | apps/api/src/catalog/catalog-query.service.ts:187-189 | Every assigned list gets its position in the order of priority. |
| CatalogPrices.IndexPrices | apps/api/src/catalog/catalog-query.service.ts:191-212 | The map of arrays holds, under each key, exactly the prices of the rows with that key, in order. |
| CatalogPrices.PickEffectivePrice | apps/api/src/catalog/catalog-policy.ts:72-90 | The first of the best-ranked prices, or none exactly when none is ranked. |
| CatalogPrices.KeysAgreeExactly | apps/api/src/catalog/catalog-query.service.ts:203-205 | Two index keys are equal exactly when product and variant are, or one is the base price and the other a variant called BASE. |
| CatalogPrices.EmptyVariantIsBase | apps/api/src/catalog/catalog-query.service.ts:203-205 | A missing or empty variant stands for the base price, any other for itself. |
| CatalogPrices.BaseVariantCollides | apps/api/src/catalog/catalog-query.service.ts:203-205 | A variant identified by the word BASE would share the base price's key, although the stored keys differ. |
| CatalogPrices.PickIsScan | apps/api/src/catalog/catalog-query.service.ts:226-243 | The pick from the index is the price of the first assigned list, by priority, that has one. |
| CatalogPrices.RowOrderDoesNotMatter | libs/database/src/schema.ts:827-830 | Thanks to the unique index, the order of the price rows does not matter. |
| CatalogPrices.ProductPrices | apps/api/src/catalog/catalog-query.service.ts:187-243 | The base price and every variant's price are those of the direct scan. |

## Left out

- FiscalStore.FiscalDatabase.Issue: does not model item and VAT lines, payments and the profile's own fields; the document row, its uniqueness and the errors are modelled.
- FiscalStore.FiscalDatabase.VoidDocument: models the ordinary void; the void that a refund starts (`apps/api/src/fiscal/refund-fiscal-void.service.ts`) is not part of this model.
- FiscalStore.FiscalDatabase.Execute: does not model a commit whose acknowledgement is lost; a transaction either happened or did not.
- AdeSubmit.MemoryIsWindow: the memory is that of one process; a restart forgets it.
- FastSubmitMetrics.PercentileIsNearestRank: quantiles are exact fractions, so the rounding of 0.95 times n as a binary number is not modelled.
- SessionPools.HoldsMostRecent: sequential calls only; two overlapping calls on one key can overwrite each other's entry.
- SessionPools.PoolIsListCache: claimed for non-empty keys; with the empty key the limit is not kept, and `WithinLimitExactly` says exactly when.
- HttpContexts.PoolIsListCache: the same, and sequential calls only.
- ReservationCompletion.CompletableExactlyWhen: the run that settles the orders cancels the open and held ones and pays the others; prices and payments are not part of it.
- SessionPools.LeaksExactly: counts the contexts the pool is given; a context that the browser service opens inside its `create` callback and loses because opening the page fails there never reaches the pool.
- TableSessions.HospitalityDatabase.MutateSession: a note or guest count sent as null instead of being left out is not modelled.
- SessionPools.SuccessIsOneUse: pages are identifiers; closing the page itself is covered by closing its context.
- DecimalText.EuroInputRoundTrip: other spellings that `Number` accepts (exponents, hexadecimal, a leading plus or point) are kept apart as `OtherSpelling` and not evaluated.
- DcoPayload.MapSalePayload: does not model the seller's identity, the date and the constant fields of the payload.
- DcoPayload.LineRounding: exact numbers instead of binary floating point, in which the sums could differ in the last place.
- CanonicalJson.OneFormExactlyWhenSame: objects whose keys look like array indices (JavaScript lists those first) and `undefined` members are not modelled.
- FloorPlanDocument.ValidDocuments: text length counts characters, not UTF-16 units; characters that jsonb cannot store are not modelled.
- FloorPlans.OneSavePerRevision: claimed within one draft only, because a publication restarts revisions.
- EventInventoryEffects.CodeIsUpperCase: letters outside a to z, which `toUpperCase` raises too, are not modelled.
- ReservationEffects.CheckInSeatsAtItsTable: the session's note carries the confirmation code in the original; here it is a fixed text.
- EventInventorySafety.RunKeepsPartition: claimed for runs that replace tables only without groups, because the code does not keep it otherwise.
- EventInventorySafety.PublishedHasRoom: the statuses SOLD_OUT and COMPLETED, which no code in the repository writes, are reached by a step that may make any change among the statuses after publication.
- EventInventorySafety.EventTableGroups.Split: the members are restored in any order; the code reads them by sort order, which the result does not depend on.
- Reservations.RunKeepsInv: creation, payment and late payment of a reservation are reduced to their effect on status, assignment and history; holds, prices and refunds are not part of this model.
- ReservationSafety.ReservationDesk.Apply: the mutation is recognised by the audit row the code itself writes; other audit rows of the reservation are not modelled.
- Outbox events, audit rows (except where they recognise a repetition) and timestamps: written in the same transactions, they carry no guard.
- Access checks, roles, tenants beyond the organization column, HTTP plumbing, PDF download, reporting queries: single reads or wrappers.
- Browser navigation and form filling: reduced to what can happen before the irreversible boundary and after it.
- Hold expiry: the same shape as payment expiry.
- Organization and location of an event's inventory rows: one event is modelled, its rows share them.
