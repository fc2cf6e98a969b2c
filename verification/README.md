# Verified model of the DocuAI backend

This project models, in Dafny, the parts of the backend whose correctness depends on more than one
function: the OCR job protocol, the folder hierarchy, refresh-token rotation and the upload
lifecycle of documents, together with the algorithms they rely on (the page fold under a text
budget, image header parsing, text normalisation, the render resolution).

`dafny verify dfyconfig.toml` checks everything.

## How it is organised

**OCR jobs.** `OcrRows` holds the rows of `ocr_jobs` and `ocr_pages` and every conditional update
as a function of the old row. `OcrJobService` is the service as a class over the tables it writes;
each method is proved against those functions. `OcrProtocol` is the transition system: any number of
jobs, any number of `process` calls per job, reconcile passes that act on old readings, crashes
between any two database steps, and one clock of which every reading may be out of date.
`OcrPageOrder`, `OcrAttempts`, `OcrLease` and `OcrLedger` are its inductive invariants,
`OcrRuns` states what follows for whole runs, and `OcrColumns` what the columns of a row and of a page
then say about the file and the job. `OcrProcess` is the worker's own code, `process` with
`run` and `handleFailure`, undisturbed, with the exact condition of each way it can end;
`OcrConcurrent` is the same code with other calls stepping in between any two of its statements, the
condition of each ending in what it then meets, and the proof that its course prolongs any run of the
transition system. `OcrExtraction` is the page fold, `OcrRequests` the creation of jobs under the
document lock, `OcrQuota` the limit per user that this lock does not protect, `OcrReconcile` the queue
and the reconcile pass.

**Folders.** `FolderForest` defines the unbounded ancestor relation and the service's bounded
recursive queries and relates them; `FolderChanges` says what creating, moving and deleting do to
the hierarchy; `FoldersService` is the service as a class; `FolderRuns` covers all runs.

**Sign-in sessions.** `RefreshTokens` has the statements on the token table as a class, `refresh` and
`logout` as calls on it, and the same requests as steps that act on a row they read earlier. `RotationOverlap` takes rotation and bulk
revocation apart, as READ COMMITTED does.

**Uploads.** `Uploads` has the conditional updates of a document row and the requests in flight as
steps; `UploadRuns` has the invariant and what follows for all interleavings; `UploadObjects` says
when a READY document can lose its object; `DocumentFiles` is the service as a class, each call proved
to be a path of that system.

**Parsers and text.** `ImageHeaders` reads image headers and inverts writing them; `ImageFormats` says
exactly which bytes are taken for which format and size. `TextNormalise` is the normaliser and what its
output looks like; `TextLines` and `TextOutline` say what it keeps of the input, in lines; the two
others, `TextIdempotence` and `TextComposing`, are about normalising twice. `RenderDpi` is the render
resolution.

`Histories` has what all of these share: runs, reachability, and the induction over them.

## Assumptions

- Every SQL statement and every `$transaction` is one atomic step, except in `RotationOverlap`. The
  documented isolation level is READ COMMITTED (docs/DATABASE.md:354), which is weaker for a
  transaction of several statements. It matters for `RefreshTokens.ReuseEndsSessions`: a bulk
  revocation that overlaps an open rotation leaves the rotation's new token live, so the guarantee
  fails there. `RotationOverlap.SweepEndsIffNoneCommitted` says exactly when it holds;
  `RotationOverlap.OpenRotationSurvives` and `RotationOverlap.LateRotationSurvives` are runs in which
  it does not.
- There is one clock. Every value written and every cutoff used may be any reading up to now; a
  difference between the database's and a process's clock is not modelled.
- A run is *lease-respecting* when, in each of its states, a PROCESSING row held by a live call has a
  heartbeat no older than `staleJobMs`. The interval at backend/src/ocr/ocr-worker.service.ts:169-172
  is at most a third of that for every value the configuration admits. `OcrRuns.SecondRunnerExactly`
  says exactly what happens otherwise.
- What the tools report for a page is a property of the stored file and does not change between
  attempts; any page may in addition be reached after the deadline.
- New ids, refresh tokens and storage keys are fresh.
- Strings are sequences of Unicode scalar values, so a character is a code point, which is what
  `truncateText` counts.
- Error codes are ordered as `localeCompare` orders their names.
- Of Unicode NFC, `TextIdempotence.LikeNfc` assumes that it leaves the empty text and a newline alone;
  that it is idempotent and its output consists of characters it leaves alone; that it composes nothing
  across white space it leaves alone; and that it brings no white space into text without any, and
  nothing into clean text that the other replacements would remove. A function that composes a letter
  and an accent meets all of this (`TextComposing.ComposingIsLikeNfc`).

## Where the code differs from its documentation, or from what one might expect

- The comment on `fail` says it marks a PROCESSING job FAILED; the statement also matches QUEUED rows.
  The model follows the statement (`OcrJobService.OcrJobService.Fail`).
- A lossless WebP header is complete at byte 25, but files under 30 bytes are refused as malformed; see
  `ImageHeaders.Vp8lRoundTrip` and `ImageHeaders.ShortLosslessRefused`.
- Normalising text twice is not always the same as normalising it once; see
  `TextIdempotence.NormaliseIdempotent`, `TextIdempotence.ComposedTheSecondTime` and
  `TextComposing.ConditionFails`.
- A READY document can lose its object to a completion of the same upload that is rejected later; see
  `UploadObjects.ObjectAtRiskExactly` and `UploadObjects.ReadyWithoutObject`.
- A carriage return followed by an empty line that ends in a line feed is read as one line ending, so
  that line is lost; see `TextLines.TerminatorsExactly`.
- The limit on a user's active jobs can be exceeded by overlapping requests for several documents; see
  `OcrQuota.ExceededByFlight` and `OcrQuota.BoundIsReached`.

## Model

| member | source | states |
|---|---|---|
| `OcrRuns.OneRunner` | backend/src/ocr/ocr-job.service.ts:161-186 | in every lease-respecting run at most one call runs a job, and while it runs the row is PROCESSING under that call's own attempt, within budget |
| `OcrRuns.OnlyTheRunnerEnds` | backend/src/ocr/ocr-job.service.ts:331-423 | in a lease-respecting run no move of another call, of the clock or of a reconcile pass acting on an old reading takes the row of a running call out of PROCESSING |
| `OcrRuns.SecondRunnerExactly` | backend/src/ocr/ocr-worker.service.ts:145-172 | in every run, at a state up to which the lease was respected, a second call that reads the current time comes to run the job beside the first if and only if the lease is broken there and an attempt is left |
| `OcrRuns.LostLeaseTwoRunners` | backend/src/ocr/ocr-worker.service.ts:145-172 | an instance for every length of the lease: a run in which a silent call and a second one run the same job |
| `OcrRuns.PagesInOrder` | backend/src/ocr/ocr-job.service.ts:206-328 | in every run, leased or not, the page numbers are exactly 1..k with k within the file, no call is more than one page ahead, progress never exceeds a known total, and a finalised job has all pages 1..total |
| `OcrRuns.ExtractionRunsBounded` | backend/src/ocr/ocr-worker.service.ts:145-163 | over all crashes, redeliveries and recoveries at most `maxAttempts` claims of a job go on to run extraction |
| `OcrRuns.CounterAccountsForClaims` | backend/src/ocr/ocr-job.service.ts:161-179 | in every run the attempt counter equals the claims that started extraction, were lost before it or are pending; it passes the budget exactly when the unstarted ones outnumber what the started ones left |
| `OcrRuns.CounterPassesBudget` | backend/src/ocr/ocr-worker.service.ts:145-163 | a run with one attempt in which the first call dies right after its claim and the second claim takes the counter to 2 |
| `OcrRuns.TerminalForever` | backend/src/ocr/ocr-job.service.ts:161-383 | in every run a terminal row keeps every column for good |
| `OcrRuns.BooksBalance` | backend/src/ocr/ocr-job.service.ts:225-328 | in every state of a lease-respecting run both counters equal the page rows, stored text fits the document limit, and a COMPLETED, PARTIAL or finalised row is COMPLETED exactly if it has pages and none failed, FAILED exactly if all failed, PARTIAL exactly if some did and some did not; its method is none, native, OCR or mixed exactly as its pages were made, and its error the dominant one |
| `OcrRuns.PagesFrozen` | backend/src/ocr/ocr-job.service.ts:225-266 | in a lease-respecting run the pages of a terminal job never change again, although the upsert does not test the status |
| `OcrRuns.ResumeEqualsOnePass` | backend/src/ocr/ocr-worker.service.ts:221-247 | if no deadline passes, a lease-respecting run that crashed and resumed any number of times stores exactly the pages of one uninterrupted pass |
| `OcrColumns.PagesShowTheFile` | backend/src/ocr/ocr-extraction.service.ts:189-237 | in every run each stored page is what the tools report of the file: a prefix of the native text where that is usable, else of the recognised text with its confidence, or the failure of recognition, or a timeout; a page carries an error exactly if it failed |
| `OcrColumns.TimesSayTheStatus` | backend/src/ocr/ocr-job.service.ts:161-383 | in every run `completedAt` is set exactly on terminal rows, `startedAt` exactly on rows claimed once, and a CANCELLED row says that its document was unavailable |
| `OcrColumns.StartedOnce` | backend/src/ocr/ocr-job.service.ts:161-179 | once set, `startedAt` never changes, whatever claims follow |
| `OcrColumns.TotalIsStored` | backend/src/ocr/ocr-job.service.ts:188-203 | in a lease-respecting run a job whose pages are being made, or that was finalised, shows the page count of its file |
| `OcrColumns.ErrorIsOfAPage` | backend/src/ocr/ocr-job.service.ts:300-328 | in a lease-respecting run a finalised job has an error exactly if a page failed, and it is the error of one of its failed pages |
| `OcrPageOrder.StepKeepsPages` | backend/src/ocr/ocr-job.service.ts:188-328 | every step keeps pages gapless, page loops at most one ahead, and finalisation complete |
| `OcrPageOrder.StepKeepsTerminalRow` | backend/src/ocr/ocr-job.service.ts:161-423 | no step of any kind changes a terminal row |
| `OcrPageOrder.QuietStep` | backend/src/ocr/ocr-job.service.ts:161-203 | steps other than persisting, resuming and finalising write no page, no counter and no page loop |
| `OcrAttempts.StepKeepsAttempts` | backend/src/ocr/ocr-worker.service.ts:145-163 | claims carry distinct counts, and one is used to start extraction at most once and only within budget |
| `OcrAttempts.StartsBounded` | backend/src/ocr/ocr-worker.service.ts:152-163 | distinct starting counts within 1..`maxAttempts` are at most `maxAttempts` many |
| `OcrAttempts.StepKeepsAccount` | backend/src/ocr/ocr-worker.service.ts:145-163 | no step, crashes included, leaves a claim unaccounted for |
| `OcrAttempts.PassesBudgetExactly` | backend/src/ocr/ocr-job.service.ts:161-179 | the step that takes the counter past the budget is a claim of a claimable row whose budget is just spent, and no other |
| `OcrLease.StepKeepsLease` | backend/src/ocr/ocr-worker.service.ts:132-184 | every step keeps one holder per job, its phase in agreement with the row, and old reconcile readings harmless to it |
| `OcrLease.OthersCannotEnd` | backend/src/ocr/ocr-job.service.ts:350-423 | a step that is not the running call's own leaves the call, its row's status and its attempt as they are |
| `OcrLedger.StepKeepsLedger` | backend/src/ocr/ocr-job.service.ts:225-328 | every step keeps counters, budget, summary and the pages of one pass |
| `OcrLedger.NextPageOfPass` | backend/src/ocr/ocr-worker.service.ts:223-245 | the page made from (last page + 1, limit - stored characters) is the page a single pass stores there |
| `OcrConcurrent.ProcessAmongOthers` | backend/src/ocr/ocr-worker.service.ts:132-184 | whatever steps other calls, reconcile passes, heartbeats and requests on documents take between any two statements of one delivery, the whole course is a path of the protocol; each ending has its exact condition in what the call meets at its claim, its read-back, its document and its progress; and the last statement is the one the ending names |
| `OcrConcurrent.ProcessInARun` | backend/src/ocr/ocr-worker.service.ts:132-263 | a delivery of a job of any run, among any others, prolongs that run, and leaves tables with pages 1..k, progress within the total, all pages once the job is done, and at most `maxAttempts` claims ever gone on to extraction |
| `OcrConcurrent.PathProlongs` | backend/src/ocr/ocr-worker.service.ts:132-184 | whatever path of anyone's moves leads on from a job of a run, there is a longer run that ends with it, no other job having moved |
| `OcrConcurrent.OthersReach` | backend/src/ocr/ocr-job.service.ts:161-423 | along any path of steps of others a call stays where it is, over the same file, document and budget |
| `OcrProcess.Process` | backend/src/ocr/ocr-worker.service.ts:132-184 | with no other call coming between, each way one delivery can end has its exact condition, the row left behind says how it ended, no column of any document changes but the page count of the job's own READY document, and that exactly when the file was opened; a skipped finalisation cannot happen |
| `OcrProcess.Acquire` | backend/src/ocr/ocr-worker.service.ts:145-163 | the claim succeeds exactly for a claimable row; afterwards the call is running within budget or knows the budget is spent |
| `OcrProcess.Run` | backend/src/ocr/ocr-worker.service.ts:186-263 | whatever row it finds, it reaches finalisation exactly when the document is available, the file opens and nothing aborts the pages; a row taken away by another call is then left untouched; otherwise the job is cancelled, or the first error met is reported |
| `OcrProcess.CountingIsARequest` | backend/src/ocr/ocr-worker.service.ts:187-221 | what the call reads and writes of its document is a path of the upload system |
| `OcrProcess.PersistAll` | backend/src/ocr/ocr-worker.service.ts:230-245 | the page loop is a path of persist steps, ends past the last page exactly when no page aborts, and otherwise reports the first abort |
| `OcrProcess.HandleFailure` | backend/src/ocr/ocr-worker.service.ts:333-356 | a permanent error or a spent budget fails an active job, any other error returns a PROCESSING one to QUEUED, under the error's code; a row another call has moved on is left alone |
| `OcrProcess.FinishedIsOnePass` | backend/src/ocr/ocr-worker.service.ts:221-247 | a call that finds the job as any lease-respecting run left it, alone, and finalises it leaves exactly the pages of one pass and a row that agrees with them |
| `OcrExtraction.ExtractPdf` | backend/src/ocr/ocr-extraction.service.ts:161-238 | every page yielded holds a prefix of the native text if that is usable, else of the recognised text, or the code of the failed recognition; a late one is a timeout; each is charged to the budget as the rows that follow say |
| `OcrExtraction.ExtractPdfIsOfTheFile` | backend/src/ocr/ocr-extraction.service.ts:189-237 | the same of the fold that the loop computes, for every start page, budget and set of late pages |
| `OcrExtraction.PassIsOfTheFile` | backend/src/ocr/ocr-extraction.service.ts:189-237 | every page of an uninterrupted pass is native text where usable, else recognised text or its failure |
| `OcrExtraction.YieldAt` | backend/src/ocr/ocr-extraction.service.ts:189-237 | each page yielded is made under its own number from what the pages before it left of the budget, late ones as timeouts |
| `OcrExtraction.ExtractPdfIsPass` | backend/src/ocr/ocr-extraction.service.ts:161-238 | when no page is late the loop yields one budgeted pass over the remaining pages |
| `OcrExtraction.ExtractPdfWithinBudget` | backend/src/ocr/ocr-extraction.service.ts:161-238 | late or not, from any start page, the loop never stores more than the budget it was given |
| `OcrExtraction.ResumeIsOnePass` | backend/src/ocr/ocr-extraction.service.ts:161-238 | a pass split after any page and continued with the rest of the budget gives the same pages |
| `OcrExtraction.ExtractWithinBudget` | backend/src/ocr/ocr-extraction.service.ts:321-359 | a pass never stores more than the budget, nor more than the page limit on a page |
| `OcrExtraction.ExtractAt` | backend/src/ocr/ocr-extraction.service.ts:190-238 | page k + 1 of a pass depends on its source and on what the first k pages left of the budget alone |
| `OcrExtraction.StoreText` | backend/src/ocr/ocr-extraction.service.ts:321-359 | a page is EMPTY exactly when there is no text and FAILED, for the text limit, exactly when there is some and nothing is left of the budget; otherwise it holds a prefix, flagged when proper, as long as text, page limit and budget allow, with method and confidence |
| `OcrExtraction.TruncateText` | backend/src/ocr/tools/text.ts:70-80 | the result is a prefix of at most the limit, flagged exactly when something was cut, and then of exactly the limit |
| `OcrRows.FinalStatusSays` | backend/src/ocr/ocr-job.service.ts:292-299 | the final status is COMPLETED, PARTIAL or FAILED exactly by which pages failed, said page by page |
| `OcrRows.FinalMethodSays` | backend/src/ocr/ocr-job.service.ts:281-291 | the final method is none, native, OCR or mixed exactly by which methods occur, said page by page |
| `OcrRows.FinalError` | backend/src/ocr/ocr-job.service.ts:300-305 | a dominant error exists exactly when a page failed, and it is the most frequent code, first in collation order on a tie |
| `OcrRows.DominantUnique` | backend/src/ocr/ocr-job.service.ts:426-432 | the dominant error is determined by the pages |
| `OcrRows.RanksFollowNames` | backend/src/ocr/ocr-job.service.ts:426-432 | the order of the error codes is that of their names: at the first place where neighbours differ the letters ascend |
| `OcrRows.TerminalExactly` | backend/src/ocr/ocr-job.service.ts:13-23 | a job is over exactly when it is COMPLETED, PARTIAL, FAILED or CANCELLED |
| `OcrJobService.MostCommon` | backend/src/ocr/ocr-job.service.ts:426-432 | the code returned is the most frequent one, first in collation order on a tie |
| `OcrJobService.Count` | backend/src/ocr/ocr-job.service.ts:427-428 | the count map has exactly the values that occur, each with its multiplicity |
| `OcrJobService.OcrJobService.Claim` | backend/src/ocr/ocr-job.service.ts:161-179 | succeeds exactly for QUEUED rows and PROCESSING rows with a stale or missing heartbeat; counts the attempt, clears the error, keeps an earlier start; changes that row alone |
| `OcrJobService.OcrJobService.Heartbeat` | backend/src/ocr/ocr-job.service.ts:181-186 | afterwards a PROCESSING row can be neither claimed nor recovered with any cutoff up to the heartbeat; no other column or row changes |
| `OcrJobService.OcrJobService.SetTotalPages` | backend/src/ocr/ocr-job.service.ts:188-203 | stores the total on a PROCESSING job and, whatever the job's status, on the document unless it is deleted |
| `OcrJobService.OcrJobService.PersistedProgress` | backend/src/ocr/ocr-job.service.ts:206-218 | returns the largest persisted page number, 0 without pages, and the sum of the stored characters |
| `OcrJobService.OcrJobService.PersistPage` | backend/src/ocr/ocr-job.service.ts:225-266 | upserts the page whatever the status; a PROCESSING row then has the number of failed pages and the number of pages, capped by a known total; refuses unknown jobs |
| `OcrJobService.OcrJobService.Finalize` | backend/src/ocr/ocr-job.service.ts:275-328 | only a PROCESSING row is finalised: COMPLETED, PARTIAL or FAILED exactly by which pages failed, with the method, the dominant error and the counters of its pages |
| `OcrJobService.OcrJobService.Fail` | backend/src/ocr/ocr-job.service.ts:331-347 | succeeds exactly for QUEUED and PROCESSING rows, which become FAILED under the given code at the given time |
| `OcrJobService.OcrJobService.Requeue` | backend/src/ocr/ocr-job.service.ts:350-365 | succeeds exactly for PROCESSING rows, which go back to QUEUED |
| `OcrJobService.OcrJobService.Cancel` | backend/src/ocr/ocr-job.service.ts:367-383 | succeeds exactly for QUEUED and PROCESSING rows, which become CANCELLED under the given code at the given time |
| `OcrJobService.OcrJobService.Recover` | backend/src/ocr/ocr-job.service.ts:412-423 | succeeds exactly for stale PROCESSING rows, which go back to QUEUED |
| `OcrRequests.OneActiveJob` | backend/src/ocr/ocr.service.ts:111-136 | when creation times follow lock order, every document has at most one active job, it is the latest, and the number of jobs stays within the limit, although workers move rows without the lock |
| `OcrRequests.RetrySafeExactly` | backend/src/ocr/ocr.service.ts:222-238 | a retry leaves one active job if and only if the document had none, which it does not check |
| `OcrRequests.OutOfOrderReached` | backend/src/ocr/ocr.service.ts:295-310 | a concrete run reaches a state in which the active job is dated before a failed one |
| `OcrRequests.OutOfOrderTwoActive` | backend/src/ocr/ocr.service.ts:222-238 | from that state a retry creates a second active job |
| `OcrRequests.ServiceCallsWork` | backend/src/ocr/ocr-job.service.ts:161-423 | every call of the job service keeps a row's document, user, language and creation time, and leaves terminal rows alone |
| `OcrRequests.OcrService.Request` | backend/src/ocr/ocr.service.ts:95-136 | each outcome has its exact condition: the latest active job is returned in its own language and refused in another; the latest one in the language is returned if it has results and force is off; both quotas refuse when full; else a new job is queued, if service, document and language allow |
| `OcrRequests.OcrService.Retry` | backend/src/ocr/ocr.service.ts:209-238 | each outcome has its exact condition: a new job in the latest job's language exactly when that failed or is partial without a permanent error, the language is offered and both quotas have room; the other answers name which of these is missing |
| `OcrRequests.OcrService.AssertProcessable` | backend/src/ocr/ocr.service.ts:250-271 | each refusal has its exact condition: no verified file, an unsupported type, a size over the limit, a page count over the limit, in this order |
| `OcrRequests.PermanentOrTransient` | backend/src/ocr/ocr.errors.ts:50-58 | the codes that forbid a retry are all but processing failure, timeout, storage, text limit and interruption |
| `OcrRequests.FindLatest` | backend/src/ocr/ocr-job.service.ts:67-76 | returns the job with the greatest creation time, and among those the greatest id |
| `OcrRequests.QueriesSelect` | backend/src/ocr/ocr-job.service.ts:67-126 | the queries count exactly the jobs of the document, of the user, in the language, and those QUEUED or PROCESSING |
| `OcrQuota.ExceededByFlight` | backend/src/ocr/ocr.service.ts:273-293 | if a user never has more than k requests past the check at once, at most k - 1 jobs beyond the limit are active; so the limit holds while they do not overlap |
| `OcrQuota.BoundIsReached` | backend/src/ocr/ocr.service.ts:273-310 | for every limit and every k there is a run that reaches this bound |
| `OcrQuota.ExceedsExactly` | backend/src/ocr/ocr.service.ts:278-310 | the step that exceeds the limit is an insert when as many jobs are active as it allows, and no other |
| `OcrReconcile.OcrWorkerService.Reconcile` | backend/src/ocr/ocr-worker.service.ts:367-419 | an undisturbed pass changes only PROCESSING rows without a heartbeat since the cutoff, all of them up to the oldest 500: QUEUED if attempts are left, else FAILED as interrupted; leaves a pending entry for each recovered row and for each QUEUED row up to the oldest 500, keeps pending entries, counts exactly the changes made; a pass inside a pass does nothing |
| `OcrReconcile.OcrWorkerService.RecoverBatch` | backend/src/ocr/ocr-worker.service.ts:374-401 | the first loop fails exactly the rows out of attempts, requeues and enqueues the others, and counts both |
| `OcrReconcile.OcrWorkerService.EnqueueBatch` | backend/src/ocr/ocr-worker.service.ts:403-411 | the second loop makes every row of the batch pending and counts those that were not |
| `OcrReconcile.SettledDecides` | backend/src/ocr/ocr-worker.service.ts:374-401 | a pass changes interrupted rows only, and by their attempts only |
| `OcrReconcile.SettledByTheProtocol` | backend/src/ocr/ocr-worker.service.ts:374-401 | in the job protocol, reading a stale row and acting on it at any later time settles the row as the pass does, and changes nothing else |
| `OcrReconcile.PassLeavesRest` | backend/src/ocr/ocr-job.service.ts:397-409 | after a pass exactly the stale rows it did not read are still stale, by its own cutoff and by any other |
| `OcrReconcile.PassesSettle` | backend/src/ocr/ocr-worker.service.ts:367-419 | over passes that each read the clock anew, the rows no longer stale are, by any cutoff, 500 a pass but never more than have gone stale by then |
| `OcrReconcile.DrainedExactly` | backend/src/ocr/ocr-worker.service.ts:367-419 | k passes leave nothing stale if and only if all rows stale by the last cutoff fit into k batches and the rows that went stale after each pass fit into the batches that were left |
| `OcrReconcile.PassesDrain` | backend/src/ocr/ocr-worker.service.ts:367-419 | when no row goes stale between the passes, n stale rows are gone after k passes if and only if k is at least n / 500 rounded up |
| `OcrReconcile.FindOldest` | backend/src/ocr/ocr-job.service.ts:389-409 | returns distinct rows, oldest first, none younger than a row left out, as many as there are up to 500 |
| `OcrReconcile.OcrQueueService.Enqueue` | backend/src/ocr/ocr-queue.service.ts:104-107 | adds a waiting entry, or nothing when the id has one |
| `OcrReconcile.OcrQueueService.IsPending` | backend/src/ocr/ocr-queue.service.ts:110-115 | true exactly for entries that will still be delivered |
| `OcrReconcile.PendingExactly` | backend/src/ocr/ocr-queue.service.ts:110-115 | an id is not pending exactly if it has no entry or one that is completed, failed or unknown |
| `OcrReconcile.OcrQueueService.RemoveStaleEntry` | backend/src/ocr/ocr-queue.service.ts:118-125 | removes an entry exactly when it will not be delivered any more |
| `OcrReconcile.OcrQueueService.Reenqueue` | backend/src/ocr/ocr-worker.service.ts:394-395 | removing and adding leaves the id pending and every other entry alone |
| `FolderChanges.MoveCheckExact` | backend/src/folders/folders.service.ts:198-219 | towards the root or a folder of the user, a move is accepted if and only if the rewritten folders are still a forest of depth at most 10 with parents of the same user |
| `FolderChanges.MoveRefusal` | backend/src/folders/folders.service.ts:205-213 | self-parent, not-found and cycle are reported exactly when they apply |
| `FolderChanges.CreateCheckExact` | backend/src/folders/folders.service.ts:54-64 | a creation is accepted if and only if the folders with the new one are still such a forest |
| `FolderChanges.DeleteKeepsHierarchy` | backend/src/folders/folders.service.ts:152-179 | deleting keeps the forest, removes that folder only, keeps the name and owner of every other one, and makes none deeper |
| `FolderChanges.DeleteKeepsAncestors` | backend/src/folders/folders.service.ts:165-168 | among surviving folders the ancestor relation is the same before and after |
| `FolderForest.ChainIsWalk` | backend/src/folders/folders.service.ts:225-244 | the chain query lists exactly the unbounded walk to the root if that ends within the limit |
| `FolderForest.HeightIsDistance` | backend/src/folders/folders.service.ts:247-266 | in a hierarchy some folder lies k levels below exactly for k under the height query's answer |
| `FolderForest.LimitNeverCuts` | backend/src/folders/folders.service.ts:230-264 | in a hierarchy any larger recursion limit gives the same chain and the same height |
| `FolderForest.DepthMeansAcyclic` | backend/src/folders/folders.service.ts:198-219 | a bound on the depth rules out cycles |
| `FoldersService.FoldersService.Create` | backend/src/folders/folders.service.ts:47-64 | adds the folder exactly when the hierarchy survives it, reports a foreign or missing parent as not found, and keeps the tables consistent |
| `FoldersService.FoldersService.AssertValidMove` | backend/src/folders/folders.service.ts:198-219 | decides as the specification of the move check, which is proved exact |
| `FoldersService.FoldersService.Update` | backend/src/folders/folders.service.ts:110-130 | renames and moves exactly when the hierarchy survives the move; reports self-parent, cycle and a foreign or missing parent exactly when they apply, changes nothing otherwise, and keeps the tables consistent |
| `FoldersService.FoldersService.Remove` | backend/src/folders/folders.service.ts:152-179 | no document is lost, the folder's documents lie in the root, no reference dangles, and both reported counts equal the rows changed |
| `FoldersService.DocumentsStayPlaced` | backend/src/folders/folders.service.ts:161-164 | the update changes exactly the folder's documents and leaves every document in an existing folder of its owner |
| `FoldersService.DeletionAsUpdates` | backend/src/folders/folders.service.ts:165-171 | promoting the children and deleting the row gives the folders without it, and the promoted rows are exactly the changed ones |
| `FolderRuns.EveryStateConsistent` | backend/src/folders/folders.service.ts:31-39 | in every run of creates, updates, removals and document placements by any users, every state is a forest of depth at most 10 with all documents in folders of their owner |
| `FolderRuns.Perform` | backend/src/folders/folders.service.ts:47-179 | every call of the service, from any consistent tables, is the step of that call in a run |
| `FolderRuns.QueriesExact` | backend/src/folders/folders.service.ts:221-266 | in every reachable state the 64-step queries return the whole way to the root and the true height |
| `FolderRuns.DocumentsKept` | backend/src/folders/folders.service.ts:145-151 | no run loses a document or changes its owner |
| `RefreshTokens.ReuseEndsSessions` | backend/src/auth/auth.service.ts:273-280 | once reuse is detected for a user, no sign-in begun earlier ever has a live token again, whatever stale requests are in flight |
| `RefreshTokens.ReplayEndsSessions` | backend/src/auth/auth.service.ts:199-201 | once a token has been exchanged, any later refresh that presents it ends, by its own next step, every sign-in its user had made by then, for good |
| `RefreshTokens.RefreshDecides` | backend/src/auth/auth.service.ts:184-232 | a refresh sets out to revoke all sessions exactly if the token is known and not live, to exchange it exactly if it is live, unexpired and its user active, to revoke it alone exactly if it is live and not usable; an unknown token leaves no request |
| `RefreshTokens.LogoutDecides` | backend/src/auth/auth.service.ts:306-326 | a logout sets out to revoke the token exactly if it is the user's own |
| `RefreshTokens.ReusingUntilDone` | backend/src/auth/auth.service.ts:199-201 | a request that set out to end a user's sessions keeps that intent until it is done |
| `RefreshTokens.OtherUsersKeepSessions` | backend/src/auth/auth.service.ts:277-280 | ending a user's sessions ends nobody else's |
| `RefreshTokens.AuthService.Refresh` | backend/src/auth/auth.service.ts:184-266 | each outcome has its exact condition in the row that is read; a revoked token leaves its user without a live session and other users' rows alone; only an exchange leaves a new live token, of the same user |
| `RefreshTokens.AuthService.Logout` | backend/src/auth/auth.service.ts:306-326 | afterwards the user's own token is not live; no other row changes, and a foreign token changes nothing |
| `RefreshTokens.OneSessionPerSignIn` | backend/src/auth/auth.service.ts:235-254 | in every state each sign-in has at most one live token |
| `RefreshTokens.NoTokenExchangedTwice` | backend/src/auth/auth.service.ts:239-249 | in every state, live tokens or not, no token has been exchanged twice and no exchanged token is live |
| `RefreshTokens.ExchangeKeepsSessions` | backend/src/auth/auth.service.ts:239-249 | an exchange, won or lost, leaves every user's number of live sessions unchanged |
| `RefreshTokens.OneWinnerPerToken` | backend/src/auth/auth.service.ts:235-255 | once a request has exchanged a token, every other request that still intends to, however old its reading, gets no token, changes no row and goes on to revoke the owner's sessions |
| `RefreshTokens.StepKeepsInv` | backend/src/auth/auth.service.ts:184-335 | every step keeps the lineages, one live token each, of one user each |
| `RefreshTokens.TokenTable.Issue` | backend/src/auth/auth.service.ts:352-369 | adds one live session of the user |
| `RefreshTokens.TokenTable.RevokeOne` | backend/src/auth/auth.service.ts:323-326 | afterwards the token is not live; the count says whether it was |
| `RefreshTokens.TokenTable.Rotate` | backend/src/auth/auth.service.ts:239-249 | succeeds exactly for a live token and keeps the number of live sessions |
| `RefreshTokens.TokenTable.RevokeAll` | backend/src/auth/auth.service.ts:277-280 | the user has no live session left, and the count is how many there were |
| `RotationOverlap.SweepEndsExactly` | backend/src/auth/auth.service.ts:277-280 | under READ COMMITTED, when a bulk revocation has visited its rows the earlier sign-ins are over if and only if every token that their rotations committed meanwhile has been revoked as well |
| `RotationOverlap.SweepEndsIffNoneCommitted` | backend/src/auth/auth.service.ts:239-280 | whatever sign-ins and rotations begin, commit or roll back while a bulk revocation runs, it ends the sign-ins before it if and only if no rotation of theirs committed meanwhile |
| `RotationOverlap.SweepEndsIffNoneOpen` | backend/src/auth/auth.service.ts:239-280 | its corollary for rotations that do nothing but commit meanwhile: if and only if none of that user was open at the start |
| `RotationOverlap.EndedStays` | backend/src/auth/auth.service.ts:239-280 | sign-ins that are over stay over, whatever rotations are open at that moment |
| `RotationOverlap.OpenRotationSurvives` | backend/src/auth/auth.service.ts:239-280 | a run in which a rotation is open when a bulk revocation starts and its new token is live when all rows are visited |
| `RotationOverlap.LateRotationSurvives` | backend/src/auth/auth.service.ts:239-280 | a run in which nothing is open at the start, and a rotation that begins and commits before its row is visited leaves its new token live |
| `RotationOverlap.StepKeepsInv` | backend/src/auth/auth.service.ts:239-280 | every step keeps locks on live tokens, and every live token of an earlier sign-in still to be visited or known as missed |
| `UploadRuns.ReadyIsVerified` | backend/src/documents/document-files.service.ts:180-225 | in every interleaving a READY row has the size and type declared by the step that generated its key, for this document, after a HEAD of that key reported that size within the limit |
| `UploadRuns.ReadyIsFrozen` | backend/src/documents/document-files.service.ts:98-121 | once READY, key, size and type never change, not even by deletion |
| `UploadRuns.DeletionIsFinal` | backend/src/documents/documents.service.ts:204-216 | `deletedAt` is set exactly on DELETED rows and such a row never changes again, although rejection does not test `deletedAt` |
| `UploadRuns.PageCountNeedsFile` | backend/src/ocr/ocr-job.service.ts:198-201 | a page count is only found on READY or DELETED documents, however late a worker writes it |
| `UploadRuns.SupersededIsUnreferenced` | backend/src/documents/document-files.service.ts:126-135 | an object that upload-url deleted as superseded has a key no row references, then or ever after |
| `UploadRuns.KeysAreUnique` | backend/src/storage/storage-key.ts:25-31 | two documents never share a storage key |
| `UploadObjects.ObjectAtRiskExactly` | backend/src/documents/document-files.service.ts:253-274 | a document that is or was READY can lose its object in some later state if and only if a rejection has deleted it already or a completion that read its key is still in flight |
| `UploadObjects.SafeForever` | backend/src/documents/document-files.service.ts:163-274 | with neither, the object is never deleted in any continuation |
| `UploadObjects.ReadyObjectGone` | backend/src/documents/document-files.service.ts:126-135 | the object of a READY document is gone exactly when a rejection that read its key has deleted it; superseding never does |
| `UploadObjects.ReadyWithoutObject` | backend/src/documents/document-files.service.ts:203-274 | a run with two completions in flight in which one makes the document READY and the other, with a wrong etag, deletes the object |
| `UploadRuns.StepKeepsInv` | backend/src/documents/document-files.service.ts:88-267 | every step of every request keeps the invariant of rows and requests in flight |
| `UploadRuns.StepMovesRows` | backend/src/documents/document-files.service.ts:106-121 | every step keeps a deleted row, a row's owner and a READY row's upload; a key is replaced only from an uploadable status |
| `UploadRuns.StatusMoves` | backend/src/documents/document-files.service.ts:106-267 | whatever requests are in flight, a row becomes READY or FAILED exactly when a completion or rejection comes back to an upload that still has the key it read, and DELETED exactly by its owner's removal; no row becomes a draft again |
| `UploadRuns.KeyMoves` | backend/src/documents/document-files.service.ts:106-121 | a row gets another key exactly when upload-url comes back to a DRAFT, UPLOADING or FAILED document; the key was never in a row before |
| `DocumentFiles.DocumentFilesService.CreateUploadUrl` | backend/src/documents/document-files.service.ts:88-135 | places a new key with the declared size and type exactly when the declaration is admissible and the user's live document has no file yet; each refusal has its exact condition; the call is a path of the interleaved system |
| `DocumentFiles.DocumentFilesService.CompleteUpload` | backend/src/documents/document-files.service.ts:163-231 | the document becomes READY exactly when its upload is under way and the store holds an object as declared for its key, FAILED exactly for any other object, and nothing but the status changes; the call is a path of the interleaved system |
| `DocumentFiles.ProblemsExactly` | backend/src/documents/document-files.service.ts:183-203 | in every reachable state the five checks find a problem if and only if size, type or etag differs from what was declared |
| `DocumentFiles.TakesKeepsInv` | backend/src/documents/document-files.service.ts:88-282 | a whole call keeps the invariant of the interleaved system |
| `DocumentFiles.DocumentFilesService.Remove` | backend/src/documents/documents.service.ts:204-216 | removes exactly the user's live document, and from then on no step of any request changes the row |
| `ImageHeaders.JpegDimensions` | backend/src/ocr/tools/file-signature.ts:80-116 | the loop terminates, reads inside the buffer and returns what the scan specification returns, which is proved exact |
| `ImageHeaders.JpegExact` | backend/src/ocr/tools/file-signature.ts:80-116 | dimensions are returned if and only if the bytes are legal segments followed by a frame header of that non-empty size (sections B.1.1 and B.2.2 of ITU-T T.81) |
| `ImageHeaders.ScanReadsFrame` | backend/src/ocr/tools/file-signature.ts:80-116 | parsing inverts writing for every list of fill bytes, standalone markers and length-bearing segments before a frame |
| `ImageHeaders.ScanFindsFrame` | backend/src/ocr/tools/file-signature.ts:80-116 | dimensions are never read from anything but a frame header behind legal segments |
| `ImageHeaders.Vp8RoundTrip` | backend/src/ocr/tools/file-signature.ts:121-128 | every legal lossy size under every scaling is read back (section 9.1 of RFC 6386) |
| `ImageHeaders.Vp8lRoundTrip` | backend/src/ocr/tools/file-signature.ts:119-135 | every legal lossless size, in any file that holds the whole size field, is read back if and only if the file has 30 bytes (section 3.4 of RFC 9649) |
| `ImageHeaders.ShortLosslessRefused` | backend/src/ocr/tools/file-signature.ts:119 | a complete lossless file of 26 bytes is detected as WebP and refused |
| `ImageHeaders.Vp8xRoundTrip` | backend/src/ocr/tools/file-signature.ts:136-140 | every legal canvas size is read back (section 2.7 of RFC 9649) |
| `ImageHeaders.PngRoundTrip` | backend/src/ocr/tools/file-signature.ts:71-78 | every 32-bit size in the header chunk is read back |
| `ImageHeaders.WrittenIsDetected` | backend/src/ocr/tools/file-signature.ts:28-51 | a start-of-image marker before a written header is detected as JPEG |
| `ImageFormats.DetectExactly` | backend/src/ocr/tools/file-signature.ts:28-51 | each format is detected exactly for its own leading bytes, and nothing else is detected |
| `ImageFormats.FrameMarkers` | backend/src/ocr/tools/file-signature.ts:102-107 | frame headers are the thirteen start-of-frame markers of section B.1.1 of ITU-T T.81; DHT, JPG and DAC are none |
| `ImageFormats.StandaloneMarkers` | backend/src/ocr/tools/file-signature.ts:90-98 | markers without a length are start of image, the eight restarts and TEM |
| `ImageFormats.WebpExact` | backend/src/ocr/tools/file-signature.ts:118-142 | dimensions are returned exactly for 30 bytes that hold a lossy, lossless or extended header written with them |
| `ImageFormats.PngExact` | backend/src/ocr/tools/file-signature.ts:71-78 | dimensions are returned exactly if the header chunk comes first and holds them, neither being zero |
| `ImageFormats.ReadsInOrder` | backend/src/ocr/tools/file-signature.ts:71-142 | each read of a size is the number its bytes write to base 256, most or least significant byte first as its name says |
| `TextNormalise.NormaliseIsClean` | backend/src/ocr/tools/text.ts:23-36 | for every input the output has no carriage return, no stripped control character, no line ending in a blank, no three newlines in a row and no outer whitespace |
| `TextNormalise.CleanIsFixed` | backend/src/ocr/tools/text.ts:27-34 | text with these properties is left exactly as it is |
| `TextLines.TerminatorsReplaced` | backend/src/ocr/tools/text.ts:27 | a text written as any lines, each ended by CRLF, CR or LF, comes out as these lines joined by newlines |
| `TextLines.TerminatorsExactly` | backend/src/ocr/tools/text.ts:27 | this holds if and only if no CR stands before an empty line ended by LF; there the two are read as one CRLF and a line is lost |
| `TextLines.EveryTextIsWritten` | backend/src/ocr/tools/text.ts:27 | every text is written by some lines and terminators that can be told apart |
| `TextOutline.OutlineKept` | backend/src/ocr/tools/text.ts:27-34 | for all lines and terminators the lines with a visible character are kept, in order and number, each with its text up to white space at its end and control characters (the first also up to white space before it), and two neighbours have a blank line between them exactly if they had one |
| `TextOutline.NormaliseKeepsOutline` | backend/src/ocr/tools/text.ts:23-36 | so for every input of the whole normaliser |
| `TextOutline.VisibleKept` | backend/src/ocr/tools/text.ts:27-34 | no visible character is lost, added or moved |
| `TextOutline.ShownExactly` | backend/src/ocr/tools/text.ts:27-34 | the lines counted are exactly those with a visible character |
| `TextOutline.ControlsExactly` | backend/src/ocr/tools/text.ts:29 | the characters removed are the ASCII controls but tab, line feed and carriage return; the blanks are none of them |
| `TextIdempotence.NormaliseIdempotent` | backend/src/ocr/tools/text.ts:23-36 | normalising again changes nothing if and only if NFC leaves alone what is left of the input once NFC has run and the control characters are gone |
| `TextIdempotence.IdempotentWithoutControls` | backend/src/ocr/tools/text.ts:23-36 | so it changes nothing whenever the input, in NFC, has no control character |
| `TextIdempotence.CleanedFixed` | backend/src/ocr/tools/text.ts:30-34 | the replacements after the control characters never change whether NFC has something left to compose |
| `TextIdempotence.IdempotentOver` | backend/src/ocr/tools/text.ts:23-36 | over any alphabet that has the newline and that NFC does not touch, ASCII for one, normalisation is idempotent |
| `TextIdempotence.ComposedTheSecondTime` | backend/src/ocr/tools/text.ts:26-29 | a letter, a control character and a combining accent are composed only by the second normalisation |
| `TextComposing.ConditionFails` | backend/src/ocr/tools/text.ts:26-29 | for a composing function that meets all assumptions on NFC the exact condition fails on that input, so normalising twice differs from once |
| `TextComposing.ComposingIsLikeNfc` | backend/src/ocr/tools/text.ts:26 | joining a letter and an accent is idempotent, composes nothing across white space and keeps text clean |
| `TextNormalise.LinesAreStripped` | backend/src/ocr/tools/text.ts:30-32 | split, strip each line and join equals one pass over the text |
| `TextNormalise.CollapseIsEach` | backend/src/ocr/tools/text.ts:33 | replacing long runs of newlines equals never putting a third newline in a row |
| `RenderDpi.RenderDpiIsLargest` | backend/src/ocr/ocr-extraction.service.ts:299-318 | over exact reals the resolution is the largest integer of at least 50 and at most the configured one whose pixel count fits, and there is one exactly when the page is accepted |
| `RenderDpi.RefusedExactly` | backend/src/ocr/ocr-extraction.service.ts:310-316 | for a configured resolution of at least 72 a page is refused if and only if 50 dpi would not fit |
| `RenderDpi.FitsExactly` | backend/src/ocr/ocr-extraction.service.ts:306-308 | a resolution fits exactly when it is at most the floor of the square root |
| `RenderDpi.UnsizedIsConfigured` | backend/src/ocr/ocr-extraction.service.ts:300-305 | without a size, or with no area, the configured resolution is used |
| `RenderDpi.AreaInInches` | backend/src/ocr/ocr-extraction.service.ts:303-304 | 72 points are an inch: a page of w by h inches has the area w times h |

## Left out

- HTTP controllers, DTO validation, serializers, guards, throttling, logging and security events: one-branch plumbing with no effect on the tables.
- Object storage, presigned URLs, downloads, temporary files, Poppler and Tesseract: their results are parameters (`Head`, `Source`, `Surroundings`).
- BullMQ locks, backoff and stalled checks: the queue is a map of entry states, and the protocol lets a job be delivered at any moment.
- JWT signing, password and token hashing, random generation: tokens and keys are fresh values.
- `error_message`, `updated_at`, device and address columns: nothing reads them back into a decision.
- The bytes-to-format check, file and page limits of `inspect`, and `isNativeTextUsable`: their outcome is part of `Source` and `Surroundings`.
- `extractImage`: it is the page fold over a file of one page without native text; that no deadline is tested for images is not separate.
- Objects lost other than by the service's own deletions: what the store does with them is a parameter.
- Title, description, file name and folder columns in `Uploads`: `documents.update` cannot touch the columns modelled there; folder placement is in `FolderRuns`.
- The race between `documents.update` reading a folder and that folder's deletion: placing a document is one step in `FolderRuns`; the foreign key of the schema closes the gap.
- Reconcile passes disturbed by other workers: `OcrReconcile` covers undisturbed passes, `OcrProtocol` the interference on a single job.
- Rounding of `Math.sqrt` and of divisions in the render resolution: exact reals are used.
- Unicode NFC itself, health checks, language probing, listings, pagination, TSV confidence parsing.
- The order of active jobs of one document created at the same moment, which `activeForDocument` leaves open: the greater id is taken.
- Liveness under fairness assumptions: bounds on counts are proved instead.
- OcrProcess.Process: states how a delivery ends only for one that no other call disturbs, because its endings depend on what others do; the disturbed one, with its endings, is `OcrConcurrent.ProcessAmongOthers`.
- DocumentFiles.DocumentFilesService.CreateUploadUrl: leaves out the checks on the file name, which touch no column of the model.
- RefreshTokens.ReuseEndsSessions: takes each transaction as one step; what overlapping transactions change is stated in `RotationOverlap`.
