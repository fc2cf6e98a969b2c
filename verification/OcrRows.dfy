/**
 The rows of `ocr_jobs` and `ocr_pages` and the conditional updates that
 `OcrJobService` applies to one row.  Every update is a function of the old
 row; an update whose WHERE clause does not match leaves the row as it was.

 A parameter `at` is the clock reading written into the row, a parameter
 `cutoff` the reading below which a heartbeat counts as stale.
 */
module OcrRows {
  import opened Wrappers

  type JobId = nat

  datatype JobStatus = Queued | Processing | Completed | Partial | Failed | Cancelled

  datatype PageStatus = PageCompleted | PageEmpty | PageFailed

  datatype PageMethod = NativeText | Ocr

  datatype ExtractionMethod = AllNativeText | AllOcr | Mixed

  /** Error codes a job or a page can carry, listed in collation order. */
  datatype ErrorCode =
    | DocumentUnavailable
    | FileTooLarge
    | InvalidFile
    | PageLimitExceeded
    | PageTooLarge
    | ProcessingFailed
    | ProcessingTimeout
    | StorageError
    | TextLimitExceeded
    | UnsupportedFileType
    | UnsupportedLanguage
    | WorkerInterrupted

  /** Position of a code in the order `localeCompare` gives. */
  function Rank(c: ErrorCode): nat {
    match c
    case DocumentUnavailable => 0
    case FileTooLarge => 1
    case InvalidFile => 2
    case PageLimitExceeded => 3
    case PageTooLarge => 4
    case ProcessingFailed => 5
    case ProcessingTimeout => 6
    case StorageError => 7
    case TextLimitExceeded => 8
    case UnsupportedFileType => 9
    case UnsupportedLanguage => 10
    case WorkerInterrupted => 11
  }

  datatype Job = Job(
    documentId: nat,
    userId: nat,
    language: string,
    status: JobStatus,
    extractionMethod: Option<ExtractionMethod>,
    totalPages: Option<nat>,
    processedPages: nat,
    failedPages: nat,
    errorCode: Option<ErrorCode>,
    attemptCount: nat,
    maxAttempts: nat,
    heartbeatAt: Option<int>,
    startedAt: Option<int>,
    completedAt: Option<int>,
    createdAt: int)

  datatype Page = Page(
    status: PageStatus,
    via: Option<PageMethod>,
    text: Option<string>,
    confidence: Option<real>,
    charCount: nat,
    truncated: bool,
    errorCode: Option<ErrorCode>)

  /** The rows of `ocr_pages` that belong to one job, by page number. */
  type Pages = map<nat, Page>

  predicate Active(status: JobStatus) {
    status == Queued || status == Processing
  }

  predicate Terminal(status: JobStatus) {
    !Active(status)
  }

  /** A job is over exactly when it is completed, partial, failed or cancelled. */
  lemma TerminalExactly(status: JobStatus)
    ensures Terminal(status) <==> status == Completed || status == Partial || status == Failed || status == Cancelled
  {
  }

  /** The row `createJob` inserts. */
  function NewJob(documentId: nat, userId: nat, language: string, maxAttempts: nat, createdAt: int): Job {
    Job(documentId, userId, language, Queued, None, None, 0, 0, None, 0, maxAttempts, None, None, None, createdAt)
  }

  // ---------------------------------------------------------------------------
  // Conditional updates
  // ---------------------------------------------------------------------------

  predicate Stale(row: Job, cutoff: int) {
    row.status == Processing && (row.heartbeatAt.None? || row.heartbeatAt.value < cutoff)
  }

  predicate Claimable(row: Job, cutoff: int) {
    row.status == Queued || Stale(row, cutoff)
  }

  function ClaimRow(row: Job, cutoff: int, at: int): Job {
    if Claimable(row, cutoff) then
      row.(status := Processing,
           startedAt := if row.startedAt.None? then Some(at) else row.startedAt,
           heartbeatAt := Some(at),
           attemptCount := row.attemptCount + 1,
           errorCode := None)
    else row
  }

  function HeartbeatRow(row: Job, at: int): Job {
    if row.status == Processing then row.(heartbeatAt := Some(at)) else row
  }

  function SetTotalRow(row: Job, totalPages: nat, at: int): Job {
    if row.status == Processing then row.(totalPages := Some(totalPages), heartbeatAt := Some(at)) else row
  }

  /** `LEAST(COALESCE(total_pages, cnt), cnt)` */
  function CappedCount(totalPages: Option<nat>, count: nat): nat {
    if totalPages.Some? && totalPages.value < count then totalPages.value else count
  }

  /** The counter refresh inside `persistPage`; `pages` already holds the upserted page. */
  function CountersRow(row: Job, pages: Pages, at: int): Job {
    if row.status == Processing then
      row.(processedPages := CappedCount(row.totalPages, |pages|),
           failedPages := |FailedPages(pages)|,
           heartbeatAt := Some(at))
    else row
  }

  function FinalizeRow(row: Job, pages: Pages, at: int): Job {
    if row.status == Processing then
      row.(status := FinalStatus(pages),
           extractionMethod := FinalMethod(pages),
           errorCode := FinalError(pages),
           completedAt := Some(at),
           heartbeatAt := Some(at),
           processedPages := |pages|,
           failedPages := |FailedPages(pages)|)
    else row
  }

  function FailRow(row: Job, code: ErrorCode, at: int): Job {
    if Active(row.status) then
      row.(status := Failed, errorCode := Some(code), completedAt := Some(at), heartbeatAt := Some(at))
    else row
  }

  function RequeueRow(row: Job, code: ErrorCode, at: int): Job {
    if row.status == Processing then
      row.(status := Queued, errorCode := Some(code), heartbeatAt := Some(at))
    else row
  }

  function CancelRow(row: Job, code: ErrorCode, at: int): Job {
    if Active(row.status) then
      row.(status := Cancelled, errorCode := Some(code), completedAt := Some(at), heartbeatAt := Some(at))
    else row
  }

  function RecoverRow(row: Job, cutoff: int, at: int): Job {
    if Stale(row, cutoff) then row.(status := Queued, heartbeatAt := Some(at)) else row
  }

  // ---------------------------------------------------------------------------
  // What finalisation derives from the persisted pages
  // ---------------------------------------------------------------------------

  function FailedPages(pages: Pages): set<nat> {
    set n | n in pages && pages[n].status == PageFailed
  }

  /** The code a failed page counts under. */
  function CodeOf(page: Page): ErrorCode {
    if page.errorCode.None? then ProcessingFailed else page.errorCode.value
  }

  function FailedWith(pages: Pages, code: ErrorCode): set<nat> {
    set n | n in pages && pages[n].status == PageFailed && CodeOf(pages[n]) == code
  }

  function MethodsUsed(pages: Pages): set<PageMethod> {
    set n | n in pages && pages[n].via.Some? :: pages[n].via.value
  }

  function FinalStatus(pages: Pages): JobStatus {
    if |pages| == 0 || |FailedPages(pages)| == |pages| then Failed
    else if |FailedPages(pages)| > 0 then Partial
    else Completed
  }

  function FinalMethod(pages: Pages): Option<ExtractionMethod> {
    var methods := MethodsUsed(pages);
    if methods == {} then None
    else if methods == {NativeText} then Some(AllNativeText)
    else if methods == {Ocr} then Some(AllOcr)
    else Some(Mixed)
  }

  // ---------------------------------------------------------------------------
  // The same, page by page
  // ---------------------------------------------------------------------------

  /** COMPLETED: there are pages and none failed.  FAILED: every page did.  PARTIAL: some did and some did not. */
  ghost predicate StatusSays(status: JobStatus, pages: Pages) {
    && (status == Completed <==> pages != map[] && forall n :: n in pages ==> pages[n].status != PageFailed)
    && (status == Failed <==> forall n :: n in pages ==> pages[n].status == PageFailed)
    && (status == Partial <==>
          (exists n :: n in pages && pages[n].status == PageFailed)
          && (exists n :: n in pages && pages[n].status != PageFailed))
  }

  ghost predicate SomePageVia(pages: Pages, via: PageMethod) {
    exists n :: n in pages && pages[n].via == Some(via)
  }

  /** The method of the job names exactly the methods its pages were made with. */
  ghost predicate MethodSays(extractionMethod: Option<ExtractionMethod>, pages: Pages) {
    && (extractionMethod == None <==> !SomePageVia(pages, NativeText) && !SomePageVia(pages, Ocr))
    && (extractionMethod == Some(AllNativeText) <==> SomePageVia(pages, NativeText) && !SomePageVia(pages, Ocr))
    && (extractionMethod == Some(AllOcr) <==> !SomePageVia(pages, NativeText) && SomePageVia(pages, Ocr))
    && (extractionMethod == Some(Mixed) <==> SomePageVia(pages, NativeText) && SomePageVia(pages, Ocr))
  }

  lemma FailedPagesAll(pages: Pages)
    ensures |FailedPages(pages)| == |pages| <==> forall n :: n in pages ==> pages[n].status == PageFailed
  {
    assert FailedPages(pages) <= pages.Keys;
    if |FailedPages(pages)| == |pages| && FailedPages(pages) != pages.Keys {
      SmallerWhenProper(FailedPages(pages), pages.Keys);
    }
    if forall n :: n in pages ==> pages[n].status == PageFailed {
      assert FailedPages(pages) == pages.Keys;
    }
  }

  lemma SmallerWhenProper(a: set<nat>, b: set<nat>)
    requires a < b
    ensures |a| < |b|
  {
    assert |b - a| + |a| == |b|;
  }

  lemma FinalStatusSays(pages: Pages)
    ensures StatusSays(FinalStatus(pages), pages)
  {
    FailedPagesAll(pages);
    if |FailedPages(pages)| > 0 {
      var n :| n in FailedPages(pages);
      assert pages[n].status == PageFailed;
    } else {
      assert forall n :: n in pages ==> n !in FailedPages(pages);
    }
  }

  lemma FinalMethodSays(pages: Pages)
    ensures MethodSays(FinalMethod(pages), pages)
  {
    var methods := MethodsUsed(pages);
    MethodIsUsed(pages, NativeText);
    MethodIsUsed(pages, Ocr);
    assert forall m :: m in methods ==> m == NativeText || m == Ocr;
  }

  lemma MethodIsUsed(pages: Pages, via: PageMethod)
    ensures via in MethodsUsed(pages) <==> SomePageVia(pages, via)
  {
    if SomePageVia(pages, via) {
      var n :| n in pages && pages[n].via == Some(via);
      assert pages[n].via.value in MethodsUsed(pages);
    }
  }

  // ---------------------------------------------------------------------------
  // The dominant error
  // ---------------------------------------------------------------------------

  /** The names the codes go by. */
  function Name(c: ErrorCode): string {
    match c
    case DocumentUnavailable => "OCR_DOCUMENT_UNAVAILABLE"
    case FileTooLarge => "OCR_FILE_TOO_LARGE"
    case InvalidFile => "OCR_INVALID_FILE"
    case PageLimitExceeded => "OCR_PAGE_LIMIT_EXCEEDED"
    case PageTooLarge => "OCR_PAGE_TOO_LARGE"
    case ProcessingFailed => "OCR_PROCESSING_FAILED"
    case ProcessingTimeout => "OCR_PROCESSING_TIMEOUT"
    case StorageError => "OCR_STORAGE_ERROR"
    case TextLimitExceeded => "OCR_TEXT_LIMIT_EXCEEDED"
    case UnsupportedFileType => "OCR_UNSUPPORTED_FILE_TYPE"
    case UnsupportedLanguage => "OCR_UNSUPPORTED_LANGUAGE"
    case WorkerInterrupted => "OCR_WORKER_INTERRUPTED"
  }

  /** `a` and `b` agree up to position `k`, where `a` has the smaller letter. */
  predicate DiffersAt(a: string, b: string, k: nat) {
    k < |a| && k < |b| && a[k] < b[k] && forall i :: 0 <= i < k ==> a[i] == b[i]
  }

  /** The ranks follow the names: each code's name comes before the next one's. */
  lemma RanksFollowNames(c: ErrorCode, d: ErrorCode)
    requires Rank(d) == Rank(c) + 1
    ensures exists k :: DiffersAt(Name(c), Name(d), k)
  {
    var positions := [4, 4, 4, 9, 5, 15, 4, 4, 4, 16, 4];
    assert DiffersAt(Name(c), Name(d), positions[Rank(c)]);
  }

  /** `code` is carried by most failed pages, and is the first in collation order among those that are. */
  predicate IsDominant(pages: Pages, code: ErrorCode) {
    && FailedWith(pages, code) != {}
    && forall other :: |FailedWith(pages, other)| < |FailedWith(pages, code)|
                       || (|FailedWith(pages, other)| == |FailedWith(pages, code)| && Rank(code) <= Rank(other))
  }

  function FinalError(pages: Pages): (r: Option<ErrorCode>)
    ensures r.Some? <==> FailedPages(pages) != {}
    ensures r.Some? ==> IsDominant(pages, r.value)
  {
    if FailedPages(pages) == {} then None
    else
      DominantExists(pages);
      DominantOnce(pages);
      var code :| IsDominant(pages, code);
      Some(code)
  }

  /** `winner` beats every code whose rank is below `n`. */
  ghost predicate BeatsBelow(pages: Pages, winner: ErrorCode, n: nat) {
    forall other :: Rank(other) < n ==>
      |FailedWith(pages, other)| < |FailedWith(pages, winner)|
      || (|FailedWith(pages, other)| == |FailedWith(pages, winner)| && Rank(winner) <= Rank(other))
  }

  lemma {:induction false} WinnerBelow(pages: Pages, n: nat) returns (winner: ErrorCode)
    requires n <= 12
    ensures BeatsBelow(pages, winner, n)
    ensures 0 < n ==> Rank(winner) < n
  {
    if n == 0 {
      winner := DocumentUnavailable;
    } else {
      winner := WinnerBelow(pages, n - 1);
      var next :| Rank(next) == n - 1 by {
        CodeOfRank(n - 1);
      }
      RankInjective();
      if n == 1 || |FailedWith(pages, winner)| < |FailedWith(pages, next)| {
        winner := next;
      }
    }
  }

  lemma CodeOfRank(n: nat)
    requires n < 12
    ensures exists c :: Rank(c) == n
  {
    var codes := [DocumentUnavailable, FileTooLarge, InvalidFile, PageLimitExceeded, PageTooLarge, ProcessingFailed,
                  ProcessingTimeout, StorageError, TextLimitExceeded, UnsupportedFileType, UnsupportedLanguage,
                  WorkerInterrupted];
    assert Rank(codes[n]) == n;
  }

  lemma RankInjective()
    ensures forall c, d :: Rank(c) == Rank(d) ==> c == d
  {
  }

  lemma DominantExists(pages: Pages)
    requires FailedPages(pages) != {}
    ensures exists code :: IsDominant(pages, code)
  {
    var winner := WinnerBelow(pages, 12);
    var n :| n in FailedPages(pages);
    assert n in FailedWith(pages, CodeOf(pages[n]));
    assert IsDominant(pages, winner);
  }

  lemma DominantOnce(pages: Pages)
    ensures forall c, d :: IsDominant(pages, c) && IsDominant(pages, d) ==> c == d
  {
    RankInjective();
  }

  /** The dominant error is determined by the pages. */
  lemma DominantUnique(pages: Pages, c: ErrorCode, d: ErrorCode)
    requires IsDominant(pages, c) && IsDominant(pages, d)
    ensures c == d
  {
    RankInjective();
  }
}
