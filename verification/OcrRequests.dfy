/**
 Creating OCR jobs: `OcrService.request` and `retry` decide under the
 document's lock, so each is one step, while workers move the rows they hold
 without that lock.
 */
module OcrRequests {
  import opened Wrappers
  import opened OcrRows
  import opened Histories
  import Uploads

  type DocumentId = nat
  type UserId = nat
  type Jobs = map<JobId, Job>

  datatype Limits = Limits(maxActivePerUser: nat, maxPerDocument: nat, maxAttempts: nat)

  /** What a document must be like to be processed. */
  datatype FileLimits = FileLimits(maxFileSize: nat, maxPdfPages: nat)

  const SUPPORTED_MIME_TYPES: set<string> := {"application/pdf", "image/jpeg", "image/png", "image/webp"}

  datatype Outcome =
    | Created
    | ReturnedActive(job: JobId)
    | ReturnedExisting(job: JobId)
    | AlreadyProcessing
    | TooManyJobs
    | NotFound
    | RetryNotAllowed
    | LanguageUnavailable
    | ServiceUnavailable
    | DocumentNotFound
    | DocumentNotReady
    | TypeNotSupported
    | FileOverLimit
    | PagesOverLimit

  function JobsOf(jobs: Jobs, doc: DocumentId): set<JobId> {
    set j | j in jobs && jobs[j].documentId == doc
  }

  function ActiveOf(jobs: Jobs, doc: DocumentId): set<JobId> {
    set j | j in jobs && jobs[j].documentId == doc && Active(jobs[j].status)
  }

  function ActiveOfUser(jobs: Jobs, user: UserId): set<JobId> {
    set j | j in jobs && jobs[j].userId == user && Active(jobs[j].status)
  }

  function InLanguage(jobs: Jobs, doc: DocumentId, language: string): set<JobId> {
    set j | j in jobs && jobs[j].documentId == doc && jobs[j].language == language
  }

  function OwnedJobs(jobs: Jobs, doc: DocumentId, user: UserId): set<JobId> {
    set j | j in jobs && jobs[j].documentId == doc && jobs[j].userId == user
  }

  /** Which jobs the queries count: by document, by user, by language, and those not over yet. */
  lemma QueriesSelect(jobs: Jobs, doc: DocumentId, user: UserId, language: string, j: JobId)
    requires j in jobs
    ensures var row := jobs[j];
            var waiting := row.status == Queued || row.status == Processing;
            && (j in JobsOf(jobs, doc) <==> row.documentId == doc)
            && (j in ActiveOf(jobs, doc) <==> row.documentId == doc && waiting)
            && (j in ActiveOfUser(jobs, user) <==> row.userId == user && waiting)
            && (j in InLanguage(jobs, doc, language) <==> row.documentId == doc && row.language == language)
            && (j in OwnedJobs(jobs, doc, user) <==> row.documentId == doc && row.userId == user)
  {
  }

  /** The order of `created_at DESC, id DESC`, turned around. */
  predicate Before(jobs: Jobs, a: JobId, b: JobId)
    requires a in jobs && b in jobs
  {
    jobs[a].createdAt < jobs[b].createdAt || (jobs[a].createdAt == jobs[b].createdAt && a < b)
  }

  ghost predicate IsLatest(jobs: Jobs, ids: set<JobId>, id: JobId)
    requires ids <= jobs.Keys
  {
    id in ids && forall j :: j in ids && j != id ==> Before(jobs, j, id)
  }

  predicate Retryable(row: Job) {
    (row.status == Failed || row.status == Partial) && (row.errorCode.Some? ==> !PermanentCode(row.errorCode.value))
  }

  predicate PermanentCode(code: ErrorCode) {
    code in {UnsupportedFileType, FileTooLarge, PageLimitExceeded, PageTooLarge, InvalidFile, DocumentUnavailable,
             UnsupportedLanguage}
  }

  predicate QuotaLeft(limits: Limits, jobs: Jobs, user: UserId, doc: DocumentId) {
    |ActiveOfUser(jobs, user)| < limits.maxActivePerUser && |JobsOf(jobs, doc)| < limits.maxPerDocument
  }

  /** `request` creates a job. */
  ghost predicate RequestCreates(limits: Limits, jobs: Jobs, user: UserId, doc: DocumentId, language: string,
                                 force: bool)
  {
    && ActiveOf(jobs, doc) == {}
    && (force
        || !exists j :: IsLatest(jobs, InLanguage(jobs, doc, language), j) && jobs[j].status in {Completed, Partial})
    && QuotaLeft(limits, jobs, user, doc)
  }

  /** `retry` creates a job after `latest`; it looks at no other job of the document. */
  ghost predicate RetryCreates(limits: Limits, jobs: Jobs, user: UserId, doc: DocumentId, latest: JobId) {
    && IsLatest(jobs, OwnedJobs(jobs, doc, user), latest)
    && Retryable(jobs[latest])
    && QuotaLeft(limits, jobs, user, doc)
  }

  /** The user's live document. */
  predicate Owned(documents: map<DocumentId, Uploads.Row>, user: UserId, doc: DocumentId) {
    doc in documents && documents[doc].userId == user && documents[doc].deletedAt.None?
  }

  /** READY with a file of a supported type, within the limits as far as they are known. */
  predicate Processable(files: FileLimits, row: Uploads.Row) {
    && row.status == Uploads.Ready && row.storageKey.Some?
    && row.mimeType.Some? && row.mimeType.value in SUPPORTED_MIME_TYPES
    && (row.fileSize.Some? ==> row.fileSize.value <= files.maxFileSize)
    && (row.pageCount.Some? ==> row.pageCount.value <= files.maxPdfPages)
  }

  predicate HasVerifiedFile(row: Uploads.Row) {
    row.status == Uploads.Ready && row.storageKey.Some? && row.mimeType.Some?
  }

  predicate SupportedType(mime: string) {
    mime == "application/pdf" || mime == "image/jpeg" || mime == "image/png" || mime == "image/webp"
  }

  predicate OverLimit(value: Option<nat>, limit: nat) {
    value.Some? && value.value > limit
  }

  // ---------------------------------------------------------------------------
  // The service
  // ---------------------------------------------------------------------------

  method FindLatest(jobs: Jobs, ids: set<JobId>) returns (latest: JobId)
    requires ids != {} && ids <= jobs.Keys
    ensures IsLatest(jobs, ids, latest)
    ensures forall j :: j in ids ==>
      jobs[j].createdAt < jobs[latest].createdAt || (jobs[j].createdAt == jobs[latest].createdAt && j <= latest)
  {
    latest :| latest in ids;
    var rest := ids - {latest};
    while rest != {}
      invariant latest in ids && rest <= ids && latest !in rest
      invariant forall j :: j in ids && j !in rest && j != latest ==> Before(jobs, j, latest)
      decreases rest
    {
      var j :| j in rest;
      rest := rest - {j};
      if Before(jobs, latest, j) {
        latest := j;
      }
    }
  }

  lemma LatestUnique(jobs: Jobs, ids: set<JobId>, a: JobId, b: JobId)
    requires ids <= jobs.Keys && IsLatest(jobs, ids, a) && IsLatest(jobs, ids, b)
    ensures a == b
  {
  }

  lemma OneLatest(jobs: Jobs, ids: set<JobId>, latest: JobId)
    requires ids <= jobs.Keys && IsLatest(jobs, ids, latest)
    ensures forall j :: IsLatest(jobs, ids, j) <==> j == latest
  {
    forall j | IsLatest(jobs, ids, j)
      ensures j == latest
    {
      LatestUnique(jobs, ids, j, latest);
    }
  }

  /** The document's latest active job is `j`, and in the language that is asked for. */
  ghost predicate AnswersActive(jobs: Jobs, doc: DocumentId, language: string, j: JobId) {
    IsLatest(jobs, ActiveOf(jobs, doc), j) && jobs[j].language == language
  }

  /** The document's latest active job is in another language. */
  ghost predicate OtherLanguageActive(jobs: Jobs, doc: DocumentId, language: string) {
    exists j :: IsLatest(jobs, ActiveOf(jobs, doc), j) && jobs[j].language != language
  }

  /** No job is active, and the latest one in the language, `j`, has results. */
  ghost predicate AnswersExisting(jobs: Jobs, doc: DocumentId, language: string, j: JobId) {
    && ActiveOf(jobs, doc) == {}
    && IsLatest(jobs, InLanguage(jobs, doc, language), j)
    && (jobs[j].status == Completed || jobs[j].status == Partial)
  }

  predicate QuotaFull(limits: Limits, jobs: Jobs, user: UserId, doc: DocumentId) {
    |ActiveOfUser(jobs, user)| >= limits.maxActivePerUser || |JobsOf(jobs, doc)| >= limits.maxPerDocument
  }

  /** The latest job of the user's document is `latest`, and it failed for no reason that would stay. */
  ghost predicate MayRetry(jobs: Jobs, user: UserId, doc: DocumentId, latest: JobId) {
    && IsLatest(jobs, OwnedJobs(jobs, doc, user), latest)
    && (jobs[latest].status == Failed || jobs[latest].status == Partial)
    && (jobs[latest].errorCode.None? || Transient(jobs[latest].errorCode.value))
  }

  /** The errors that say nothing about the file itself. */
  predicate Transient(code: ErrorCode) {
    || code == ProcessingFailed || code == ProcessingTimeout || code == StorageError
    || code == TextLimitExceeded || code == WorkerInterrupted
  }

  /** The codes that forbid a retry are all the others. */
  lemma PermanentOrTransient(code: ErrorCode)
    ensures PermanentCode(code) <==> !Transient(code)
  {
  }

  /** A job that waits to be run for the first time. */
  predicate IsNew(row: Job, doc: DocumentId, user: UserId, language: string, maxAttempts: nat, at: int) {
    && row.documentId == doc && row.userId == user && row.language == language
    && row.status == Queued && row.attemptCount == 0 && row.maxAttempts == maxAttempts
    && row.processedPages == 0 && row.failedPages == 0 && row.totalPages.None? && row.extractionMethod.None?
    && row.errorCode.None? && row.heartbeatAt.None? && row.startedAt.None? && row.completedAt.None?
    && row.createdAt == at
  }

  class OcrService {
    var jobs: Jobs
    var documents: map<DocumentId, Uploads.Row>
    const limits: Limits
    const files: FileLimits
    const enabled: bool

    constructor (limits: Limits, files: FileLimits, enabled: bool)
      ensures jobs == map[] && documents == map[]
      ensures this.limits == limits && this.files == files && this.enabled == enabled
    {
      jobs, documents := map[], map[];
      this.limits, this.files, this.enabled := limits, files, enabled;
    }

    /** The document of the user can be processed. */
    predicate Eligible(user: UserId, doc: DocumentId)
      reads this`documents
    {
      enabled && Owned(documents, user, doc) && Processable(files, documents[doc])
    }

    /** `assertProcessable` */
    method AssertProcessable(row: Uploads.Row) returns (refusal: Option<Outcome>)
      ensures refusal.None? <==> Processable(files, row)
      ensures refusal.Some? ==> refusal.value in {DocumentNotReady, TypeNotSupported, FileOverLimit, PagesOverLimit}
      ensures refusal == Some(DocumentNotReady) <==> !HasVerifiedFile(row)
      ensures refusal == Some(TypeNotSupported) <==> HasVerifiedFile(row) && !SupportedType(row.mimeType.value)
      ensures refusal == Some(FileOverLimit) <==>
        HasVerifiedFile(row) && SupportedType(row.mimeType.value) && OverLimit(row.fileSize, files.maxFileSize)
      ensures refusal == Some(PagesOverLimit) <==>
        && HasVerifiedFile(row) && SupportedType(row.mimeType.value)
        && !OverLimit(row.fileSize, files.maxFileSize) && OverLimit(row.pageCount, files.maxPdfPages)
    {
      if row.status != Uploads.Ready || row.storageKey == None || row.mimeType == None {
        return Some(DocumentNotReady);
      }
      if row.mimeType.value !in SUPPORTED_MIME_TYPES {
        return Some(TypeNotSupported);
      }
      if row.fileSize.Some? && row.fileSize.value > files.maxFileSize {
        return Some(FileOverLimit);
      }
      if row.pageCount.Some? && row.pageCount.value > files.maxPdfPages {
        return Some(PagesOverLimit);
      }
      refusal := None;
    }

    /** `installed` holds the languages the OCR engine offers at the moment. */
    method Request(user: UserId, doc: DocumentId, language: string, installed: set<string>, force: bool, newId: JobId,
                   at: int)
      returns (outcome: Outcome)
      requires newId !in jobs
      modifies this`jobs
      ensures outcome == Created <==>
        && Eligible(user, doc) && language in installed
        && RequestCreates(limits, old(jobs), user, doc, language, force)
      ensures jobs == if outcome == Created then old(jobs)[newId := NewJob(doc, user, language, limits.maxAttempts, at)]
                      else old(jobs)
      ensures forall j :: outcome == ReturnedActive(j) <==>
        Eligible(user, doc) && language in installed && AnswersActive(old(jobs), doc, language, j)
      ensures outcome == AlreadyProcessing <==>
        Eligible(user, doc) && language in installed && OtherLanguageActive(old(jobs), doc, language)
      ensures forall j :: outcome == ReturnedExisting(j) <==>
        Eligible(user, doc) && language in installed && !force && AnswersExisting(old(jobs), doc, language, j)
      ensures outcome == TooManyJobs <==>
        && Eligible(user, doc) && language in installed && ActiveOf(old(jobs), doc) == {}
        && (force || !exists j :: AnswersExisting(old(jobs), doc, language, j))
        && QuotaFull(limits, old(jobs), user, doc)
      ensures outcome == ServiceUnavailable <==> !enabled
      ensures outcome == DocumentNotFound <==> enabled && !Owned(documents, user, doc)
      ensures outcome == LanguageUnavailable <==> enabled && Owned(documents, user, doc) && language !in installed
      ensures outcome == Created ==> IsNew(jobs[newId], doc, user, language, limits.maxAttempts, at)
    {
      if !enabled {
        return ServiceUnavailable;
      }
      if !(doc in documents && documents[doc].userId == user && documents[doc].deletedAt == None) {
        return DocumentNotFound;
      }
      if language !in installed {
        return LanguageUnavailable;
      }
      var refusal := AssertProcessable(documents[doc]);
      if refusal.Some? {
        return refusal.value;
      }
      outcome := RequestLocked(user, doc, language, force, newId, at);
    }

    /** The part of `request` under the document's lock. */
    method RequestLocked(user: UserId, doc: DocumentId, language: string, force: bool, newId: JobId, at: int)
      returns (outcome: Outcome)
      requires newId !in jobs
      modifies this`jobs
      ensures outcome == Created <==> RequestCreates(limits, old(jobs), user, doc, language, force)
      ensures jobs == if outcome == Created then old(jobs)[newId := NewJob(doc, user, language, limits.maxAttempts, at)]
                      else old(jobs)
      ensures forall j :: outcome == ReturnedActive(j) <==> AnswersActive(old(jobs), doc, language, j)
      ensures outcome == AlreadyProcessing <==> OtherLanguageActive(old(jobs), doc, language)
      ensures forall j :: outcome == ReturnedExisting(j) <==> !force && AnswersExisting(old(jobs), doc, language, j)
      ensures outcome == TooManyJobs <==>
        && ActiveOf(old(jobs), doc) == {}
        && (force || !exists j :: AnswersExisting(old(jobs), doc, language, j))
        && QuotaFull(limits, old(jobs), user, doc)
      ensures outcome.Created? || outcome.ReturnedActive? || outcome.ReturnedExisting? || outcome.AlreadyProcessing?
              || outcome.TooManyJobs?
    {
      var active := ActiveOf(jobs, doc);
      if active != {} {
        var job := FindLatest(jobs, active);
        OneLatest(jobs, active, job);
        return if jobs[job].language == language then ReturnedActive(job) else AlreadyProcessing;
      }
      var same := InLanguage(jobs, doc, language);
      if !force && same != {} {
        var latest := FindLatest(jobs, same);
        OneLatest(jobs, same, latest);
        if jobs[latest].status == Completed || jobs[latest].status == Partial {
          return ReturnedExisting(latest);
        }
      }
      if |ActiveOfUser(jobs, user)| >= limits.maxActivePerUser || |JobsOf(jobs, doc)| >= limits.maxPerDocument {
        return TooManyJobs;
      }
      jobs := jobs[newId := NewJob(doc, user, language, limits.maxAttempts, at)];
      outcome := Created;
    }

    method Retry(user: UserId, doc: DocumentId, installed: set<string>, newId: JobId, at: int)
      returns (outcome: Outcome)
      requires newId !in jobs
      modifies this`jobs
      ensures outcome == Created <==>
        && Eligible(user, doc)
        && exists latest ::
             RetryCreates(limits, old(jobs), user, doc, latest) && old(jobs)[latest].language in installed
      ensures outcome == NotFound <==> Eligible(user, doc) && OwnedJobs(old(jobs), doc, user) == {}
      ensures outcome == ServiceUnavailable <==> !enabled
      ensures outcome == DocumentNotFound <==> enabled && !Owned(documents, user, doc)
      ensures outcome == RetryNotAllowed <==>
        && Eligible(user, doc) && OwnedJobs(old(jobs), doc, user) != {}
        && !exists latest :: MayRetry(old(jobs), user, doc, latest)
      ensures outcome == LanguageUnavailable <==>
        && Eligible(user, doc)
        && exists latest :: MayRetry(old(jobs), user, doc, latest) && old(jobs)[latest].language !in installed
      ensures outcome == TooManyJobs <==>
        && Eligible(user, doc) && QuotaFull(limits, old(jobs), user, doc)
        && exists latest :: MayRetry(old(jobs), user, doc, latest) && old(jobs)[latest].language in installed
      ensures outcome != Created ==> jobs == old(jobs)
      ensures forall latest :: RetryCreates(limits, old(jobs), user, doc, latest) && outcome == Created ==>
        && jobs == old(jobs)[newId := NewJob(doc, user, old(jobs)[latest].language, limits.maxAttempts, at)]
        && IsNew(jobs[newId], doc, user, old(jobs)[latest].language, limits.maxAttempts, at)
    {
      if !enabled {
        return ServiceUnavailable;
      }
      if !(doc in documents && documents[doc].userId == user && documents[doc].deletedAt == None) {
        return DocumentNotFound;
      }
      var refusal := AssertProcessable(documents[doc]);
      if refusal.Some? {
        return refusal.value;
      }
      outcome := RetryLocked(user, doc, installed, newId, at);
    }

    /** The part of `retry` under the document's lock. */
    method RetryLocked(user: UserId, doc: DocumentId, installed: set<string>, newId: JobId, at: int)
      returns (outcome: Outcome)
      requires newId !in jobs
      modifies this`jobs
      ensures outcome == Created <==>
        exists latest :: RetryCreates(limits, old(jobs), user, doc, latest) && old(jobs)[latest].language in installed
      ensures outcome == NotFound <==> OwnedJobs(old(jobs), doc, user) == {}
      ensures outcome == RetryNotAllowed <==>
        OwnedJobs(old(jobs), doc, user) != {} && !exists latest :: MayRetry(old(jobs), user, doc, latest)
      ensures outcome == LanguageUnavailable <==>
        exists latest :: MayRetry(old(jobs), user, doc, latest) && old(jobs)[latest].language !in installed
      ensures outcome == TooManyJobs <==>
        && QuotaFull(limits, old(jobs), user, doc)
        && exists latest :: MayRetry(old(jobs), user, doc, latest) && old(jobs)[latest].language in installed
      ensures outcome != Created ==> jobs == old(jobs)
      ensures forall latest :: RetryCreates(limits, old(jobs), user, doc, latest) && outcome == Created ==>
        jobs == old(jobs)[newId := NewJob(doc, user, old(jobs)[latest].language, limits.maxAttempts, at)]
      ensures outcome.Created? || outcome.NotFound? || outcome.RetryNotAllowed? || outcome.LanguageUnavailable?
              || outcome.TooManyJobs?
    {
      var owned := OwnedJobs(jobs, doc, user);
      if owned == {} {
        return NotFound;
      }
      var latest := FindLatest(jobs, owned);
      OneLatest(jobs, owned, latest);
      if jobs[latest].errorCode.Some? {
        PermanentOrTransient(jobs[latest].errorCode.value);
      }
      if jobs[latest].status != Failed && jobs[latest].status != Partial {
        return RetryNotAllowed;
      }
      if jobs[latest].errorCode.Some? && PermanentCode(jobs[latest].errorCode.value) {
        return RetryNotAllowed;
      }
      assert MayRetry(jobs, user, doc, latest);
      if jobs[latest].language !in installed {
        return LanguageUnavailable;
      }
      if |ActiveOfUser(jobs, user)| >= limits.maxActivePerUser || |JobsOf(jobs, doc)| >= limits.maxPerDocument {
        return TooManyJobs;
      }
      assert RetryCreates(limits, jobs, user, doc, latest);
      jobs := jobs[newId := NewJob(doc, user, jobs[latest].language, limits.maxAttempts, at)];
      outcome := Created;
    }
  }

  // ---------------------------------------------------------------------------
  // Runs
  // ---------------------------------------------------------------------------

  /** What workers and the reconciler may do to a row: anything to an active one, nothing to a terminal one. */
  predicate Worked(row: Job, next: Job) {
    && next.documentId == row.documentId && next.userId == row.userId
    && next.language == row.language && next.createdAt == row.createdAt
    && (Terminal(row.status) ==> next == row)
  }

  /** Every call of `OcrJobService` moves a row that way. */
  lemma ServiceCallsWork(row: Job, pages: Pages, cutoff: int, at: int, total: nat, code: ErrorCode)
    ensures Worked(row, ClaimRow(row, cutoff, at)) && Worked(row, HeartbeatRow(row, at))
    ensures Worked(row, SetTotalRow(row, total, at)) && Worked(row, CountersRow(row, pages, at))
    ensures Worked(row, FinalizeRow(row, pages, at)) && Worked(row, FailRow(row, code, at))
    ensures Worked(row, RequeueRow(row, code, at)) && Worked(row, CancelRow(row, code, at))
    ensures Worked(row, RecoverRow(row, cutoff, at))
  {
  }

  /** The new job sorts after every job the document already has. */
  predicate FollowsOrder(jobs: Jobs, doc: DocumentId, newId: JobId, at: int) {
    forall j :: j in jobs && jobs[j].documentId == doc ==>
      jobs[j].createdAt < at || (jobs[j].createdAt == at && j < newId)
  }

  datatype Move =
    | Requested(user: UserId, document: DocumentId, language: string, force: bool, newId: JobId, at: int)
    | Retried(user: UserId, document: DocumentId, latest: JobId, newId: JobId, at: int)
    | Work(job: JobId, next: Job)

  /** `owner` is the owner of each document; requests for another user's document end before the lock. */
  ghost predicate CanMove(limits: Limits, owner: map<DocumentId, UserId>, jobs: Jobs, m: Move) {
    match m
    case Requested(user, doc, language, force, newId, at) =>
      doc in owner && owner[doc] == user && newId !in jobs && RequestCreates(limits, jobs, user, doc, language, force)
    case Retried(user, doc, latest, newId, at) =>
      doc in owner && owner[doc] == user && newId !in jobs && RetryCreates(limits, jobs, user, doc, latest)
    case Work(j, next) => j in jobs && Worked(jobs[j], next)
  }

  /** Creation times follow the order in which transactions hold the document's lock. */
  predicate InOrder(jobs: Jobs, m: Move) {
    m.Work? || FollowsOrder(jobs, m.document, m.newId, m.at)
  }

  function Moved(limits: Limits, jobs: Jobs, m: Move): Jobs
    requires m.Retried? ==> m.latest in jobs
  {
    match m
    case Requested(user, doc, language, force, newId, at) =>
      jobs[newId := NewJob(doc, user, language, limits.maxAttempts, at)]
    case Retried(user, doc, latest, newId, at) =>
      jobs[newId := NewJob(doc, user, jobs[latest].language, limits.maxAttempts, at)]
    case Work(j, next) => jobs[j := next]
  }

  ghost predicate OneActive(jobs: Jobs, doc: DocumentId) {
    forall a, b :: a in ActiveOf(jobs, doc) && b in ActiveOf(jobs, doc) ==> a == b
  }

  ghost predicate Inv(limits: Limits, owner: map<DocumentId, UserId>, jobs: Jobs) {
    && (forall j :: j in jobs ==> jobs[j].documentId in owner && jobs[j].userId == owner[jobs[j].documentId])
    && (forall a, b | a in jobs && b in jobs && jobs[a].documentId == jobs[b].documentId ::
          Active(jobs[a].status) && b != a ==> Before(jobs, b, a))
    && (forall doc :: |JobsOf(jobs, doc)| <= limits.maxPerDocument)
  }

  lemma NoActiveBeforeCreation(limits: Limits, owner: map<DocumentId, UserId>, jobs: Jobs, m: Move)
    requires Inv(limits, owner, jobs) && CanMove(limits, owner, jobs, m) && !m.Work?
    ensures ActiveOf(jobs, m.document) == {}
  {
    if m.Retried? {
      forall a | a in JobsOf(jobs, m.document)
        ensures !Active(jobs[a].status)
      {
        assert a in OwnedJobs(jobs, m.document, m.user);
      }
    }
  }

  lemma CreationKeepsOrder(jobs: Jobs, newId: JobId, row: Job, a: JobId, b: JobId)
    requires newId !in jobs && ActiveOf(jobs, row.documentId) == {}
    requires FollowsOrder(jobs, row.documentId, newId, row.createdAt)
    requires forall x, y | x in jobs && y in jobs && jobs[x].documentId == jobs[y].documentId ::
      Active(jobs[x].status) && y != x ==> Before(jobs, y, x)
    requires var next := jobs[newId := row];
             a in next && b in next && next[a].documentId == next[b].documentId && Active(next[a].status) && b != a
    ensures Before(jobs[newId := row], b, a)
  {
    if a != newId {
      assert a in ActiveOf(jobs, jobs[a].documentId);
    }
  }

  lemma CreationKeepsCount(jobs: Jobs, newId: JobId, row: Job, doc: DocumentId)
    requires newId !in jobs
    ensures |JobsOf(jobs[newId := row], doc)| == |JobsOf(jobs, doc)| + if doc == row.documentId then 1 else 0
  {
    if doc == row.documentId {
      assert JobsOf(jobs[newId := row], doc) == JobsOf(jobs, doc) + {newId};
    } else {
      assert JobsOf(jobs[newId := row], doc) == JobsOf(jobs, doc);
    }
  }

  lemma CreationKeepsInv(limits: Limits, owner: map<DocumentId, UserId>, jobs: Jobs, m: Move)
    requires Inv(limits, owner, jobs) && CanMove(limits, owner, jobs, m) && InOrder(jobs, m) && !m.Work?
    ensures Inv(limits, owner, Moved(limits, jobs, m))
  {
    NoActiveBeforeCreation(limits, owner, jobs, m);
    var next := Moved(limits, jobs, m);
    var row := next[m.newId];
    assert next == jobs[m.newId := row];
    forall a, b | a in next && b in next && next[a].documentId == next[b].documentId && Active(next[a].status) && b != a
      ensures Before(next, b, a)
    {
      CreationKeepsOrder(jobs, m.newId, row, a, b);
    }
    forall doc
      ensures |JobsOf(next, doc)| <= limits.maxPerDocument
    {
      CreationKeepsCount(jobs, m.newId, row, doc);
    }
  }

  lemma WorkKeepsInv(limits: Limits, owner: map<DocumentId, UserId>, jobs: Jobs, j: JobId, row: Job)
    requires Inv(limits, owner, jobs) && j in jobs && Worked(jobs[j], row)
    ensures Inv(limits, owner, jobs[j := row])
  {
    var next := jobs[j := row];
    forall doc
      ensures |JobsOf(next, doc)| <= limits.maxPerDocument
    {
      assert JobsOf(next, doc) == JobsOf(jobs, doc);
    }
  }

  ghost predicate IsRun(limits: Limits, owner: map<DocumentId, UserId>, states: seq<Jobs>) {
    states != [] && states[0] == map[] && History(states, Next(limits, owner))
  }

  ghost function Next(limits: Limits, owner: map<DocumentId, UserId>): (Jobs, Jobs) -> bool {
    (jobs, next) => Follows(limits, owner, jobs, next)
  }

  ghost predicate Follows(limits: Limits, owner: map<DocumentId, UserId>, jobs: Jobs, next: Jobs) {
    exists m :: CanMove(limits, owner, jobs, m) && InOrder(jobs, m) && next == Moved(limits, jobs, m)
  }

  lemma EveryStateInv(limits: Limits, owner: map<DocumentId, UserId>, states: seq<Jobs>, i: nat)
    requires IsRun(limits, owner, states) && i < |states|
    ensures Inv(limits, owner, states[i])
  {
    assert forall doc :: JobsOf(states[0], doc) == {};
    var inv := (jobs: Jobs) => Inv(limits, owner, jobs);
    forall jobs, next | inv(jobs) && Next(limits, owner)(jobs, next)
      ensures inv(next)
    {
      var m :| CanMove(limits, owner, jobs, m) && InOrder(jobs, m) && next == Moved(limits, jobs, m);
      if m.Work? {
        WorkKeepsInv(limits, owner, jobs, m.job, m.next);
      } else {
        CreationKeepsInv(limits, owner, jobs, m);
      }
    }
    HistoryKeeps(states, Next(limits, owner), jobs => true, inv, 0, i);
  }

  /**
   When creation times follow lock order, every document always has at most
   one active job, that job is its latest, and it never has more jobs than the
   limit.
   */
  lemma OneActiveJob(limits: Limits, owner: map<DocumentId, UserId>, states: seq<Jobs>, i: nat, doc: DocumentId)
    requires IsRun(limits, owner, states) && i < |states|
    ensures OneActive(states[i], doc)
    ensures forall a :: a in ActiveOf(states[i], doc) ==> IsLatest(states[i], JobsOf(states[i], doc), a)
    ensures |JobsOf(states[i], doc)| <= limits.maxPerDocument
  {
    EveryStateInv(limits, owner, states, i);
  }

  /**
   Exactly when a retry is safe: it leaves one active job if and only if the
   document had none, which `retry` does not check.
   */
  lemma RetrySafeExactly(limits: Limits, owner: map<DocumentId, UserId>, jobs: Jobs, m: Move)
    requires m.Retried? && CanMove(limits, owner, jobs, m)
    ensures OneActive(Moved(limits, jobs, m), m.document) <==> ActiveOf(jobs, m.document) == {}
  {
    var next := Moved(limits, jobs, m);
    assert ActiveOf(next, m.document) == ActiveOf(jobs, m.document) + {m.newId};
    if a :| a in ActiveOf(jobs, m.document) {
      assert a in ActiveOf(next, m.document) && m.newId in ActiveOf(next, m.document) && a != m.newId;
    }
  }

  /** Job 1 is requested and fails; job 2 is requested under an earlier creation time. */
  lemma OutOfOrderReached(limits: Limits, first: Job, failed: Job, second: Job)
    requires limits == Limits(5, 20, 3)
    requires first == NewJob(7, 9, "eng", 3, 10) && second == NewJob(7, 9, "eng", 3, 5)
    requires failed == FailRow(first, StorageError, 11)
    ensures CanMove(limits, map[7 := 9], map[], Requested(9, 7, "eng", false, 1, 10))
    ensures CanMove(limits, map[7 := 9], map[1 := first], Work(1, failed))
    ensures CanMove(limits, map[7 := 9], map[1 := failed], Requested(9, 7, "eng", false, 2, 5))
    ensures map[1 := failed][2 := second] == Moved(limits, map[1 := failed], Requested(9, 7, "eng", false, 2, 5))
    ensures !InOrder(map[1 := failed], Requested(9, 7, "eng", false, 2, 5))
  {
    var none: Jobs := map[];
    assert ActiveOf(none, 7) == {} && ActiveOfUser(none, 9) == {} && JobsOf(none, 7) == {};
    var one: Jobs := map[1 := failed];
    assert ActiveOf(one, 7) == {} && ActiveOfUser(one, 9) == {} && JobsOf(one, 7) == {1};
    assert 1 in one && one[1].documentId == 7;
  }

  /**
   A creation time that does not follow lock order breaks it: with job 1
   failed and job 2 active but dated earlier, `retry` takes job 1 for the
   latest and creates a second active job.
   */
  lemma OutOfOrderTwoActive(limits: Limits, jobs: Jobs)
    requires limits == Limits(5, 20, 3)
    requires jobs == map[1 := FailRow(NewJob(7, 9, "eng", 3, 10), StorageError, 11)][2 := NewJob(7, 9, "eng", 3, 5)]
    ensures CanMove(limits, map[7 := 9], jobs, Retried(9, 7, 1, 3, 20))
    ensures OneActive(jobs, 7) && !OneActive(Moved(limits, jobs, Retried(9, 7, 1, 3, 20)), 7)
  {
    var m := Retried(9, 7, 1, 3, 20);
    assert OwnedJobs(jobs, 7, 9) == {1, 2} == JobsOf(jobs, 7);
    assert IsLatest(jobs, OwnedJobs(jobs, 7, 9), 1) && Retryable(jobs[1]);
    assert ActiveOfUser(jobs, 9) == {2} == ActiveOf(jobs, 7);
    assert 2 in ActiveOf(Moved(limits, jobs, m), 7) && 3 in ActiveOf(Moved(limits, jobs, m), 7);
  }
}
