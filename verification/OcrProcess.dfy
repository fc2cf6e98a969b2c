/**
 `OcrWorkerService.process`, undisturbed: one delivery of a job worked through
 from the first read to the final row.  The database calls it makes, in their
 order, are a path of the job protocol.

 Each part of it is stated for whatever row it finds, so also for a row that
 another call has taken away; only `Process` itself, which claims the row, knows
 that it is PROCESSING.
 */
module OcrProcess {
  import opened Wrappers
  import opened Histories
  import opened OcrRows
  import opened OcrExtraction
  import opened OcrProtocol
  import opened OcrPageOrder
  import opened OcrLease
  import opened OcrLedger
  import opened OcrRuns
  import Service = OcrJobService
  import Uploads
  import Files = DocumentFiles

  datatype Failure = Failure(permanent: bool, code: ErrorCode)

  /**
   What the call meets outside the tables: an error of downloading or inspecting
   the file, an error of reading its text layer that is more than an unreadable
   one, the pages at which the tools turn out to be unavailable, and the pages
   reached too late.
   */
  datatype Surroundings = Surroundings(
    opening: Option<Failure>,
    textLayer: Option<Failure>,
    breaks: map<nat, Failure>,
    late: set<nat>)

  /** When the call reads the clock. */
  datatype Moment = BeforeClaim | AtClaim | AtTotal | AtPage(pageNumber: nat) | AtEnd

  type Clock = Moment -> int

  datatype Ending =
    | NotFound
    | Duplicate
    | Elsewhere
    | OutOfBudget
    | Withdrawn
    | Finished(row: Job)
    | Skipped
    | Broken(failure: Failure)

  /** The tables show job `id` as the world does. */
  predicate Shows(jobs: map<JobId, Job>, pages: map<JobId, Pages>, id: JobId, w: World) {
    id in jobs && jobs[id] == w.row && w.pages == if id in pages then pages[id] else map[]
  }

  /** Nothing but `id` changed. */
  ghost predicate OthersKept<T>(before: map<nat, T>, after: map<nat, T>, id: nat) {
    forall j :: j != id ==> (j in before <==> j in after) && (j in before && j in after ==> before[j] == after[j])
  }

  // ---------------------------------------------------------------------------
  // The steps of one call
  // ---------------------------------------------------------------------------

  ghost function Own(cfg: Config, r: RunId): (World, World) -> bool {
    (w, t) => exists now, a :: OwnStep(a, r) && Enabled(cfg, now, w, a) && t == Step(cfg, now, w, a)
  }

  /** Call `r` takes the job from `w` to `t` by the step `a` at time `now`. */
  predicate Does(cfg: Config, r: RunId, now: int, w: World, a: Action, t: World) {
    OwnStep(a, r) && Enabled(cfg, now, w, a) && t == Step(cfg, now, w, a)
  }

  /** Call `r` takes the job from `w` to `t` by its own steps alone. */
  ghost predicate Takes(cfg: Config, r: RunId, w: World, t: World) {
    Reaches(Own(cfg, r), w, t)
  }

  lemma TakesNothing(cfg: Config, r: RunId, w: World)
    ensures Takes(cfg, r, w, w)
  {
    ReachesSelf(Own(cfg, r), w);
  }

  lemma TakesBoth(cfg: Config, r: RunId, w: World, v: World, t: World)
    requires Takes(cfg, r, w, v) && Takes(cfg, r, v, t)
    ensures Takes(cfg, r, w, t)
  {
    ReachesBoth(Own(cfg, r), w, v, t);
  }

  lemma TakesStep(cfg: Config, r: RunId, w: World, v: World, now: int, a: Action, t: World)
    requires Takes(cfg, r, w, v) && Enabled(cfg, now, v, a) && OwnStep(a, r) && t == Step(cfg, now, v, a)
    ensures Takes(cfg, r, w, t)
  {
    ReachesStep(Own(cfg, r), w, v, t);
  }

  lemma TakesOne(cfg: Config, r: RunId, w: World, now: int, a: Action, t: World)
    requires Enabled(cfg, now, w, a) && OwnStep(a, r) && t == Step(cfg, now, w, a)
    ensures Takes(cfg, r, w, t)
  {
    TakesNothing(cfg, r, w);
    TakesStep(cfg, r, w, w, now, a, t);
  }

  // ---------------------------------------------------------------------------
  // What the call meets
  // ---------------------------------------------------------------------------

  /** The document the job is for is there, READY, of the job's user, and has a file. */
  predicate Available(documents: map<nat, Uploads.Row>, job: Job) {
    && job.documentId in documents
    && var row := documents[job.documentId];
       row.userId == job.userId && row.deletedAt.None? && row.status == Uploads.Ready && row.storageKey.Some?
  }

  /** The file opens and has pages. */
  predicate Opens(env: Surroundings, sources: seq<Source>) {
    env.opening.None? && 1 <= |sources|
  }

  /** The tools hold out from page `first` to the last. */
  predicate NoBreak(env: Surroundings, first: nat, total: int) {
    forall n :: n in env.breaks ==> n < first || total < n
  }

  /** The pages that are missing can all be made. */
  ghost predicate Extracts(env: Surroundings, pages: Pages, sources: seq<Source>) {
    env.textLayer.None? && NoBreak(env, LastPage(pages) + 1, |sources|)
  }

  /** The first page from `first` on at which the tools are unavailable reports `failure`. */
  ghost predicate StopsWith(env: Surroundings, first: nat, total: nat, failure: Failure) {
    exists n :: n in env.breaks && first <= n <= total && env.breaks[n] == failure && NoBreak(env, first, n - 1)
  }

  /** The first error while making the pages. */
  ghost predicate Aborts(env: Surroundings, pages: Pages, total: nat, failure: Failure) {
    if env.textLayer.Some? then failure == env.textLayer.value else StopsWith(env, LastPage(pages) + 1, total, failure)
  }

  /** The first error the running call meets. */
  ghost predicate Meets(env: Surroundings, pages: Pages, sources: seq<Source>, failure: Failure) {
    if env.opening.Some? then failure == env.opening.value
    else if sources == [] then failure == Failure(true, InvalidFile)
    else Aborts(env, pages, |sources|, failure)
  }

  /** `w` with another row, other pages and call `r` in `phase`. */
  function Now(w: World, r: RunId, row: Job, pages: Pages, phase: Phase): World {
    w.(row := row, pages := pages, runs := w.runs[r := phase])
  }

  /** A row another call has taken out of PROCESSING keeps all its columns, any other row its status and budget. */
  predicate RowHeld(row: Job, next: Job) {
    && next.status == row.status && next.maxAttempts == row.maxAttempts
    && (row.status != Processing ==> next == row)
  }

  // ---------------------------------------------------------------------------
  // `run`
  // ---------------------------------------------------------------------------

  /** The page is made and persisted: the persist step of the protocol. */
  method PersistStep(jobs: Service.OcrJobService, id: JobId, cfg: Config, source: Source, late: bool, at: int,
                     pageNumber: nat, budget: int, ghost r: RunId, ghost w: World)
    returns (left: int, ghost t: World)
    requires Shows(jobs.jobs, jobs.pages, id, w)
    requires r in w.runs && w.runs[r].Paging? && w.runs[r].next == pageNumber && w.runs[r].budget == budget
    requires 1 <= pageNumber <= |w.sources| && w.sources[pageNumber - 1] == source && (late ==> cfg.deadlines)
    modifies jobs`jobs, jobs`pages
    ensures Takes(cfg, r, w, t) && Shows(jobs.jobs, jobs.pages, id, t)
    ensures OthersKept(old(jobs.jobs), jobs.jobs, id) && OthersKept(old(jobs.pages), jobs.pages, id)
    ensures t == Now(w, r, t.row, t.pages, Paging(w.runs[r].attempt, pageNumber + 1, left))
    ensures RowHeld(w.row, t.row) && Does(cfg, r, at, w, Persist(r, late, at), t)
  {
    var page := ProcessPage(source, budget, cfg.limits.perPage, late);
    var stored := jobs.PersistPage(id, pageNumber, page, at);
    left := budget - page.charCount;
    var a := Persist(r, late, at);
    t := Step(cfg, at, w, a);
    TakesOne(cfg, r, w, at, a, t);
  }

  /** One turn of the page loop. */
  method PersistOne(jobs: Service.OcrJobService, id: JobId, cfg: Config, source: Source, late: bool, at: int,
                    pageNumber: nat, budget: int, ghost r: RunId, ghost w: World)
    returns (left: int, ghost t: World)
    requires Shows(jobs.jobs, jobs.pages, id, w)
    requires r in w.runs && w.runs[r].Paging? && w.runs[r].next == pageNumber && w.runs[r].budget == budget
    requires 1 <= pageNumber <= |w.sources| && w.sources[pageNumber - 1] == source && (late ==> cfg.deadlines)
    modifies jobs`jobs, jobs`pages
    ensures Takes(cfg, r, w, t) && Shows(jobs.jobs, jobs.pages, id, t)
    ensures OthersKept(old(jobs.jobs), jobs.jobs, id) && OthersKept(old(jobs.pages), jobs.pages, id)
    ensures t == Now(w, r, t.row, t.pages, Paging(w.runs[r].attempt, pageNumber + 1, left))
    ensures RowHeld(w.row, t.row)
  {
    left, t := PersistStep(jobs, id, cfg, source, late, at, pageNumber, budget, r, w);
  }

  /**
   The page loop: every page the extraction yields is persisted before the next
   one is made.
   */
  method PersistAll(jobs: Service.OcrJobService, id: JobId, cfg: Config, sources: seq<Source>, env: Surroundings,
                    clock: Clock, startPage: nat, charBudget: int, ghost r: RunId, ghost w: World)
    returns (failure: Option<Failure>, ghost t: World)
    requires Shows(jobs.jobs, jobs.pages, id, w) && w.sources == sources
    requires r in w.runs && w.runs[r].Paging? && w.runs[r].next == startPage && w.runs[r].budget == charBudget
    requires 1 <= startPage && (env.late != {} ==> cfg.deadlines)
    modifies jobs`jobs, jobs`pages
    ensures Takes(cfg, r, w, t) && Shows(jobs.jobs, jobs.pages, id, t)
    ensures OthersKept(old(jobs.jobs), jobs.jobs, id) && OthersKept(old(jobs.pages), jobs.pages, id)
    ensures r in t.runs && t == Now(w, r, t.row, t.pages, t.runs[r])
    ensures t.runs[r].Paging? && t.runs[r].attempt == w.runs[r].attempt
    ensures RowHeld(w.row, t.row)
    ensures failure.None? <==> NoBreak(env, startPage, |sources|)
    ensures failure.Some? ==> StopsWith(env, startPage, |sources|, failure.value)
    ensures failure.None? ==> |sources| < t.runs[r].next
  {
    TakesNothing(cfg, r, w);
    t, failure := w, None;
    var budget := charBudget;
    var pageNumber := startPage;
    while pageNumber <= |sources|
      invariant startPage <= pageNumber
      invariant Takes(cfg, r, w, t) && Shows(jobs.jobs, jobs.pages, id, t)
      invariant OthersKept(old(jobs.jobs), jobs.jobs, id) && OthersKept(old(jobs.pages), jobs.pages, id)
      invariant t == Now(w, r, t.row, t.pages, Paging(w.runs[r].attempt, pageNumber, budget))
      invariant RowHeld(w.row, t.row)
      invariant forall n :: startPage <= n < pageNumber && n <= |sources| ==> n !in env.breaks
    {
      if pageNumber in env.breaks {
        failure := Some(env.breaks[pageNumber]);
        assert NoBreak(env, startPage, pageNumber - 1);
        return;
      }
      ghost var u := t;
      budget, t := PersistOne(jobs, id, cfg, sources[pageNumber - 1], pageNumber in env.late, clock(AtPage(pageNumber)),
                              pageNumber, budget, r, u);
      TakesBoth(cfg, r, w, u, t);
      pageNumber := pageNumber + 1;
    }
  }

  /** The document is gone: the job is cancelled, unless it is over already. */
  method Withdraw(jobs: Service.OcrJobService, id: JobId, cfg: Config, at: int, ghost r: RunId, ghost w: World)
    returns (ghost t: World)
    requires Shows(jobs.jobs, jobs.pages, id, w) && r in w.runs && w.runs[r].Opening?
    modifies jobs`jobs
    ensures Takes(cfg, r, w, t) && Shows(jobs.jobs, jobs.pages, id, t) && OthersKept(old(jobs.jobs), jobs.jobs, id)
    ensures t == w.(row := t.row, runs := w.runs - {r}) && t.row.maxAttempts == w.row.maxAttempts
    ensures if Active(w.row.status) then t.row.status == Cancelled && t.row.errorCode == Some(DocumentUnavailable)
            else t.row == w.row
    ensures Does(cfg, r, at, w, Cancel(r, at), t)
  {
    var ok := jobs.Cancel(id, DocumentUnavailable, at);
    t := Step(cfg, at, w, Cancel(r, at));
    TakesOne(cfg, r, w, at, Cancel(r, at), t);
  }

  /** Stores the page count, in the job if it is PROCESSING and in the document. */
  method StoreTotal(jobs: Service.OcrJobService, id: JobId, cfg: Config, documentId: nat, total: nat, at: int,
                    ghost r: RunId, ghost w: World)
    returns (ghost t: World)
    requires Shows(jobs.jobs, jobs.pages, id, w) && |w.sources| == total >= 1
    requires r in w.runs && w.runs[r].Opening?
    modifies jobs`jobs, jobs`documents
    ensures Takes(cfg, r, w, t) && Shows(jobs.jobs, jobs.pages, id, t) && OthersKept(old(jobs.jobs), jobs.jobs, id)
    ensures jobs.documents == Service.Counted(old(jobs.documents), documentId, total)
    ensures t == Now(w, r, t.row, w.pages, Sized(w.runs[r].attempt)) && RowHeld(w.row, t.row)
    ensures Does(cfg, r, at, w, SetTotal(r, at), t)
  {
    jobs.SetTotalPages(id, documentId, total, at);
    t := Step(cfg, at, w, SetTotal(r, at));
    TakesOne(cfg, r, w, at, SetTotal(r, at), t);
  }

  /** Reads where to continue. */
  method ReadProgress(jobs: Service.OcrJobService, id: JobId, cfg: Config, ghost r: RunId, ghost w: World)
    returns (startPage: nat, charBudget: int, ghost t: World)
    requires Shows(jobs.jobs, jobs.pages, id, w) && r in w.runs && w.runs[r].Sized?
    ensures Takes(cfg, r, w, t)
    ensures t == Now(w, r, w.row, w.pages, Paging(w.runs[r].attempt, startPage, charBudget))
    ensures startPage == LastPage(w.pages) + 1 && charBudget == cfg.limits.perDocument - StoredChars(w.pages)
    ensures Does(cfg, r, 0, w, Resume(r), t)
  {
    var lastPage, chars := jobs.PersistedProgress(id);
    startPage, charBudget := lastPage + 1, cfg.limits.perDocument - chars;
    t := Step(cfg, 0, w, Resume(r));
    TakesOne(cfg, r, w, 0, Resume(r), t);
  }

  /** Makes and persists the pages that are missing. */
  method ExtractAll(jobs: Service.OcrJobService, id: JobId, cfg: Config, documentId: nat, sources: seq<Source>,
                    env: Surroundings, clock: Clock, ghost r: RunId, ghost w: World)
    returns (failure: Option<Failure>, ghost t: World)
    requires Shows(jobs.jobs, jobs.pages, id, w) && w.sources == sources != []
    requires r in w.runs && w.runs[r].Opening? && (env.late != {} ==> cfg.deadlines)
    modifies jobs
    ensures Takes(cfg, r, w, t) && Shows(jobs.jobs, jobs.pages, id, t)
    ensures OthersKept(old(jobs.jobs), jobs.jobs, id) && OthersKept(old(jobs.pages), jobs.pages, id)
    ensures jobs.documents == Service.Counted(old(jobs.documents), documentId, |sources|)
    ensures r in t.runs && t == Now(w, r, t.row, t.pages, t.runs[r])
    ensures t.runs[r].Paging? && t.runs[r].attempt == w.runs[r].attempt
    ensures RowHeld(w.row, t.row)
    ensures failure.None? <==> Extracts(env, w.pages, sources)
    ensures failure.Some? ==> Aborts(env, w.pages, |sources|, failure.value)
    ensures failure.None? ==> |sources| < t.runs[r].next
  {
    ghost var sized := StoreTotal(jobs, id, cfg, documentId, |sources|, clock(AtTotal), r, w);
    var startPage, charBudget;
    ghost var v;
    startPage, charBudget, v := ReadProgress(jobs, id, cfg, r, sized);
    TakesBoth(cfg, r, w, sized, v);
    assert v.runs == w.runs[r := v.runs[r]];
    if env.textLayer.Some? {
      return env.textLayer, v;
    }
    failure, t := PersistAll(jobs, id, cfg, sources, env, clock, startPage, charBudget, r, v);
    TakesBoth(cfg, r, w, v, t);
    assert t.runs == w.runs[r := t.runs[r]];
  }

  /** Finalises the job if it is still PROCESSING. */
  method Close(jobs: Service.OcrJobService, id: JobId, cfg: Config, at: int, ghost r: RunId, ghost w: World)
    returns (result: Option<Job>, ghost t: World)
    requires Shows(jobs.jobs, jobs.pages, id, w)
    requires r in w.runs && w.runs[r].Paging? && |w.sources| < w.runs[r].next
    modifies jobs`jobs
    ensures Takes(cfg, r, w, t) && Shows(jobs.jobs, jobs.pages, id, t) && OthersKept(old(jobs.jobs), jobs.jobs, id)
    ensures t == w.(row := t.row, finalized := t.finalized, runs := w.runs - {r})
    ensures t.row.maxAttempts == w.row.maxAttempts && Does(cfg, r, at, w, Finalize(r, at), t)
    ensures if w.row.status == Processing then t.finalized && result == Some(t.row)
            else t.row == w.row && result == None
  {
    result := jobs.Finalize(id, at);
    t := Step(cfg, at, w, Finalize(r, at));
    TakesOne(cfg, r, w, at, Finalize(r, at), t);
  }

  lemma AbortTakes(cfg: Config, r: RunId, w: World, v: World, failure: Failure) returns (t: World)
    requires Takes(cfg, r, w, v)
    requires r in v.runs && (v.runs[r].Opening? || v.runs[r].Sized? || v.runs[r].Paging?)
    ensures t == Now(v, r, v.row, v.pages, Failing(v.runs[r].attempt, failure.permanent, failure.code))
    ensures Takes(cfg, r, w, t)
  {
    var a := Abort(r, failure.permanent, failure.code);
    t := Step(cfg, 0, v, a);
    TakesStep(cfg, r, w, v, 0, a, t);
  }

  method ExtractAndClose(jobs: Service.OcrJobService, id: JobId, cfg: Config, documentId: nat, sources: seq<Source>,
                         env: Surroundings, clock: Clock, ghost r: RunId, ghost w: World)
    returns (ending: Ending, ghost t: World)
    requires Shows(jobs.jobs, jobs.pages, id, w) && w.sources == sources != []
    requires r in w.runs && w.runs[r].Opening? && (env.late != {} ==> cfg.deadlines)
    modifies jobs
    ensures Takes(cfg, r, w, t) && Shows(jobs.jobs, jobs.pages, id, t)
    ensures OthersKept(old(jobs.jobs), jobs.jobs, id) && OthersKept(old(jobs.pages), jobs.pages, id)
    ensures jobs.documents == Service.Counted(old(jobs.documents), documentId, |sources|)
    ensures ending.Finished? || ending.Skipped? || ending.Broken?
    ensures ending.Broken? <==> !Extracts(env, w.pages, sources)
    ensures ending.Broken? ==> Aborts(env, w.pages, |sources|, ending.failure)
    ensures Closed(ending, r, w, t)
  {
    var failure;
    ghost var v;
    failure, v := ExtractAll(jobs, id, cfg, documentId, sources, env, clock, r, w);
    if failure.None? {
      var result;
      result, t := Close(jobs, id, cfg, clock(AtEnd), r, v);
      TakesBoth(cfg, r, w, v, t);
      assert t.runs == w.runs - {r};
      ending := if result.None? then Skipped else Finished(result.value);
    } else {
      t := AbortTakes(cfg, r, w, v, failure.value);
      assert t.runs == w.runs[r := t.runs[r]];
      ending := Broken(failure.value);
    }
  }

  /** How the call leaves the job it has run: finalised if it held it, untouched if it did not, or with an error. */
  ghost predicate Closed(ending: Ending, r: RunId, w: World, t: World)
    requires r in w.runs && w.runs[r].Opening?
  {
    match ending
    case Finished(row) => w.row.status == Processing && t.finalized && t.row == row && t.runs == w.runs - {r}
    case Skipped => w.row.status != Processing && t.row == w.row && t.runs == w.runs - {r}
    case Withdrawn =>
      && t.pages == w.pages && t.runs == w.runs - {r}
      && if Active(w.row.status) then t.row.status == Cancelled && t.row.errorCode == Some(DocumentUnavailable)
         else t.row == w.row
    case Broken(failure) =>
      && RowHeld(w.row, t.row)
      && t.runs == w.runs[r := Failing(w.runs[r].attempt, failure.permanent, failure.code)]
    case _ => true
  }

  /** `run`: everything between the budget check and the call's return or its error. */
  method Run(jobs: Service.OcrJobService, id: JobId, job: Job, cfg: Config, sources: seq<Source>, env: Surroundings,
             clock: Clock, ghost r: RunId, ghost w: World)
    returns (ending: Ending, ghost t: World)
    requires Shows(jobs.jobs, jobs.pages, id, w) && w.sources == sources
    requires r in w.runs && w.runs[r].Opening? && (env.late != {} ==> cfg.deadlines)
    modifies jobs
    ensures Takes(cfg, r, w, t) && Shows(jobs.jobs, jobs.pages, id, t)
    ensures OthersKept(old(jobs.jobs), jobs.jobs, id) && OthersKept(old(jobs.pages), jobs.pages, id)
    ensures Ran(ending, old(jobs.documents), job, env, w.pages, sources)
    ensures jobs.documents == DocumentsAfter(old(jobs.documents), job, env, sources)
    ensures Closed(ending, r, w, t)
  {
    TakesNothing(cfg, r, w);
    t := w;
    if !Available(jobs.documents, job) {
      t := Withdraw(jobs, id, cfg, clock(AtEnd), r, w);
      return Withdrawn, t;
    }
    var failure := if |sources| < 1 && env.opening.None? then Some(Failure(true, InvalidFile)) else env.opening;
    if failure.None? {
      ending, t := ExtractAndClose(jobs, id, cfg, job.documentId, sources, env, clock, r, w);
    } else {
      t := AbortTakes(cfg, r, w, t, failure.value);
      ending := Broken(failure.value);
    }
  }

  /** Which way `run` ends, by what it meets. */
  ghost predicate Ran(ending: Ending, documents: map<nat, Uploads.Row>, job: Job, env: Surroundings, pages: Pages,
                      sources: seq<Source>)
  {
    && (ending.Withdrawn? <==> !Available(documents, job))
    && (ending.Finished? || ending.Skipped? <==>
          Available(documents, job) && Opens(env, sources) && Extracts(env, pages, sources))
    && (ending.Finished? || ending.Skipped? || ending.Withdrawn? || ending.Broken?)
    && (ending.Broken? ==> Meets(env, pages, sources, ending.failure))
  }

  /** The document has its page count as soon as the file has been opened. */
  function DocumentsAfter(documents: map<nat, Uploads.Row>, job: Job, env: Surroundings, sources: seq<Source>)
    : map<nat, Uploads.Row>
  {
    if Available(documents, job) && Opens(env, sources) then Service.Counted(documents, job.documentId, |sources|)
    else documents
  }

  /** The job's document is not there, not its user's, deleted, not READY or without a file. */
  predicate IsUnavailable(documents: map<nat, Uploads.Row>, job: Job) {
    || job.documentId !in documents
    || documents[job.documentId].userId != job.userId
    || documents[job.documentId].deletedAt != None
    || documents[job.documentId].status != Uploads.Ready
    || documents[job.documentId].storageKey == None
  }

  /** No column changes but the page count of the job's own document, and that only if it can be read. */
  ghost predicate OnlyCounted(before: map<nat, Uploads.Row>, after: map<nat, Uploads.Row>, job: Job, total: nat) {
    && after.Keys == before.Keys
    && forall d :: d in before && after[d] != before[d] ==>
         && d == job.documentId && !IsUnavailable(before, job)
         && after[d] == before[d].(pageCount := Some(total))
  }

  lemma CountsOwnDocument(documents: map<nat, Uploads.Row>, job: Job, env: Surroundings, sources: seq<Source>)
    ensures OnlyCounted(documents, DocumentsAfter(documents, job, env, sources), job, |sources|)
    ensures Available(documents, job) <==> !IsUnavailable(documents, job)
  {
  }

  /**
   Among the requests on documents the call is one of those counting pages: what
   it reads and writes of its document is a path of the upload system.
   */
  lemma CountingIsARequest(files: Uploads.Config, s: Uploads.State, q: Uploads.RequestId, job: Job, total: nat)
    returns (t: Uploads.State)
    requires q !in s.requests && Available(s.rows, job)
    ensures Files.Takes(files, s, t) && t.requests == s.requests
    ensures t.rows == Service.Counted(s.rows, job.documentId, total)
  {
    var begun := Uploads.Step(files, s, Uploads.BeginOcr(q, job.documentId));
    t := Uploads.Step(files, begun, Uploads.CommitPageCount(q, total));
    Files.TakesNothing(files, s);
    Files.TakesStep(files, s, s, Uploads.BeginOcr(q, job.documentId), begun);
    Files.TakesStep(files, s, begun, Uploads.CommitPageCount(q, total), t);
    assert t.requests == s.requests;
  }

  // ---------------------------------------------------------------------------
  // `process`
  // ---------------------------------------------------------------------------

  /**
   `handleFailure`: an active job is failed for good, or a PROCESSING one goes
   back to the queue while attempts are left; any other row is left alone.
   */
  method HandleFailure(jobs: Service.OcrJobService, id: JobId, attempt: nat, maxAttempts: nat, failure: Failure,
                       cfg: Config, at: int, ghost r: RunId, ghost w: World)
    returns (ghost t: World)
    requires Shows(jobs.jobs, jobs.pages, id, w) && w.row.maxAttempts == maxAttempts
    requires r in w.runs && w.runs[r] == Failing(attempt, failure.permanent, failure.code)
    modifies jobs`jobs
    ensures Takes(cfg, r, w, t) && Shows(jobs.jobs, jobs.pages, id, t) && OthersKept(old(jobs.jobs), jobs.jobs, id)
    ensures t == w.(row := t.row, runs := w.runs - {r}) && t.row.maxAttempts == maxAttempts
    ensures Does(cfg, r, at, w, EndFailure(r, at), t)
    ensures if failure.permanent || attempt >= maxAttempts then
              (if Active(w.row.status) then t.row.status == Failed && t.row.errorCode == Some(failure.code)
               else t.row == w.row)
            else
              (if w.row.status == Processing then t.row.status == Queued && t.row.errorCode == Some(failure.code)
               else t.row == w.row)
  {
    if failure.permanent || attempt >= maxAttempts {
      var ok := jobs.Fail(id, failure.code, at);
    } else {
      var ok := jobs.Requeue(id, failure.code, at);
    }
    t := Step(cfg, at, w, EndFailure(r, at));
    TakesOne(cfg, r, w, at, EndFailure(r, at), t);
  }

  /** The call gets as far as running the job. */
  predicate Starts(row: Job, cutoff: int) {
    Claimable(row, cutoff) && row.attemptCount < row.maxAttempts
  }

  lemma Delivers(cfg: Config, r: RunId, w: World)
    requires r !in w.runs && Active(w.row.status)
    ensures Takes(cfg, r, w, w.(runs := w.runs[r := Loaded]))
  {
    TakesOne(cfg, r, w, 0, Deliver(r), w.(runs := w.runs[r := Loaded]));
  }

  lemma ReadsClaim(cfg: Config, r: RunId, w: World, v: World) returns (t: World)
    requires Takes(cfg, r, w, v) && r in v.runs && v.runs[r].Claimed?
    ensures Takes(cfg, r, w, t) && t == v.(runs := t.runs, starts := t.starts, lost := t.lost)
    ensures var row := v.row;
            t.runs == v.runs[r := if row.attemptCount > row.maxAttempts then Exhausted else Opening(row.attemptCount)]
  {
    t := Step(cfg, 0, v, ReadClaim(r));
    TakesStep(cfg, r, w, v, 0, ReadClaim(r), t);
  }

  method TryClaim(jobs: Service.OcrJobService, id: JobId, cfg: Config, seen: int, at: int,
                  ghost r: RunId, ghost w: World)
    returns (claimed: bool, ghost t: World)
    requires Shows(jobs.jobs, jobs.pages, id, w) && r in w.runs && w.runs[r].Loaded?
    modifies jobs`jobs
    ensures Takes(cfg, r, w, t) && Shows(jobs.jobs, jobs.pages, id, t) && OthersKept(old(jobs.jobs), jobs.jobs, id)
    ensures claimed <==> Claimable(w.row, seen - cfg.staleMs)
    ensures Does(cfg, r, if seen < at then at else seen, w, Claim(r, seen, at), t)
    ensures !claimed ==> t == w.(runs := w.runs - {r})
    ensures claimed ==>
      t == Now(w, r, ClaimRow(w.row, seen - cfg.staleMs, at), w.pages, Claimed(w.row.attemptCount + 1))
  {
    claimed := jobs.Claim(id, cfg.staleMs, seen, at);
    ghost var now := if seen < at then at else seen;
    t := Step(cfg, now, w, Claim(r, seen, at));
    TakesOne(cfg, r, w, now, Claim(r, seen, at), t);
  }

  /** Delivery, the conditional claim, and the attempt count read back. */
  method Acquire(jobs: Service.OcrJobService, id: JobId, cfg: Config, seen: int, at: int,
                 ghost r: RunId, ghost w: World)
    returns (claimed: bool, row: Job, ghost t: World)
    requires Shows(jobs.jobs, jobs.pages, id, w) && r !in w.runs && Active(w.row.status)
    modifies jobs`jobs
    ensures Takes(cfg, r, w, t) && Shows(jobs.jobs, jobs.pages, id, t) && OthersKept(old(jobs.jobs), jobs.jobs, id)
    ensures claimed <==> Claimable(w.row, seen - cfg.staleMs)
    ensures !claimed ==> t == w
    ensures claimed ==>
      && row == t.row == ClaimRow(w.row, seen - cfg.staleMs, at)
      && t.pages == w.pages && t.sources == w.sources
      && t.runs == w.runs[r := if row.attemptCount > row.maxAttempts then Exhausted else Opening(row.attemptCount)]
  {
    ghost var loaded := w.(runs := w.runs[r := Loaded]);
    Delivers(cfg, r, w);
    claimed, t := TryClaim(jobs, id, cfg, seen, at, r, loaded);
    row := jobs.jobs[id];
    TakesBoth(cfg, r, w, loaded, t);
    if claimed {
      t := ReadsClaim(cfg, r, w, t);
      assert t.runs == w.runs[r := t.runs[r]];
    } else {
      assert t.runs == w.runs;
    }
  }

  /** The attempt budget is spent: the job is failed, unless it is over already. */
  method GiveUp(jobs: Service.OcrJobService, id: JobId, cfg: Config, at: int, ghost r: RunId, ghost w: World)
    returns (ghost t: World)
    requires Shows(jobs.jobs, jobs.pages, id, w) && r in w.runs && w.runs[r].Exhausted?
    modifies jobs`jobs
    ensures Takes(cfg, r, w, t) && Shows(jobs.jobs, jobs.pages, id, t) && OthersKept(old(jobs.jobs), jobs.jobs, id)
    ensures t == w.(row := t.row, runs := w.runs - {r}) && t.row.maxAttempts == w.row.maxAttempts
    ensures Does(cfg, r, at, w, FailExhausted(r, at), t)
    ensures if Active(w.row.status) then t.row.status == Failed && t.row.errorCode == Some(WorkerInterrupted)
            else t.row == w.row
  {
    var ok := jobs.Fail(id, WorkerInterrupted, at);
    t := Step(cfg, at, w, FailExhausted(r, at));
    TakesOne(cfg, r, w, at, FailExhausted(r, at), t);
  }

  /** A claimed job: given up when its budget is spent, otherwise run, with its error handled. */
  method Attempt(jobs: Service.OcrJobService, id: JobId, row: Job, cfg: Config, sources: seq<Source>, env: Surroundings,
                 clock: Clock, ghost r: RunId, ghost w: World)
    returns (ending: Ending, ghost t: World)
    requires Shows(jobs.jobs, jobs.pages, id, w) && w.row == row && row.status == Processing && w.sources == sources
    requires r in w.runs && (env.late != {} ==> cfg.deadlines)
    requires w.runs[r] == if row.attemptCount > row.maxAttempts then Exhausted else Opening(row.attemptCount)
    modifies jobs
    ensures Takes(cfg, r, w, t) && Shows(jobs.jobs, jobs.pages, id, t) && t.runs == w.runs - {r}
    ensures OthersKept(old(jobs.jobs), jobs.jobs, id) && OthersKept(old(jobs.pages), jobs.pages, id)
    ensures ending.OutOfBudget? <==> row.attemptCount > row.maxAttempts
    ensures !ending.OutOfBudget? ==>
      && Ran(ending, old(jobs.documents), row, env, w.pages, sources)
      && jobs.documents == DocumentsAfter(old(jobs.documents), row, env, sources)
    ensures ending.OutOfBudget? ==> jobs.documents == old(jobs.documents)
    ensures ending != Skipped && AsReported(ending, t, row.attemptCount)
  {
    if row.attemptCount > row.maxAttempts {
      t := GiveUp(jobs, id, cfg, clock(AtEnd), r, w);
      return OutOfBudget, t;
    }
    ending, t := Run(jobs, id, row, cfg, sources, env, clock, r, w);
    if ending.Broken? {
      ghost var u := t;
      t := HandleFailure(jobs, id, row.attemptCount, row.maxAttempts, ending.failure, cfg, clock(AtEnd), r, u);
      TakesBoth(cfg, r, w, u, t);
    }
    assert t.runs == w.runs - {r};
  }

  /** The row the call leaves says how it ended; `attempt` is the call's own count. */
  predicate AsReported(ending: Ending, t: World, attempt: nat) {
    match ending
    case OutOfBudget => t.row.status == Failed && t.row.errorCode == Some(WorkerInterrupted)
    case Withdrawn => t.row.status == Cancelled && t.row.errorCode == Some(DocumentUnavailable)
    case Finished(row) => t.finalized && t.row == row
    case Broken(failure) =>
      && t.row.errorCode == Some(failure.code)
      && t.row.status == if failure.permanent || attempt >= t.row.maxAttempts then Failed else Queued
    case _ => true
  }

  /**
   One delivery of job `id`, no other call coming between.  Its calls are a path
   of the protocol from the world it found, no other job is touched, and it
   finalises the job exactly when it can claim it within budget and nothing
   fails on the way.
   */
  method Process(jobs: Service.OcrJobService, id: JobId, cfg: Config, sources: seq<Source>, env: Surroundings,
                 clock: Clock, ghost r: RunId, ghost w: World)
    returns (ending: Ending, ghost t: World)
    requires id in jobs.jobs ==> Shows(jobs.jobs, jobs.pages, id, w) && w.sources == sources && r !in w.runs
    requires env.late != {} ==> cfg.deadlines
    modifies jobs
    ensures OthersKept(old(jobs.jobs), jobs.jobs, id) && OthersKept(old(jobs.pages), jobs.pages, id)
    ensures ending.NotFound? <==> id !in old(jobs.jobs)
    ensures ending.NotFound? ==> jobs.jobs == old(jobs.jobs) && jobs.pages == old(jobs.pages)
    ensures !ending.NotFound? ==> Takes(cfg, r, w, t) && Shows(jobs.jobs, jobs.pages, id, t) && t.runs == w.runs
    ensures !ending.NotFound? ==>
      var cutoff := clock(BeforeClaim) - cfg.staleMs;
      && (ending.Duplicate? <==> Terminal(w.row.status))
      && (ending.Elsewhere? <==> Active(w.row.status) && !Claimable(w.row, cutoff))
      && (ending.OutOfBudget? <==> Claimable(w.row, cutoff) && !Starts(w.row, cutoff))
      && (Starts(w.row, cutoff) ==> Ran(ending, old(jobs.documents), w.row, env, w.pages, sources))
      && jobs.documents == if Starts(w.row, cutoff) then DocumentsAfter(old(jobs.documents), w.row, env, sources)
                           else old(jobs.documents)
    ensures ending.Withdrawn? ==> IsUnavailable(old(jobs.documents), w.row)
    ensures ending.Finished? ==> !IsUnavailable(old(jobs.documents), w.row)
    ensures if ending.NotFound? then jobs.documents == old(jobs.documents)
            else OnlyCounted(old(jobs.documents), jobs.documents, w.row, |sources|)
    ensures ending.Duplicate? || ending.Elsewhere? ==> t.row == w.row && t.pages == w.pages
    ensures !ending.NotFound? ==> AsReported(ending, t, w.row.attemptCount + 1)
    ensures ending != Skipped
  {
    TakesNothing(cfg, r, w);
    t := w;
    if id !in jobs.jobs {
      return NotFound, t;
    }
    CountsOwnDocument(jobs.documents, w.row, env, sources);
    if Terminal(jobs.jobs[id].status) {
      return Duplicate, t;
    }
    var claimed, row;
    claimed, row, t := Acquire(jobs, id, cfg, clock(BeforeClaim), clock(AtClaim), r, w);
    if !claimed {
      return Elsewhere, t;
    }
    ghost var v := t;
    ending, t := Attempt(jobs, id, row, cfg, sources, env, clock, r, v);
    TakesBoth(cfg, r, w, v, t);
    assert t.runs == w.runs;
  }

  // ---------------------------------------------------------------------------
  // What an undisturbed call achieves
  // ---------------------------------------------------------------------------

  /** Nobody but `r` is past its claim. */
  ghost predicate Alone(w: World, r: RunId) {
    forall s :: s in w.runs && s != r ==> w.runs[s].Loaded?
  }

  lemma OwnStepKeepsAlone(cfg: Config, now: int, w: World, a: Action, r: RunId)
    requires Alone(w, r) && Enabled(cfg, now, w, a) && OwnStep(a, r)
    ensures Alone(Step(cfg, now, w, a), r)
  {
  }

  lemma OwnStepKeepsLease(cfg: Config, now: int, w: World, a: Action, r: RunId)
    requires LeaseInv(w) && Alone(w, r) && Enabled(cfg, now, w, a) && OwnStep(a, r)
    ensures LeaseInv(Step(cfg, now, w, a))
  {
    if a.Deliver? {
      LoadedIsHarmless(w, Step(cfg, now, w, a), r);
    } else if a.Claim? {
      ClaimKeepsLease(cfg, now, w, r, a.seen, a.at);
    } else {
      HolderStep(cfg, now, w, a, r, Step(cfg, now, w, a));
      RunStepKeepsLease(w, Step(cfg, now, w, a), r);
    }
  }

  ghost predicate HoldsAlone(cfg: Config, w: World, r: RunId) {
    LeasedHolds(cfg, w) && Alone(w, r)
  }

  lemma OwnStepKeeps(cfg: Config, now: int, w: World, a: Action, r: RunId)
    requires HoldsAlone(cfg, w, r) && Enabled(cfg, now, w, a) && OwnStep(a, r)
    ensures HoldsAlone(cfg, Step(cfg, now, w, a), r)
  {
    StepKeepsPages(cfg, now, w, a);
    OwnStepKeepsLease(cfg, now, w, a, r);
    OwnStepKeepsAlone(cfg, now, w, a, r);
    StepKeepsLedger(cfg, now, w, a);
  }

  lemma TakesKeeps(cfg: Config, r: RunId, w: World, t: World)
    requires Takes(cfg, r, w, t) && HoldsAlone(cfg, w, r)
    ensures HoldsAlone(cfg, t, r)
  {
    var inv := (v: World) => HoldsAlone(cfg, v, r);
    forall v, u | inv(v) && Own(cfg, r)(v, u)
      ensures inv(u)
    {
      var now, a :| OwnStep(a, r) && Enabled(cfg, now, v, a) && u == Step(cfg, now, v, a);
      OwnStepKeeps(cfg, now, v, a, r);
    }
    ReachesKeeps(Own(cfg, r), inv, w, t);
  }

  /** The pages are those of one uninterrupted pass, and the row says what they say. */
  ghost predicate HoldsOnePass(cfg: Config, t: World) {
    var pass := Extract(t.sources, cfg.limits.perDocument, cfg.limits.perPage);
    && (forall n :: n in t.pages <==> 1 <= n <= |pass|)
    && (forall n :: n in t.pages ==> 1 <= n <= |pass| && t.pages[n] == pass[n - 1])
    && StatusSays(t.row.status, t.pages) && t.row.errorCode == FinalError(t.pages)
    && t.row.processedPages == |pass| && t.row.failedPages == |FailedPages(t.pages)|
  }

  lemma FinishedBooks(cfg: Config, t: World)
    requires LeasedHolds(cfg, t) && t.finalized && !cfg.deadlines
    ensures HoldsOnePass(cfg, t)
  {
    FinalStatusSays(t.pages);
  }

  /**
   A call that finds the job as any lease-respecting run left it, nobody else
   holding it, and finalises it leaves exactly the pages of one uninterrupted
   pass, in a row that says what they say.
   */
  lemma FinishedIsOnePass(cfg: Config, states: seq<System>, i: nat, j: JobId, t: World, r: RunId)
    requires IsRun(cfg, states) && LeaseRespecting(cfg, states) && i < |states| && j in states[i].worlds
    requires Alone(states[i].worlds[j], r) && Takes(cfg, r, states[i].worlds[j], t)
    requires t.finalized && !cfg.deadlines
    ensures HoldsOnePass(cfg, t)
  {
    LeasedRunKeeps(cfg, states, i, j);
    TakesKeeps(cfg, r, states[i].worlds[j], t);
    FinishedBooks(cfg, t);
  }
}
