/**
 `OcrWorkerService.process` among others: between any two of its statements
 other calls, reconcile passes and heartbeats may take any steps they can, and
 requests may move the rows of documents.  The course of the call is a path of
 the job protocol and prolongs any run of it, so what holds of all runs holds of
 the tables the code leaves.
 */
module OcrConcurrent {
  import opened Wrappers
  import opened Histories
  import opened OcrRows
  import opened OcrExtraction
  import opened OcrProtocol
  import opened OcrLease
  import opened OcrRuns
  import opened OcrProcess
  import Service = OcrJobService
  import Uploads
  import UploadRuns

  type Documents = map<nat, Uploads.Row>

  /** The job with all its calls, and the documents table. */
  datatype Scene = Scene(world: World, documents: Documents)

  /** Where the call can be interrupted: before each of its statements but the first. */
  datatype Pause =
    | AfterRead
    | AfterClaim
    | BeforeDocument
    | BeforeTotal
    | BeforeProgress
    | BeforePage(pageNumber: nat)
    | BeforeEnd

  /** What the others make of a scene during a pause. */
  type Others = (Pause, Scene) -> Scene

  datatype Call = Call(cfg: Config, run: RunId, env: Surroundings, clock: Clock, others: Others)

  // ---------------------------------------------------------------------------
  // Steps of the call, of the others, of anyone
  // ---------------------------------------------------------------------------

  /** The scene after step `a`; storing the total also counts the document's pages. */
  function Did(cfg: Config, x: Scene, now: int, a: Action): Scene {
    if !Enabled(cfg, now, x.world, a) then x
    else
      Scene(Step(cfg, now, x.world, a),
            if a.SetTotal? then Service.Counted(x.documents, x.world.row.documentId, |x.world.sources|)
            else x.documents)
  }

  ghost predicate Follows(cfg: Config, w: World, t: World) {
    exists now, a :: Enabled(cfg, now, w, a) && t == Step(cfg, now, w, a)
  }

  /** Requests move the rows of documents as the upload system lets them. */
  ghost predicate FilesMove(before: Documents, after: Documents) {
    before.Keys <= after.Keys && forall d :: d in before ==> UploadRuns.RowStep(before[d], after[d])
  }

  ghost function AnyMove(cfg: Config): (Scene, Scene) -> bool {
    (x: Scene, y: Scene) =>
      FilesMove(x.documents, y.documents) && (x.world == y.world || Follows(cfg, x.world, y.world))
  }

  predicate OthersStep(a: Action, r: RunId) {
    a.Heartbeat? || a.ReadStale? || a.ActStale? || a.DropStale? || a.run != r
  }

  ghost predicate OthersTake(cfg: Config, r: RunId, w: World, t: World) {
    exists now, a :: OthersStep(a, r) && Enabled(cfg, now, w, a) && t == Step(cfg, now, w, a)
  }

  ghost function OthersMove(cfg: Config, r: RunId): (Scene, Scene) -> bool {
    (x: Scene, y: Scene) =>
      FilesMove(x.documents, y.documents) && (x.world == y.world || OthersTake(cfg, r, x.world, y.world))
  }

  /** Whatever the scene, what the others make of it during a pause are steps of theirs. */
  ghost predicate OthersTakeSteps(c: Call) {
    forall p, x :: Reaches(OthersMove(c.cfg, c.run), x, c.others(p, x))
  }

  /** Call `r` is where it was, and so are the columns of the row no statement writes. */
  predicate Unmoved(r: RunId, w: World, t: World) {
    && t.sources == w.sources && SameJob(w.row, t.row)
    && (r in t.runs <==> r in w.runs) && (r in w.runs && r in t.runs ==> t.runs[r] == w.runs[r])
  }

  predicate SameJob(row: Job, next: Job) {
    next.maxAttempts == row.maxAttempts && next.documentId == row.documentId && next.userId == row.userId
  }

  lemma OthersLeaveUnmoved(cfg: Config, r: RunId, w: World, now: int, a: Action)
    requires OthersStep(a, r) && Enabled(cfg, now, w, a)
    ensures Unmoved(r, w, Step(cfg, now, w, a))
  {
  }

  lemma OthersMoveUnmoved(cfg: Config, r: RunId, x: Scene, y: Scene)
    requires OthersMove(cfg, r)(x, y)
    ensures Unmoved(r, x.world, y.world)
  {
    if x.world != y.world {
      var now, a :| OthersStep(a, r) && Enabled(cfg, now, x.world, a) && y.world == Step(cfg, now, x.world, a);
      OthersLeaveUnmoved(cfg, r, x.world, now, a);
    }
  }

  lemma OthersAreAnyone(cfg: Config, r: RunId, x: Scene, y: Scene)
    requires OthersMove(cfg, r)(x, y)
    ensures AnyMove(cfg)(x, y)
  {
    if x.world != y.world {
      var now, a :| OthersStep(a, r) && Enabled(cfg, now, x.world, a) && y.world == Step(cfg, now, x.world, a);
      assert Follows(cfg, x.world, y.world);
    }
  }

  /** Whatever steps others take, they leave call `r` where it is. */
  lemma OthersReach(cfg: Config, r: RunId, x: Scene, y: Scene)
    requires Reaches(OthersMove(cfg, r), x, y)
    ensures Unmoved(r, x.world, y.world) && Reaches(AnyMove(cfg), x, y)
  {
    var inv := (z: Scene) => Unmoved(r, x.world, z.world);
    forall u, v | OthersMove(cfg, r)(u, v)
      ensures (inv(u) ==> inv(v)) && AnyMove(cfg)(u, v)
    {
      OthersMoveUnmoved(cfg, r, u, v);
      OthersAreAnyone(cfg, r, u, v);
    }
    ReachesKeeps(OthersMove(cfg, r), inv, x, y);
    ReachesMore(OthersMove(cfg, r), AnyMove(cfg), x, y);
  }

  lemma FilesStay(documents: Documents)
    ensures FilesMove(documents, documents)
  {
  }

  lemma CountingMoves(documents: Documents, documentId: nat, total: nat)
    ensures FilesMove(documents, Service.Counted(documents, documentId, total))
  {
  }

  lemma DidMoves(cfg: Config, x0: Scene, x: Scene, now: int, a: Action)
    requires Reaches(AnyMove(cfg), x0, x) && Enabled(cfg, now, x.world, a)
    ensures Reaches(AnyMove(cfg), x0, Did(cfg, x, now, a))
  {
    FilesStay(x.documents);
    CountingMoves(x.documents, x.world.row.documentId, |x.world.sources|);
    assert Follows(cfg, x.world, Step(cfg, now, x.world, a));
    ReachesStep(AnyMove(cfg), x0, x, Did(cfg, x, now, a));
  }

  // ---------------------------------------------------------------------------
  // What the call meets
  // ---------------------------------------------------------------------------

  function Later(a: int, b: int): int {
    if a < b then b else a
  }

  /** The scene in which the call claims, if it found the job in `x`. */
  function MetAtClaim(c: Call, x: Scene): Scene {
    c.others(AfterRead, Did(c.cfg, x, 0, Deliver(c.run)))
  }

  function ClaimStep(c: Call): Action {
    Claim(c.run, c.clock(BeforeClaim), c.clock(AtClaim))
  }

  function ClaimTime(c: Call): int {
    Later(c.clock(BeforeClaim), c.clock(AtClaim))
  }

  /** The scene in which it reads the row back, if it claimed it in `x`. */
  function MetAtCheck(c: Call, x: Scene): Scene {
    c.others(AfterClaim, Did(c.cfg, x, ClaimTime(c), ClaimStep(c)))
  }

  /** The scene in which it looks for the document, if it read the row back in `x`. */
  function MetAtDocument(c: Call, x: Scene): Scene {
    c.others(BeforeDocument, Did(c.cfg, x, 0, ReadClaim(c.run)))
  }

  /** The scene in which it reads its progress, if it found the document in `x`. */
  function MetAtProgress(c: Call, x: Scene): Scene {
    c.others(BeforeProgress,
             Did(c.cfg, c.others(BeforeTotal, x), c.clock(AtTotal), SetTotal(c.run, c.clock(AtTotal))))
  }

  /** The tables show the scene, which anyone's moves lead to from `x0`. */
  ghost predicate Comes(c: Call, jobs: map<JobId, Job>, pages: map<JobId, Pages>, documents: Documents, id: JobId,
                        x0: Scene, x: Scene)
  {
    && Reaches(AnyMove(c.cfg), x0, x) && Shows(jobs, pages, id, x.world) && documents == x.documents
    && x.world.sources == x0.world.sources && SameJob(x0.world.row, x.world.row)
  }

  /** The others act while the call pauses. */
  method Meanwhile(jobs: Service.OcrJobService, id: JobId, c: Call, p: Pause, ghost x0: Scene, x: Scene)
    returns (y: Scene)
    requires Comes(c, jobs.jobs, jobs.pages, jobs.documents, id, x0, x) && OthersTakeSteps(c)
    modifies jobs
    ensures y == c.others(p, x) && Comes(c, jobs.jobs, jobs.pages, jobs.documents, id, x0, y)
    ensures Unmoved(c.run, x.world, y.world)
    ensures OthersKept(old(jobs.jobs), jobs.jobs, id) && OthersKept(old(jobs.pages), jobs.pages, id)
  {
    y := c.others(p, x);
    jobs.jobs := jobs.jobs[id := y.world.row];
    jobs.pages := jobs.pages[id := y.world.pages];
    jobs.documents := y.documents;
    OthersReach(c.cfg, c.run, x, y);
    ReachesBoth(AnyMove(c.cfg), x0, x, y);
  }

  // ---------------------------------------------------------------------------
  // The last statement
  // ---------------------------------------------------------------------------

  /** The call ends with `a`, in the scene `met` it met then. */
  predicate LastStep(c: Call, met: Scene, a: Action, x: Scene) {
    && OwnStep(a, c.run) && Enabled(c.cfg, c.clock(AtEnd), met.world, a)
    && x == Did(c.cfg, met, c.clock(AtEnd), a) && c.run !in x.world.runs
  }

  /** How the call ends in the scene it meets last. */
  predicate Ends(c: Call, ending: Ending, met: Scene, x: Scene) {
    var at := c.clock(AtEnd);
    match ending
    case OutOfBudget => LastStep(c, met, FailExhausted(c.run, at), x)
    case Withdrawn => LastStep(c, met, Cancel(c.run, at), x)
    case Finished(row) =>
      met.world.row.status == Processing && x.world.row == row && LastStep(c, met, Finalize(c.run, at), x)
    case Skipped => met.world.row.status != Processing && LastStep(c, met, Finalize(c.run, at), x)
    case Broken(failure) =>
      && LastStep(c, met, EndFailure(c.run, at), x)
      && met.world.runs[c.run].permanent == failure.permanent && met.world.runs[c.run].code == failure.code
    case _ => false
  }

  method GiveUpAmong(jobs: Service.OcrJobService, id: JobId, c: Call, ghost x0: Scene, before: Scene)
    returns (met: Scene, x: Scene)
    requires Comes(c, jobs.jobs, jobs.pages, jobs.documents, id, x0, before) && OthersTakeSteps(c)
    requires c.run in before.world.runs && before.world.runs[c.run].Exhausted?
    modifies jobs
    ensures Reaches(AnyMove(c.cfg), x0, met) && Comes(c, jobs.jobs, jobs.pages, jobs.documents, id, x0, x)
    ensures Ends(c, OutOfBudget, met, x)
    ensures OthersKept(old(jobs.jobs), jobs.jobs, id) && OthersKept(old(jobs.pages), jobs.pages, id)
  {
    met := Meanwhile(jobs, id, c, BeforeEnd, x0, before);
    var at := c.clock(AtEnd);
    ghost var t := GiveUp(jobs, id, c.cfg, at, c.run, met.world);
    x := Did(c.cfg, met, at, FailExhausted(c.run, at));
    DidMoves(c.cfg, x0, met, at, FailExhausted(c.run, at));
  }

  method WithdrawAmong(jobs: Service.OcrJobService, id: JobId, c: Call, ghost x0: Scene, before: Scene)
    returns (met: Scene, x: Scene)
    requires Comes(c, jobs.jobs, jobs.pages, jobs.documents, id, x0, before) && OthersTakeSteps(c)
    requires c.run in before.world.runs && before.world.runs[c.run].Opening?
    modifies jobs
    ensures Reaches(AnyMove(c.cfg), x0, met) && Comes(c, jobs.jobs, jobs.pages, jobs.documents, id, x0, x)
    ensures Ends(c, Withdrawn, met, x)
    ensures OthersKept(old(jobs.jobs), jobs.jobs, id) && OthersKept(old(jobs.pages), jobs.pages, id)
  {
    met := Meanwhile(jobs, id, c, BeforeEnd, x0, before);
    var at := c.clock(AtEnd);
    ghost var t := Withdraw(jobs, id, c.cfg, at, c.run, met.world);
    x := Did(c.cfg, met, at, Cancel(c.run, at));
    DidMoves(c.cfg, x0, met, at, Cancel(c.run, at));
  }

  method CloseAmong(jobs: Service.OcrJobService, id: JobId, c: Call, ghost x0: Scene, before: Scene)
    returns (ending: Ending, met: Scene, x: Scene)
    requires Comes(c, jobs.jobs, jobs.pages, jobs.documents, id, x0, before) && OthersTakeSteps(c)
    requires c.run in before.world.runs && before.world.runs[c.run].Paging?
    requires |before.world.sources| < before.world.runs[c.run].next
    modifies jobs
    ensures Reaches(AnyMove(c.cfg), x0, met) && Comes(c, jobs.jobs, jobs.pages, jobs.documents, id, x0, x)
    ensures (ending.Finished? || ending.Skipped?) && Ends(c, ending, met, x)
    ensures OthersKept(old(jobs.jobs), jobs.jobs, id) && OthersKept(old(jobs.pages), jobs.pages, id)
  {
    met := Meanwhile(jobs, id, c, BeforeEnd, x0, before);
    var at := c.clock(AtEnd);
    var result;
    ghost var t;
    result, t := Close(jobs, id, c.cfg, at, c.run, met.world);
    ending := if result.None? then Skipped else Finished(result.value);
    x := Did(c.cfg, met, at, Finalize(c.run, at));
    DidMoves(c.cfg, x0, met, at, Finalize(c.run, at));
  }

  /** The error is caught, and handled over whatever the others have made of the job by then. */
  method FailAmong(jobs: Service.OcrJobService, id: JobId, row: Job, failure: Failure, c: Call, ghost x0: Scene,
                   before: Scene)
    returns (met: Scene, x: Scene)
    requires Comes(c, jobs.jobs, jobs.pages, jobs.documents, id, x0, before) && OthersTakeSteps(c)
    requires c.run in before.world.runs && (before.world.runs[c.run].Opening? || before.world.runs[c.run].Paging?)
    requires before.world.runs[c.run].attempt == row.attemptCount
    requires SameJob(x0.world.row, row)
    modifies jobs
    ensures Reaches(AnyMove(c.cfg), x0, met) && Comes(c, jobs.jobs, jobs.pages, jobs.documents, id, x0, x)
    ensures Ends(c, Broken(failure), met, x)
    ensures OthersKept(old(jobs.jobs), jobs.jobs, id) && OthersKept(old(jobs.pages), jobs.pages, id)
  {
    var abort := Abort(c.run, failure.permanent, failure.code);
    DidMoves(c.cfg, x0, before, 0, abort);
    met := Meanwhile(jobs, id, c, BeforeEnd, x0, Did(c.cfg, before, 0, abort));
    var at := c.clock(AtEnd);
    ghost var t := HandleFailure(jobs, id, row.attemptCount, row.maxAttempts, failure, c.cfg, at, c.run, met.world);
    x := Did(c.cfg, met, at, EndFailure(c.run, at));
    DidMoves(c.cfg, x0, met, at, EndFailure(c.run, at));
  }

  // ---------------------------------------------------------------------------
  // `run`
  // ---------------------------------------------------------------------------

  /** One turn of the page loop, over whatever the others have left. */
  method PersistOneAmong(jobs: Service.OcrJobService, id: JobId, c: Call, source: Source, pageNumber: nat, budget: int,
                         ghost x0: Scene, before: Scene)
    returns (left: int, x: Scene)
    requires Comes(c, jobs.jobs, jobs.pages, jobs.documents, id, x0, before) && OthersTakeSteps(c)
    requires c.run in before.world.runs && before.world.runs[c.run].Paging?
    requires before.world.runs[c.run].next == pageNumber && before.world.runs[c.run].budget == budget
    requires 1 <= pageNumber <= |before.world.sources| && before.world.sources[pageNumber - 1] == source
    requires c.env.late != {} ==> c.cfg.deadlines
    modifies jobs
    ensures Comes(c, jobs.jobs, jobs.pages, jobs.documents, id, x0, x)
    ensures c.run in x.world.runs
    ensures x.world.runs[c.run] == Paging(before.world.runs[c.run].attempt, pageNumber + 1, left)
    ensures OthersKept(old(jobs.jobs), jobs.jobs, id) && OthersKept(old(jobs.pages), jobs.pages, id)
  {
    var met := Meanwhile(jobs, id, c, BeforePage(pageNumber), x0, before);
    var late, at := pageNumber in c.env.late, c.clock(AtPage(pageNumber));
    ghost var t;
    left, t := PersistStep(jobs, id, c.cfg, source, late, at, pageNumber, budget, c.run, met.world);
    x := Did(c.cfg, met, at, Persist(c.run, late, at));
    DidMoves(c.cfg, x0, met, at, Persist(c.run, late, at));
  }

  method PersistAllAmong(jobs: Service.OcrJobService, id: JobId, c: Call, sources: seq<Source>, startPage: nat,
                         charBudget: int, ghost x0: Scene, before: Scene)
    returns (failure: Option<Failure>, x: Scene)
    requires Comes(c, jobs.jobs, jobs.pages, jobs.documents, id, x0, before) && OthersTakeSteps(c)
    requires c.run in before.world.runs && before.world.runs[c.run].Paging?
    requires before.world.runs[c.run].next == startPage && before.world.runs[c.run].budget == charBudget
    requires before.world.sources == sources && 1 <= startPage && (c.env.late != {} ==> c.cfg.deadlines)
    modifies jobs
    ensures Comes(c, jobs.jobs, jobs.pages, jobs.documents, id, x0, x)
    ensures c.run in x.world.runs && x.world.runs[c.run].Paging?
    ensures x.world.runs[c.run].attempt == before.world.runs[c.run].attempt
    ensures failure.None? <==> NoBreak(c.env, startPage, |sources|)
    ensures failure.None? ==> |sources| < x.world.runs[c.run].next
    ensures failure.Some? ==> StopsWith(c.env, startPage, |sources|, failure.value)
    ensures OthersKept(old(jobs.jobs), jobs.jobs, id) && OthersKept(old(jobs.pages), jobs.pages, id)
  {
    x, failure := before, None;
    var budget := charBudget;
    var pageNumber := startPage;
    while pageNumber <= |sources|
      invariant startPage <= pageNumber
      invariant Comes(c, jobs.jobs, jobs.pages, jobs.documents, id, x0, x)
      invariant c.run in x.world.runs
      invariant x.world.runs[c.run] == Paging(before.world.runs[c.run].attempt, pageNumber, budget)
      invariant OthersKept(old(jobs.jobs), jobs.jobs, id) && OthersKept(old(jobs.pages), jobs.pages, id)
      invariant forall n :: startPage <= n < pageNumber && n <= |sources| ==> n !in c.env.breaks
    {
      if pageNumber in c.env.breaks {
        failure := Some(c.env.breaks[pageNumber]);
        assert NoBreak(c.env, startPage, pageNumber - 1);
        return;
      }
      budget, x := PersistOneAmong(jobs, id, c, sources[pageNumber - 1], pageNumber, budget, x0, x);
      pageNumber := pageNumber + 1;
    }
  }

  /** The total and the progress. */
  method PrepareAmong(jobs: Service.OcrJobService, id: JobId, c: Call, documentId: nat, total: nat, ghost x0: Scene,
                      before: Scene)
    returns (startPage: nat, charBudget: int, x: Scene)
    requires Comes(c, jobs.jobs, jobs.pages, jobs.documents, id, x0, before) && OthersTakeSteps(c)
    requires c.run in before.world.runs && before.world.runs[c.run].Opening?
    requires |before.world.sources| == total >= 1 && before.world.row.documentId == documentId
    modifies jobs
    ensures Comes(c, jobs.jobs, jobs.pages, jobs.documents, id, x0, x)
    ensures c.run in x.world.runs
    ensures x.world.runs[c.run] == Paging(before.world.runs[c.run].attempt, startPage, charBudget)
    ensures startPage == LastPage(MetAtProgress(c, before).world.pages) + 1
    ensures OthersKept(old(jobs.jobs), jobs.jobs, id) && OthersKept(old(jobs.pages), jobs.pages, id)
  {
    var sizing := Meanwhile(jobs, id, c, BeforeTotal, x0, before);
    var at := c.clock(AtTotal);
    ghost var t := StoreTotal(jobs, id, c.cfg, documentId, total, at, c.run, sizing.world);
    DidMoves(c.cfg, x0, sizing, at, SetTotal(c.run, at));
    var resuming := Meanwhile(jobs, id, c, BeforeProgress, x0, Did(c.cfg, sizing, at, SetTotal(c.run, at)));
    startPage, charBudget, t := ReadProgress(jobs, id, c.cfg, c.run, resuming.world);
    x := Did(c.cfg, resuming, 0, Resume(c.run));
    DidMoves(c.cfg, x0, resuming, 0, Resume(c.run));
  }

  /** Makes the pages that are missing by the progress the call reads. */
  method ExtractAmong(jobs: Service.OcrJobService, id: JobId, c: Call, documentId: nat, sources: seq<Source>,
                      ghost x0: Scene, before: Scene)
    returns (failure: Option<Failure>, x: Scene)
    requires Comes(c, jobs.jobs, jobs.pages, jobs.documents, id, x0, before) && OthersTakeSteps(c)
    requires c.run in before.world.runs && before.world.runs[c.run].Opening? && (c.env.late != {} ==> c.cfg.deadlines)
    requires before.world.sources == sources != [] && before.world.row.documentId == documentId
    modifies jobs
    ensures Comes(c, jobs.jobs, jobs.pages, jobs.documents, id, x0, x)
    ensures c.run in x.world.runs && x.world.runs[c.run].Paging?
    ensures x.world.runs[c.run].attempt == before.world.runs[c.run].attempt
    ensures failure.None? <==> Extracts(c.env, MetAtProgress(c, before).world.pages, sources)
    ensures failure.None? ==> |sources| < x.world.runs[c.run].next
    ensures failure.Some? ==> Aborts(c.env, MetAtProgress(c, before).world.pages, |sources|, failure.value)
    ensures OthersKept(old(jobs.jobs), jobs.jobs, id) && OthersKept(old(jobs.pages), jobs.pages, id)
  {
    var startPage, charBudget;
    startPage, charBudget, x := PrepareAmong(jobs, id, c, documentId, |sources|, x0, before);
    if c.env.textLayer.Some? {
      return c.env.textLayer, x;
    }
    failure, x := PersistAllAmong(jobs, id, c, sources, startPage, charBudget, x0, x);
  }

  /** Which way `run` ends: by the document it finds, the file, and the progress it reads. */
  ghost predicate RanAmong(c: Call, ending: Ending, job: Job, sources: seq<Source>, found: Scene) {
    var pages := MetAtProgress(c, found).world.pages;
    && (ending.Withdrawn? <==> !Available(found.documents, job))
    && (ending.Finished? || ending.Skipped? <==>
          Available(found.documents, job) && Opens(c.env, sources) && Extracts(c.env, pages, sources))
    && (ending.Finished? || ending.Skipped? || ending.Withdrawn? || ending.Broken?)
    && (ending.Broken? ==> Meets(c.env, pages, sources, ending.failure))
  }

  /** `run`, from the read of the document on, with `handleFailure`. */
  method RunAmong(jobs: Service.OcrJobService, id: JobId, job: Job, c: Call, sources: seq<Source>,
                  ghost x0: Scene, found: Scene)
    returns (ending: Ending, met: Scene, x: Scene)
    requires Comes(c, jobs.jobs, jobs.pages, jobs.documents, id, x0, found) && OthersTakeSteps(c)
    requires c.run in found.world.runs && found.world.runs[c.run].Opening?
    requires found.world.runs[c.run].attempt == job.attemptCount
    requires found.world.sources == sources && (c.env.late != {} ==> c.cfg.deadlines) && SameJob(x0.world.row, job)
    modifies jobs
    ensures Reaches(AnyMove(c.cfg), x0, met) && Comes(c, jobs.jobs, jobs.pages, jobs.documents, id, x0, x)
    ensures RanAmong(c, ending, job, sources, found) && Ends(c, ending, met, x)
    ensures OthersKept(old(jobs.jobs), jobs.jobs, id) && OthersKept(old(jobs.pages), jobs.pages, id)
  {
    if !Available(jobs.documents, job) {
      met, x := WithdrawAmong(jobs, id, c, x0, found);
      return Withdrawn, met, x;
    }
    var failure := if |sources| < 1 && c.env.opening.None? then Some(Failure(true, InvalidFile)) else c.env.opening;
    var before := found;
    if failure.None? {
      failure, before := ExtractAmong(jobs, id, c, job.documentId, sources, x0, found);
    }
    if failure.None? {
      ending, met, x := CloseAmong(jobs, id, c, x0, before);
    } else {
      met, x := FailAmong(jobs, id, job, failure.value, c, x0, before);
      ending := Broken(failure.value);
    }
  }

  // ---------------------------------------------------------------------------
  // `process`
  // ---------------------------------------------------------------------------

  /** A claimed job, from the read of the row on. */
  method AttemptAmong(jobs: Service.OcrJobService, id: JobId, c: Call, sources: seq<Source>,
                      ghost x0: Scene, claimed: Scene)
    returns (ending: Ending, met: Scene, x: Scene)
    requires Comes(c, jobs.jobs, jobs.pages, jobs.documents, id, x0, claimed) && OthersTakeSteps(c)
    requires c.run in claimed.world.runs && claimed.world.runs[c.run].Claimed?
    requires claimed.world.sources == sources && (c.env.late != {} ==> c.cfg.deadlines)
    modifies jobs
    ensures Reaches(AnyMove(c.cfg), x0, met) && Comes(c, jobs.jobs, jobs.pages, jobs.documents, id, x0, x)
    ensures Ends(c, ending, met, x)
    ensures ending.OutOfBudget? <==> claimed.world.row.attemptCount > claimed.world.row.maxAttempts
    ensures !ending.OutOfBudget? ==> RanAmong(c, ending, claimed.world.row, sources, MetAtDocument(c, claimed))
    ensures OthersKept(old(jobs.jobs), jobs.jobs, id) && OthersKept(old(jobs.pages), jobs.pages, id)
  {
    var row := jobs.jobs[id];
    var checked := Did(c.cfg, claimed, 0, ReadClaim(c.run));
    DidMoves(c.cfg, x0, claimed, 0, ReadClaim(c.run));
    if row.attemptCount > row.maxAttempts {
      met, x := GiveUpAmong(jobs, id, c, x0, checked);
      return OutOfBudget, met, x;
    }
    var found := Meanwhile(jobs, id, c, BeforeDocument, x0, checked);
    ending, met, x := RunAmong(jobs, id, row, c, sources, x0, found);
  }

  /** The job can be claimed in the scene. */
  predicate CanClaim(c: Call, x: Scene) {
    Claimable(x.world.row, c.clock(BeforeClaim) - c.cfg.staleMs)
  }

  /**
   One delivery of job `id` among others, whatever steps they take between its
   statements.  Everything together is a path of the protocol; each way to end
   has its exact condition in what the call meets; and it ends with the
   statement its ending names.
   */
  method ProcessAmongOthers(jobs: Service.OcrJobService, id: JobId, c: Call, sources: seq<Source>, x0: Scene)
    returns (ending: Ending, met: Scene, x: Scene)
    requires id in jobs.jobs ==>
      && Shows(jobs.jobs, jobs.pages, id, x0.world) && jobs.documents == x0.documents
      && x0.world.sources == sources && c.run !in x0.world.runs
    requires OthersTakeSteps(c) && (c.env.late != {} ==> c.cfg.deadlines)
    modifies jobs
    ensures OthersKept(old(jobs.jobs), jobs.jobs, id) && OthersKept(old(jobs.pages), jobs.pages, id)
    ensures ending.NotFound? <==> id !in old(jobs.jobs)
    ensures ending.Duplicate? <==> id in old(jobs.jobs) && Terminal(x0.world.row.status)
    ensures ending.NotFound? || ending.Duplicate? ==>
      x == x0 && jobs.jobs == old(jobs.jobs) && jobs.pages == old(jobs.pages) && jobs.documents == old(jobs.documents)
    ensures id in old(jobs.jobs) ==>
      && Reaches(AnyMove(c.cfg), x0, x) && x.world.sources == sources && c.run !in x.world.runs
      && Shows(jobs.jobs, jobs.pages, id, x.world) && jobs.documents == x.documents
    ensures !ending.NotFound? && !ending.Duplicate? ==>
      var claiming := MetAtClaim(c, x0);
      var claimed := MetAtCheck(c, claiming);
      && (ending.Elsewhere? <==> !CanClaim(c, claiming))
      && (ending.OutOfBudget? <==>
            CanClaim(c, claiming) && claimed.world.row.attemptCount > claimed.world.row.maxAttempts)
      && (!ending.Elsewhere? && !ending.OutOfBudget? ==>
            RanAmong(c, ending, claimed.world.row, sources, MetAtDocument(c, claimed)))
      && (ending.Elsewhere? ==> x.world.row == claiming.world.row && x.world.pages == claiming.world.pages)
      && (!ending.Elsewhere? ==> Reaches(AnyMove(c.cfg), x0, met) && Ends(c, ending, met, x))
  {
    met, x := x0, x0;
    ReachesSelf(AnyMove(c.cfg), x0);
    if id !in jobs.jobs {
      return NotFound, met, x;
    }
    if Terminal(jobs.jobs[id].status) {
      return Duplicate, met, x;
    }
    DidMoves(c.cfg, x0, x0, 0, Deliver(c.run));
    met := Meanwhile(jobs, id, c, AfterRead, x0, Did(c.cfg, x0, 0, Deliver(c.run)));
    var claimed;
    claimed, x := ClaimAmong(jobs, id, c, x0, met);
    if !claimed {
      return Elsewhere, met, x;
    }
    x := Meanwhile(jobs, id, c, AfterClaim, x0, x);
    ending, met, x := AttemptAmong(jobs, id, c, sources, x0, x);
  }

  method ClaimAmong(jobs: Service.OcrJobService, id: JobId, c: Call, ghost x0: Scene, before: Scene)
    returns (claimed: bool, x: Scene)
    requires Comes(c, jobs.jobs, jobs.pages, jobs.documents, id, x0, before)
    requires c.run in before.world.runs && before.world.runs[c.run].Loaded?
    modifies jobs`jobs
    ensures claimed <==> CanClaim(c, before)
    ensures x == Did(c.cfg, before, ClaimTime(c), ClaimStep(c))
    ensures Comes(c, jobs.jobs, jobs.pages, jobs.documents, id, x0, x)
    ensures claimed ==> c.run in x.world.runs && x.world.runs[c.run].Claimed?
    ensures !claimed ==>
      c.run !in x.world.runs && x.world.row == before.world.row && x.world.pages == before.world.pages
    ensures OthersKept(old(jobs.jobs), jobs.jobs, id)
  {
    ghost var t;
    claimed, t := TryClaim(jobs, id, c.cfg, c.clock(BeforeClaim), c.clock(AtClaim), c.run, before.world);
    x := Did(c.cfg, before, ClaimTime(c), ClaimStep(c));
    DidMoves(c.cfg, x0, before, ClaimTime(c), ClaimStep(c));
  }

  // ---------------------------------------------------------------------------
  // The delivery as part of a run
  // ---------------------------------------------------------------------------

  /** `longer` is a run that goes on from `states` and in which job `j` has come to `t`, no other job having moved. */
  ghost predicate Prolongs(cfg: Config, states: seq<System>, longer: seq<System>, j: JobId, t: World)
    requires states != []
  {
    && IsRun(cfg, longer) && states <= longer
    && longer[|longer| - 1].worlds == states[|states| - 1].worlds[j := t]
  }

  lemma EnabledLater(cfg: Config, now: int, later: int, w: World, a: Action)
    requires Enabled(cfg, now, w, a) && now <= later
    ensures Enabled(cfg, later, w, a) && Step(cfg, later, w, a) == Step(cfg, now, w, a)
  {
  }

  /** The clock can tick until the step can be taken; then it is taken. */
  lemma ProlongByOne(cfg: Config, states: seq<System>, longer: seq<System>, j: JobId, w: World, now: int, a: Action)
    returns (next: seq<System>)
    requires states != [] && Prolongs(cfg, states, longer, j, w) && Enabled(cfg, now, w, a)
    ensures Prolongs(cfg, states, next, j, Step(cfg, now, w, a))
  {
    var last := longer[|longer| - 1];
    var later := Later(last.now, now);
    EnabledLater(cfg, now, later, w, a);
    next := RunNext(cfg, longer, Tick(later));
    next := RunNext(cfg, next, At(j, a));
  }

  /** Whatever anyone's moves make of a job of a run prolongs the run. */
  lemma PathProlongs(cfg: Config, states: seq<System>, j: JobId, x: Scene, y: Scene) returns (longer: seq<System>)
    requires IsRun(cfg, states) && j in states[|states| - 1].worlds && states[|states| - 1].worlds[j] == x.world
    requires Reaches(AnyMove(cfg), x, y)
    ensures Prolongs(cfg, states, longer, j, y.world)
  {
    var inv := (z: Scene) => exists run :: Prolongs(cfg, states, run, j, z.world);
    assert states[|states| - 1].worlds[j := x.world] == states[|states| - 1].worlds;
    assert Prolongs(cfg, states, states, j, x.world);
    forall u, v | inv(u) && AnyMove(cfg)(u, v)
      ensures inv(v)
    {
      if u.world != v.world {
        var run :| Prolongs(cfg, states, run, j, u.world);
        var now, a :| Enabled(cfg, now, u.world, a) && v.world == Step(cfg, now, u.world, a);
        var next := ProlongByOne(cfg, states, run, j, u.world, now, a);
      }
    }
    ReachesKeeps(AnyMove(cfg), inv, x, y);
    longer :| Prolongs(cfg, states, longer, j, y.world);
  }

  /** What the tables show of a job: pages 1..k, progress within the total, all pages once it is done. */
  ghost predicate InOrder(row: Job, pages: Pages, total: nat) {
    && |pages| <= total
    && (forall n :: n in pages <==> 1 <= n <= |pages|)
    && (row.totalPages.Some? ==> row.processedPages <= row.totalPages.value)
    && (row.status in {Completed, Partial} ==> forall n :: n in pages <==> 1 <= n <= total)
  }

  /** A job that anyone's moves have brought on from a state of a run is in order, its extractions bounded. */
  lemma PathInOrder(cfg: Config, states: seq<System>, j: JobId, x: Scene, y: Scene) returns (longer: seq<System>)
    requires IsRun(cfg, states) && j in states[|states| - 1].worlds && states[|states| - 1].worlds[j] == x.world
    requires Reaches(AnyMove(cfg), x, y)
    ensures Prolongs(cfg, states, longer, j, y.world)
    ensures InOrder(y.world.row, y.world.pages, |y.world.sources|)
    ensures |y.world.starts| <= y.world.row.maxAttempts
  {
    longer := PathProlongs(cfg, states, j, x, y);
    PagesInOrder(cfg, longer, |longer| - 1, j);
    ExtractionRunsBounded(cfg, longer, |longer| - 1, j);
  }

  /**
   A delivery of a job of any run, among any others, leaves tables in which the
   pages are in order, and at most `maxAttempts` claims of the job have ever
   gone on to run extraction.
   */
  method ProcessInARun(jobs: Service.OcrJobService, id: JobId, c: Call, sources: seq<Source>, x0: Scene,
                       ghost states: seq<System>)
    returns (ending: Ending, x: Scene, ghost longer: seq<System>)
    requires id in jobs.jobs && Shows(jobs.jobs, jobs.pages, id, x0.world) && jobs.documents == x0.documents
    requires x0.world.sources == sources && c.run !in x0.world.runs
    requires OthersTakeSteps(c) && (c.env.late != {} ==> c.cfg.deadlines)
    requires IsRun(c.cfg, states)
    requires id in states[|states| - 1].worlds && states[|states| - 1].worlds[id] == x0.world
    modifies jobs
    ensures OthersKept(old(jobs.jobs), jobs.jobs, id) && OthersKept(old(jobs.pages), jobs.pages, id)
    ensures Prolongs(c.cfg, states, longer, id, x.world) && Shows(jobs.jobs, jobs.pages, id, x.world)
    ensures InOrder(jobs.jobs[id], jobs.PagesOf(id), |sources|)
    ensures |x.world.starts| <= jobs.jobs[id].maxAttempts
    ensures Terminal(old(jobs.jobs)[id].status) ==> jobs.jobs[id] == old(jobs.jobs)[id]
  {
    var met;
    ending, met, x := ProcessAmongOthers(jobs, id, c, sources, x0);
    longer := PathInOrder(c.cfg, states, id, x0, x);
  }

  /** Others that do nothing are among those admitted. */
  lemma NobodyElse(c: Call)
    requires forall p, x :: c.others(p, x) == x
    ensures OthersTakeSteps(c)
  {
    forall p, x
      ensures Reaches(OthersMove(c.cfg, c.run), x, c.others(p, x))
    {
      ReachesSelf(OthersMove(c.cfg, c.run), x);
    }
  }
}
