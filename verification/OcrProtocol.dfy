/**
 The OCR job protocol as a transition system.

 A `World` is one job as the database, its `process` calls and the reconcile
 passes see it.  A process call handles a single job, so several calls of
 several workers on the same job are several entries of `runs`; the queue may
 deliver the job to a new call at any moment, and any call may crash between
 two database steps.  A `System` is any number of worlds under one clock.

 Every service call of `OcrJobService` is one atomic step.  A step never trusts
 a clock to be current: every reading it uses may lie in the past.
 */
module OcrProtocol {
  import opened Wrappers
  import opened OcrRows
  import opened OcrExtraction
  import opened Histories

  type RunId = nat
  type PassId = nat

  /** How far one `process` call has come. */
  datatype Phase =
    | Loaded                                              // read the row, not yet claimed
    | Claimed(claim: nat)                                 // its claim set attempt_count to `claim`
    | Exhausted                                           // read an attempt_count beyond the budget
    | Opening(attempt: nat)                               // passed the budget check
    | Sized(attempt: nat)                                 // stored total_pages
    | Paging(attempt: nat, next: nat, budget: int)        // inside the page loop
    | Failing(attempt: nat, permanent: bool, code: ErrorCode)  // caught an error

  /** What a reconcile pass remembers of a stale row it has read. */
  datatype Snapshot = Snapshot(attemptCount: nat, maxAttempts: nat)

  /**
   `sources` is the stored file as the tools see it, fixed for the job's whole
   life.  `starts` (the claims that went on to run extraction), `lost` (how many
   ended before that) and `finalized` are history: no step reads them.
   */
  datatype World = World(
    sources: seq<Source>,
    row: Job,
    pages: Pages,
    runs: map<RunId, Phase>,
    stale: map<PassId, Snapshot>,
    starts: seq<nat>,
    lost: nat,
    finalized: bool)

  /** `deadlines` says whether the job deadline can pass while pages remain. */
  datatype Config = Config(staleMs: nat, limits: Limits, deadlines: bool)

  datatype Action =
    | Deliver(run: RunId)
    | Claim(run: RunId, seen: int, at: int)
    | ReadClaim(run: RunId)
    | FailExhausted(run: RunId, at: int)
    | Cancel(run: RunId, at: int)
    | SetTotal(run: RunId, at: int)
    | Resume(run: RunId)
    | Persist(run: RunId, late: bool, at: int)
    | Finalize(run: RunId, at: int)
    | Abort(run: RunId, permanent: bool, code: ErrorCode)
    | EndFailure(run: RunId, at: int)
    | Crash(run: RunId)
    | Heartbeat(at: int)
    | ReadStale(pass: PassId, seen: int)
    | ActStale(pass: PassId, seen: int, at: int)
    | DropStale(pass: PassId)

  /** The call is past its claim and has not returned. */
  predicate Holding(phase: Phase) {
    !phase.Loaded?
  }

  /** The call passed the budget check and has not returned: it is running the job. */
  predicate Running(phase: Phase) {
    phase.Opening? || phase.Sized? || phase.Paging? || phase.Failing?
  }

  // ---------------------------------------------------------------------------
  // Aggregates over the page rows
  // ---------------------------------------------------------------------------

  lemma MaxExists(s: set<nat>) returns (m: nat)
    requires s != {}
    ensures m in s && forall n :: n in s ==> n <= m
  {
    m :| m in s;
    var rest := s - {m};
    if rest != {} {
      var k := MaxExists(rest);
      assert s == rest + {m};
      if m < k {
        m := k;
      }
    }
  }

  /** `MAX(page_number)`, 0 without pages. */
  function LastPage(pages: Pages): (m: nat)
    ensures pages == map[] ==> m == 0
    ensures pages != map[] ==> m in pages
    ensures forall n :: n in pages ==> n <= m
  {
    if pages == map[] then 0
    else
      assert exists m: nat :: m in pages && forall n :: n in pages ==> n <= m by {
        var n :| n in pages;
        assert n in pages.Keys;
        var top := MaxExists(pages.Keys);
        assert top in pages;
      }
      var m: nat :| m in pages && forall n :: n in pages ==> n <= m;
      m
  }

  function CharsUpTo(pages: Pages, n: nat): nat {
    (if n in pages then pages[n].charCount else 0) + (if n == 0 then 0 else CharsUpTo(pages, n - 1))
  }

  /** `SUM(char_count)`. */
  function StoredChars(pages: Pages): nat {
    CharsUpTo(pages, LastPage(pages))
  }

  // ---------------------------------------------------------------------------
  // Steps of one job
  // ---------------------------------------------------------------------------

  function NewWorld(sources: seq<Source>, row: Job): World {
    World(sources, row, map[], map[], map[], [], 0, false)
  }

  predicate Enabled(cfg: Config, now: int, w: World, a: Action) {
    match a
    case Deliver(r) => r !in w.runs && !Terminal(w.row.status)
    case Claim(r, seen, at) => r in w.runs && w.runs[r].Loaded? && seen <= now && at <= now
    case ReadClaim(r) => r in w.runs && w.runs[r].Claimed?
    case FailExhausted(r, at) => r in w.runs && w.runs[r].Exhausted? && at <= now
    case Cancel(r, at) => r in w.runs && w.runs[r].Opening? && at <= now
    case SetTotal(r, at) => r in w.runs && w.runs[r].Opening? && 1 <= |w.sources| && at <= now
    case Resume(r) => r in w.runs && w.runs[r].Sized?
    case Persist(r, late, at) =>
      r in w.runs && w.runs[r].Paging? && 1 <= w.runs[r].next <= |w.sources| && (late ==> cfg.deadlines) && at <= now
    case Finalize(r, at) => r in w.runs && w.runs[r].Paging? && |w.sources| < w.runs[r].next && at <= now
    case Abort(r, permanent, code) =>
      r in w.runs && (w.runs[r].Opening? || w.runs[r].Sized? || w.runs[r].Paging?)
    case EndFailure(r, at) => r in w.runs && w.runs[r].Failing? && at <= now
    case Crash(r) => r in w.runs
    case Heartbeat(at) => at <= now
    case ReadStale(p, seen) => p !in w.stale && seen <= now && Stale(w.row, seen - cfg.staleMs)
    case ActStale(p, seen, at) => p in w.stale && seen <= now && at <= now
    case DropStale(p) => p in w.stale
  }

  function Step(cfg: Config, now: int, w: World, a: Action): World
    requires Enabled(cfg, now, w, a)
  {
    match a
    case Deliver(r) => w.(runs := w.runs[r := Loaded])
    case Claim(r, seen, at) =>
      var row := ClaimRow(w.row, seen - cfg.staleMs, at);
      if Claimable(w.row, seen - cfg.staleMs) then
        w.(row := row, runs := w.runs[r := Claimed(row.attemptCount)])
      else w.(runs := w.runs - {r})
    case ReadClaim(r) =>
      if w.row.attemptCount > w.row.maxAttempts then w.(runs := w.runs[r := Exhausted], lost := w.lost + 1)
      else w.(runs := w.runs[r := Opening(w.row.attemptCount)], starts := w.starts + [w.runs[r].claim])
    case FailExhausted(r, at) => w.(row := FailRow(w.row, WorkerInterrupted, at), runs := w.runs - {r})
    case Cancel(r, at) => w.(row := CancelRow(w.row, DocumentUnavailable, at), runs := w.runs - {r})
    case SetTotal(r, at) =>
      w.(row := SetTotalRow(w.row, |w.sources|, at), runs := w.runs[r := Sized(w.runs[r].attempt)])
    case Resume(r) =>
      w.(runs := w.runs[r := Paging(w.runs[r].attempt, LastPage(w.pages) + 1,
                                    cfg.limits.perDocument - StoredChars(w.pages))])
    case Persist(r, late, at) =>
      var run := w.runs[r];
      var page := ProcessPage(w.sources[run.next - 1], run.budget, cfg.limits.perPage, late);
      var pages := w.pages[run.next := page];
      w.(pages := pages,
         row := CountersRow(w.row, pages, at),
         runs := w.runs[r := run.(next := run.next + 1, budget := run.budget - page.charCount)])
    case Finalize(r, at) =>
      w.(row := FinalizeRow(w.row, w.pages, at),
         finalized := w.finalized || w.row.status == Processing,
         runs := w.runs - {r})
    case Abort(r, permanent, code) => w.(runs := w.runs[r := Failing(w.runs[r].attempt, permanent, code)])
    case EndFailure(r, at) =>
      var run := w.runs[r];
      w.(row := if run.permanent || run.attempt >= w.row.maxAttempts then FailRow(w.row, run.code, at)
                else RequeueRow(w.row, run.code, at),
         runs := w.runs - {r})
    case Crash(r) => w.(runs := w.runs - {r}, lost := if w.runs[r].Claimed? then w.lost + 1 else w.lost)
    case Heartbeat(at) => w.(row := HeartbeatRow(w.row, at))
    case ReadStale(p, seen) => w.(stale := w.stale[p := Snapshot(w.row.attemptCount, w.row.maxAttempts)])
    case ActStale(p, seen, at) =>
      w.(row := if w.stale[p].attemptCount >= w.stale[p].maxAttempts then FailRow(w.row, WorkerInterrupted, at)
                else RecoverRow(w.row, seen - cfg.staleMs, at),
         stale := w.stale - {p})
    case DropStale(p) => w.(stale := w.stale - {p})
  }

  /**
   The lease is respected: no live call lets the heartbeat of the row it holds
   grow older than `staleMs`.
   */
  predicate LeaseKept(cfg: Config, now: int, w: World) {
    w.row.status == Processing && (exists r :: r in w.runs && Holding(w.runs[r])) ==>
      w.row.heartbeatAt.Some? && now - cfg.staleMs <= w.row.heartbeatAt.value
  }

  // ---------------------------------------------------------------------------
  // Any number of jobs under one clock
  // ---------------------------------------------------------------------------

  datatype System = System(now: int, worlds: map<JobId, World>)

  datatype Move =
    | Tick(now: int)
    | Create(job: JobId, sources: seq<Source>, row: Job)
    | At(job: JobId, action: Action)

  function Start(now: int): System {
    System(now, map[])
  }

  ghost predicate CanMove(cfg: Config, s: System, m: Move) {
    match m
    case Tick(now) => s.now <= now
    case Create(j, sources, row) =>
      && j !in s.worlds
      && row == NewJob(row.documentId, row.userId, row.language, row.maxAttempts, row.createdAt)
    case At(j, a) => j in s.worlds && Enabled(cfg, s.now, s.worlds[j], a)
  }

  ghost function Moved(cfg: Config, s: System, m: Move): System
    requires CanMove(cfg, s, m)
  {
    match m
    case Tick(now) => s.(now := now)
    case Create(j, sources, row) => s.(worlds := s.worlds[j := NewWorld(sources, row)])
    case At(j, a) => s.(worlds := s.worlds[j := Step(cfg, s.now, s.worlds[j], a)])
  }

  /** `states` is a run: it starts without jobs and every state follows from the one before by a move. */
  ghost predicate IsRun(cfg: Config, states: seq<System>) {
    states != [] && states[0] == Start(states[0].now) && History(states, Next(cfg))
  }

  ghost function Next(cfg: Config): (System, System) -> bool {
    (s, t) => Follows(cfg, s, t)
  }

  ghost predicate Follows(cfg: Config, s: System, t: System) {
    exists m :: CanMove(cfg, s, m) && t == Moved(cfg, s, m)
  }

  ghost predicate LeaseRespecting(cfg: Config, states: seq<System>) {
    forall i, j :: 0 <= i < |states| && j in states[i].worlds ==> LeaseKept(cfg, states[i].now, states[i].worlds[j])
  }
}
