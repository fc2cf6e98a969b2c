/**
 What the columns of jobs and pages mean over whole runs: what a page holds, and
 when a job has a start, an end, a total and which error.
 */
module OcrColumns {
  import opened Wrappers
  import opened Histories
  import opened OcrRows
  import opened OcrExtraction
  import opened OcrProtocol
  import opened OcrPageOrder
  import opened OcrLease
  import opened OcrRuns

  // ---------------------------------------------------------------------------
  // Every run
  // ---------------------------------------------------------------------------

  /** The page is what the file says, or timed out where deadlines can pass. */
  predicate ShowsSource(cfg: Config, source: Source, page: Page) {
    PageOf(source, false, page) || (cfg.deadlines && PageOf(source, true, page))
  }

  ghost predicate PagesOfTheFile(cfg: Config, w: World) {
    forall n :: n in w.pages && 1 <= n <= |w.sources| ==> ShowsSource(cfg, w.sources[n - 1], w.pages[n])
  }

  /** A job has an end exactly when it is over, a start exactly when it was claimed; only a lost document cancels it. */
  predicate RowColumns(row: Job) {
    && (row.completedAt.Some? <==> Terminal(row.status))
    && (row.startedAt.Some? <==> 0 < row.attemptCount)
    && (row.status == Cancelled ==> row.errorCode == Some(DocumentUnavailable))
    && (row.extractionMethod.Some? ==> row.status in {Completed, Partial, Failed})
  }

  ghost predicate ColumnsInv(cfg: Config, w: World) {
    RowColumns(w.row) && PagesOfTheFile(cfg, w)
  }

  lemma PersistKeepsPagesOfTheFile(cfg: Config, now: int, w: World, r: RunId, late: bool, at: int)
    requires PagesOfTheFile(cfg, w) && Enabled(cfg, now, w, Persist(r, late, at))
    ensures PagesOfTheFile(cfg, Step(cfg, now, w, Persist(r, late, at)))
  {
    var run := w.runs[r];
    ProcessPageIsPageOf(w.sources[run.next - 1], run.budget, cfg.limits.perPage, late);
  }

  lemma OthersKeepPages(cfg: Config, now: int, w: World, a: Action)
    requires Enabled(cfg, now, w, a) && !a.Persist?
    ensures Step(cfg, now, w, a).pages == w.pages && Step(cfg, now, w, a).sources == w.sources
  {
  }

  /** The columns are as they should be, and a start that was set stays. */
  predicate ColumnsKept(row: Job, next: Job) {
    RowColumns(row) ==> RowColumns(next) && (row.startedAt.Some? ==> next.startedAt == row.startedAt)
  }

  lemma UpdatesKeepColumns(row: Job, pages: Pages, cutoff: int, total: nat, at: int)
    ensures ColumnsKept(row, ClaimRow(row, cutoff, at)) && ColumnsKept(row, HeartbeatRow(row, at))
    ensures ColumnsKept(row, SetTotalRow(row, total, at)) && ColumnsKept(row, CountersRow(row, pages, at))
    ensures ColumnsKept(row, RecoverRow(row, cutoff, at)) && ColumnsKept(row, CancelRow(row, DocumentUnavailable, at))
  {
  }

  lemma EndingsKeepColumns(row: Job, pages: Pages, code: ErrorCode, at: int)
    ensures ColumnsKept(row, FailRow(row, code, at)) && ColumnsKept(row, RequeueRow(row, code, at))
    ensures ColumnsKept(row, FinalizeRow(row, pages, at))
  {
  }

  lemma EndingStepsKeepRowColumns(cfg: Config, now: int, w: World, a: Action)
    requires Enabled(cfg, now, w, a) && (a.FailExhausted? || a.Finalize? || a.EndFailure? || a.ActStale?)
    ensures ColumnsKept(w.row, Step(cfg, now, w, a).row)
  {
    match a
    case FailExhausted(r, at) => EndingsKeepColumns(w.row, w.pages, WorkerInterrupted, at);
    case Finalize(r, at) => EndingsKeepColumns(w.row, w.pages, WorkerInterrupted, at);
    case EndFailure(r, at) => EndingsKeepColumns(w.row, w.pages, w.runs[r].code, at);
    case ActStale(p, seen, at) =>
      EndingsKeepColumns(w.row, w.pages, WorkerInterrupted, at);
      UpdatesKeepColumns(w.row, w.pages, seen - cfg.staleMs, 0, at);
  }

  lemma PersistKeepsRowColumns(cfg: Config, now: int, w: World, r: RunId, late: bool, at: int)
    requires Enabled(cfg, now, w, Persist(r, late, at))
    ensures ColumnsKept(w.row, Step(cfg, now, w, Persist(r, late, at)).row)
  {
    UpdatesKeepColumns(w.row, Step(cfg, now, w, Persist(r, late, at)).pages, 0, 0, at);
  }

  lemma StepKeepsRowColumns(cfg: Config, now: int, w: World, a: Action)
    requires Enabled(cfg, now, w, a)
    ensures ColumnsKept(w.row, Step(cfg, now, w, a).row)
  {
    if a.FailExhausted? || a.Finalize? || a.EndFailure? || a.ActStale? {
      EndingStepsKeepRowColumns(cfg, now, w, a);
    } else if a.Persist? {
      PersistKeepsRowColumns(cfg, now, w, a.run, a.late, a.at);
    } else if a.Claim? {
      UpdatesKeepColumns(w.row, w.pages, a.seen - cfg.staleMs, 0, a.at);
    } else if a.Cancel? || a.SetTotal? || a.Heartbeat? {
      UpdatesKeepColumns(w.row, w.pages, 0, |w.sources|, a.at);
    } else {
      QuietRow(cfg, now, w, a);
    }
  }

  lemma QuietRow(cfg: Config, now: int, w: World, a: Action)
    requires Enabled(cfg, now, w, a)
    requires a.Deliver? || a.ReadClaim? || a.Resume? || a.Abort? || a.Crash? || a.ReadStale? || a.DropStale?
    ensures Step(cfg, now, w, a).row == w.row
  {
  }

  lemma StepKeepsColumns(cfg: Config, now: int, w: World, a: Action)
    requires ColumnsInv(cfg, w) && Enabled(cfg, now, w, a)
    ensures ColumnsInv(cfg, Step(cfg, now, w, a))
  {
    StepKeepsRowColumns(cfg, now, w, a);
    if a.Persist? {
      PersistKeepsPagesOfTheFile(cfg, now, w, a.run, a.late, a.at);
    } else {
      OthersKeepPages(cfg, now, w, a);
    }
  }

  lemma EveryRunKeepsColumns(cfg: Config, states: seq<System>, i: nat, j: JobId)
    requires IsRun(cfg, states) && i < |states| && j in states[i].worlds
    ensures ColumnsInv(cfg, states[i].worlds[j])
  {
    var inv := (s: System) => j in s.worlds ==> ColumnsInv(cfg, s.worlds[j]);
    forall s, t | inv(s) && Next(cfg)(s, t)
      ensures inv(t)
    {
      var m :| CanMove(cfg, s, m) && t == Moved(cfg, s, m);
      if m.At? && m.job == j {
        StepKeepsColumns(cfg, s.now, s.worlds[j], m.action);
      }
    }
    HistoryKeeps(states, Next(cfg), s => true, inv, 0, i);
  }

  /**
   In every run every stored page is what the tools report of the file: the
   native text where it is usable, else what was recognised, or the failure.
   */
  lemma PagesShowTheFile(cfg: Config, states: seq<System>, i: nat, j: JobId, n: nat)
    requires IsRun(cfg, states) && i < |states| && j in states[i].worlds && n in states[i].worlds[j].pages
    ensures var w := states[i].worlds[j];
            && 1 <= n <= |w.sources|
            && (PageOf(w.sources[n - 1], false, w.pages[n])
                || (cfg.deadlines && PageOf(w.sources[n - 1], true, w.pages[n])))
            && (w.pages[n].status == PageFailed <==> w.pages[n].errorCode.Some?)
  {
    EveryRunKeepsColumns(cfg, states, i, j);
    PagesInOrder(cfg, states, i, j);
    assert ShowsSource(cfg, states[i].worlds[j].sources[n - 1], states[i].worlds[j].pages[n]);
  }

  /**
   In every run `completedAt` is set exactly on terminal rows and `startedAt`
   exactly on claimed ones, and a CANCELLED row says that its document was gone.
   */
  lemma TimesSayTheStatus(cfg: Config, states: seq<System>, i: nat, j: JobId)
    requires IsRun(cfg, states) && i < |states| && j in states[i].worlds
    ensures var row := states[i].worlds[j].row;
            && (row.completedAt.Some? <==> Terminal(row.status))
            && (row.startedAt.Some? <==> 0 < row.attemptCount)
            && (row.status == Cancelled ==> row.errorCode == Some(DocumentUnavailable))
  {
    EveryRunKeepsColumns(cfg, states, i, j);
  }

  /** Once set, `startedAt` never changes. */
  lemma StartedOnce(cfg: Config, states: seq<System>, i: nat, k: nat, j: JobId)
    requires IsRun(cfg, states) && i <= k < |states| && j in states[i].worlds
    requires states[i].worlds[j].row.startedAt.Some?
    ensures j in states[k].worlds && states[k].worlds[j].row.startedAt == states[i].worlds[j].row.startedAt
  {
    var started := states[i].worlds[j].row.startedAt;
    var inv := (s: System) => j in s.worlds && RowColumns(s.worlds[j].row) && s.worlds[j].row.startedAt == started;
    EveryRunKeepsColumns(cfg, states, i, j);
    forall s, t | inv(s) && Next(cfg)(s, t)
      ensures inv(t)
    {
      var m :| CanMove(cfg, s, m) && t == Moved(cfg, s, m);
      if m.At? && m.job == j {
        StepKeepsRowColumns(cfg, s.now, s.worlds[j], m.action);
      }
    }
    HistoryKeeps(states, Next(cfg), s => true, inv, i, k);
  }

  // ---------------------------------------------------------------------------
  // Lease-respecting runs
  // ---------------------------------------------------------------------------

  /** Whoever makes pages has stored the total, and a finalised job has it. */
  ghost predicate TotalInv(w: World) {
    && (forall r :: r in w.runs && (w.runs[r].Sized? || w.runs[r].Paging?) ==> w.row.totalPages == Some(|w.sources|))
    && (w.finalized ==> w.row.totalPages == Some(|w.sources|))
  }

  lemma TotalStays(cfg: Config, now: int, w: World, a: Action)
    requires Enabled(cfg, now, w, a) && w.row.totalPages == Some(|w.sources|)
    ensures Step(cfg, now, w, a).row.totalPages == Some(|w.sources|) && Step(cfg, now, w, a).sources == w.sources
  {
  }

  lemma PhasesStay(cfg: Config, now: int, w: World, a: Action, r: RunId)
    requires Enabled(cfg, now, w, a) && !a.SetTotal? && r in Step(cfg, now, w, a).runs
    requires Step(cfg, now, w, a).runs[r].Sized? || Step(cfg, now, w, a).runs[r].Paging?
    ensures r in w.runs && (w.runs[r].Sized? || w.runs[r].Paging?)
  {
  }

  lemma SetTotalKeepsTotal(cfg: Config, now: int, w: World, r: RunId, at: int)
    requires LeaseInv(w) && TotalInv(w) && Enabled(cfg, now, w, SetTotal(r, at))
    ensures TotalInv(Step(cfg, now, w, SetTotal(r, at)))
  {
    assert PhaseFitsRow(w.runs[r], w.row);
  }

  lemma StepKeepsTotal(cfg: Config, now: int, w: World, a: Action)
    requires LeaseInv(w) && TotalInv(w) && Enabled(cfg, now, w, a)
    ensures TotalInv(Step(cfg, now, w, a))
  {
    var t := Step(cfg, now, w, a);
    if a.SetTotal? {
      SetTotalKeepsTotal(cfg, now, w, a.run, a.at);
    } else {
      if w.row.totalPages == Some(|w.sources|) {
        TotalStays(cfg, now, w, a);
      } else {
        forall r | r in t.runs && (t.runs[r].Sized? || t.runs[r].Paging?)
          ensures false
        {
          PhasesStay(cfg, now, w, a, r);
        }
      }
    }
  }

  /** In a lease-respecting run a job whose pages are being made, or that was finalised, shows the file's page count. */
  lemma TotalIsStored(cfg: Config, states: seq<System>, i: nat, j: JobId)
    requires IsRun(cfg, states) && LeaseRespecting(cfg, states) && i < |states| && j in states[i].worlds
    ensures var w := states[i].worlds[j];
            && (w.finalized || w.row.status in {Completed, Partial} ==> w.row.totalPages == Some(|w.sources|))
            && (forall r :: r in w.runs && w.runs[r].Paging? ==> w.row.totalPages == Some(|w.sources|))
  {
    var leased := (s: System) => j in s.worlds ==> LeaseInv(s.worlds[j]);
    var inv := (s: System) => j in s.worlds ==> TotalInv(s.worlds[j]);
    forall s, t | leased(s) && inv(s) && Next(cfg)(s, t)
      ensures inv(t)
    {
      var m :| CanMove(cfg, s, m) && t == Moved(cfg, s, m);
      if m.At? && m.job == j {
        StepKeepsTotal(cfg, s.now, s.worlds[j], m.action);
      }
    }
    forall m | 0 <= m < i
      ensures leased(states[m])
    {
      if j in states[m].worlds {
        LeaseInEveryState(cfg, states, m, j);
      }
    }
    HistoryKeeps(states, Next(cfg), leased, inv, 0, i);
    EveryRunKeeps(cfg, states, i, j);
  }

  /** In a lease-respecting run the error of a finalised job is the error of one of its failed pages. */
  lemma ErrorIsOfAPage(cfg: Config, states: seq<System>, i: nat, j: JobId)
    requires IsRun(cfg, states) && LeaseRespecting(cfg, states) && i < |states| && j in states[i].worlds
    requires states[i].worlds[j].finalized
    ensures var w := states[i].worlds[j];
            && (w.row.errorCode.Some? <==> exists n :: n in w.pages && w.pages[n].status == PageFailed)
            && (w.row.errorCode.Some? ==>
                  exists n :: n in w.pages && w.pages[n].status == PageFailed
                              && w.pages[n].errorCode == w.row.errorCode)
  {
    BooksBalance(cfg, states, i, j);
    var w := states[i].worlds[j];
    if w.row.errorCode.Some? {
      var code := w.row.errorCode.value;
      assert IsDominant(w.pages, code);
      var n :| n in FailedWith(w.pages, code);
      PagesShowTheFile(cfg, states, i, j, n);
      assert n in w.pages && w.pages[n].status == PageFailed && w.pages[n].errorCode == w.row.errorCode;
    }
    if n :| n in w.pages && w.pages[n].status == PageFailed {
      assert n in FailedPages(w.pages);
    }
  }
}
