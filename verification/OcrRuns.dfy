/** The guarantees of the OCR job protocol over whole runs of any number of jobs. */
module OcrRuns {
  import opened Wrappers
  import opened Histories
  import opened OcrRows
  import opened OcrExtraction
  import opened OcrProtocol
  import opened OcrPageOrder
  import opened OcrAttempts
  import opened OcrLease
  import opened OcrLedger

  // ---------------------------------------------------------------------------
  // Every run
  // ---------------------------------------------------------------------------

  ghost predicate AlwaysHolds(w: World) {
    PagesInv(w) && AttemptsInv(w) && ClaimsAccounted(w)
  }

  lemma MoveKeepsAlways(cfg: Config, s: System, m: Move, j: JobId)
    requires CanMove(cfg, s, m) && j in Moved(cfg, s, m).worlds
    requires j in s.worlds ==> AlwaysHolds(s.worlds[j])
    ensures AlwaysHolds(Moved(cfg, s, m).worlds[j])
  {
    match m
    case Tick(now) =>
    case Create(k, sources, row) =>
      if k == j {
        NewWorldPages(sources, row);
        NewWorldAttempts(sources, row);
        assert Pending(NewWorld(sources, row).runs) == {};
      }
    case At(k, a) =>
      if k == j {
        StepKeepsPages(cfg, s.now, s.worlds[j], a);
        StepKeepsAttempts(cfg, s.now, s.worlds[j], a);
        StepKeepsAccount(cfg, s.now, s.worlds[j], a);
      }
  }

  lemma EveryRunKeeps(cfg: Config, states: seq<System>, i: nat, j: JobId)
    requires IsRun(cfg, states) && i < |states| && j in states[i].worlds
    ensures AlwaysHolds(states[i].worlds[j])
  {
    var inv := (s: System) => j in s.worlds ==> AlwaysHolds(s.worlds[j]);
    forall s, t | inv(s) && Next(cfg)(s, t)
      ensures inv(t)
    {
      var m :| CanMove(cfg, s, m) && t == Moved(cfg, s, m);
      if j in t.worlds {
        MoveKeepsAlways(cfg, s, m, j);
      }
    }
    HistoryKeeps(states, Next(cfg), s => true, inv, 0, i);
  }

  /**
   In every run, lease-respecting or not: the persisted pages are exactly 1..k
   with k within the file, no call is more than one page ahead of them, the
   reported progress stays within the total, and a job that `finalize` made
   terminal has every page of its file.
   */
  lemma PagesInOrder(cfg: Config, states: seq<System>, i: nat, j: JobId)
    requires IsRun(cfg, states) && i < |states| && j in states[i].worlds
    ensures var w := states[i].worlds[j];
            && |w.pages| <= |w.sources|
            && (forall n :: n in w.pages <==> 1 <= n <= |w.pages|)
            && (forall r :: r in w.runs && w.runs[r].Paging? ==> 1 <= w.runs[r].next <= |w.pages| + 1)
            && (w.row.totalPages.Some? ==> w.row.processedPages <= w.row.totalPages.value)
            && (w.row.status in {Completed, Partial} || w.finalized ==>
                  forall n :: n in w.pages <==> 1 <= n <= |w.sources|)
  {
    EveryRunKeeps(cfg, states, i, j);
  }

  /** In every run at most `maxAttempts` claims of a job go on to run extraction. */
  lemma ExtractionRunsBounded(cfg: Config, states: seq<System>, i: nat, j: JobId)
    requires IsRun(cfg, states) && i < |states| && j in states[i].worlds
    ensures |states[i].worlds[j].starts| <= states[i].worlds[j].row.maxAttempts
  {
    EveryRunKeeps(cfg, states, i, j);
    StartsBounded(states[i].worlds[j]);
  }

  /**
   In every run the attempt counter is the number of claims that started
   extraction, were lost before that or are still pending; so it passes the
   budget exactly when the unstarted ones outnumber what the started ones left
   of it.
   */
  lemma CounterAccountsForClaims(cfg: Config, states: seq<System>, i: nat, j: JobId)
    requires IsRun(cfg, states) && i < |states| && j in states[i].worlds
    ensures var w := states[i].worlds[j];
            && w.row.attemptCount == |w.starts| + w.lost + |Pending(w.runs)|
            && |w.starts| <= w.row.maxAttempts
            && (w.row.attemptCount > w.row.maxAttempts <==>
                w.lost + |Pending(w.runs)| > w.row.maxAttempts - |w.starts|)
  {
    EveryRunKeeps(cfg, states, i, j);
    StartsBounded(states[i].worlds[j]);
  }

  lemma MoveKeepsTerminalRow(cfg: Config, s: System, m: Move, j: JobId)
    requires CanMove(cfg, s, m) && j in s.worlds && Terminal(s.worlds[j].row.status)
    ensures j in Moved(cfg, s, m).worlds && Moved(cfg, s, m).worlds[j].row == s.worlds[j].row
  {
    if m.At? && m.job == j {
      StepKeepsTerminalRow(cfg, s.now, s.worlds[j], m.action);
    }
  }

  /** In every run a terminal row keeps all its columns for good. */
  lemma TerminalForever(cfg: Config, states: seq<System>, i: nat, k: nat, j: JobId)
    requires IsRun(cfg, states) && i <= k < |states|
    requires j in states[i].worlds && Terminal(states[i].worlds[j].row.status)
    ensures j in states[k].worlds && states[k].worlds[j].row == states[i].worlds[j].row
  {
    var row := states[i].worlds[j].row;
    var inv := (s: System) => j in s.worlds && s.worlds[j].row == row;
    forall s, t | inv(s) && Next(cfg)(s, t)
      ensures inv(t)
    {
      var m :| CanMove(cfg, s, m) && t == Moved(cfg, s, m);
      MoveKeepsTerminalRow(cfg, s, m, j);
    }
    HistoryKeeps(states, Next(cfg), s => true, inv, i, k);
  }

  // ---------------------------------------------------------------------------
  // Lease-respecting runs
  // ---------------------------------------------------------------------------

  ghost predicate LeasedHolds(cfg: Config, w: World) {
    PagesInv(w) && LeaseInv(w) && LedgerInv(cfg, w)
  }

  lemma MoveKeepsLeased(cfg: Config, s: System, m: Move, j: JobId)
    requires CanMove(cfg, s, m) && j in Moved(cfg, s, m).worlds
    requires j in s.worlds ==> LeasedHolds(cfg, s.worlds[j]) && LeaseKept(cfg, s.now, s.worlds[j])
    ensures LeasedHolds(cfg, Moved(cfg, s, m).worlds[j])
  {
    match m
    case Tick(now) =>
    case Create(k, sources, row) =>
      if k == j {
        NewWorldPages(sources, row);
        NewWorldLease(sources, row);
        NewWorldLedger(cfg, sources, row);
      }
    case At(k, a) =>
      if k == j {
        StepKeepsPages(cfg, s.now, s.worlds[j], a);
        StepKeepsLease(cfg, s.now, s.worlds[j], a);
        StepKeepsLedger(cfg, s.now, s.worlds[j], a);
      }
  }

  /** The lease was respected in every state before `i`. */
  ghost predicate LeasedBefore(cfg: Config, states: seq<System>, i: nat, j: JobId)
    requires i <= |states|
  {
    forall m :: 0 <= m < i && j in states[m].worlds ==> LeaseKept(cfg, states[m].now, states[m].worlds[j])
  }

  lemma LeasedRunKeeps(cfg: Config, states: seq<System>, i: nat, j: JobId)
    requires IsRun(cfg, states) && i < |states| && LeasedBefore(cfg, states, i, j) && j in states[i].worlds
    ensures LeasedHolds(cfg, states[i].worlds[j])
  {
    var kept := (s: System) => j in s.worlds ==> LeaseKept(cfg, s.now, s.worlds[j]);
    var inv := (s: System) => j in s.worlds ==> LeasedHolds(cfg, s.worlds[j]);
    forall s, t | kept(s) && inv(s) && Next(cfg)(s, t)
      ensures inv(t)
    {
      var m :| CanMove(cfg, s, m) && t == Moved(cfg, s, m);
      if j in t.worlds {
        MoveKeepsLeased(cfg, s, m, j);
      }
    }
    HistoryKeeps(states, Next(cfg), kept, inv, 0, i);
  }

  lemma LeaseInEveryState(cfg: Config, states: seq<System>, i: nat, j: JobId)
    requires IsRun(cfg, states) && LeaseRespecting(cfg, states) && i < |states| && j in states[i].worlds
    ensures LeaseInv(states[i].worlds[j])
  {
    LeasedRunKeeps(cfg, states, i, j);
  }

  /**
   In every lease-respecting run at most one call is running a job, and while
   it runs the row is PROCESSING under that call's own attempt.
   */
  lemma OneRunner(cfg: Config, states: seq<System>, i: nat, j: JobId, r: RunId)
    requires IsRun(cfg, states) && LeaseRespecting(cfg, states) && i < |states| && j in states[i].worlds
    requires r in states[i].worlds[j].runs && Running(states[i].worlds[j].runs[r])
    ensures var w := states[i].worlds[j];
            && (forall s :: s in w.runs && Running(w.runs[s]) ==> s == r)
            && w.row.status == Processing
            && w.row.attemptCount == w.runs[r].attempt <= w.row.maxAttempts
  {
    LeasedRunKeeps(cfg, states, i, j);
    var w := states[i].worlds[j];
    assert PhaseFitsRow(w.runs[r], w.row);
  }

  /** The row of a running call changes status only by that call's own step. */
  lemma OnlyTheRunnerEnds(cfg: Config, states: seq<System>, i: nat, j: JobId, r: RunId, m: Move)
    requires IsRun(cfg, states) && LeaseRespecting(cfg, states) && i < |states| && j in states[i].worlds
    requires r in states[i].worlds[j].runs && Running(states[i].worlds[j].runs[r])
    requires CanMove(cfg, states[i], m)
    requires m.At? && m.job == j ==>
      m.action.Heartbeat? || m.action.ReadStale? || m.action.ActStale? || m.action.DropStale? || m.action.run != r
    ensures var w := Moved(cfg, states[i], m).worlds[j];
            r in w.runs && w.runs[r] == states[i].worlds[j].runs[r] && w.row.status == Processing
  {
    LeasedRunKeeps(cfg, states, i, j);
    assert PhaseFitsRow(states[i].worlds[j].runs[r], states[i].worlds[j].row);
    if m.At? && m.job == j {
      OthersCannotEnd(cfg, states[i].now, states[i].worlds[j], m.action, r);
    }
  }

  /**
   In every state of a lease-respecting run the counters equal the page rows,
   the stored text fits the document's budget, and a finalised row says what
   its pages say.
   */
  lemma BooksBalance(cfg: Config, states: seq<System>, i: nat, j: JobId)
    requires IsRun(cfg, states) && LeaseRespecting(cfg, states) && i < |states| && j in states[i].worlds
    ensures var w := states[i].worlds[j];
            && w.row.processedPages == |w.pages|
            && w.row.failedPages == |FailedPages(w.pages)|
            && StoredChars(w.pages) <= cfg.limits.perDocument
            && (w.row.status in {Completed, Partial} || w.finalized ==>
                  && StatusSays(w.row.status, w.pages)
                  && MethodSays(w.row.extractionMethod, w.pages)
                  && w.row.errorCode == FinalError(w.pages))
  {
    LeasedRunKeeps(cfg, states, i, j);
    FinalStatusSays(states[i].worlds[j].pages);
    FinalMethodSays(states[i].worlds[j].pages);
  }

  lemma TerminalPagesFrozen(cfg: Config, now: int, w: World, a: Action)
    requires LeaseInv(w) && Terminal(w.row.status) && Enabled(cfg, now, w, a)
    ensures Step(cfg, now, w, a).pages == w.pages
  {
  }

  lemma MoveFreezesPages(cfg: Config, s: System, m: Move, j: JobId)
    requires CanMove(cfg, s, m) && j in s.worlds && Terminal(s.worlds[j].row.status) && LeaseInv(s.worlds[j])
    ensures j in Moved(cfg, s, m).worlds && Moved(cfg, s, m).worlds[j].pages == s.worlds[j].pages
  {
    if m.At? && m.job == j {
      TerminalPagesFrozen(cfg, s.now, s.worlds[j], m.action);
    }
  }

  /** In a lease-respecting run the pages of a terminal job never change again. */
  lemma PagesFrozen(cfg: Config, states: seq<System>, i: nat, k: nat, j: JobId)
    requires IsRun(cfg, states) && LeaseRespecting(cfg, states) && i <= k < |states|
    requires j in states[i].worlds && Terminal(states[i].worlds[j].row.status)
    ensures j in states[k].worlds && states[k].worlds[j].pages == states[i].worlds[j].pages
  {
    var pages := states[i].worlds[j].pages;
    var leased := (s: System) => j in s.worlds ==> LeaseInv(s.worlds[j]);
    var inv := (s: System) => j in s.worlds && Terminal(s.worlds[j].row.status) && s.worlds[j].pages == pages;
    forall s, t | leased(s) && inv(s) && Next(cfg)(s, t)
      ensures inv(t)
    {
      var m :| CanMove(cfg, s, m) && t == Moved(cfg, s, m);
      MoveFreezesPages(cfg, s, m, j);
      MoveKeepsTerminalRow(cfg, s, m, j);
    }
    forall m | i <= m < k
      ensures leased(states[m])
    {
      if j in states[m].worlds {
        LeaseInEveryState(cfg, states, m, j);
      }
    }
    HistoryKeeps(states, Next(cfg), leased, inv, i, k);
  }

  /**
   Resuming equals an uninterrupted run: if no deadline passes, then however
   often a lease-respecting run crashed and restarted, a finalised job holds
   exactly the pages of one pass over the file.
   */
  lemma ResumeEqualsOnePass(cfg: Config, states: seq<System>, i: nat, j: JobId)
    requires IsRun(cfg, states) && LeaseRespecting(cfg, states) && !cfg.deadlines
    requires i < |states| && j in states[i].worlds
    ensures var w := states[i].worlds[j];
            var pass := Extract(w.sources, cfg.limits.perDocument, cfg.limits.perPage);
            && (forall n :: n in w.pages ==> 1 <= n <= |pass| && w.pages[n] == pass[n - 1])
            && (w.finalized ==> forall n :: n in w.pages <==> 1 <= n <= |pass|)
  {
    LeasedRunKeeps(cfg, states, i, j);
  }

  // ---------------------------------------------------------------------------
  // The lease is needed
  // ---------------------------------------------------------------------------

  /** A second call `s` is delivered, tries to claim with the reading `seen`, and goes on if it can. */
  ghost function SecondTry(cfg: Config, now: int, w: World, s: RunId, seen: int, at: int): World
    requires s !in w.runs && Active(w.row.status) && seen <= now && at <= now
  {
    var claimed := Step(cfg, now, Step(cfg, now, w, Deliver(s)), Claim(s, seen, at));
    if s in claimed.runs then Step(cfg, now, claimed, ReadClaim(s)) else claimed
  }

  lemma SecondTryRuns(cfg: Config, now: int, w: World, r: RunId, s: RunId, seen: int, at: int)
    requires r in w.runs && Running(w.runs[r]) && w.row.status == Processing
    requires s !in w.runs && seen <= now && at <= now
    ensures var t := SecondTry(cfg, now, w, s, seen, at);
            && r in t.runs && t.runs[r] == w.runs[r]
            && (s in t.runs && Running(t.runs[s]) <==>
                Stale(w.row, seen - cfg.staleMs) && w.row.attemptCount < w.row.maxAttempts)
  {
  }

  /**
   Exactly when the guarantee of one runner ends: at a state up to which the
   lease was respected, a second call that reads the current time comes to run
   the job beside the first if and only if the lease is broken there and an
   attempt is left.
   */
  lemma SecondRunnerExactly(cfg: Config, states: seq<System>, i: nat, j: JobId, r: RunId, s: RunId, at: int)
    requires IsRun(cfg, states) && i < |states| && j in states[i].worlds && LeasedBefore(cfg, states, i, j)
    requires r in states[i].worlds[j].runs && Running(states[i].worlds[j].runs[r])
    requires s !in states[i].worlds[j].runs && at <= states[i].now
    ensures var now, w := states[i].now, states[i].worlds[j];
            && w.row.status == Processing
            && var t := SecondTry(cfg, now, w, s, now, at);
               && r in t.runs && Running(t.runs[r])
               && (s in t.runs && Running(t.runs[s]) <==>
                   !LeaseKept(cfg, now, w) && w.row.attemptCount < w.row.maxAttempts)
  {
    LeasedRunKeeps(cfg, states, i, j);
    var w := states[i].worlds[j];
    assert PhaseFitsRow(w.runs[r], w.row);
    assert Holding(w.runs[r]);
    SecondTryRuns(cfg, states[i].now, w, r, s, states[i].now, at);
  }

  // ---------------------------------------------------------------------------
  // Two concrete runs
  // ---------------------------------------------------------------------------

  lemma RunNext(cfg: Config, states: seq<System>, m: Move) returns (longer: seq<System>)
    requires IsRun(cfg, states) && CanMove(cfg, states[|states| - 1], m)
    ensures longer == states + [Moved(cfg, states[|states| - 1], m)] && IsRun(cfg, longer)
  {
    HistoryNext(states, Next(cfg), Moved(cfg, states[|states| - 1], m));
    longer := states + [Moved(cfg, states[|states| - 1], m)];
  }

  /** A call has claimed job 0 at time 0. */
  lemma ClaimedAtZero(cfg: Config, maxAttempts: nat) returns (states: seq<System>)
    ensures IsRun(cfg, states) && |states| == 4 && states[3].now == 0 && states[3].worlds.Keys == {0}
    ensures var w := states[3].worlds[0];
            && w.runs == map[1 := Claimed(1)] && w.starts == []
            && w.row == ClaimRow(NewJob(0, 0, "eng", maxAttempts, 0), 0, 0)
    ensures LeasedBefore(cfg, states, 4, 0)
  {
    states := [Start(0)];
    states := RunNext(cfg, states, Create(0, [], NewJob(0, 0, "eng", maxAttempts, 0)));
    states := RunNext(cfg, states, At(0, Deliver(1)));
    states := RunNext(cfg, states, At(0, Claim(1, 0, 0)));
  }

  /**
   An instance, whatever the length of the lease: the call goes on at time 0 and
   is silent until the lease is over; a second call then runs beside it.
   */
  lemma LostLeaseTwoRunners(cfg: Config) returns (states: seq<System>)
    ensures IsRun(cfg, states) && |states| == 6 && 0 in states[5].worlds && states[5].now == cfg.staleMs + 1
    ensures 1 in states[5].worlds[0].runs && Running(states[5].worlds[0].runs[1])
    ensures 2 !in states[5].worlds[0].runs && Active(states[5].worlds[0].row.status)
    ensures var t := SecondTry(cfg, states[5].now, states[5].worlds[0], 2, states[5].now, states[5].now);
            1 in t.runs && 2 in t.runs && Running(t.runs[1]) && Running(t.runs[2])
  {
    states := ClaimedAtZero(cfg, 3);
    states := RunNext(cfg, states, At(0, ReadClaim(1)));
    states := RunNext(cfg, states, Tick(cfg.staleMs + 1));
    assert LeasedBefore(cfg, states, 5, 0);
    SecondRunnerExactly(cfg, states, 5, 0, 1, 2, states[5].now);
  }

  /** A job with one attempt whose first call dies right after its claim: the second claim passes the budget. */
  lemma CounterPassesBudget(cfg: Config) returns (states: seq<System>)
    ensures IsRun(cfg, states)
    ensures var s := states[|states| - 1];
            && 0 in s.worlds
            && s.worlds[0].row.maxAttempts == 1 && s.worlds[0].row.attemptCount == 2 && s.worlds[0].starts == []
  {
    var later := cfg.staleMs + 1;
    states := ClaimedAtZero(cfg, 1);
    states := RunNext(cfg, states, At(0, Crash(1)));
    states := RunNext(cfg, states, Tick(later));
    states := RunNext(cfg, states, At(0, Deliver(2)));
    states := RunNext(cfg, states, At(0, Claim(2, later, later)));
  }
}
