/**
 The books of a job in lease-respecting runs: counters equal the page rows, a
 finalised row equals what its pages say, stored text stays within the
 document's budget, and the pages are those of one uninterrupted pass.
 */
module OcrLedger {
  import opened Wrappers
  import opened OcrRows
  import opened OcrExtraction
  import opened OcrProtocol
  import opened OcrPageOrder
  import opened OcrLease

  ghost predicate CountersExact(w: World) {
    w.row.processedPages == |w.pages| && w.row.failedPages == |FailedPages(w.pages)|
  }

  /** The call in the page loop continues exactly where the pages and the budget stand. */
  ghost predicate LoopFitsPages(cfg: Config, phase: Phase, pages: Pages) {
    phase.Paging? ==>
      phase.next == |pages| + 1 && phase.budget == cfg.limits.perDocument - StoredChars(pages)
  }

  ghost predicate SummaryFitsPages(w: World) {
    w.finalized ==>
      && w.row.status == FinalStatus(w.pages)
      && w.row.extractionMethod == FinalMethod(w.pages)
      && w.row.errorCode == FinalError(w.pages)
  }

  ghost function OnePass(cfg: Config, w: World): seq<Page> {
    Extract(w.sources, cfg.limits.perDocument, cfg.limits.perPage)
  }

  ghost predicate PagesOfOnePass(cfg: Config, w: World) {
    forall n :: n in w.pages && 1 <= n <= |w.sources| ==> w.pages[n] == OnePass(cfg, w)[n - 1]
  }

  ghost predicate LedgerInv(cfg: Config, w: World) {
    && CountersExact(w)
    && (forall r :: r in w.runs ==> LoopFitsPages(cfg, w.runs[r], w.pages))
    && StoredChars(w.pages) <= cfg.limits.perDocument
    && SummaryFitsPages(w)
    && (!cfg.deadlines ==> PagesOfOnePass(cfg, w))
  }

  lemma NewWorldLedger(cfg: Config, sources: seq<Source>, row: Job)
    requires row == NewJob(row.documentId, row.userId, row.language, row.maxAttempts, row.createdAt)
    ensures LedgerInv(cfg, NewWorld(sources, row))
  {
  }

  lemma {:induction false} CharsUpToFrame(pages: Pages, k: nat, page: Page, n: nat)
    requires n < k
    ensures CharsUpTo(pages[k := page], n) == CharsUpTo(pages, n)
  {
    if 0 < n {
      CharsUpToFrame(pages, k, page, n - 1);
    }
  }

  /** Adding the next page adds its characters. */
  lemma StoredCharsNext(pages: Pages, page: Page)
    requires Gapless(pages)
    ensures StoredChars(pages[|pages| + 1 := page]) == StoredChars(pages) + page.charCount
  {
    var k := |pages|;
    GaplessUpsert(pages, k + 1, page);
    GaplessLast(pages);
    GaplessLast(pages[k + 1 := page]);
    CharsUpToFrame(pages, k + 1, page, k);
  }

  lemma {:induction false} StoredCharsOfPass(pages: Pages, pass: seq<Page>, k: nat)
    requires k <= |pass| && 0 !in pages
    requires forall n :: 1 <= n <= k ==> n in pages && pages[n] == pass[n - 1]
    ensures CharsUpTo(pages, k) == Chars(pass[..k])
  {
    if 0 < k {
      StoredCharsOfPass(pages, pass, k - 1);
      assert pass[..k] == pass[..k - 1] + [pass[k - 1]];
      CharsAppend(pass[..k - 1], pass[k - 1]);
    }
  }

  lemma StoredIsOfPass(cfg: Config, w: World)
    requires Gapless(w.pages) && |w.pages| < |w.sources| && PagesOfOnePass(cfg, w)
    ensures StoredChars(w.pages) == Chars(OnePass(cfg, w)[..|w.pages|])
  {
    GaplessLast(w.pages);
    StoredCharsOfPass(w.pages, OnePass(cfg, w), |w.pages|);
  }

  /** The page persisted next is the page one pass stores there. */
  lemma NextPageOfPass(cfg: Config, w: World, budget: int)
    requires Gapless(w.pages) && |w.pages| < |w.sources| && PagesOfOnePass(cfg, w)
    requires budget == cfg.limits.perDocument - StoredChars(w.pages)
    ensures ProcessPage(w.sources[|w.pages|], budget, cfg.limits.perPage, false) == OnePass(cfg, w)[|w.pages|]
  {
    StoredIsOfPass(cfg, w);
    PageAfter(w.sources, |w.pages|, cfg.limits.perDocument, cfg.limits.perPage, budget);
  }

  /** Appending a page that fits the budget keeps the total within the limit. */
  lemma AppendKeepsBudget(cfg: Config, pages: Pages, page: Page)
    requires Gapless(pages) && StoredChars(pages) <= cfg.limits.perDocument
    requires 0 < page.charCount ==> page.charCount <= cfg.limits.perDocument - StoredChars(pages)
    ensures var next := pages[|pages| + 1 := page];
            && |next| == |pages| + 1
            && StoredChars(next) == StoredChars(pages) + page.charCount <= cfg.limits.perDocument
  {
    GaplessUpsert(pages, |pages| + 1, page);
    StoredCharsNext(pages, page);
  }

  lemma AppendKeepsPass(cfg: Config, w: World, t: World, page: Page)
    requires Gapless(w.pages) && |w.pages| < |w.sources| && PagesOfOnePass(cfg, w)
    requires page == OnePass(cfg, w)[|w.pages|]
    requires t.pages == w.pages[|w.pages| + 1 := page] && t.sources == w.sources
    ensures PagesOfOnePass(cfg, t)
  {
  }

  /** A persisted page belongs to the only call that holds the job. */
  lemma OnlyPager(cfg: Config, w: World, r: RunId, s: RunId)
    requires LeaseInv(w) && r in w.runs && Holding(w.runs[r]) && s in w.runs && s != r
    ensures w.runs[s].Loaded?
  {
    assert !Holding(w.runs[s]);
  }

  /** Storing the next page moves the counters and the page loop along with it. */
  lemma AppendKeepsLedger(cfg: Config, w: World, t: World, r: RunId, page: Page, at: int)
    requires PagesInv(w) && LeaseInv(w) && LedgerInv(cfg, w)
    requires r in w.runs && w.runs[r].Paging?
    requires t.pages == w.pages[w.runs[r].next := page] && |t.pages| == |w.pages| + 1 <= |w.sources|
    requires t.runs == w.runs[r := w.runs[r].(next := w.runs[r].next + 1, budget := w.runs[r].budget - page.charCount)]
    requires t == w.(pages := t.pages, runs := t.runs, row := CountersRow(w.row, t.pages, at))
    requires StoredChars(t.pages) == StoredChars(w.pages) + page.charCount <= cfg.limits.perDocument
    requires !cfg.deadlines ==> PagesOfOnePass(cfg, t)
    ensures LedgerInv(cfg, t)
  {
    assert PhaseFitsRow(w.runs[r], w.row) && LoopFitsPages(cfg, w.runs[r], w.pages);
    assert !w.finalized;
    forall s | s in t.runs
      ensures LoopFitsPages(cfg, t.runs[s], t.pages)
    {
      if s != r {
        OnlyPager(cfg, w, r, s);
      }
    }
  }

  lemma NextOfLoop(cfg: Config, w: World, r: RunId)
    requires PagesInv(w) && LedgerInv(cfg, w) && r in w.runs && w.runs[r].Paging?
    ensures Gapless(w.pages) && w.runs[r].next == |w.pages| + 1
    ensures w.runs[r].budget == cfg.limits.perDocument - StoredChars(w.pages)
    ensures StoredChars(w.pages) <= cfg.limits.perDocument
    ensures !cfg.deadlines ==> PagesOfOnePass(cfg, w)
  {
    assert LoopFitsPages(cfg, w.runs[r], w.pages);
  }

  lemma AppendedPages(cfg: Config, w: World, t: World, r: RunId, late: bool, page: Page)
    requires PagesInv(w) && LedgerInv(cfg, w) && (late ==> cfg.deadlines)
    requires r in w.runs && w.runs[r].Paging? && 1 <= w.runs[r].next <= |w.sources| && t.sources == w.sources
    requires page == ProcessPage(w.sources[w.runs[r].next - 1], w.runs[r].budget, cfg.limits.perPage, late)
    requires t.pages == w.pages[w.runs[r].next := page]
    ensures |t.pages| == |w.pages| + 1 <= |w.sources|
    ensures StoredChars(t.pages) == StoredChars(w.pages) + page.charCount <= cfg.limits.perDocument
    ensures !cfg.deadlines ==> PagesOfOnePass(cfg, t)
  {
    NextOfLoop(cfg, w, r);
    AppendKeepsBudget(cfg, w.pages, page);
    if !cfg.deadlines {
      NextPageOfPass(cfg, w, w.runs[r].budget);
      AppendKeepsPass(cfg, w, t, page);
    }
  }

  lemma PersistWrites(cfg: Config, now: int, w: World, a: Action) returns (page: Page, t: World)
    requires a.Persist? && Enabled(cfg, now, w, a)
    ensures t == Step(cfg, now, w, a)
    ensures page == ProcessPage(w.sources[w.runs[a.run].next - 1], w.runs[a.run].budget, cfg.limits.perPage, a.late)
    ensures t.pages == w.pages[w.runs[a.run].next := page]
    ensures var run := w.runs[a.run];
            t.runs == w.runs[a.run := run.(next := run.next + 1, budget := run.budget - page.charCount)]
    ensures t == w.(pages := t.pages, runs := t.runs, row := CountersRow(w.row, t.pages, a.at))
  {
    page := ProcessPage(w.sources[w.runs[a.run].next - 1], w.runs[a.run].budget, cfg.limits.perPage, a.late);
    t := Step(cfg, now, w, a);
  }

  lemma PersistKeepsLedger(cfg: Config, w: World, t: World, r: RunId, late: bool, at: int, page: Page)
    requires PagesInv(w) && LeaseInv(w) && LedgerInv(cfg, w) && (late ==> cfg.deadlines)
    requires r in w.runs && w.runs[r].Paging? && 1 <= w.runs[r].next <= |w.sources|
    requires page == ProcessPage(w.sources[w.runs[r].next - 1], w.runs[r].budget, cfg.limits.perPage, late)
    requires t.pages == w.pages[w.runs[r].next := page]
    requires t.runs == w.runs[r := w.runs[r].(next := w.runs[r].next + 1, budget := w.runs[r].budget - page.charCount)]
    requires t == w.(pages := t.pages, runs := t.runs, row := CountersRow(w.row, t.pages, at))
    ensures LedgerInv(cfg, t)
  {
    AppendedPages(cfg, w, t, r, late, page);
    AppendKeepsLedger(cfg, w, t, r, page, at);
  }

  /** A step that writes no page keeps the books when it writes no counter either. */
  lemma NoPageKeepsLedger(cfg: Config, w: World, t: World)
    requires LedgerInv(cfg, w) && t.sources == w.sources && t.pages == w.pages
    requires CountersExact(t) && SummaryFitsPages(t)
    requires forall r :: r in t.runs && t.runs[r].Paging? ==> r in w.runs && t.runs[r] == w.runs[r]
    ensures LedgerInv(cfg, t)
  {
  }

  lemma ResumeKeepsLedger(cfg: Config, now: int, w: World, r: RunId)
    requires PagesInv(w) && LedgerInv(cfg, w) && Enabled(cfg, now, w, Resume(r))
    ensures LedgerInv(cfg, Step(cfg, now, w, Resume(r)))
  {
    GaplessLast(w.pages);
  }

  lemma QuietKeepsLedger(cfg: Config, now: int, w: World, a: Action)
    requires PagesInv(w) && LedgerInv(cfg, w) && Enabled(cfg, now, w, a)
    requires !a.Persist? && !a.Resume? && !a.Finalize?
    ensures LedgerInv(cfg, Step(cfg, now, w, a))
  {
    QuietStep(cfg, now, w, a);
    if w.finalized {
      StepKeepsTerminalRow(cfg, now, w, a);
    }
    NoPageKeepsLedger(cfg, w, Step(cfg, now, w, a));
  }

  lemma FinalizeKeepsLedger(cfg: Config, w: World, t: World, r: RunId, at: int)
    requires PagesInv(w) && LedgerInv(cfg, w) && r in w.runs
    requires t == w.(row := FinalizeRow(w.row, w.pages, at),
                     finalized := w.finalized || w.row.status == Processing,
                     runs := w.runs - {r})
    ensures LedgerInv(cfg, t)
  {
    NoPageKeepsLedger(cfg, w, t);
  }

  /** Every step of a lease-respecting run keeps the books. */
  lemma StepKeepsLedger(cfg: Config, now: int, w: World, a: Action)
    requires PagesInv(w) && LeaseInv(w) && LedgerInv(cfg, w) && Enabled(cfg, now, w, a)
    ensures LedgerInv(cfg, Step(cfg, now, w, a))
  {
    if a.Persist? {
      var page, t := PersistWrites(cfg, now, w, a);
      PersistKeepsLedger(cfg, w, t, a.run, a.late, a.at, page);
    } else if a.Resume? {
      ResumeKeepsLedger(cfg, now, w, a.run);
    } else if a.Finalize? {
      FinalizeKeepsLedger(cfg, w, Step(cfg, now, w, a), a.run, a.at);
    } else {
      QuietKeepsLedger(cfg, now, w, a);
    }
  }
}
