/**
 What holds of the page rows in every run, whether or not workers keep their
 lease: pages are persisted in order and without gaps, and a job is finalised
 only over all of them.
 */
module OcrPageOrder {
  import opened Wrappers
  import opened OcrRows
  import opened OcrExtraction
  import opened OcrProtocol

  /** The persisted page numbers are exactly 1..k. */
  ghost predicate Gapless(pages: Pages) {
    forall n :: n in pages <==> 1 <= n <= |pages|
  }

  /** A call in the page loop is at most one page beyond what is persisted. */
  ghost predicate RunsInOrder(w: World) {
    forall r :: r in w.runs && w.runs[r].Paging? ==> 1 <= w.runs[r].next <= |w.pages| + 1
  }

  ghost predicate PagesInv(w: World) {
    && Gapless(w.pages)
    && |w.pages| <= |w.sources|
    && RunsInOrder(w)
    && (w.row.totalPages.Some? ==> w.row.totalPages.value == |w.sources|)
    && w.row.processedPages <= |w.sources|
    && (w.row.status in {Completed, Partial} ==> w.finalized)
    && (w.finalized ==> w.row.status in {Completed, Partial, Failed} && |w.pages| == |w.sources|)
  }

  lemma GaplessLast(pages: Pages)
    requires Gapless(pages)
    ensures LastPage(pages) == |pages|
  {
    if pages != map[] {
      var m := LastPage(pages);
      assert |pages| in pages;
    }
  }

  lemma GaplessUpsert(pages: Pages, n: nat, page: Page)
    requires Gapless(pages) && 1 <= n <= |pages| + 1
    ensures Gapless(pages[n := page])
    ensures |pages[n := page]| == if n <= |pages| then |pages| else |pages| + 1
  {
    if n <= |pages| {
      assert pages[n := page].Keys == pages.Keys;
    } else {
      assert pages[n := page].Keys == pages.Keys + {n};
    }
  }

  lemma NewWorldPages(sources: seq<Source>, row: Job)
    requires row == NewJob(row.documentId, row.userId, row.language, row.maxAttempts, row.createdAt)
    ensures PagesInv(NewWorld(sources, row))
  {
  }

  lemma PersistKeepsPages(cfg: Config, now: int, w: World, r: RunId, late: bool, at: int)
    requires PagesInv(w) && Enabled(cfg, now, w, Persist(r, late, at))
    ensures PagesInv(Step(cfg, now, w, Persist(r, late, at)))
  {
    var run := w.runs[r];
    var page := ProcessPage(w.sources[run.next - 1], run.budget, cfg.limits.perPage, late);
    GaplessUpsert(w.pages, run.next, page);
  }

  /** Steps other than persisting, resuming and finalising write no page, no counter and no page loop. */
  lemma QuietStep(cfg: Config, now: int, w: World, a: Action)
    requires Enabled(cfg, now, w, a) && !a.Persist? && !a.Resume? && !a.Finalize?
    ensures var t := Step(cfg, now, w, a);
            && t.pages == w.pages
            && t.sources == w.sources
            && t.finalized == w.finalized
            && t.row.processedPages == w.row.processedPages
            && t.row.failedPages == w.row.failedPages
            && (t.row.totalPages == w.row.totalPages || t.row.totalPages == Some(|w.sources|))
            && (t.row == w.row || (Active(w.row.status) && t.row.status !in {Completed, Partial}))
            && forall r :: r in t.runs && t.runs[r].Paging? ==> r in w.runs && t.runs[r] == w.runs[r]
  {
  }

  lemma QuietKeepsPages(cfg: Config, now: int, w: World, a: Action)
    requires PagesInv(w) && Enabled(cfg, now, w, a) && !a.Persist? && !a.Resume? && !a.Finalize?
    ensures PagesInv(Step(cfg, now, w, a))
  {
    QuietStep(cfg, now, w, a);
  }

  lemma FinalizeKeepsPages(cfg: Config, now: int, w: World, r: RunId, at: int)
    requires PagesInv(w) && Enabled(cfg, now, w, Finalize(r, at))
    ensures PagesInv(Step(cfg, now, w, Finalize(r, at)))
  {
  }

  lemma ResumeKeepsPages(cfg: Config, now: int, w: World, r: RunId)
    requires PagesInv(w) && Enabled(cfg, now, w, Resume(r))
    ensures PagesInv(Step(cfg, now, w, Resume(r)))
  {
    GaplessLast(w.pages);
  }

  /** Every step keeps the pages in order, the counters within the total, and finalisation complete. */
  lemma StepKeepsPages(cfg: Config, now: int, w: World, a: Action)
    requires PagesInv(w) && Enabled(cfg, now, w, a)
    ensures PagesInv(Step(cfg, now, w, a))
  {
    if a.Persist? {
      PersistKeepsPages(cfg, now, w, a.run, a.late, a.at);
    } else if a.Resume? {
      ResumeKeepsPages(cfg, now, w, a.run);
    } else if a.Finalize? {
      FinalizeKeepsPages(cfg, now, w, a.run, a.at);
    } else {
      QuietKeepsPages(cfg, now, w, a);
    }
  }

  /** A terminal row is never changed again, by any step. */
  lemma StepKeepsTerminalRow(cfg: Config, now: int, w: World, a: Action)
    requires Enabled(cfg, now, w, a) && Terminal(w.row.status)
    ensures Step(cfg, now, w, a).row == w.row
  {
  }
}
