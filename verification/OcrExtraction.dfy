/**
 The per-page pipeline of `OcrExtractionService`: a page of native text is
 stored as it is, any other page is rendered and recognised, and all stored
 text is charged to one budget per document.

 What the tools report for a page is the page's `Source`; text is already
 normalised.  `late` holds the pages whose turn came after the job deadline.
 */
module OcrExtraction {
  import opened Wrappers
  import opened OcrRows

  /** What rendering and recognition make of a page. */
  datatype Scan = Recognised(text: string, confidence: Option<real>) | Unreadable(code: ErrorCode)

  datatype Source = Source(native: string, nativeUsable: bool, scan: Scan)

  datatype Limits = Limits(perPage: nat, perDocument: nat)

  datatype Cut = Cut(text: string, truncated: bool, charCount: nat)

  function TruncateText(text: string, maxChars: nat): (cut: Cut)
    ensures cut.text <= text && cut.charCount == |cut.text| <= maxChars
    ensures cut.truncated <==> cut.text != text
    ensures cut.truncated ==> |cut.text| == maxChars
  {
    if |text| <= maxChars then Cut(text, false, |text|)
    else Cut(text[..maxChars], true, maxChars)
  }

  function FailedPage(code: ErrorCode, via: Option<PageMethod>): Page {
    Page(PageFailed, via, None, None, 0, false, Some(code))
  }

  /**
   What a page keeps of the text found on it: the page is EMPTY exactly when there
   is none; a FAILED page has run out of budget and keeps nothing; any other page
   keeps a prefix, flagged when it is a proper one, with its confidence.
   */
  predicate HoldsText(page: Page, via: PageMethod, text: string, confidence: Option<real>) {
    && page.via == Some(via)
    && (page.status == PageEmpty <==> text == "")
    && (page.status == PageFailed ==>
          page.errorCode == Some(TextLimitExceeded) && page.text.None? && page.confidence.None? && !page.truncated)
    && (page.status != PageFailed ==>
          && page.errorCode.None? && page.confidence == confidence
          && page.text.Some? && page.text.value <= text && page.charCount == |page.text.value|
          && (page.truncated <==> page.text.value != text))
  }

  /** A page that failed before any text was found. */
  predicate FailedWithoutText(page: Page, code: ErrorCode) {
    && page.status == PageFailed && page.errorCode == Some(code)
    && page.via.None? && page.text.None? && page.confidence.None? && page.charCount == 0 && !page.truncated
  }

  /**
   What a page must be, given what the tools report of it: a late one timed out;
   one with a usable text layer keeps that text; another keeps what is
   recognised on it, or failed as recognition did.
   */
  predicate PageOf(source: Source, late: bool, page: Page) {
    if late then FailedWithoutText(page, ProcessingTimeout)
    else if source.nativeUsable then HoldsText(page, NativeText, source.native, None)
    else
      match source.scan
      case Recognised(text, confidence) => HoldsText(page, Ocr, text, confidence)
      case Unreadable(code) => FailedWithoutText(page, code)
  }

  lemma ProcessPageIsPageOf(source: Source, budget: int, perPage: nat, late: bool)
    ensures PageOf(source, late, ProcessPage(source, budget, perPage, late))
  {
  }

  function StoreText(via: PageMethod, text: string, confidence: Option<real>, budget: int, perPage: nat): (page: Page)
    ensures page.status == PageFailed <==> text != "" && budget <= 0
    ensures page.charCount == (if page.text.Some? then |page.text.value| else 0)
    ensures page.charCount <= perPage
    ensures 0 < page.charCount ==> page.charCount <= budget
    ensures HoldsText(page, via, text, confidence)
    ensures page.status == PageCompleted ==>
      page.charCount == |text| || page.charCount == perPage || page.charCount == budget
  {
    if text == "" then Page(PageEmpty, Some(via), Some(""), confidence, 0, false, None)
    else if budget <= 0 then FailedPage(TextLimitExceeded, Some(via))
    else
      var cut := TruncateText(text, if perPage < budget then perPage else budget);
      Page(PageCompleted, Some(via), Some(cut.text), confidence, cut.charCount, cut.truncated, None)
  }

  function ProcessPage(source: Source, budget: int, perPage: nat, late: bool): (page: Page)
    ensures 0 < page.charCount ==> page.charCount <= budget
    ensures page.charCount <= perPage
  {
    if late then FailedPage(ProcessingTimeout, None)
    else if source.nativeUsable then StoreText(NativeText, source.native, None, budget, perPage)
    else match source.scan
      case Recognised(text, confidence) => StoreText(Ocr, text, confidence, budget, perPage)
      case Unreadable(code) => FailedPage(code, None)
  }

  /** How a page is made from its source and what is left of the budget. */
  type Maker = (Source, int) -> Page

  /** Makes the pages one after the other, each charged to the budget before the next. */
  function MakeAll(make: Maker, sources: seq<Source>, budget: int): (pages: seq<Page>)
    ensures |pages| == |sources|
  {
    if sources == [] then []
    else
      var page := make(sources[0], budget);
      [page] + MakeAll(make, sources[1..], budget - page.charCount)
  }

  function OnTime(perPage: nat): Maker {
    (source, budget) => ProcessPage(source, budget, perPage, false)
  }

  /** The pages one uninterrupted pass over `sources` stores, first page first, given `budget` characters. */
  function Extract(sources: seq<Source>, budget: int, perPage: nat): (pages: seq<Page>)
    ensures |pages| == |sources|
  {
    MakeAll(OnTime(perPage), sources, budget)
  }

  function Chars(pages: seq<Page>): nat {
    if pages == [] then 0 else pages[0].charCount + Chars(pages[1..])
  }

  /** How page `n` is made with a given budget. */
  type Pager = (nat, int) -> Page

  function PagerOf(sources: seq<Source>, perPage: nat, late: set<nat>): Pager {
    (n, budget) => if 1 <= n <= |sources| then ProcessPage(sources[n - 1], budget, perPage, n in late)
                   else FailedPage(ProcessingFailed, None)
  }

  /** Pages `n` to `total`, each made with what the ones before it left of the budget. */
  function Yield(make: Pager, n: nat, total: nat, budget: int): (pages: seq<Page>)
    ensures |pages| == if n <= total then total - n + 1 else 0
    decreases total + 1 - n
  {
    if total < n then []
    else
      var page := make(n, budget);
      [page] + Yield(make, n + 1, total, budget - page.charCount)
  }

  /** The pages from `startPage` on are what their sources and the deadline say. */
  ghost predicate OfTheFile(sources: seq<Source>, startPage: nat, late: set<nat>, pages: seq<Page>) {
    forall i :: 0 <= i < |pages| ==>
      1 <= startPage + i <= |sources| && PageOf(sources[startPage + i - 1], startPage + i in late, pages[i])
  }

  /** `extractPdf` from `startPage` on. */
  method ExtractPdf(sources: seq<Source>, startPage: nat, charBudget: int, perPage: nat, late: set<nat>)
    returns (pages: seq<Page>)
    requires 1 <= startPage
    ensures pages == Yield(PagerOf(sources, perPage, late), startPage, |sources|, charBudget)
    ensures OfTheFile(sources, startPage, late, pages)
  {
    ghost var make := PagerOf(sources, perPage, late);
    pages := [];
    var budget := charBudget;
    var pageNumber := startPage;
    while pageNumber <= |sources|
      invariant startPage <= pageNumber
      invariant Yielded(make, startPage, |sources|, charBudget, pages, pageNumber, budget)
    {
      var page := ProcessPage(sources[pageNumber - 1], budget, perPage, pageNumber in late);
      YieldedNext(make, startPage, |sources|, charBudget, pages, pageNumber, budget, page);
      pages := pages + [page];
      budget := budget - page.charCount;
      pageNumber := pageNumber + 1;
    }
    ExtractPdfIsOfTheFile(sources, startPage, charBudget, perPage, late);
  }

  /** The loop has yielded `pages` and stands before page `n`. */
  ghost predicate Yielded(make: Pager, start: nat, total: nat, charBudget: int, pages: seq<Page>, n: nat, budget: int) {
    Yield(make, start, total, charBudget) == pages + Yield(make, n, total, budget)
  }

  lemma YieldedNext(make: Pager, start: nat, total: nat, charBudget: int, pages: seq<Page>, n: nat, budget: int,
                    page: Page)
    requires Yielded(make, start, total, charBudget, pages, n, budget) && n <= total && page == make(n, budget)
    ensures Yielded(make, start, total, charBudget, pages + [page], n + 1, budget - page.charCount)
  {
    var rest := Yield(make, n + 1, total, budget - page.charCount);
    assert pages + ([page] + rest) == (pages + [page]) + rest;
  }

  lemma {:induction false} YieldIsPass(make: Pager, maker: Maker, sources: seq<Source>, n: nat, budget: int)
    requires 1 <= n <= |sources| + 1
    requires forall k: nat, b: int :: 1 <= k <= |sources| ==> make(k, b) == maker(sources[k - 1], b)
    ensures Yield(make, n, |sources|, budget) == MakeAll(maker, sources[n - 1..], budget)
    decreases |sources| + 1 - n
  {
    if n <= |sources| {
      assert sources[n - 1..][0] == sources[n - 1] && sources[n - 1..][1..] == sources[n..];
      YieldIsPass(make, maker, sources, n + 1, budget - make(n, budget).charCount);
    }
  }

  /** When no page is late, the loop yields one pass over the remaining pages. */
  lemma ExtractPdfIsPass(sources: seq<Source>, startPage: nat, charBudget: int, perPage: nat)
    requires 1 <= startPage <= |sources| + 1
    ensures Yield(PagerOf(sources, perPage, {}), startPage, |sources|, charBudget)
            == Extract(sources[startPage - 1..], charBudget, perPage)
  {
    YieldIsPass(PagerOf(sources, perPage, {}), OnTime(perPage), sources, startPage, charBudget);
  }

  lemma {:induction false} YieldWithinBudget(make: Pager, n: nat, total: nat, budget: int)
    requires forall k: nat, b: int :: 0 < make(k, b).charCount ==> make(k, b).charCount <= b
    ensures Chars(Yield(make, n, total, budget)) <= if budget < 0 then 0 else budget
    decreases total + 1 - n
  {
    if n <= total {
      var page := make(n, budget);
      YieldWithinBudget(make, n + 1, total, budget - page.charCount);
      CharsCons(page, Yield(make, n + 1, total, budget - page.charCount));
    }
  }

  /** Late or not, the loop never stores more than the budget it was given. */
  lemma ExtractPdfWithinBudget(sources: seq<Source>, startPage: nat, charBudget: int, perPage: nat, late: set<nat>)
    ensures Chars(Yield(PagerOf(sources, perPage, late), startPage, |sources|, charBudget))
            <= if charBudget < 0 then 0 else charBudget
  {
    YieldWithinBudget(PagerOf(sources, perPage, late), startPage, |sources|, charBudget);
  }

  lemma {:induction false} YieldAt(make: Pager, n: nat, total: nat, budget: int, i: nat)
    requires n + i <= total
    ensures var pages := Yield(make, n, total, budget);
            pages[i] == make(n + i, budget - Chars(pages[..i]))
    decreases i
  {
    if 0 < i {
      var page := make(n, budget);
      var rest := Yield(make, n + 1, total, budget - page.charCount);
      YieldAt(make, n + 1, total, budget - page.charCount, i - 1);
      assert ([page] + rest)[..i] == [page] + rest[..i - 1];
      CharsCons(page, rest[..i - 1]);
    }
  }

  lemma {:induction false} CharsAppend(pages: seq<Page>, page: Page)
    ensures Chars(pages + [page]) == Chars(pages) + page.charCount
  {
    if pages == [] {
      assert pages + [page] == [page];
    } else {
      CharsAppend(pages[1..], page);
      assert (pages + [page])[1..] == pages[1..] + [page];
    }
  }

  lemma CharsCons(page: Page, pages: seq<Page>)
    ensures Chars([page] + pages) == page.charCount + Chars(pages)
  {
    assert ([page] + pages)[1..] == pages;
  }

  lemma {:induction false} MakeAllConcat(make: Maker, a: seq<Source>, b: seq<Source>, budget: int)
    ensures var first := MakeAll(make, a, budget);
            MakeAll(make, a + b, budget) == first + MakeAll(make, b, budget - Chars(first))
  {
    if a == [] {
      assert a + b == b;
    } else {
      var page := make(a[0], budget);
      var left := budget - page.charCount;
      var tail := MakeAll(make, a[1..], left);
      MakeAllConcat(make, a[1..], b, left);
      assert (a + b)[0] == a[0] && (a + b)[1..] == a[1..] + b;
      CharsCons(page, tail);
      var rest := MakeAll(make, b, left - Chars(tail));
      assert [page] + (tail + rest) == [page] + tail + rest;
    }
  }

  /**
   Stopping after any number of pages and starting again with what is left of
   the budget stores the pages one pass would have stored.
   */
  lemma ResumeIsOnePass(sources: seq<Source>, k: nat, budget: int, perPage: nat)
    requires k <= |sources|
    ensures var first := Extract(sources[..k], budget, perPage);
            Extract(sources, budget, perPage) == first + Extract(sources[k..], budget - Chars(first), perPage)
  {
    MakeAllConcat(OnTime(perPage), sources[..k], sources[k..], budget);
    assert sources[..k] + sources[k..] == sources;
  }

  lemma {:induction false} MakeAllWithinBudget(make: Maker, sources: seq<Source>, budget: nat, perPage: nat)
    requires forall source, b :: make(source, b).charCount <= perPage
    requires forall source, b :: 0 < make(source, b).charCount ==> make(source, b).charCount <= b
    ensures Chars(MakeAll(make, sources, budget)) <= budget
    ensures forall i :: 0 <= i < |sources| ==> MakeAll(make, sources, budget)[i].charCount <= perPage
  {
    if sources != [] {
      var page := make(sources[0], budget);
      MakeAllWithinBudget(make, sources[1..], budget - page.charCount, perPage);
      CharsCons(page, MakeAll(make, sources[1..], budget - page.charCount));
    }
  }

  /** One pass never stores more than the budget, nor more than `perPage` on any page. */
  lemma ExtractWithinBudget(sources: seq<Source>, budget: nat, perPage: nat)
    ensures Chars(Extract(sources, budget, perPage)) <= budget
    ensures forall i :: 0 <= i < |sources| ==> Extract(sources, budget, perPage)[i].charCount <= perPage
  {
    MakeAllWithinBudget(OnTime(perPage), sources, budget, perPage);
  }

  /** Page `k + 1` of a single pass is the page stored from what the first `k` pages left of the budget. */
  lemma ExtractAt(sources: seq<Source>, k: nat, budget: int, perPage: nat)
    requires k < |sources|
    ensures var before := Extract(sources, budget, perPage)[..k];
            Extract(sources, budget, perPage)[k] == ProcessPage(sources[k], budget - Chars(before), perPage, false)
  {
    ResumeIsOnePass(sources, k, budget, perPage);
    var first := Extract(sources[..k], budget, perPage);
    assert Extract(sources, budget, perPage)[..k] == first;
  }

  lemma PageAfter(sources: seq<Source>, k: nat, total: int, perPage: nat, budget: int)
    requires k < |sources| && budget == total - Chars(Extract(sources, total, perPage)[..k])
    ensures ProcessPage(sources[k], budget, perPage, false) == Extract(sources, total, perPage)[k]
  {
    ExtractAt(sources, k, total, perPage);
  }

  /** Every page of a pass is what its source says. */
  lemma PassIsOfTheFile(sources: seq<Source>, budget: int, perPage: nat, i: nat)
    requires i < |sources|
    ensures PageOf(sources[i], false, Extract(sources, budget, perPage)[i])
  {
    ExtractAt(sources, i, budget, perPage);
    var before := Extract(sources, budget, perPage)[..i];
    ProcessPageIsPageOf(sources[i], budget - Chars(before), perPage, false);
  }

  lemma YieldedPageIsOfTheFile(sources: seq<Source>, startPage: nat, charBudget: int, perPage: nat, late: set<nat>,
                               i: nat)
    requires 1 <= startPage && startPage + i <= |sources|
    ensures PageOf(sources[startPage + i - 1], startPage + i in late,
                   Yield(PagerOf(sources, perPage, late), startPage, |sources|, charBudget)[i])
  {
    var make := PagerOf(sources, perPage, late);
    YieldAt(make, startPage, |sources|, charBudget, i);
    var budget := charBudget - Chars(Yield(make, startPage, |sources|, charBudget)[..i]);
    ProcessPageIsPageOf(sources[startPage + i - 1], budget, perPage, startPage + i in late);
  }

  /** Every page the loop yields is what its source and its deadline say. */
  lemma ExtractPdfIsOfTheFile(sources: seq<Source>, startPage: nat, charBudget: int, perPage: nat, late: set<nat>)
    requires 1 <= startPage
    ensures OfTheFile(sources, startPage, late,
                      Yield(PagerOf(sources, perPage, late), startPage, |sources|, charBudget))
  {
    var pages := Yield(PagerOf(sources, perPage, late), startPage, |sources|, charBudget);
    forall i | 0 <= i < |pages|
      ensures PageOf(sources[startPage + i - 1], startPage + i in late, pages[i])
    {
      YieldedPageIsOfTheFile(sources, startPage, charBudget, perPage, late, i);
    }
  }
}
