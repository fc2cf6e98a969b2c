/**
 `OcrJobService`: the tables `ocr_jobs` and `ocr_pages` and the calls that
 change them.  Each call is one transaction; its contract says which row it
 changes and how, in the terms the job protocol uses.
 */
module OcrJobService {
  import opened Wrappers
  import opened OcrRows
  import opened OcrProtocol
  import Uploads

  /** Reference: `c` occurs most often in `values`, first in collation order among those that do. */
  ghost predicate MostFrequent(values: seq<ErrorCode>, c: ErrorCode) {
    && c in values
    && forall d :: d in values ==>
         multiset(values)[d] < multiset(values)[c]
         || (multiset(values)[d] == multiset(values)[c] && Rank(c) <= Rank(d))
  }

  /** `c` sorts before or with `d`: the higher count first, collation order on a tie. */
  predicate SortsBefore(counts: map<ErrorCode, nat>, c: ErrorCode, d: ErrorCode)
    requires c in counts && d in counts
  {
    counts[d] < counts[c] || (counts[d] == counts[c] && Rank(c) <= Rank(d))
  }

  method Count(values: seq<ErrorCode>) returns (counts: map<ErrorCode, nat>)
    ensures forall d :: d in counts <==> d in values
    ensures forall d :: d in counts ==> counts[d] == multiset(values)[d]
  {
    counts := map[];
    for i := 0 to |values|
      invariant forall d :: d in counts <==> d in values[..i]
      invariant forall d :: d in counts ==> counts[d] == multiset(values[..i])[d]
    {
      var value := values[i];
      assert values[..i + 1] == values[..i] + [value];
      assert value !in counts ==> multiset(values[..i])[value] == 0;
      counts := counts[value := (if value in counts then counts[value] else 0) + 1];
    }
    assert values[..|values|] == values;
  }

  method MostCommon(values: seq<ErrorCode>) returns (c: ErrorCode)
    requires values != []
    ensures MostFrequent(values, c)
  {
    var counts := Count(values);
    assert values[0] in counts;
    c := values[0];
    var rest := counts.Keys;
    while rest != {}
      invariant rest <= counts.Keys && c in counts
      invariant forall d :: d in counts && d !in rest ==> SortsBefore(counts, c, d)
      decreases rest
    {
      var d :| d in rest;
      if !SortsBefore(counts, c, d) {
        c := d;
      }
      rest := rest - {d};
    }
    forall d | d in values
      ensures SortsBefore(counts, c, d)
    {
      assert d in counts;
    }
  }

  function FailedAmong(rows: Pages, ids: set<nat>): set<nat> {
    set n | n in ids && n in rows && rows[n].status == PageFailed
  }

  function CodedAmong(rows: Pages, ids: set<nat>, code: ErrorCode): set<nat> {
    set n | n in ids && n in rows && CodeOf(rows[n]) == code
  }

  lemma FailedAmongNext(rows: Pages, ids: set<nat>, n: nat)
    requires n in rows && n !in ids
    ensures |FailedAmong(rows, ids + {n})| == |FailedAmong(rows, ids)| + if rows[n].status == PageFailed then 1 else 0
  {
    if rows[n].status == PageFailed {
      assert FailedAmong(rows, ids + {n}) == FailedAmong(rows, ids) + {n};
    } else {
      assert FailedAmong(rows, ids + {n}) == FailedAmong(rows, ids);
    }
  }

  lemma CodedAmongNext(rows: Pages, ids: set<nat>, n: nat, code: ErrorCode)
    requires n in rows && n !in ids
    ensures |CodedAmong(rows, ids + {n}, code)|
            == |CodedAmong(rows, ids, code)| + if CodeOf(rows[n]) == code then 1 else 0
  {
    var before, after := CodedAmong(rows, ids, code), CodedAmong(rows, ids + {n}, code);
    assert forall x :: x != n ==> (x in after <==> x in before);
    if CodeOf(rows[n]) == code {
      assert after == before + {n};
    } else {
      assert after == before;
    }
  }

  function Counted(documents: map<nat, Uploads.Row>, documentId: nat, pages: nat): map<nat, Uploads.Row> {
    if documentId in documents then documents[documentId := Uploads.PageCountRow(documents[documentId], pages)]
    else documents
  }

  /** The job is over, under `code`. */
  predicate EndedAs(row: Job, status: JobStatus, code: ErrorCode, at: int) {
    row.status == status && row.errorCode == Some(code) && row.completedAt == Some(at) && row.heartbeatAt == Some(at)
  }

  class OcrJobService {
    var jobs: map<JobId, Job>
    var pages: map<JobId, Pages>
    var documents: map<nat, Uploads.Row>

    constructor ()
      ensures jobs == map[] && pages == map[] && documents == map[]
    {
      jobs, pages, documents := map[], map[], map[];
    }

    function PagesOf(id: JobId): Pages
      reads this
    {
      if id in pages then pages[id] else map[]
    }

    method Claim(id: JobId, staleMs: nat, seen: int, at: int) returns (ok: bool)
      modifies this`jobs
      ensures ok <==>
        && id in old(jobs)
        && var row := old(jobs)[id];
           || row.status == Queued
           || (row.status == Processing
               && (row.heartbeatAt.None? || row.heartbeatAt.value < seen - staleMs))
      ensures jobs == if ok then old(jobs)[id := ClaimRow(old(jobs)[id], seen - staleMs, at)] else old(jobs)
      ensures ok ==>
        jobs[id] == old(jobs)[id].(status := Processing,
                                   attemptCount := old(jobs)[id].attemptCount + 1,
                                   heartbeatAt := Some(at),
                                   startedAt := Some(if old(jobs)[id].startedAt.Some? then old(jobs)[id].startedAt.value
                                                     else at),
                                   errorCode := None)
    {
      ok := false;
      if id in jobs {
        var row := jobs[id];
        var staleBefore := seen - staleMs;
        if row.status == Queued
           || (row.status == Processing && (row.heartbeatAt == None || row.heartbeatAt.value < staleBefore))
        {
          row := row.(status := Processing,
                      heartbeatAt := Some(at),
                      attemptCount := row.attemptCount + 1,
                      errorCode := None);
          if row.startedAt == None {
            row := row.(startedAt := Some(at));
          }
          jobs := jobs[id := row];
          ok := true;
        }
      }
    }

    /** Nobody can claim or recover a PROCESSING row with a cutoff up to its heartbeat. */
    method Heartbeat(id: JobId, at: int)
      modifies this`jobs
      ensures jobs == if id in old(jobs) then old(jobs)[id := HeartbeatRow(old(jobs)[id], at)] else old(jobs)
      ensures id in jobs && jobs[id].status == Processing ==>
        forall cutoff :: cutoff <= at ==> !Claimable(jobs[id], cutoff) && RecoverRow(jobs[id], cutoff, at) == jobs[id]
    {
      if id in jobs && jobs[id].status == Processing {
        jobs := jobs[id := jobs[id].(heartbeatAt := Some(at))];
      }
    }

    /** The total goes to a PROCESSING job and, whatever the job's status, to the document unless it is deleted. */
    method SetTotalPages(id: JobId, documentId: nat, totalPages: nat, at: int)
      modifies this`jobs, this`documents
      ensures jobs == if id in old(jobs) then old(jobs)[id := SetTotalRow(old(jobs)[id], totalPages, at)] else old(jobs)
      ensures documents == Counted(old(documents), documentId, totalPages)
      ensures id in jobs && jobs[id].status == Processing ==>
        jobs[id].totalPages == Some(totalPages) && jobs[id].heartbeatAt == Some(at)
      ensures documentId in documents && documents[documentId].deletedAt.None? ==>
        documents[documentId].pageCount == Some(totalPages)
    {
      if id in jobs && jobs[id].status == Processing {
        jobs := jobs[id := jobs[id].(heartbeatAt := Some(at), totalPages := Some(totalPages))];
      }
      if documentId in documents && documents[documentId].deletedAt == None {
        documents := documents[documentId := documents[documentId].(pageCount := Some(totalPages))];
      }
    }

    /** The resume point: the highest persisted page and the characters stored so far. */
    method PersistedProgress(id: JobId) returns (lastPage: nat, chars: nat)
      ensures lastPage == LastPage(PagesOf(id))
      ensures chars == StoredChars(PagesOf(id))
    {
      var rows := PagesOf(id);
      lastPage := 0;
      var rest := rows.Keys;
      while rest != {}
        invariant rest <= rows.Keys
        invariant lastPage == 0 || lastPage in rows
        invariant forall n :: n in rows && n !in rest ==> n <= lastPage
        invariant rest != rows.Keys ==> lastPage in rows
        decreases rest
      {
        var n :| n in rest;
        if lastPage < n || lastPage !in rows {
          lastPage := n;
        }
        rest := rest - {n};
      }
      chars := if 0 in rows then rows[0].charCount else 0;
      var n := 0;
      while n < lastPage
        invariant n <= lastPage
        invariant chars == CharsUpTo(rows, n)
      {
        n := n + 1;
        if n in rows {
          chars := chars + rows[n].charCount;
        }
      }
    }

    /** Upserts one page and refreshes the counters; a page of an unknown job is refused. */
    method PersistPage(id: JobId, pageNumber: nat, page: Page, at: int) returns (stored: bool)
      modifies this`jobs, this`pages
      ensures stored <==> id in old(jobs)
      ensures !stored ==> jobs == old(jobs) && pages == old(pages)
      ensures stored ==> pages == old(pages)[id := old(PagesOf(id))[pageNumber := page]]
      ensures stored ==> jobs == old(jobs)[id := CountersRow(old(jobs)[id], PagesOf(id), at)]
      ensures stored && jobs[id].status == Processing ==>
        && jobs[id].failedPages == |FailedPages(PagesOf(id))| && jobs[id].heartbeatAt == Some(at)
        && (jobs[id].totalPages.None? || |PagesOf(id)| <= jobs[id].totalPages.value ==>
              jobs[id].processedPages == |PagesOf(id)|)
        && (jobs[id].totalPages.Some? && jobs[id].totalPages.value < |PagesOf(id)| ==>
              jobs[id].processedPages == jobs[id].totalPages.value)
    {
      stored := id in jobs;
      if stored {
        var rows := PagesOf(id)[pageNumber := page];
        pages := pages[id := rows];
        var row := jobs[id];
        var failed := CountFailed(rows);
        if row.status == Processing {
          var count := |rows|;
          if row.totalPages.Some? && row.totalPages.value < count {
            count := row.totalPages.value;
          }
          jobs := jobs[id := row.(processedPages := count, failedPages := failed, heartbeatAt := Some(at))];
        }
      }
    }

    static method CountFailed(rows: Pages) returns (failed: nat)
      ensures failed == |FailedPages(rows)|
    {
      failed := 0;
      var rest := rows.Keys;
      ghost var seen: set<nat> := {};
      while rest != {}
        invariant rest !! seen && rest + seen == rows.Keys
        invariant failed == |FailedAmong(rows, seen)|
        decreases rest
      {
        var n :| n in rest;
        FailedAmongNext(rows, seen, n);
        if rows[n].status == PageFailed {
          failed := failed + 1;
        }
        rest, seen := rest - {n}, seen + {n};
      }
      assert FailedAmong(rows, seen) == FailedPages(rows);
    }

    /** The codes of the failed pages, one entry a page, in no particular order. */
    static method FailedCodes(rows: Pages) returns (codes: seq<ErrorCode>)
      ensures |codes| == |FailedPages(rows)|
      ensures forall c :: multiset(codes)[c] == |FailedWith(rows, c)|
    {
      codes := [];
      var rest := FailedPages(rows);
      ghost var seen: set<nat> := {};
      while rest != {}
        invariant rest !! seen && rest + seen == FailedPages(rows)
        invariant |codes| == |seen|
        invariant forall c :: multiset(codes)[c] == |CodedAmong(rows, seen, c)|
        decreases rest
      {
        var n :| n in rest;
        forall c {
          CodedAmongNext(rows, seen, n, c);
        }
        codes := codes + [CodeOf(rows[n])];
        rest, seen := rest - {n}, seen + {n};
      }
      forall c
        ensures multiset(codes)[c] == |FailedWith(rows, c)|
      {
        assert CodedAmong(rows, seen, c) == FailedWith(rows, c);
      }
    }

    /** The most frequent code among the failed pages is the dominant error of the pages. */
    static lemma FrequentIsDominant(rows: Pages, codes: seq<ErrorCode>, c: ErrorCode)
      requires forall d :: multiset(codes)[d] == |FailedWith(rows, d)|
      requires MostFrequent(codes, c)
      ensures FinalError(rows) == Some(c)
    {
      assert multiset(codes)[c] > 0;
      assert FailedWith(rows, c) != {};
      forall d
        ensures |FailedWith(rows, d)| < |FailedWith(rows, c)|
                || (|FailedWith(rows, d)| == |FailedWith(rows, c)| && Rank(c) <= Rank(d))
      {
        if d !in codes {
          assert multiset(codes)[d] == 0;
        }
      }
      assert IsDominant(rows, c);
      var n :| n in FailedWith(rows, c);
      assert n in FailedPages(rows);
      DominantUnique(rows, c, FinalError(rows).value);
    }

    /** Derives the terminal row from the persisted pages; only a PROCESSING row is finalised. */
    method Finalize(id: JobId, at: int) returns (result: Option<Job>)
      modifies this`jobs
      ensures jobs == if id in old(jobs) then old(jobs)[id := FinalizeRow(old(jobs)[id], PagesOf(id), at)]
                      else old(jobs)
      ensures result == if id in old(jobs) && old(jobs)[id].status == Processing then Some(jobs[id]) else None
      ensures result.Some? ==>
        && StatusSays(result.value.status, PagesOf(id)) && MethodSays(result.value.extractionMethod, PagesOf(id))
        && (result.value.errorCode.Some? <==> result.value.failedPages > 0)
        && (result.value.errorCode.Some? ==> IsDominant(PagesOf(id), result.value.errorCode.value))
        && result.value.processedPages == |PagesOf(id)| && result.value.failedPages == |FailedPages(PagesOf(id))|
        && result.value.completedAt == Some(at) && result.value.heartbeatAt == Some(at)
    {
      result := None;
      var rows := PagesOf(id);
      var status, extractionMethod, dominant, failed := Summarise(rows);
      if id in jobs && jobs[id].status == Processing {
        jobs := jobs[id := jobs[id].(status := status,
                                     extractionMethod := extractionMethod,
                                     errorCode := if status == Completed then None else dominant,
                                     completedAt := Some(at),
                                     heartbeatAt := Some(at),
                                     processedPages := |rows|,
                                     failedPages := failed)];
        result := Some(jobs[id]);
      }
    }

    /** What the pages add up to. */
    static method Summarise(rows: Pages)
      returns (status: JobStatus, extractionMethod: Option<ExtractionMethod>, dominant: Option<ErrorCode>, failed: nat)
      ensures status == FinalStatus(rows) && StatusSays(status, rows)
      ensures extractionMethod == FinalMethod(rows) && MethodSays(extractionMethod, rows)
      ensures dominant == FinalError(rows) && failed == |FailedPages(rows)|
      ensures dominant.Some? <==> failed > 0
    {
      failed := CountFailed(rows);
      var methods := MethodsUsed(rows);
      extractionMethod :=
        if methods == {} then None
        else if NativeText in methods && Ocr in methods then Some(Mixed)
        else if NativeText in methods then Some(AllNativeText)
        else Some(AllOcr);
      status := Completed;
      if |rows| == 0 || failed == |rows| {
        status := Failed;
      } else if failed > 0 {
        status := Partial;
      }
      dominant := None;
      if failed > 0 {
        var codes := FailedCodes(rows);
        var code := MostCommon(codes);
        FrequentIsDominant(rows, codes, code);
        dominant := Some(code);
      }
      MethodOfSet(rows, extractionMethod);
      FinalStatusSays(rows);
      FinalMethodSays(rows);
    }

    static lemma MethodOfSet(rows: Pages, extractionMethod: Option<ExtractionMethod>)
      requires var methods := MethodsUsed(rows);
               extractionMethod == (if methods == {} then None
                                    else if NativeText in methods && Ocr in methods then Some(Mixed)
                                    else if NativeText in methods then Some(AllNativeText)
                                    else Some(AllOcr))
      ensures extractionMethod == FinalMethod(rows)
    {
      var methods := MethodsUsed(rows);
      if methods != {} {
        var m :| m in methods;
        assert m == NativeText || m == Ocr;
        assert forall x :: x in methods ==> x == NativeText || x == Ocr;
        if NativeText !in methods {
          assert methods == {Ocr};
        } else if Ocr !in methods {
          assert methods == {NativeText};
        }
      }
    }

    method Fail(id: JobId, code: ErrorCode, at: int) returns (ok: bool)
      modifies this`jobs
      ensures ok <==> id in old(jobs) && (old(jobs)[id].status == Queued || old(jobs)[id].status == Processing)
      ensures jobs == if ok then old(jobs)[id := FailRow(old(jobs)[id], code, at)] else old(jobs)
      ensures ok ==> EndedAs(jobs[id], Failed, code, at)
    {
      ok := id in jobs && (jobs[id].status == Queued || jobs[id].status == Processing);
      if ok {
        jobs := jobs[id := jobs[id].(status := Failed,
                                     errorCode := Some(code),
                                     completedAt := Some(at),
                                     heartbeatAt := Some(at))];
      }
    }

    method Requeue(id: JobId, code: ErrorCode, at: int) returns (ok: bool)
      modifies this`jobs
      ensures ok <==> id in old(jobs) && old(jobs)[id].status == Processing
      ensures jobs == if ok then old(jobs)[id := RequeueRow(old(jobs)[id], code, at)] else old(jobs)
      ensures ok ==> jobs[id] == old(jobs)[id].(status := Queued, errorCode := Some(code), heartbeatAt := Some(at))
    {
      ok := id in jobs && jobs[id].status == Processing;
      if ok {
        jobs := jobs[id := jobs[id].(status := Queued, errorCode := Some(code), heartbeatAt := Some(at))];
      }
    }

    method Cancel(id: JobId, code: ErrorCode, at: int) returns (ok: bool)
      modifies this`jobs
      ensures ok <==> id in old(jobs) && (old(jobs)[id].status == Queued || old(jobs)[id].status == Processing)
      ensures jobs == if ok then old(jobs)[id := CancelRow(old(jobs)[id], code, at)] else old(jobs)
      ensures ok ==> EndedAs(jobs[id], Cancelled, code, at)
    {
      ok := id in jobs && (jobs[id].status == Queued || jobs[id].status == Processing);
      if ok {
        jobs := jobs[id := jobs[id].(status := Cancelled,
                                     errorCode := Some(code),
                                     completedAt := Some(at),
                                     heartbeatAt := Some(at))];
      }
    }

    method Recover(id: JobId, staleMs: nat, seen: int, at: int) returns (ok: bool)
      modifies this`jobs
      ensures ok <==>
        && id in old(jobs)
        && var row := old(jobs)[id];
           row.status == Processing && (row.heartbeatAt.None? || row.heartbeatAt.value < seen - staleMs)
      ensures jobs == if ok then old(jobs)[id := RecoverRow(old(jobs)[id], seen - staleMs, at)] else old(jobs)
      ensures ok ==> jobs[id] == old(jobs)[id].(status := Queued, heartbeatAt := Some(at))
    {
      ok := false;
      if id in jobs && jobs[id].status == Processing {
        if jobs[id].heartbeatAt == None || jobs[id].heartbeatAt.value < seen - staleMs {
          jobs := jobs[id := jobs[id].(status := Queued, heartbeatAt := Some(at))];
          ok := true;
        }
      }
    }
  }
}
