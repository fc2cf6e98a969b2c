/**
 `OcrWorkerService.reconcile`, undisturbed: stale PROCESSING rows are recovered
 or failed, then QUEUED rows without a pending queue entry are enqueued.
 The queue is a map from job id to the state of its entry.
 */
module OcrReconcile {
  import opened Wrappers
  import opened OcrRows
  import opened OcrJobService
  import OcrProtocol

  type Jobs = map<JobId, Job>

  const BATCH: nat := 500

  // ---------------------------------------------------------------------------
  // The queue
  // ---------------------------------------------------------------------------

  datatype EntryState = Waiting | Running | Delayed | Prioritized | WaitingChildren | Done | Broken | Unknown

  type Entries = map<JobId, EntryState>

  /** The entry exists and will still be delivered. */
  predicate Pending(entries: Entries, id: JobId) {
    id in entries && entries[id] in {Waiting, Running, Delayed, Prioritized, WaitingChildren}
  }

  /** Only an id without an entry, or with one that is done, broken or unknown, is not pending. */
  lemma PendingExactly(entries: Entries, id: JobId)
    ensures !Pending(entries, id) <==>
            id !in entries || entries[id] == Done || entries[id] == Broken || entries[id] == Unknown
  {
  }

  class OcrQueueService {
    var entries: Entries

    constructor ()
      ensures entries == map[]
    {
      entries := map[];
    }

    /** Adding an id that already has an entry changes nothing. */
    method Enqueue(id: JobId)
      modifies this
      ensures entries == if id in old(entries) then old(entries) else old(entries)[id := Waiting]
    {
      if id !in entries {
        entries := entries[id := Waiting];
      }
    }

    method IsPending(id: JobId) returns (pending: bool)
      ensures pending <==> Pending(entries, id)
    {
      pending := false;
      if id in entries {
        var state := entries[id];
        pending := state in {Waiting, Running, Delayed, Prioritized, WaitingChildren};
      }
    }

    method RemoveStaleEntry(id: JobId)
      modifies this
      ensures entries == if Pending(old(entries), id) then old(entries) else old(entries) - {id}
    {
      if id in entries {
        var pending := IsPending(id);
        if !pending {
          entries := entries - {id};
        }
      }
    }

    /** Removing a stale entry and enqueueing leaves the id pending and every other entry alone. */
    method Reenqueue(id: JobId)
      modifies this
      ensures entries == Enqueued(old(entries), id) && Pending(entries, id)
    {
      RemoveStaleEntry(id);
      Enqueue(id);
    }
  }

  function Enqueued(entries: Entries, id: JobId): Entries {
    if Pending(entries, id) then entries else entries[id := Waiting]
  }

  // ---------------------------------------------------------------------------
  // The queries
  // ---------------------------------------------------------------------------

  function StaleIds(jobs: Jobs, cutoff: int): set<JobId> {
    set j | j in jobs && Stale(jobs[j], cutoff)
  }

  function QueuedIds(jobs: Jobs): set<JobId> {
    set j | j in jobs && jobs[j].status == Queued
  }

  function Ids(batch: seq<JobId>): set<JobId> {
    set j | j in batch
  }

  /** Distinct ids, oldest row first. */
  ghost predicate OldestFirst(jobs: Jobs, batch: seq<JobId>)
    requires Ids(batch) <= jobs.Keys
  {
    forall i, k | 0 <= i < k < |batch| ::
      batch[i] in Ids(batch) && batch[k] in Ids(batch)
      && batch[i] != batch[k] && jobs[batch[i]].createdAt <= jobs[batch[k]].createdAt
  }

  /** No row of `batch` is younger than a row of `rest`. */
  ghost predicate NoneOlder(jobs: Jobs, batch: seq<JobId>, rest: set<JobId>)
    requires Ids(batch) <= jobs.Keys && rest <= jobs.Keys
  {
    forall i, j :: i in Ids(batch) && j in rest ==> jobs[i].createdAt <= jobs[j].createdAt
  }

  /** `ORDER BY created_at ASC LIMIT 500`: the oldest rows among `ids`, oldest first. */
  ghost predicate IsOldest(jobs: Jobs, ids: set<JobId>, batch: seq<JobId>)
    requires ids <= jobs.Keys
  {
    && Ids(batch) <= ids
    && |batch| == (if |ids| < BATCH then |ids| else BATCH)
    && OldestFirst(jobs, batch)
    && NoneOlder(jobs, batch, ids - Ids(batch))
  }

  lemma AppendOldest(jobs: Jobs, batch: seq<JobId>, next: JobId)
    requires Ids(batch) <= jobs.Keys && next in jobs && next !in Ids(batch)
    requires OldestFirst(jobs, batch) && NoneOlder(jobs, batch, {next})
    ensures Ids(batch + [next]) == Ids(batch) + {next} && OldestFirst(jobs, batch + [next])
  {
    var longer := batch + [next];
    assert Ids(longer) == Ids(batch) + {next};
    forall i, k | 0 <= i < k < |longer|
      ensures longer[i] != longer[k] && jobs[longer[i]].createdAt <= jobs[longer[k]].createdAt
    {
      assert longer[i] in Ids(batch);
    }
  }

  method PickOldest(jobs: Jobs, ids: set<JobId>) returns (oldest: JobId)
    requires ids != {} && ids <= jobs.Keys
    ensures oldest in ids && forall j :: j in ids ==> jobs[oldest].createdAt <= jobs[j].createdAt
  {
    oldest :| oldest in ids;
    var rest := ids - {oldest};
    while rest != {}
      invariant oldest in ids && rest <= ids
      invariant forall j :: j in ids && j !in rest ==> jobs[oldest].createdAt <= jobs[j].createdAt
      decreases rest
    {
      var j :| j in rest;
      if jobs[j].createdAt < jobs[oldest].createdAt {
        oldest := j;
      }
      rest := rest - {j};
    }
  }

  method FindOldest(jobs: Jobs, ids: set<JobId>) returns (batch: seq<JobId>)
    requires ids <= jobs.Keys
    ensures IsOldest(jobs, ids, batch)
  {
    batch := [];
    var rest := ids;
    while rest != {} && |batch| < BATCH
      invariant Picked(jobs, ids, batch, rest) && |batch| <= BATCH
      decreases rest
    {
      var next := PickOldest(jobs, rest);
      PickedNext(jobs, ids, batch, rest, next);
      batch := batch + [next];
      rest := rest - {next};
    }
    assert ids - Ids(batch) == rest;
  }

  /** `batch` holds the oldest of `ids`, and `rest` the others. */
  ghost predicate Picked(jobs: Jobs, ids: set<JobId>, batch: seq<JobId>, rest: set<JobId>)
    requires ids <= jobs.Keys
  {
    && Ids(batch) !! rest && Ids(batch) + rest == ids && |batch| + |rest| == |ids|
    && OldestFirst(jobs, batch) && NoneOlder(jobs, batch, rest)
  }

  lemma PickedNext(jobs: Jobs, ids: set<JobId>, batch: seq<JobId>, rest: set<JobId>, next: JobId)
    requires ids <= jobs.Keys && Picked(jobs, ids, batch, rest) && next in rest
    requires forall j :: j in rest ==> jobs[next].createdAt <= jobs[j].createdAt
    ensures Picked(jobs, ids, batch + [next], rest - {next})
  {
    AppendOldest(jobs, batch, next);
  }

  lemma {:induction false} IdsSize(batch: seq<JobId>)
    requires forall i, k :: 0 <= i < k < |batch| ==> batch[i] != batch[k]
    ensures |Ids(batch)| == |batch|
  {
    if batch != [] {
      var rest := batch[..|batch| - 1];
      IdsSize(rest);
      assert Ids(batch) == Ids(rest) + {batch[|batch| - 1]};
    }
  }

  // ---------------------------------------------------------------------------
  // One pass
  // ---------------------------------------------------------------------------

  predicate OutOfAttempts(row: Job) {
    row.attemptCount >= row.maxAttempts
  }

  function ExhaustedIn(jobs: Jobs, ids: set<JobId>): set<JobId> {
    set j | j in ids && j in jobs && OutOfAttempts(jobs[j])
  }

  function WithStatus(jobs: Jobs, ids: set<JobId>, status: JobStatus): set<JobId> {
    set j | j in ids && j in jobs && jobs[j].status == status
  }

  /** A stale row after the pass: failed when out of attempts, otherwise back in QUEUED. */
  function Settled(row: Job, at: int): Job {
    if OutOfAttempts(row) then
      row.(status := Failed, errorCode := Some(WorkerInterrupted), completedAt := Some(at), heartbeatAt := Some(at))
    else row.(status := Queued, heartbeatAt := Some(at))
  }

  /** The attempts decide what becomes of a row; no counter, result or identity changes. */
  predicate DecidedByAttempts(row: Job, next: Job, at: int) {
    && next.heartbeatAt == Some(at)
    && (row.attemptCount < row.maxAttempts ==> next == row.(status := Queued, heartbeatAt := Some(at)))
    && (row.attemptCount >= row.maxAttempts ==>
          && next.status == Failed && next.errorCode == Some(WorkerInterrupted) && next.completedAt == Some(at)
          && row == next.(status := row.status, errorCode := row.errorCode, completedAt := row.completedAt,
                          heartbeatAt := row.heartbeatAt))
  }

  /** Only PROCESSING rows without a heartbeat since the cutoff change, and their attempts decide how. */
  ghost predicate OnlyInterrupted(before: Jobs, after: Jobs, cutoff: int, batch: seq<JobId>, at: int) {
    && after.Keys == before.Keys
    && (forall j :: j in before && j !in batch ==> after[j] == before[j])
    && forall j :: j in batch ==>
         && j in before && before[j].status == Processing
         && (before[j].heartbeatAt.None? || before[j].heartbeatAt.value < cutoff)
         && DecidedByAttempts(before[j], after[j], at)
  }

  lemma SettledDecides(before: Jobs, after: Jobs, cutoff: int, batch: seq<JobId>, at: int)
    requires Pass(before, after, cutoff, batch, at)
    ensures OnlyInterrupted(before, after, cutoff, batch, at) && AllInterrupted(before, cutoff, batch)
  {
    assert forall j :: j in batch <==> j in Ids(batch);
    if |batch| < BATCH {
      IdsSize(batch);
      SameSize(Ids(batch), StaleIds(before, cutoff));
    }
  }

  lemma SameSize(a: set<JobId>, b: set<JobId>)
    requires a <= b && |a| == |b|
    ensures a == b
  {
    assert |b - a| == |b| - |a|;
  }

  /** Every such row is read, unless the batch is full. */
  ghost predicate AllInterrupted(before: Jobs, cutoff: int, batch: seq<JobId>) {
    |batch| < BATCH ==>
      forall j | j in before && before[j].status == Processing ::
        before[j].heartbeatAt.None? || before[j].heartbeatAt.value < cutoff ==> j in batch
  }

  /** Only QUEUED rows are read, and each of them, unless the batch is full. */
  ghost predicate QueuedRead(jobs: Jobs, batch: seq<JobId>) {
    && (forall j :: j in batch ==> j in jobs && jobs[j].status == Queued)
    && (|batch| < BATCH ==> forall j :: j in jobs && jobs[j].status == Queued ==> j in batch)
  }

  lemma OldestQueued(jobs: Jobs, batch: seq<JobId>)
    requires IsOldest(jobs, QueuedIds(jobs), batch)
    ensures QueuedRead(jobs, batch)
  {
    assert forall j :: j in batch <==> j in Ids(batch);
    if |batch| < BATCH {
      IdsSize(batch);
      SameSize(Ids(batch), QueuedIds(jobs));
    }
  }

  /** In the job protocol, reading a stale row and acting on it settles the row, and changes nothing else. */
  lemma SettledByTheProtocol(cfg: OcrProtocol.Config, now: int, w: OcrProtocol.World, p: OcrProtocol.PassId,
                             seen: int, later: int, at: int)
    requires OcrProtocol.Enabled(cfg, now, w, OcrProtocol.ReadStale(p, seen)) && seen <= later <= now && at <= now
    ensures var read := OcrProtocol.Step(cfg, now, w, OcrProtocol.ReadStale(p, seen));
            && OcrProtocol.Enabled(cfg, now, read, OcrProtocol.ActStale(p, later, at))
            && OcrProtocol.Step(cfg, now, read, OcrProtocol.ActStale(p, later, at))
               == w.(row := Settled(w.row, at))
  {
    assert w.stale[p := OcrProtocol.Snapshot(w.row.attemptCount, w.row.maxAttempts)] - {p} == w.stale;
  }

  /** The rows of `ids` are settled and no other row is touched. */
  ghost predicate SettledAll(before: Jobs, after: Jobs, ids: set<JobId>, at: int) {
    && after.Keys == before.Keys
    && forall j :: j in before ==> after[j] == if j in ids then Settled(before[j], at) else before[j]
  }

  lemma ExhaustedNext(jobs: Jobs, batch: seq<JobId>, id: JobId)
    requires id in jobs && id !in batch
    ensures |ExhaustedIn(jobs, Ids(batch + [id]))|
            == |ExhaustedIn(jobs, Ids(batch))| + if OutOfAttempts(jobs[id]) then 1 else 0
  {
    assert Ids(batch + [id]) == Ids(batch) + {id};
    if OutOfAttempts(jobs[id]) {
      assert ExhaustedIn(jobs, Ids(batch + [id])) == ExhaustedIn(jobs, Ids(batch)) + {id};
    } else {
      assert ExhaustedIn(jobs, Ids(batch + [id])) == ExhaustedIn(jobs, Ids(batch));
    }
  }

  lemma SettledNext(before: Jobs, previous: Jobs, next: Jobs, batch: seq<JobId>, id: JobId, at: int)
    requires id in before && SettledAll(before, previous, Ids(batch), at)
    requires next == previous[id := Settled(before[id], at)]
    ensures SettledAll(before, next, Ids(batch + [id]), at)
  {
    assert Ids(batch + [id]) == Ids(batch) + {id};
  }

  datatype Summary = Summary(enqueued: nat, recovered: nat, failed: nat)

  /** Entries of ids outside `batch`, and entries that were pending, are as they were. */
  ghost predicate EntriesKept(before: Entries, after: Entries, batch: seq<JobId>) {
    forall j :: j !in batch || Pending(before, j) ==>
      Pending(after, j) == Pending(before, j) && (j in before ==> j in after && after[j] == before[j])
  }

  datatype Tables = Tables(jobs: Jobs, entries: Entries)

  /** The first loop has dealt with the rows of `done`. */
  ghost predicate Recovered(before: Tables, now: Tables, done: seq<JobId>, at: int, recovered: nat, failed: nat) {
    && SettledAll(before.jobs, now.jobs, Ids(done), at)
    && failed == |ExhaustedIn(before.jobs, Ids(done))|
    && recovered + failed == |done|
    && (forall j :: j in done && j in before.jobs && !OutOfAttempts(before.jobs[j]) ==> Pending(now.entries, j))
    && EntriesKept(before.entries, now.entries, done)
  }

  lemma RecoveredNext(before: Tables, previous: Tables, now: Tables, done: seq<JobId>, id: JobId, at: int,
                      recovered: nat, failed: nat)
    requires Recovered(before, previous, done, at, recovered, failed) && id in before.jobs && id !in done
    requires now.jobs == previous.jobs[id := Settled(before.jobs[id], at)]
    requires now.entries == if OutOfAttempts(before.jobs[id]) then previous.entries else Enqueued(previous.entries, id)
    ensures var gone := if OutOfAttempts(before.jobs[id]) then 1 else 0;
            Recovered(before, now, done + [id], at, recovered + 1 - gone, failed + gone)
  {
    SettledNext(before.jobs, previous.jobs, now.jobs, done, id, at);
    ExhaustedNext(before.jobs, done, id);
    EntriesNext(before.entries, previous.entries, now.entries, done, id);
    forall j | j in done + [id] && j in before.jobs && !OutOfAttempts(before.jobs[j])
      ensures Pending(now.entries, j)
    {
    }
  }

  lemma EntriesNext(before: Entries, previous: Entries, now: Entries, done: seq<JobId>, id: JobId)
    requires EntriesKept(before, previous, done) && id !in done
    requires now == previous || now == Enqueued(previous, id)
    ensures EntriesKept(before, now, done + [id])
    ensures forall j :: Pending(previous, j) ==> Pending(now, j)
  {
  }

  class OcrWorkerService {
    const jobs: OcrJobService
    const queue: OcrQueueService
    const staleMs: nat
    var reconciling: bool

    constructor (jobs: OcrJobService, queue: OcrQueueService, staleMs: nat)
      ensures this.jobs == jobs && this.queue == queue && this.staleMs == staleMs && !reconciling
    {
      this.jobs, this.queue, this.staleMs, this.reconciling := jobs, queue, staleMs, false;
    }

    /** One turn of the first loop, on a row that is still as the query read it. */
    method RecoverOne(id: JobId, seen: int, later: int, at: int) returns (recovered: bool)
      requires seen <= later
      requires id in jobs.jobs && Stale(jobs.jobs[id], seen - staleMs)
      modifies jobs`jobs, queue
      ensures jobs.jobs == old(jobs.jobs)[id := Settled(old(jobs.jobs)[id], at)]
      ensures recovered <==> !OutOfAttempts(old(jobs.jobs)[id])
      ensures queue.entries == if recovered then Enqueued(old(queue.entries), id) else old(queue.entries)
    {
      var row := jobs.jobs[id];
      recovered := false;
      if row.attemptCount >= row.maxAttempts {
        var ok := jobs.Fail(id, WorkerInterrupted, at);
      } else {
        recovered := jobs.Recover(id, staleMs, later, at);
        if recovered {
          queue.Reenqueue(id);
        }
      }
    }

    /** The first loop; every clock reading is at or after the query's. */
    method RecoverBatch(batch: seq<JobId>, seen: int, later: int, at: int) returns (recovered: nat, failed: nat)
      requires seen <= later
      requires forall i, k :: 0 <= i < k < |batch| ==> batch[i] != batch[k]
      requires forall j :: j in batch ==> j in jobs.jobs && Stale(jobs.jobs[j], seen - staleMs)
      modifies jobs`jobs, queue
      ensures SettledAll(old(jobs.jobs), jobs.jobs, Ids(batch), at)
      ensures failed == |ExhaustedIn(old(jobs.jobs), Ids(batch))| && recovered + failed == |batch|
      ensures forall j :: j in batch && !OutOfAttempts(old(jobs.jobs)[j]) ==> Pending(queue.entries, j)
      ensures EntriesKept(old(queue.entries), queue.entries, batch)
    {
      recovered, failed := 0, 0;
      ghost var before := Tables(jobs.jobs, queue.entries);
      assert Recovered(before, before, [], at, 0, 0);
      for i := 0 to |batch|
        invariant Recovered(before, Tables(jobs.jobs, queue.entries), batch[..i], at, recovered, failed)
      {
        var id := batch[i];
        assert batch[..i + 1] == batch[..i] + [id] && id !in batch[..i] && id in batch;
        ghost var previous := Tables(jobs.jobs, queue.entries);
        var ok := RecoverOne(id, seen, later, at);
        RecoveredNext(before, previous, Tables(jobs.jobs, queue.entries), batch[..i], id, at, recovered, failed);
        if ok {
          recovered := recovered + 1;
        } else {
          failed := failed + 1;
        }
      }
      assert batch[..|batch|] == batch;
    }

    /** The second loop. */
    method EnqueueBatch(batch: seq<JobId>) returns (enqueued: nat)
      requires forall i, k :: 0 <= i < k < |batch| ==> batch[i] != batch[k]
      modifies queue
      ensures forall j :: j in batch ==> Pending(queue.entries, j)
      ensures enqueued == |set j | j in batch && !Pending(old(queue.entries), j)|
      ensures EntriesKept(old(queue.entries), queue.entries, batch)
    {
      enqueued := 0;
      ghost var before := queue.entries;
      for i := 0 to |batch|
        invariant forall j :: j in batch[..i] ==> Pending(queue.entries, j)
        invariant enqueued == |NotPending(before, batch[..i])|
        invariant EntriesKept(before, queue.entries, batch[..i])
      {
        var id := batch[i];
        assert batch[..i + 1] == batch[..i] + [id] && id !in batch[..i];
        NotPendingNext(before, batch[..i], id);
        var pending := queue.IsPending(id);
        if !pending {
          queue.Reenqueue(id);
          enqueued := enqueued + 1;
        }
      }
      assert batch[..|batch|] == batch;
      assert NotPending(before, batch) == set j | j in batch && !Pending(before, j);
    }

    /**
     An undisturbed pass: the oldest stale rows are settled and nothing else
     changes, every recovered row and each of the oldest queued rows is pending,
     entries that were pending stay as they were, and the summary counts the
     changes made.
     */
    method Reconcile(seen: int, later: int, at: int)
      returns (summary: Summary, ghost stale: seq<JobId>, ghost queued: seq<JobId>)
      requires seen <= later
      modifies this`reconciling, jobs`jobs, queue
      ensures old(reconciling) ==>
        summary == Summary(0, 0, 0) && reconciling && jobs.jobs == old(jobs.jobs) && queue.entries == old(queue.entries)
      ensures !old(reconciling) ==>
        && !reconciling
        && Pass(old(jobs.jobs), jobs.jobs, seen - staleMs, stale, at)
        && OnlyInterrupted(old(jobs.jobs), jobs.jobs, seen - staleMs, stale, at)
        && AllInterrupted(old(jobs.jobs), seen - staleMs, stale)
        && QueuedRead(jobs.jobs, queued)
        && IsOldest(jobs.jobs, QueuedIds(jobs.jobs), queued)
        && (forall j :: j in WithStatus(jobs.jobs, Ids(stale), Queued) ==> Pending(queue.entries, j))
        && (forall j :: j in queued ==> Pending(queue.entries, j))
        && (forall j :: Pending(old(queue.entries), j) ==>
              Pending(queue.entries, j) && queue.entries[j] == old(queue.entries)[j])
        && summary.recovered == |WithStatus(jobs.jobs, Ids(stale), Queued)|
        && summary.failed == |WithStatus(jobs.jobs, Ids(stale), Failed)|
        && summary.enqueued == |set j | j in queued && j !in stale && !Pending(old(queue.entries), j)|
    {
      summary, stale, queued := Summary(0, 0, 0), [], [];
      if reconciling {
        return;
      }
      reconciling := true;
      ghost var before := queue.entries;
      var recovered, failed;
      recovered, failed, stale := SettleStale(seen, later, at);
      ghost var middle := queue.entries;
      var enqueued;
      enqueued, queued := EnqueueQueued();
      assert forall j :: j in queued && j in stale ==> j in WithStatus(jobs.jobs, Ids(stale), Queued);
      assert (set j | j in queued && !Pending(middle, j))
          == (set j | j in queued && j !in stale && !Pending(before, j));
      summary := Summary(enqueued, recovered, failed);
      reconciling := false;
    }

    /** The query for stale rows and the first loop. */
    method SettleStale(seen: int, later: int, at: int) returns (recovered: nat, failed: nat, ghost stale: seq<JobId>)
      requires seen <= later
      modifies jobs`jobs, queue
      ensures Pass(old(jobs.jobs), jobs.jobs, seen - staleMs, stale, at)
      ensures OnlyInterrupted(old(jobs.jobs), jobs.jobs, seen - staleMs, stale, at)
      ensures AllInterrupted(old(jobs.jobs), seen - staleMs, stale)
      ensures recovered == |WithStatus(jobs.jobs, Ids(stale), Queued)|
      ensures failed == |WithStatus(jobs.jobs, Ids(stale), Failed)|
      ensures forall j :: j in WithStatus(jobs.jobs, Ids(stale), Queued) ==> Pending(queue.entries, j)
      ensures EntriesKept(old(queue.entries), queue.entries, stale)
    {
      ghost var before := jobs.jobs;
      var batch := FindOldest(jobs.jobs, StaleIds(jobs.jobs, seen - staleMs));
      stale := batch;
      assert forall j :: j in batch ==> j in Ids(batch);
      recovered, failed := RecoverBatch(batch, seen, later, at);
      SettledDecides(before, jobs.jobs, seen - staleMs, batch, at);
      SummaryCounts(before, jobs.jobs, batch, at, failed);
      forall j | j in WithStatus(jobs.jobs, Ids(stale), Queued)
        ensures Pending(queue.entries, j)
      {
        assert jobs.jobs[j] == Settled(before[j], at);
      }
    }

    /** The query for queued rows and the second loop. */
    method EnqueueQueued() returns (enqueued: nat, ghost queued: seq<JobId>)
      modifies queue
      ensures IsOldest(jobs.jobs, QueuedIds(jobs.jobs), queued) && QueuedRead(jobs.jobs, queued)
      ensures forall j :: j in queued ==> Pending(queue.entries, j) && j in QueuedIds(jobs.jobs)
      ensures enqueued == |set j | j in queued && !Pending(old(queue.entries), j)|
      ensures EntriesKept(old(queue.entries), queue.entries, queued)
    {
      var next := FindOldest(jobs.jobs, QueuedIds(jobs.jobs));
      queued := next;
      OldestQueued(jobs.jobs, next);
      assert forall j :: j in next ==> j in Ids(next);
      enqueued := EnqueueBatch(next);
    }
  }

  function NotPending(entries: Entries, batch: seq<JobId>): set<JobId> {
    set j | j in batch && !Pending(entries, j)
  }

  lemma NotPendingNext(entries: Entries, batch: seq<JobId>, id: JobId)
    requires id !in batch
    ensures |NotPending(entries, batch + [id])| == |NotPending(entries, batch)| + if Pending(entries, id) then 0 else 1
  {
    if Pending(entries, id) {
      assert NotPending(entries, batch + [id]) == NotPending(entries, batch);
    } else {
      assert NotPending(entries, batch + [id]) == NotPending(entries, batch) + {id};
    }
  }

  /** Counting what was recovered and failed by the statuses the pass left. */
  lemma SummaryCounts(before: Jobs, after: Jobs, batch: seq<JobId>, at: int, failed: nat)
    requires forall i, k :: 0 <= i < k < |batch| ==> batch[i] != batch[k]
    requires Ids(batch) <= before.Keys && SettledAll(before, after, Ids(batch), at)
    requires failed == |ExhaustedIn(before, Ids(batch))|
    ensures failed == |WithStatus(after, Ids(batch), Failed)|
    ensures |batch| - failed == |WithStatus(after, Ids(batch), Queued)|
  {
    var gone, back := WithStatus(after, Ids(batch), Failed), WithStatus(after, Ids(batch), Queued);
    forall j | j in Ids(batch)
      ensures j in gone <==> OutOfAttempts(before[j])
      ensures j in back <==> !OutOfAttempts(before[j])
    {
      assert after[j] == Settled(before[j], at);
    }
    assert gone == ExhaustedIn(before, Ids(batch));
    assert back == Ids(batch) - gone;
    IdsSize(batch);
  }

  // ---------------------------------------------------------------------------
  // Repeated passes
  // ---------------------------------------------------------------------------

  /** A pass leaves exactly the stale rows it did not read, by its own cutoff and by any other. */
  lemma PassLeavesRest(before: Jobs, after: Jobs, batch: seq<JobId>, cutoff: int, at: int, any: int)
    requires Pass(before, after, cutoff, batch, at)
    ensures StaleIds(after, any) == StaleIds(before, any) - Ids(batch)
    ensures |Ids(batch)| == if |StaleIds(before, cutoff)| < BATCH then |StaleIds(before, cutoff)| else BATCH
  {
    IdsSize(batch);
  }

  /** Each state follows from the one before by an undisturbed pass; every pass reads the clock anew. */
  ghost predicate Passes(states: seq<Jobs>, cutoffs: seq<int>) {
    && |states| == |cutoffs| + 1
    && (forall i, k :: 0 <= i <= k < |cutoffs| ==> cutoffs[i] <= cutoffs[k])
    && forall i :: 0 < i < |states| ==> PassAt(states, cutoffs, i)
  }

  ghost predicate PassAt(states: seq<Jobs>, cutoffs: seq<int>, i: nat)
    requires 0 < i < |states| == |cutoffs| + 1
  {
    PassBetween(states[i - 1], states[i], cutoffs[i - 1])
  }

  ghost predicate PassBetween(before: Jobs, after: Jobs, cutoff: int) {
    exists batch, at :: Pass(before, after, cutoff, batch, at)
  }

  ghost predicate Pass(before: Jobs, after: Jobs, cutoff: int, batch: seq<JobId>, at: int) {
    IsOldest(before, StaleIds(before, cutoff), batch) && SettledAll(before, after, Ids(batch), at)
  }

  /** How many rows `k` passes settle: 500 a pass, but never more than have gone stale by then. */
  function SettledBy(jobs: Jobs, cutoffs: seq<int>, k: nat): nat
    requires k <= |cutoffs|
  {
    if k == 0 then 0
    else
      var stale, all := |StaleIds(jobs, cutoffs[k - 1])|, SettledBy(jobs, cutoffs, k - 1) + BATCH;
      if stale < all then stale else all
  }

  lemma StaleGrows(jobs: Jobs, cutoff: int, later: int)
    requires cutoff <= later
    ensures StaleIds(jobs, cutoff) <= StaleIds(jobs, later)
  {
  }

  /** Of the rows stale in `first`, by whatever cutoff, exactly those of `done` are stale in `now` no more. */
  ghost predicate Gone(first: Jobs, now: Jobs, done: set<JobId>) {
    forall d :: StaleIds(now, d) == StaleIds(first, d) - done
  }

  lemma OnePassMore(states: seq<Jobs>, cutoffs: seq<int>, k: nat, settled: set<JobId>) returns (done: set<JobId>)
    requires Passes(states, cutoffs) && 0 < k < |states|
    requires Gone(states[0], states[k - 1], settled) && settled <= StaleIds(states[0], cutoffs[k - 1])
    ensures Gone(states[0], states[k], done) && done <= StaleIds(states[0], cutoffs[k - 1])
    ensures var stale := |StaleIds(states[0], cutoffs[k - 1])|;
            |done| == if stale < |settled| + BATCH then stale else |settled| + BATCH
  {
    var first, before, after, cutoff := states[0], states[k - 1], states[k], cutoffs[k - 1];
    assert PassAt(states, cutoffs, k);
    var batch, at :| Pass(before, after, cutoff, batch, at);
    done := settled + Ids(batch);
    forall d
      ensures StaleIds(after, d) == StaleIds(first, d) - done
    {
      PassLeavesRest(before, after, batch, cutoff, at, d);
    }
    PassLeavesRest(before, after, batch, cutoff, at, cutoff);
    DisjointSizes(StaleIds(first, cutoff), settled, Ids(batch));
  }

  /** After `k` passes exactly `SettledBy` rows, all stale by the last cutoff, are stale by no cutoff any more. */
  lemma {:induction false} PassesSettle(states: seq<Jobs>, cutoffs: seq<int>, k: nat) returns (done: set<JobId>)
    requires Passes(states, cutoffs) && k < |states|
    ensures |done| == SettledBy(states[0], cutoffs, k) && Gone(states[0], states[k], done)
    ensures if k == 0 then done == {} else done <= StaleIds(states[0], cutoffs[k - 1])
  {
    if k == 0 {
      done := {};
    } else {
      var settled := PassesSettle(states, cutoffs, k - 1);
      if 1 < k {
        StaleGrows(states[0], cutoffs[k - 2], cutoffs[k - 1]);
      }
      done := OnePassMore(states, cutoffs, k, settled);
    }
  }

  lemma DisjointSizes(all: set<JobId>, before: set<JobId>, batch: set<JobId>)
    requires before <= all && batch <= all - before
    ensures |before + batch| == |before| + |batch| && |all - before| == |all| - |before|
  {
  }

  /** `k` passes settle at least `x` rows exactly when their batches hold that many, counted from any pass on. */
  lemma {:induction false} SettledAtLeast(jobs: Jobs, cutoffs: seq<int>, k: nat, x: int)
    requires k <= |cutoffs|
    ensures x <= SettledBy(jobs, cutoffs, k) <==>
            x <= k * BATCH && forall j :: 0 <= j < k ==> x <= |StaleIds(jobs, cutoffs[j])| + (k - 1 - j) * BATCH
  {
    if 0 < k {
      SettledAtLeast(jobs, cutoffs, k - 1, x - BATCH);
      var n := |StaleIds(jobs, cutoffs[k - 1])|;
      assert x <= SettledBy(jobs, cutoffs, k) <==> x <= n && x - BATCH <= SettledBy(jobs, cutoffs, k - 1);
      assert forall j :: 0 <= j < k - 1 ==>
        (x - BATCH <= |StaleIds(jobs, cutoffs[j])| + (k - 2 - j) * BATCH
         <==> x <= |StaleIds(jobs, cutoffs[j])| + (k - 1 - j) * BATCH);
      if x <= k * BATCH && forall j :: 0 <= j < k ==> x <= |StaleIds(jobs, cutoffs[j])| + (k - 1 - j) * BATCH {
        assert x <= n + 0 * BATCH;
      }
    }
  }

  /**
   Exactly when `k` passes leave nothing stale: all n rows stale by the last
   cutoff fit into k batches, and the rows that went stale after pass j + 1 fit
   into the batches that were left.
   */
  lemma DrainedExactly(states: seq<Jobs>, cutoffs: seq<int>, k: nat)
    requires Passes(states, cutoffs) && 0 < k < |states|
    ensures var n := |StaleIds(states[0], cutoffs[k - 1])|;
            StaleIds(states[k], cutoffs[k - 1]) == {} <==>
            n <= k * BATCH && forall j :: 0 <= j < k ==> n - |StaleIds(states[0], cutoffs[j])| <= (k - 1 - j) * BATCH
  {
    var done := PassesSettle(states, cutoffs, k);
    var stale := StaleIds(states[0], cutoffs[k - 1]);
    DisjointSizes(stale, done, {});
    assert StaleIds(states[k], cutoffs[k - 1]) == stale - done;
    assert stale - done == {} <==> |stale| <= |done|;
    SettledAtLeast(states[0], cutoffs, k, |stale|);
  }

  /** When no row goes stale between the passes, n stale rows are gone after exactly n / 500 passes, rounded up. */
  lemma PassesDrain(states: seq<Jobs>, cutoffs: seq<int>, k: nat)
    requires Passes(states, cutoffs) && 0 < k < |states|
    requires forall c :: c in cutoffs ==> StaleIds(states[0], c) == StaleIds(states[0], cutoffs[0])
    ensures var n := |StaleIds(states[0], cutoffs[0])|;
            StaleIds(states[k], cutoffs[k - 1]) == {} <==> (n + BATCH - 1) / BATCH <= k
  {
    DrainedExactly(states, cutoffs, k);
    var n := |StaleIds(states[0], cutoffs[0])|;
    forall j | 0 <= j < k
      ensures |StaleIds(states[0], cutoffs[j])| == n && 0 <= (k - 1 - j) * BATCH
    {
      assert cutoffs[j] in cutoffs;
    }
  }
}
