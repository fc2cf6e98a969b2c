/**
 The limit on a user's active jobs.  It is checked under the lock of one
 document, so requests of a user for several documents can all pass the check
 before any of them inserts its job.  Here check and insert are two steps.
 */
module OcrQuota {
  import opened Wrappers
  import opened Histories
  import opened OcrRows
  import R = OcrRequests

  type RequestId = nat

  /** A request that has passed all checks and holds its document's lock. */
  datatype Passed = Passed(user: R.UserId, document: R.DocumentId, language: string)

  datatype State = State(jobs: R.Jobs, passed: map<RequestId, Passed>)

  datatype Action =
    | Check(request: RequestId, user: R.UserId, document: R.DocumentId, language: string)
    | Insert(request: RequestId, newId: JobId, at: int)
    | Rollback(request: RequestId)
    | Work(job: JobId, next: Job)

  function Locked(s: State): set<R.DocumentId> {
    set q | q in s.passed :: s.passed[q].document
  }

  function PassedOf(s: State, user: R.UserId): set<RequestId> {
    set q | q in s.passed && s.passed[q].user == user
  }

  ghost predicate Enabled(limits: R.Limits, s: State, a: Action) {
    match a
    case Check(q, user, doc, language) =>
      && q !in s.passed && doc !in Locked(s)
      && R.ActiveOf(s.jobs, doc) == {} && R.QuotaLeft(limits, s.jobs, user, doc)
    case Insert(q, newId, at) => q in s.passed && newId !in s.jobs
    case Rollback(q) => q in s.passed
    case Work(j, next) => j in s.jobs && R.Worked(s.jobs[j], next)
  }

  function Step(limits: R.Limits, s: State, a: Action): State
    requires a.Insert? ==> a.request in s.passed
  {
    match a
    case Check(q, user, doc, language) => s.(passed := s.passed[q := Passed(user, doc, language)])
    case Insert(q, newId, at) =>
      var p := s.passed[q];
      State(s.jobs[newId := NewJob(p.document, p.user, p.language, limits.maxAttempts, at)], s.passed - {q})
    case Rollback(q) => s.(passed := s.passed - {q})
    case Work(j, next) => s.(jobs := s.jobs[j := next])
  }

  ghost predicate IsRun(limits: R.Limits, states: seq<State>) {
    states != [] && states[0] == State(map[], map[]) && History(states, Next(limits))
  }

  ghost function Next(limits: R.Limits): (State, State) -> bool {
    (s, t) => Follows(limits, s, t)
  }

  ghost predicate Follows(limits: R.Limits, s: State, t: State) {
    exists a :: Enabled(limits, s, a) && t == Step(limits, s, a)
  }

  // ---------------------------------------------------------------------------
  // How far the limit can be exceeded
  // ---------------------------------------------------------------------------

  function Active(s: State, user: R.UserId): nat {
    |R.ActiveOfUser(s.jobs, user)|
  }

  function InFlight(s: State, user: R.UserId): nat {
    |PassedOf(s, user)|
  }

  /** There is room, or what was in flight when there last was some has not all been inserted yet. */
  predicate WithinBound(limits: R.Limits, s: State, user: R.UserId, k: nat) {
    Active(s, user) < limits.maxActivePerUser || Active(s, user) + InFlight(s, user) < limits.maxActivePerUser + k
  }

  lemma NewJobCounts(jobs: R.Jobs, newId: JobId, row: Job, user: R.UserId)
    requires newId !in jobs && row.status == Queued
    ensures |R.ActiveOfUser(jobs[newId := row], user)|
            == |R.ActiveOfUser(jobs, user)| + if row.userId == user then 1 else 0
  {
    if row.userId == user {
      assert R.ActiveOfUser(jobs[newId := row], user) == R.ActiveOfUser(jobs, user) + {newId};
    } else {
      assert R.ActiveOfUser(jobs[newId := row], user) == R.ActiveOfUser(jobs, user);
    }
  }

  lemma PassedCounts(s: State, t: State, q: RequestId, user: R.UserId)
    requires q in s.passed && t.passed == s.passed - {q}
    ensures InFlight(t, user) == InFlight(s, user) - if s.passed[q].user == user then 1 else 0
  {
    if s.passed[q].user == user {
      assert PassedOf(t, user) == PassedOf(s, user) - {q};
    } else {
      assert PassedOf(t, user) == PassedOf(s, user);
    }
  }

  lemma InsertCounts(limits: R.Limits, s: State, q: RequestId, newId: JobId, at: int, user: R.UserId)
    requires Enabled(limits, s, Insert(q, newId, at))
    ensures var t := Step(limits, s, Insert(q, newId, at));
            var one := if s.passed[q].user == user then 1 else 0;
            Active(t, user) == Active(s, user) + one && InFlight(t, user) == InFlight(s, user) - one
  {
    var p := s.passed[q];
    NewJobCounts(s.jobs, newId, NewJob(p.document, p.user, p.language, limits.maxAttempts, at), user);
    PassedCounts(s, Step(limits, s, Insert(q, newId, at)), q, user);
  }

  lemma SmallerSet<T>(a: set<T>, b: set<T>)
    requires a <= b
    ensures |a| <= |b|
  {
    if a != b {
      assert |b - a| + |a| == |b|;
    }
  }

  lemma WorkCounts(limits: R.Limits, s: State, j: JobId, next: Job, user: R.UserId)
    requires Enabled(limits, s, Work(j, next))
    ensures Active(Step(limits, s, Work(j, next)), user) <= Active(s, user)
  {
    SmallerSet(R.ActiveOfUser(Step(limits, s, Work(j, next)).jobs, user), R.ActiveOfUser(s.jobs, user));
  }

  lemma StepKeepsBound(limits: R.Limits, s: State, a: Action, user: R.UserId, k: nat)
    requires Enabled(limits, s, a) && WithinBound(limits, s, user, k) && InFlight(s, user) <= k
    ensures WithinBound(limits, Step(limits, s, a), user, k)
  {
    var t := Step(limits, s, a);
    match a
    case Check(q, u, doc, language) =>
      if u != user {
        assert PassedOf(t, user) == PassedOf(s, user);
      }
    case Insert(q, newId, at) => InsertCounts(limits, s, q, newId, at, user);
    case Rollback(q) => SmallerSet(PassedOf(t, user), PassedOf(s, user));
    case Work(j, next) => WorkCounts(limits, s, j, next, user);
  }

  /**
   If a user never has more than `k` requests past the check at once, there are
   never more than `k - 1` active jobs beyond the limit; so the limit holds as
   long as the user's requests do not overlap.
   */
  lemma ExceededByFlight(limits: R.Limits, states: seq<State>, i: nat, user: R.UserId, k: nat)
    requires IsRun(limits, states) && i < |states| && 1 <= limits.maxActivePerUser && 1 <= k
    requires forall m :: 0 <= m < i ==> InFlight(states[m], user) <= k
    ensures Active(states[i], user) <= limits.maxActivePerUser + k - 1
  {
    var inv := (s: State) => WithinBound(limits, s, user, k);
    var few := (s: State) => InFlight(s, user) <= k;
    assert R.ActiveOfUser(states[0].jobs, user) == {};
    forall s, t | few(s) && inv(s) && Next(limits)(s, t)
      ensures inv(t)
    {
      var a :| Enabled(limits, s, a) && t == Step(limits, s, a);
      StepKeepsBound(limits, s, a, user, k);
    }
    HistoryKeeps(states, Next(limits), few, inv, 0, i);
  }

  /** The step that exceeds the limit: an insert when as many jobs are active as the limit allows, and no other. */
  lemma ExceedsExactly(limits: R.Limits, s: State, a: Action, user: R.UserId)
    requires Enabled(limits, s, a) && Active(s, user) <= limits.maxActivePerUser
    ensures Active(Step(limits, s, a), user) > limits.maxActivePerUser <==>
            a.Insert? && s.passed[a.request].user == user && Active(s, user) == limits.maxActivePerUser
  {
    if a.Insert? {
      InsertCounts(limits, s, a.request, a.newId, a.at, user);
    } else if a.Work? {
      WorkCounts(limits, s, a.job, a.next, user);
    }
  }

  // ---------------------------------------------------------------------------
  // The bound is reached
  // ---------------------------------------------------------------------------

  lemma RunNext(limits: R.Limits, states: seq<State>, a: Action) returns (longer: seq<State>)
    requires IsRun(limits, states) && Enabled(limits, states[|states| - 1], a)
    ensures longer == states + [Step(limits, states[|states| - 1], a)] && IsRun(limits, longer)
  {
    assert Follows(limits, states[|states| - 1], Step(limits, states[|states| - 1], a));
    HistoryNext(states, Next(limits), Step(limits, states[|states| - 1], a));
    longer := states + [Step(limits, states[|states| - 1], a)];
  }

  /** Documents and jobs of user 0 are numbered alike: below `done` there is an active job, `open` more have passed. */
  ghost predicate Filled(s: State, done: nat, open: nat) {
    && (forall j :: j in s.jobs <==> 0 <= j < done)
    && (forall j :: j in s.jobs ==> s.jobs[j].documentId == j && s.jobs[j].userId == 0 && s.jobs[j].status == Queued)
    && (forall q :: q in s.passed <==> done <= q < done + open)
    && (forall q :: q in s.passed ==> s.passed[q] == Passed(0, q, "eng"))
  }

  function Range(lo: nat, hi: nat): set<nat> {
    if hi <= lo then {} else Range(lo, hi - 1) + {hi - 1}
  }

  lemma {:induction false} RangeSize(lo: nat, hi: nat)
    requires lo <= hi
    ensures |Range(lo, hi)| == hi - lo && forall j :: j in Range(lo, hi) <==> lo <= j < hi
  {
    if lo < hi {
      RangeSize(lo, hi - 1);
    }
  }

  lemma FilledCounts(s: State, done: nat, open: nat)
    requires Filled(s, done, open)
    ensures Active(s, 0) == done && InFlight(s, 0) == open
  {
    RangeSize(0, done);
    assert R.ActiveOfUser(s.jobs, 0) == Range(0, done);
    RangeSize(done, done + open);
    assert PassedOf(s, 0) == Range(done, done + open);
  }

  /** The document after those with a job or a request is free. */
  lemma NextIsFree(s: State, done: nat, open: nat)
    requires Filled(s, done, open)
    ensures R.ActiveOf(s.jobs, done + open) == {} && R.JobsOf(s.jobs, done + open) == {}
    ensures done + open !in Locked(s)
  {
  }

  /** While there is room, another request of the user passes the check. */
  lemma CheckOneMore(limits: R.Limits, states: seq<State>, done: nat, open: nat) returns (longer: seq<State>)
    requires IsRun(limits, states) && Filled(states[|states| - 1], done, open)
    requires done < limits.maxActivePerUser && 1 <= limits.maxPerDocument
    ensures IsRun(limits, longer) && Filled(longer[|longer| - 1], done, open + 1)
    ensures |longer| == |states| + 1 && states <= longer
  {
    FilledCounts(states[|states| - 1], done, open);
    NextIsFree(states[|states| - 1], done, open);
    var q := done + open;
    longer := RunNext(limits, states, Check(q, 0, q, "eng"));
  }

  lemma InsertOne(limits: R.Limits, states: seq<State>, done: nat, open: nat) returns (longer: seq<State>)
    requires IsRun(limits, states) && Filled(states[|states| - 1], done, open) && 1 <= open
    ensures IsRun(limits, longer) && Filled(longer[|longer| - 1], done + 1, open - 1)
    ensures |longer| == |states| + 1 && states <= longer
  {
    longer := RunNext(limits, states, Insert(done, done, 0));
  }

  /** No state of the run has more than `k` requests of user 0 past the check. */
  ghost predicate FewInFlight(states: seq<State>, k: nat) {
    forall m :: 0 <= m < |states| ==> InFlight(states[m], 0) <= k
  }

  lemma {:induction false} CheckMany(limits: R.Limits, states: seq<State>, done: nat, open: nat, k: nat)
    returns (longer: seq<State>)
    requires IsRun(limits, states) && Filled(states[|states| - 1], done, open) && FewInFlight(states, k) && open <= k
    requires done < limits.maxActivePerUser && 1 <= limits.maxPerDocument
    ensures IsRun(limits, longer) && Filled(longer[|longer| - 1], done, k) && FewInFlight(longer, k)
    decreases k - open
  {
    if open == k {
      longer := states;
    } else {
      longer := CheckOneMore(limits, states, done, open);
      FilledCounts(longer[|longer| - 1], done, open + 1);
      longer := CheckMany(limits, longer, done, open + 1, k);
    }
  }

  lemma {:induction false} InsertMany(limits: R.Limits, states: seq<State>, done: nat, open: nat, k: nat)
    returns (longer: seq<State>)
    requires IsRun(limits, states) && Filled(states[|states| - 1], done, open) && FewInFlight(states, k) && open <= k
    ensures IsRun(limits, longer) && Filled(longer[|longer| - 1], done + open, 0) && FewInFlight(longer, k)
    decreases open
  {
    if open == 0 {
      longer := states;
    } else {
      longer := InsertOne(limits, states, done, open);
      FilledCounts(longer[|longer| - 1], done + 1, open - 1);
      longer := InsertMany(limits, longer, done + 1, open - 1, k);
    }
  }

  /** One after the other, as many jobs as there is room for. */
  lemma {:induction false} FillUp(limits: R.Limits, n: nat) returns (states: seq<State>)
    requires n < limits.maxActivePerUser && 1 <= limits.maxPerDocument
    ensures IsRun(limits, states) && Filled(states[|states| - 1], n, 0) && FewInFlight(states, 1)
  {
    if n == 0 {
      states := [State(map[], map[])];
      FilledCounts(states[0], 0, 0);
    } else {
      states := FillUp(limits, n - 1);
      states := CheckMany(limits, states, n - 1, 0, 1);
      states := InsertMany(limits, states, n - 1, 1, 1);
    }
  }

  /** For every limit and every `k` the bound is reached: `k` overlapping requests leave `k - 1` jobs too many. */
  lemma BoundIsReached(limits: R.Limits, k: nat) returns (states: seq<State>)
    requires 1 <= limits.maxActivePerUser && 1 <= limits.maxPerDocument && 1 <= k
    ensures IsRun(limits, states) && FewInFlight(states, k)
    ensures Active(states[|states| - 1], 0) == limits.maxActivePerUser + k - 1
  {
    var room := limits.maxActivePerUser - 1;
    states := FillUp(limits, room);
    states := CheckMany(limits, states, room, 0, k);
    states := InsertMany(limits, states, room, k, k);
    FilledCounts(states[|states| - 1], room + k, 0);
  }
}
