/** What every interleaving of upload, completion, rejection, deletion and OCR steps keeps. */
module UploadRuns {
  import opened Wrappers
  import opened Histories
  import opened Uploads

  /** The columns of a row that has a key are those declared for that key, to that document. */
  predicate FitsDeclaration(declared: map<Key, Declaration>, d: DocumentId, row: Row) {
    row.storageKey.Some? ==>
      && row.storageKey.value in declared
      && declared[row.storageKey.value].document == d
      && row.fileSize == Some(declared[row.storageKey.value].size)
      && row.mimeType == Some(declared[row.storageKey.value].mime)
  }

  predicate RowInv(cfg: Config, s: State, d: DocumentId, row: Row) {
    && FitsDeclaration(s.declared, d, row)
    && (row.storageKey.Some? ==> row.storageKey.value in s.placed)
    && (row.deletedAt.Some? <==> row.status == Deleted)
    && (row.status == Ready ==>
          row.storageKey.Some? && row.fileSize.Some? && row.fileSize.value <= cfg.maxFileSize
          && (row.storageKey.value, row.fileSize.value) in s.headed)
    && (row.pageCount.Some? ==> row.status == Ready || row.status == Deleted)
  }

  /** The key was in the row of `d` and is there no longer. */
  predicate LeftBehind(s: State, d: DocumentId, key: Key) {
    && key in s.placed && key in s.declared && s.declared[key].document == d
    && d in s.rows && s.rows[d].storageKey != Some(key)
  }

  predicate RequestInv(cfg: Config, s: State, req: Request) {
    && req.document in s.rows
    && match req
       case UrlPending(d, seen, key, size, mime) =>
         && key in s.declared && s.declared[key] == Declaration(d, size, mime) && key !in s.placed
         && FitsDeclaration(s.declared, d, seen)
         && (seen.storageKey.Some? ==> seen.storageKey.value in s.placed)
       case UrlCommitted(d, oldKey) => oldKey.Some? ==> LeftBehind(s, d, oldKey.value)
       case Completing(d, seen) => seen.storageKey.Some? && FitsDeclaration(s.declared, d, seen)
       case Verified(d, seen, head) =>
         && seen.storageKey.Some? && FitsDeclaration(s.declared, d, seen)
         && Some(head.size) == seen.fileSize && head.size <= cfg.maxFileSize
         && (head.mime.Some? ==> head.mime == seen.mimeType)
         && (seen.storageKey.value, head.size) in s.headed
       case Rejecting(d, seen) => seen.storageKey.Some? && FitsDeclaration(s.declared, d, seen)
       case Discarding(d, key) => key in s.declared && s.declared[key].document == d
       case Counting(d) => s.rows[d].status == Ready || s.rows[d].status == Deleted
  }

  /** A declaration passed the checks of upload-url. */
  predicate WithinLimits(cfg: Config, d: Declaration) {
    1 <= d.size <= cfg.maxFileSize && d.mime in cfg.allowedMimes
  }

  ghost predicate Inv(cfg: Config, s: State) {
    && s.placed <= s.declared.Keys
    && (forall key :: key in s.declared ==> WithinLimits(cfg, s.declared[key]))
    && (forall d :: d in s.rows ==> RowInv(cfg, s, d, s.rows[d]))
    && (forall q :: q in s.requests ==> RequestInv(cfg, s, s.requests[q]))
    && (forall q, p | q in s.requests && p in s.requests && s.requests[q].UrlPending? && s.requests[p].UrlPending? ::
          s.requests[q].key == s.requests[p].key ==> q == p)
    && (forall key :: key in s.superseded ==> key in s.declared && LeftBehind(s, s.declared[key].document, key))
  }

  /** A row changes at most its status, its page count or, from an uploadable status, its upload. */
  predicate RowStep(row: Row, next: Row) {
    && next.userId == row.userId
    && (row.status == Ready ==> next.status == Ready || next.status == Deleted)
    && (row.deletedAt.Some? ==> next == row)
    && (next.storageKey == row.storageKey || UrlMatches(row))
    && (row.status == Ready ==>
          next.storageKey == row.storageKey && next.fileSize == row.fileSize && next.mimeType == row.mimeType)
  }

  // ---------------------------------------------------------------------------
  // Steps
  // ---------------------------------------------------------------------------

  /** History only grows and no row disappears. */
  predicate Extends(s: State, t: State) {
    && (forall k :: k in s.declared ==> k in t.declared && t.declared[k] == s.declared[k])
    && s.placed <= t.placed
    && s.headed <= t.headed
    && s.rows.Keys <= t.rows.Keys
  }

  lemma RequestFrame(cfg: Config, s: State, t: State, req: Request)
    requires RequestInv(cfg, s, req) && Extends(s, t)
    requires req.UrlPending? ==> req.key !in t.placed
    requires req.UrlCommitted? && req.oldKey.Some? ==> t.rows[req.document].storageKey != req.oldKey
    requires s.rows[req.document].status in {Ready, Deleted} ==> t.rows[req.document].status in {Ready, Deleted}
    ensures RequestInv(cfg, t, req)
  {
  }

  lemma RowFrame(cfg: Config, s: State, t: State, d: DocumentId, row: Row)
    requires RowInv(cfg, s, d, row) && Extends(s, t)
    ensures RowInv(cfg, t, d, row)
  {
  }

  /** A step that changes no row's key and places none keeps every other request valid. */
  lemma OtherRequests(cfg: Config, s: State, t: State, req: Request)
    requires Inv(cfg, s) && RequestInv(cfg, s, req) && Extends(s, t) && t.placed == s.placed
    requires forall d :: d in s.rows ==> t.rows[d].storageKey == s.rows[d].storageKey
    requires forall d :: d in s.rows && s.rows[d].status in {Ready, Deleted} ==> t.rows[d].status in {Ready, Deleted}
    ensures RequestInv(cfg, t, req)
  {
    RequestFrame(cfg, s, t, req);
  }

  /** An update of one row that keeps its key. */
  lemma RowUpdateKeepsInv(cfg: Config, s: State, t: State, d: DocumentId)
    requires Inv(cfg, s) && d in s.rows && d in t.rows
    requires t == s.(rows := s.rows[d := t.rows[d]], requests := t.requests)
    requires forall q :: q in t.requests ==>
      (q in s.requests && t.requests[q] == s.requests[q])
      || (t.requests[q].Discarding? && RequestInv(cfg, s, t.requests[q]))
    requires RowStep(s.rows[d], t.rows[d]) && t.rows[d].storageKey == s.rows[d].storageKey
    requires RowInv(cfg, s, d, t.rows[d])
    ensures Inv(cfg, t)
  {
    forall e | e in t.rows
      ensures RowInv(cfg, t, e, t.rows[e])
    {
      RowFrame(cfg, s, t, e, t.rows[e]);
    }
    forall q | q in t.requests
      ensures RequestInv(cfg, t, t.requests[q])
    {
      OtherRequests(cfg, s, t, t.requests[q]);
    }
  }

  /** A step that only adds, replaces or ends one request, other than a pending upload-url. */
  lemma RequestStepKeepsInv(cfg: Config, s: State, t: State, q: RequestId)
    requires Inv(cfg, s) && t == s.(requests := t.requests, headed := t.headed, removed := t.removed)
    requires s.headed <= t.headed
    requires t.requests == s.requests - {q} || (q in t.requests && t.requests == s.requests[q := t.requests[q]])
    requires q in t.requests ==> !t.requests[q].UrlPending? && RequestInv(cfg, t, t.requests[q])
    ensures Inv(cfg, t)
  {
    forall p | p in t.requests
      ensures RequestInv(cfg, t, t.requests[p])
    {
      if p != q {
        OtherRequests(cfg, s, t, t.requests[p]);
      }
    }
    forall e | e in t.rows
      ensures RowInv(cfg, t, e, t.rows[e])
    {
      RowFrame(cfg, s, t, e, t.rows[e]);
    }
  }

  lemma CreateKeepsInv(cfg: Config, s: State, d: DocumentId, user: UserId)
    requires Inv(cfg, s) && Enabled(cfg, s, Create(d, user))
    ensures Inv(cfg, Step(cfg, s, Create(d, user)))
  {
    var t := Step(cfg, s, Create(d, user));
    forall q | q in t.requests
      ensures RequestInv(cfg, t, t.requests[q])
    {
      OtherRequests(cfg, s, t, t.requests[q]);
    }
    forall e | e in s.rows
      ensures RowInv(cfg, t, e, t.rows[e])
    {
      RowFrame(cfg, s, t, e, t.rows[e]);
    }
  }

  lemma BeginUrlKeepsInv(cfg: Config, s: State, a: Action)
    requires Inv(cfg, s) && a.BeginUrl? && Enabled(cfg, s, a)
    ensures Inv(cfg, Step(cfg, s, a))
  {
    var t := Step(cfg, s, a);
    forall p | p in t.requests
      ensures RequestInv(cfg, t, t.requests[p])
    {
      if p == a.request {
        RowFrame(cfg, s, t, a.document, s.rows[a.document]);
      } else {
        OtherRequests(cfg, s, t, t.requests[p]);
      }
    }
    forall e | e in t.rows
      ensures RowInv(cfg, t, e, t.rows[e])
    {
      RowFrame(cfg, s, t, e, t.rows[e]);
    }
  }

  /** Placing a fresh key: the key it replaces, and any older one, is left behind. */
  lemma CommitUrlRequests(cfg: Config, s: State, t: State, q: RequestId, p: RequestId)
    requires Inv(cfg, s) && Enabled(cfg, s, CommitUrl(q)) && UrlMatches(s.rows[s.requests[q].document])
    requires t == Step(cfg, s, CommitUrl(q)) && p in t.requests
    ensures RequestInv(cfg, t, t.requests[p])
  {
    var UrlPending(d, seen, key, size, mime) := s.requests[q];
    assert RequestInv(cfg, s, s.requests[q]);
    if p != q {
      var req := s.requests[p];
      assert RequestInv(cfg, s, req);
      RequestFrame(cfg, s, t, req);
    }
  }

  lemma CommitUrlKeepsInv(cfg: Config, s: State, q: RequestId)
    requires Inv(cfg, s) && Enabled(cfg, s, CommitUrl(q)) && UrlMatches(s.rows[s.requests[q].document])
    ensures Inv(cfg, Step(cfg, s, CommitUrl(q)))
  {
    var t := Step(cfg, s, CommitUrl(q));
    var UrlPending(d, seen, key, size, mime) := s.requests[q];
    assert RequestInv(cfg, s, s.requests[q]);
    forall p | p in t.requests
      ensures RequestInv(cfg, t, t.requests[p])
    {
      CommitUrlRequests(cfg, s, t, q, p);
    }
    forall e | e in t.rows
      ensures RowInv(cfg, t, e, t.rows[e])
    {
      if e != d {
        RowFrame(cfg, s, t, e, s.rows[e]);
      }
    }
  }

  lemma DropSupersededKeepsInv(cfg: Config, s: State, q: RequestId)
    requires Inv(cfg, s) && Enabled(cfg, s, DropSuperseded(q))
    ensures Inv(cfg, Step(cfg, s, DropSuperseded(q)))
  {
    var t := Step(cfg, s, DropSuperseded(q));
    assert RequestInv(cfg, s, s.requests[q]);
    forall p | p in t.requests
      ensures RequestInv(cfg, t, t.requests[p])
    {
      OtherRequests(cfg, s, t, t.requests[p]);
    }
    forall e | e in t.rows
      ensures RowInv(cfg, t, e, t.rows[e])
    {
      RowFrame(cfg, s, t, e, t.rows[e]);
    }
  }

  lemma CommitReadyKeepsInv(cfg: Config, s: State, q: RequestId)
    requires Inv(cfg, s) && Enabled(cfg, s, CommitReady(q))
    ensures Inv(cfg, Step(cfg, s, CommitReady(q)))
  {
    var Verified(d, seen, head) := s.requests[q];
    assert RequestInv(cfg, s, s.requests[q]) && RowInv(cfg, s, d, s.rows[d]);
    RowUpdateKeepsInv(cfg, s, Step(cfg, s, CommitReady(q)), d);
  }

  lemma HeadKeepsInv(cfg: Config, s: State, a: Action)
    requires Inv(cfg, s) && a.HeadObject? && Enabled(cfg, s, a)
    ensures Inv(cfg, Step(cfg, s, a))
  {
    assert RequestInv(cfg, s, s.requests[a.request]);
    RequestStepKeepsInv(cfg, s, Step(cfg, s, a), a.request);
  }

  lemma StepKeepsInv(cfg: Config, s: State, a: Action)
    requires Inv(cfg, s) && Enabled(cfg, s, a)
    ensures Inv(cfg, Step(cfg, s, a))
  {
    var t := Step(cfg, s, a);
    match a
    case Create(d, user) => CreateKeepsInv(cfg, s, d, user);
    case BeginUrl(_, _, _, _, _, _) => BeginUrlKeepsInv(cfg, s, a);
    case CommitUrl(q) =>
      if UrlMatches(s.rows[s.requests[q].document]) {
        CommitUrlKeepsInv(cfg, s, q);
      } else {
        RequestStepKeepsInv(cfg, s, t, q);
      }
    case DropSuperseded(q) => DropSupersededKeepsInv(cfg, s, q);
    case BeginComplete(q, d, user) =>
      assert RowInv(cfg, s, d, s.rows[d]);
      RequestStepKeepsInv(cfg, s, t, q);
    case HeadObject(_, _, _) => HeadKeepsInv(cfg, s, a);
    case CommitReady(q) => CommitReadyKeepsInv(cfg, s, q);
    case CommitReject(q) =>
      assert RequestInv(cfg, s, s.requests[q]);
      assert RowInv(cfg, s, s.requests[q].document, s.rows[s.requests[q].document]);
      RowUpdateKeepsInv(cfg, s, t, s.requests[q].document);
    case Discard(q) => RequestStepKeepsInv(cfg, s, t, q);
    case Remove(d, user, at) =>
      assert RowInv(cfg, s, d, s.rows[d]);
      RowUpdateKeepsInv(cfg, s, t, d);
    case BeginOcr(q, d) => RequestStepKeepsInv(cfg, s, t, q);
    case CommitPageCount(q, pages) =>
      assert RequestInv(cfg, s, s.requests[q]);
      assert RowInv(cfg, s, s.requests[q].document, s.rows[s.requests[q].document]);
      RowUpdateKeepsInv(cfg, s, t, s.requests[q].document);
    case Abandon(q) => RequestStepKeepsInv(cfg, s, t, q);
  }

  /** Every step moves every row by a `RowStep`, whatever request makes it. */
  lemma StepMovesRows(cfg: Config, s: State, a: Action, d: DocumentId)
    requires Inv(cfg, s) && Enabled(cfg, s, a) && d in s.rows
    ensures d in Step(cfg, s, a).rows && RowStep(s.rows[d], Step(cfg, s, a).rows[d])
  {
    assert RowInv(cfg, s, d, s.rows[d]);
  }

  /** The request of the step is about `d`, and read the key that the row still has. */
  predicate StillCurrent(s: State, q: RequestId, d: DocumentId)
    requires d in s.rows && q in s.requests && (s.requests[q].Verified? || s.requests[q].Rejecting?)
  {
    s.requests[q].document == d && s.requests[q].seen.storageKey == s.rows[d].storageKey
  }

  /**
   Which step changes a row's status, whatever requests are in flight: a row
   becomes READY or FAILED exactly when a completion or rejection comes back to
   an upload with the key it read, and DELETED by its owner's removal.
   */
  lemma StatusMoves(cfg: Config, s: State, a: Action, d: DocumentId)
    requires Inv(cfg, s) && Enabled(cfg, s, a) && d in s.rows
    ensures var row, next := s.rows[d], Step(cfg, s, a).rows[d];
            && (next.status == Ready && row.status != Ready <==>
                  a.CommitReady? && row.status == Uploading && StillCurrent(s, a.request, d))
            && (next.status == Failed && row.status != Failed <==>
                  a.CommitReject? && row.status == Uploading && StillCurrent(s, a.request, d))
            && (next.status == Deleted && row.status != Deleted <==>
                  a.Remove? && a.document == d && a.user == row.userId && row.status != Deleted)
            && (next.status == Draft ==> row.status == Draft)
  {
    assert RowInv(cfg, s, d, s.rows[d]);
  }

  /** A row gets another key exactly when upload-url comes back to a document without a file; the key is new. */
  lemma KeyMoves(cfg: Config, s: State, a: Action, d: DocumentId)
    requires Inv(cfg, s) && Enabled(cfg, s, a) && d in s.rows
    ensures var row, next := s.rows[d], Step(cfg, s, a).rows[d];
            && (next.storageKey != row.storageKey <==>
                  && a.CommitUrl? && s.requests[a.request].document == d
                  && (row.status == Draft || row.status == Uploading || row.status == Failed))
            && (next.storageKey != row.storageKey ==>
                  && next.storageKey.Some? && next.storageKey.value !in s.placed
                  && next.status == Uploading && next.pageCount.None?)
            && (next.pageCount != row.pageCount && next.pageCount.Some? ==>
                  a.CommitPageCount? && s.requests[a.request].document == d && next.pageCount == Some(a.pages))
  {
    assert RowInv(cfg, s, d, s.rows[d]);
    if a.CommitUrl? {
      assert RequestInv(cfg, s, s.requests[a.request]);
    }
  }

  // ---------------------------------------------------------------------------
  // Guarantees over runs
  // ---------------------------------------------------------------------------

  ghost predicate IsRun(cfg: Config, states: seq<State>) {
    states != [] && states[0] == State(map[], map[], map[], {}, {}, {}, {}) && History(states, Next(cfg))
  }

  ghost function Next(cfg: Config): (State, State) -> bool {
    (s, t) => Follows(cfg, s, t)
  }

  ghost predicate Follows(cfg: Config, s: State, t: State) {
    exists a :: Enabled(cfg, s, a) && t == Step(cfg, s, a)
  }

  lemma EveryStateInv(cfg: Config, states: seq<State>, i: nat)
    requires IsRun(cfg, states) && i < |states|
    ensures Inv(cfg, states[i])
  {
    forall s, t | Inv(cfg, s) && Next(cfg)(s, t)
      ensures Inv(cfg, t)
    {
      var a :| Enabled(cfg, s, a) && t == Step(cfg, s, a);
      StepKeepsInv(cfg, s, a);
    }
    HistoryKeeps(states, Next(cfg), s => true, s => Inv(cfg, s), 0, i);
  }

  /**
   A READY row carries exactly the size and type declared by the step that
   generated its key, for this document, after a HEAD of that key reported that
   size, within the limit.
   */
  lemma ReadyIsVerified(cfg: Config, states: seq<State>, i: nat, d: DocumentId)
    requires IsRun(cfg, states) && i < |states| && d in states[i].rows && states[i].rows[d].status == Ready
    ensures var s := states[i];
            var row := s.rows[d];
            && row.storageKey.Some? && row.storageKey.value in s.declared
            && s.declared[row.storageKey.value].document == d
            && row.fileSize == Some(s.declared[row.storageKey.value].size)
            && row.mimeType == Some(s.declared[row.storageKey.value].mime)
            && (row.storageKey.value, row.fileSize.value) in s.headed
            && row.fileSize.value <= cfg.maxFileSize
  {
    EveryStateInv(cfg, states, i);
    assert RowInv(cfg, states[i], d, states[i].rows[d]);
  }

  /** What every move of a row keeps holds of the row in every later state. */
  lemma RowHistory(cfg: Config, states: seq<State>, i: nat, k: nat, d: DocumentId, inv: Row -> bool)
    requires IsRun(cfg, states) && i <= k < |states| && d in states[i].rows && inv(states[i].rows[d])
    requires forall row, next ::
      inv(row) && (row.deletedAt.Some? <==> row.status == Deleted) && RowStep(row, next) ==> inv(next)
    ensures d in states[k].rows && inv(states[k].rows[d])
  {
    var holds := (s: State) => d in s.rows && inv(s.rows[d]);
    forall s, t | Inv(cfg, s) && holds(s) && Next(cfg)(s, t)
      ensures holds(t)
    {
      var a :| Enabled(cfg, s, a) && t == Step(cfg, s, a);
      StepMovesRows(cfg, s, a, d);
      assert RowInv(cfg, s, d, s.rows[d]);
    }
    forall m | i <= m < k
      ensures Inv(cfg, states[m])
    {
      EveryStateInv(cfg, states, m);
    }
    HistoryKeeps(states, Next(cfg), s => Inv(cfg, s), holds, i, k);
  }

  /** Once READY, a document keeps its key, size and type for good, also when it is deleted. */
  lemma ReadyIsFrozen(cfg: Config, states: seq<State>, i: nat, k: nat, d: DocumentId)
    requires IsRun(cfg, states) && i <= k < |states| && d in states[i].rows && states[i].rows[d].status == Ready
    ensures d in states[k].rows
    ensures var row, later := states[i].rows[d], states[k].rows[d];
            && later.storageKey == row.storageKey && later.fileSize == row.fileSize && later.mimeType == row.mimeType
            && later.status in {Ready, Deleted}
  {
    var row := states[i].rows[d];
    var same := (next: Row) =>
      && next.storageKey == row.storageKey && next.fileSize == row.fileSize && next.mimeType == row.mimeType
      && next.status in {Ready, Deleted};
    RowHistory(cfg, states, i, k, d, same);
  }

  /** Deletion is absorbing: `deletedAt` is set exactly on DELETED rows, and such a row never changes again. */
  lemma DeletionIsFinal(cfg: Config, states: seq<State>, i: nat, k: nat, d: DocumentId)
    requires IsRun(cfg, states) && i <= k < |states| && d in states[i].rows
    ensures states[i].rows[d].deletedAt.Some? <==> states[i].rows[d].status == Deleted
    ensures d in states[k].rows
    ensures states[i].rows[d].deletedAt.Some? ==> states[k].rows[d] == states[i].rows[d]
  {
    EveryStateInv(cfg, states, i);
    assert RowInv(cfg, states[i], d, states[i].rows[d]);
    var row := states[i].rows[d];
    RowHistory(cfg, states, i, k, d, next => row.deletedAt.Some? ==> next == row);
  }

  /** A page count is only ever found on READY or DELETED documents. */
  lemma PageCountNeedsFile(cfg: Config, states: seq<State>, i: nat, d: DocumentId)
    requires IsRun(cfg, states) && i < |states| && d in states[i].rows && states[i].rows[d].pageCount.Some?
    ensures states[i].rows[d].status in {Ready, Deleted}
  {
    EveryStateInv(cfg, states, i);
    assert RowInv(cfg, states[i], d, states[i].rows[d]);
  }

  /** An object that upload-url deleted as superseded belongs to a key no row references, then or later. */
  lemma SupersededIsUnreferenced(cfg: Config, states: seq<State>, i: nat, key: Key, d: DocumentId)
    requires IsRun(cfg, states) && i < |states| && key in states[i].superseded && d in states[i].rows
    ensures states[i].rows[d].storageKey != Some(key)
  {
    EveryStateInv(cfg, states, i);
    assert RowInv(cfg, states[i], d, states[i].rows[d]);
    assert LeftBehind(states[i], states[i].declared[key].document, key);
  }

  /** Two documents never share a storage key. */
  lemma KeysAreUnique(cfg: Config, states: seq<State>, i: nat, d: DocumentId, e: DocumentId)
    requires IsRun(cfg, states) && i < |states| && d in states[i].rows && e in states[i].rows
    requires states[i].rows[d].storageKey.Some? && states[i].rows[d].storageKey == states[i].rows[e].storageKey
    ensures d == e
  {
    EveryStateInv(cfg, states, i);
    assert RowInv(cfg, states[i], d, states[i].rows[d]) && RowInv(cfg, states[i], e, states[i].rows[e]);
  }
}
