/**
 The upload lifecycle of a document: requests read the row, talk to the object
 store, and come back with a conditional update keyed on status and storage
 key.  Storage keys are fresh values; what the object store reports is
 arbitrary.  Each statement is one atomic step.
 */
module Uploads {
  import opened Wrappers

  type DocumentId = nat
  type UserId = nat
  type Key = nat
  type RequestId = nat

  datatype Status = Draft | Uploading | Ready | Failed | Deleted

  datatype Row = Row(
    userId: UserId,
    status: Status,
    storageKey: Option<Key>,
    fileSize: Option<nat>,
    mimeType: Option<string>,
    pageCount: Option<nat>,
    deletedAt: Option<int>)

  /** What the step that generated a key declared about the upload. */
  datatype Declaration = Declaration(document: DocumentId, size: nat, mime: string)

  /** A HEAD response; the type is normalised. */
  datatype Head = Head(size: nat, mime: Option<string>)

  datatype Config = Config(maxFileSize: nat, allowedMimes: set<string>)

  // ---------------------------------------------------------------------------
  // Conditional updates of one row
  // ---------------------------------------------------------------------------

  predicate Uploadable(status: Status) {
    status == Draft || status == Uploading || status == Failed
  }

  /** `upload-url` */
  predicate UrlMatches(row: Row) {
    row.deletedAt.None? && Uploadable(row.status)
  }

  function UrlRow(row: Row, key: Key, size: nat, mime: string): Row {
    if UrlMatches(row) then
      row.(status := Uploading,
           storageKey := Some(key),
           mimeType := Some(mime),
           fileSize := Some(size),
           pageCount := None)
    else row
  }

  /** `upload-complete` */
  predicate CompleteMatches(row: Row, key: Option<Key>) {
    row.deletedAt.None? && row.status == Uploading && row.storageKey == key
  }

  function ReadyRow(row: Row, seen: Row, head: Head): Row {
    if CompleteMatches(row, seen.storageKey) then
      row.(status := Ready,
           fileSize := Some(head.size),
           mimeType := if head.mime.Some? then head.mime else seen.mimeType)
    else row
  }

  /** `rejectUpload`, which does not test `deletedAt` */
  predicate RejectMatches(row: Row, key: Option<Key>) {
    row.status == Uploading && row.storageKey == key
  }

  function RejectRow(row: Row, seen: Row): Row {
    if RejectMatches(row, seen.storageKey) then row.(status := Failed) else row
  }

  function RemoveRow(row: Row, at: int): Row {
    if row.deletedAt.None? then row.(deletedAt := Some(at), status := Deleted) else row
  }

  /** The document part of `setTotalPages` */
  function PageCountRow(row: Row, pages: nat): Row {
    if row.deletedAt.None? then row.(pageCount := Some(pages)) else row
  }

  /** The verification in `completeUpload` finds a problem. */
  predicate HasProblems(cfg: Config, seen: Row, head: Head, etagMatches: bool) {
    || head.size != (if seen.fileSize.Some? then seen.fileSize.value else 0)
    || head.size > cfg.maxFileSize
    || (head.mime.Some? && head.mime != seen.mimeType)
    || (head.mime.Some? && head.mime.value !in cfg.allowedMimes)
    || !etagMatches
  }

  // ---------------------------------------------------------------------------
  // Requests in flight
  // ---------------------------------------------------------------------------

  datatype Request =
    | UrlPending(document: DocumentId, seen: Row, key: Key, size: nat, mime: string)
    | UrlCommitted(document: DocumentId, oldKey: Option<Key>)
    | Completing(document: DocumentId, seen: Row)
    | Verified(document: DocumentId, seen: Row, head: Head)
    | Rejecting(document: DocumentId, seen: Row)
    | Discarding(document: DocumentId, key: Key)  // about to delete the rejected object
    | Counting(document: DocumentId)            // an OCR worker that saw the document READY

  /**
   History: `declared` maps every generated key to its declaration, `placed`
   holds the keys that reached a row, `headed` the sizes HEAD reported for a
   key, `superseded` the keys whose objects upload-url has deleted, `removed`
   those whose objects a rejection has deleted.
   */
  datatype State = State(
    rows: map<DocumentId, Row>,
    requests: map<RequestId, Request>,
    declared: map<Key, Declaration>,
    placed: set<Key>,
    headed: set<(Key, nat)>,
    superseded: set<Key>,
    removed: set<Key>)

  datatype Action =
    | Create(document: DocumentId, user: UserId)
    | BeginUrl(request: RequestId, document: DocumentId, user: UserId, key: Key, size: nat, mime: string)
    | CommitUrl(request: RequestId)
    | DropSuperseded(request: RequestId)
    | BeginComplete(request: RequestId, document: DocumentId, user: UserId)
    | HeadObject(request: RequestId, head: Option<Head>, etagMatches: bool)
    | CommitReady(request: RequestId)
    | CommitReject(request: RequestId)
    | Discard(request: RequestId)
    | Remove(document: DocumentId, user: UserId, at: int)
    | BeginOcr(request: RequestId, document: DocumentId)
    | CommitPageCount(request: RequestId, pages: nat)
    | Abandon(request: RequestId)

  predicate LiveOwned(s: State, d: DocumentId, user: UserId) {
    d in s.rows && s.rows[d].userId == user && s.rows[d].deletedAt.None?
  }

  predicate Enabled(cfg: Config, s: State, a: Action) {
    match a
    case Create(d, user) => d !in s.rows
    case BeginUrl(q, d, user, key, size, mime) =>
      && q !in s.requests && LiveOwned(s, d, user) && Uploadable(s.rows[d].status)
      && key !in s.declared && 1 <= size <= cfg.maxFileSize && mime in cfg.allowedMimes
    case CommitUrl(q) => q in s.requests && s.requests[q].UrlPending? && s.requests[q].document in s.rows
    case DropSuperseded(q) => q in s.requests && s.requests[q].UrlCommitted?
    case BeginComplete(q, d, user) =>
      q !in s.requests && LiveOwned(s, d, user) && s.rows[d].status == Uploading && s.rows[d].storageKey.Some?
    case HeadObject(q, head, etagMatches) => q in s.requests && s.requests[q].Completing?
    case CommitReady(q) => q in s.requests && s.requests[q].Verified? && s.requests[q].document in s.rows
    case CommitReject(q) => q in s.requests && s.requests[q].Rejecting? && s.requests[q].document in s.rows
    case Discard(q) => q in s.requests && s.requests[q].Discarding?
    case Remove(d, user, at) => d in s.rows && s.rows[d].userId == user
    case BeginOcr(q, d) =>
      && q !in s.requests && d in s.rows
      && s.rows[d].deletedAt.None? && s.rows[d].status == Ready && s.rows[d].storageKey.Some?
    case CommitPageCount(q, pages) => q in s.requests && s.requests[q].Counting? && s.requests[q].document in s.rows
    case Abandon(q) => q in s.requests
  }

  function Step(cfg: Config, s: State, a: Action): State
    requires Enabled(cfg, s, a)
  {
    match a
    case Create(d, user) => s.(rows := s.rows[d := Row(user, Draft, None, None, None, None, None)])
    case BeginUrl(q, d, user, key, size, mime) =>
      s.(requests := s.requests[q := UrlPending(d, s.rows[d], key, size, mime)],
         declared := s.declared[key := Declaration(d, size, mime)])
    case CommitUrl(q) =>
      var UrlPending(d, seen, key, size, mime) := s.requests[q];
      if UrlMatches(s.rows[d]) then
        s.(rows := s.rows[d := UrlRow(s.rows[d], key, size, mime)],
           requests := s.requests[q := UrlCommitted(d, seen.storageKey)],
           placed := s.placed + {key})
      else s.(requests := s.requests - {q})
    case DropSuperseded(q) =>
      var UrlCommitted(d, oldKey) := s.requests[q];
      s.(requests := s.requests - {q},
         superseded := if oldKey.Some? then s.superseded + {oldKey.value} else s.superseded)
    case BeginComplete(q, d, user) => s.(requests := s.requests[q := Completing(d, s.rows[d])])
    case HeadObject(q, head, etagMatches) =>
      var Completing(d, seen) := s.requests[q];
      if head.None? || seen.storageKey.None? then s.(requests := s.requests - {q})
      else
        s.(requests := s.requests[q := if HasProblems(cfg, seen, head.value, etagMatches) then Rejecting(d, seen)
                                       else Verified(d, seen, head.value)],
           headed := s.headed + {(seen.storageKey.value, head.value.size)})
    case CommitReady(q) =>
      var Verified(d, seen, head) := s.requests[q];
      s.(rows := s.rows[d := ReadyRow(s.rows[d], seen, head)], requests := s.requests - {q})
    case CommitReject(q) =>
      var Rejecting(d, seen) := s.requests[q];
      s.(rows := s.rows[d := RejectRow(s.rows[d], seen)],
         requests := if seen.storageKey.None? then s.requests - {q}
                     else s.requests[q := Discarding(d, seen.storageKey.value)])
    case Discard(q) => s.(requests := s.requests - {q}, removed := s.removed + {s.requests[q].key})
    case Remove(d, user, at) => s.(rows := s.rows[d := RemoveRow(s.rows[d], at)])
    case BeginOcr(q, d) => s.(requests := s.requests[q := Counting(d)])
    case CommitPageCount(q, pages) =>
      var d := s.requests[q].document;
      s.(rows := s.rows[d := PageCountRow(s.rows[d], pages)], requests := s.requests - {q})
    case Abandon(q) => s.(requests := s.requests - {q})
  }
}
