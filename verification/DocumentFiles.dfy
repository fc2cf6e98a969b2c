/**
 `DocumentFilesService` and `DocumentsService.remove` as calls on the documents
 table, no other request coming between.  The statements of a call, in their
 order, are a path of the interleaved system of uploads.
 */
module DocumentFiles {
  import opened Wrappers
  import opened Histories
  import opened Uploads
  import opened UploadRuns

  datatype UrlOutcome =
    | UnsupportedType
    | InvalidSize
    | TooLarge
    | UrlNotFound
    | HasFile
    | UrlChanged
    | UrlIssued(superseded: Option<Key>)

  datatype CompleteOutcome =
    | NotFound
    | AlreadyReady
    | NoUpload
    | ObjectMissing
    | Rejected
    | Changed
    | Completed

  ghost predicate Takes(cfg: Config, s: State, t: State) {
    Reaches(Next(cfg), s, t)
  }

  lemma TakesNothing(cfg: Config, s: State)
    ensures Takes(cfg, s, s)
  {
    ReachesSelf(Next(cfg), s);
  }

  lemma TakesStep(cfg: Config, r: State, s: State, a: Action, t: State)
    requires Takes(cfg, r, s) && Enabled(cfg, s, a) && t == Step(cfg, s, a)
    ensures Takes(cfg, r, t)
  {
    assert Follows(cfg, s, t);
    ReachesStep(Next(cfg), r, s, t);
  }

  lemma TakesBoth(cfg: Config, r: State, s: State, t: State)
    requires Takes(cfg, r, s) && Takes(cfg, s, t)
    ensures Takes(cfg, r, t)
  {
    ReachesBoth(Next(cfg), r, s, t);
  }

  /** So a call keeps the invariant of the interleaved system. */
  lemma TakesKeepsInv(cfg: Config, s: State, t: State)
    requires Takes(cfg, s, t) && Inv(cfg, s)
    ensures Inv(cfg, t)
  {
    forall u, v | Inv(cfg, u) && Next(cfg)(u, v)
      ensures Inv(cfg, v)
    {
      var a :| Enabled(cfg, u, a) && v == Step(cfg, u, a);
      StepKeepsInv(cfg, u, a);
    }
    ReachesKeeps(Next(cfg), u => Inv(cfg, u), s, t);
  }

  // ---------------------------------------------------------------------------
  // What the calls mean
  // ---------------------------------------------------------------------------

  /** A document of that user, not deleted. */
  predicate OfUser(rows: map<DocumentId, Row>, d: DocumentId, user: UserId) {
    d in rows && rows[d].userId == user && rows[d].deletedAt.None?
  }

  /** An upload of the user's document is under way. */
  predicate InProgress(s: State, d: DocumentId, user: UserId) {
    LiveOwned(s, d, user) && s.rows[d].status == Uploading && s.rows[d].storageKey.Some?
  }

  /** The object in the store is the one declared for the key the row has. */
  predicate AsDeclared(s: State, d: DocumentId, head: Head, etagMatches: bool)
    requires d in s.rows
  {
    && s.rows[d].storageKey.Some? && s.rows[d].storageKey.value in s.declared
    && var declared := s.declared[s.rows[d].storageKey.value];
       head.size == declared.size && (head.mime.Some? ==> head.mime.value == declared.mime) && etagMatches
  }

  /**
   Of the five checks only three can fail on their own: a size or type as
   declared is within the limits, because the declaration was.
   */
  lemma ProblemsExactly(cfg: Config, s: State, d: DocumentId, head: Head, etagMatches: bool)
    requires Inv(cfg, s) && d in s.rows && s.rows[d].storageKey.Some?
    ensures HasProblems(cfg, s.rows[d], head, etagMatches) <==> !AsDeclared(s, d, head, etagMatches)
  {
    assert RowInv(cfg, s, d, s.rows[d]);
    assert WithinLimits(cfg, s.declared[s.rows[d].storageKey.value]);
  }

  /** Completing an upload as declared changes the status and nothing else. */
  lemma ReadyChangesStatus(cfg: Config, s: State, d: DocumentId, head: Head, etagMatches: bool)
    requires Inv(cfg, s) && d in s.rows && s.rows[d].deletedAt.None? && s.rows[d].status == Uploading
    ensures AsDeclared(s, d, head, etagMatches) ==> ReadyRow(s.rows[d], s.rows[d], head) == s.rows[d].(status := Ready)
  {
    assert RowInv(cfg, s, d, s.rows[d]);
  }

  /** The request reads the row and asks the store for the object. */
  lemma LooksUp(cfg: Config, q: RequestId, d: DocumentId, user: UserId, head: Option<Head>, etagMatches: bool, s: State)
    returns (t: State)
    requires q !in s.requests && InProgress(s, d, user)
    ensures Takes(cfg, s, t) && t.rows == s.rows
    ensures head.None? ==> t.requests == s.requests
    ensures head.Some? ==>
      t == s.(requests := s.requests[q := if HasProblems(cfg, s.rows[d], head.value, etagMatches)
                                          then Rejecting(d, s.rows[d]) else Verified(d, s.rows[d], head.value)],
              headed := t.headed)
  {
    var begun := Step(cfg, s, BeginComplete(q, d, user));
    t := Step(cfg, begun, HeadObject(q, head, etagMatches));
    TakesNothing(cfg, s);
    TakesStep(cfg, s, s, BeginComplete(q, d, user), begun);
    TakesStep(cfg, s, begun, HeadObject(q, head, etagMatches), t);
    if head.None? {
      assert t.requests == s.requests;
    } else {
      assert t.requests == s.requests[q := t.requests[q]];
    }
  }

  /** No step of any request changes a deleted row. */
  lemma DeletedForGood(cfg: Config, s: State, d: DocumentId, a: Action)
    requires Inv(cfg, s) && d in s.rows && s.rows[d].deletedAt.Some? && Enabled(cfg, s, a)
    ensures d in Step(cfg, s, a).rows && Step(cfg, s, a).rows[d] == s.rows[d]
  {
    StepMovesRows(cfg, s, a, d);
  }

  // ---------------------------------------------------------------------------
  // The service
  // ---------------------------------------------------------------------------

  class DocumentFilesService {
    var rows: map<DocumentId, Row>
    const cfg: Config

    constructor (cfg: Config)
      ensures rows == map[] && this.cfg == cfg
    {
      rows := map[];
      this.cfg := cfg;
    }

    /** The conditional update of upload-url, by request `q`. */
    method PlaceKey(d: DocumentId, user: UserId, key: Key, size: nat, mime: string, ghost q: RequestId, ghost s: State)
      returns (count: nat, ghost t: State)
      requires rows == s.rows && d in rows && rows[d].userId == user
      requires q in s.requests && s.requests[q].UrlPending? && s.requests[q].document == d
      requires s.requests[q].key == key && s.requests[q].size == size && s.requests[q].mime == mime
      modifies this`rows
      ensures Takes(cfg, s, t) && t == Step(cfg, s, CommitUrl(q)) && rows == t.rows
      ensures count == if UrlMatches(s.rows[d]) then 1 else 0
    {
      count := 0;
      if d in rows && rows[d].userId == user && rows[d].deletedAt == None
         && rows[d].status in {Draft, Uploading, Failed} {
        rows := rows[d := rows[d].(status := Uploading,
                                   storageKey := Some(key),
                                   mimeType := Some(mime),
                                   fileSize := Some(size),
                                   pageCount := None)];
        count := 1;
      }
      t := Step(cfg, s, CommitUrl(q));
      TakesNothing(cfg, s);
      TakesStep(cfg, s, s, CommitUrl(q), t);
    }

    /** The conditional update of upload-complete, by request `q`. */
    method MarkReady(d: DocumentId, user: UserId, seen: Row, head: Head, ghost q: RequestId, ghost s: State)
      returns (count: nat, ghost t: State)
      requires rows == s.rows && d in rows && rows[d].userId == user
      requires q in s.requests && s.requests[q] == Verified(d, seen, head)
      modifies this`rows
      ensures Takes(cfg, s, t) && t == Step(cfg, s, CommitReady(q)) && rows == t.rows
      ensures count == if CompleteMatches(s.rows[d], seen.storageKey) then 1 else 0
    {
      count := 0;
      if d in rows && rows[d].userId == user && rows[d].deletedAt == None
         && rows[d].status == Uploading && rows[d].storageKey == seen.storageKey {
        var storedType := head.mime;
        if storedType == None {
          storedType := seen.mimeType;
        }
        rows := rows[d := rows[d].(status := Ready, fileSize := Some(head.size), mimeType := storedType)];
        count := 1;
      }
      t := Step(cfg, s, CommitReady(q));
      TakesNothing(cfg, s);
      TakesStep(cfg, s, s, CommitReady(q), t);
    }

    /** `rejectUpload`, by request `q`: the row is FAILED unless it has moved on; the object is deleted in any case. */
    method RejectUpload(d: DocumentId, user: UserId, seen: Row, ghost q: RequestId, ghost s: State)
      returns (ghost t: State)
      requires rows == s.rows && d in rows && rows[d].userId == user
      requires q in s.requests && s.requests[q] == Rejecting(d, seen)
      modifies this`rows
      ensures Takes(cfg, s, t) && rows == t.rows && t.requests == s.requests - {q}
      ensures rows == Step(cfg, s, CommitReject(q)).rows
      ensures seen.storageKey.Some? ==> seen.storageKey.value in t.removed
    {
      if d in rows && rows[d].userId == user && rows[d].status == Uploading && rows[d].storageKey == seen.storageKey {
        rows := rows[d := rows[d].(status := Failed)];
      }
      t := Step(cfg, s, CommitReject(q));
      TakesNothing(cfg, s);
      TakesStep(cfg, s, s, CommitReject(q), t);
      if seen.storageKey.Some? {
        ghost var committed := t;
        t := Step(cfg, committed, Discard(q));
        TakesStep(cfg, s, committed, Discard(q), t);
      }
      assert t.requests == s.requests - {q};
    }

    /** How upload-url is refused before it reads the row. */
    predicate Declarable(size: int, mime: string) {
      mime in cfg.allowedMimes && 1 <= size <= cfg.maxFileSize
    }

    /**
     `createUploadUrl`: the document gets a new key with the declared size and
     type exactly when the declaration is admissible and the user's live document
     has no file yet; the key it had is deleted from the store.
     */
    method CreateUploadUrl(user: UserId, d: DocumentId, size: int, mime: string, key: Key,
                           ghost q: RequestId, ghost s: State)
      returns (outcome: UrlOutcome, ghost t: State)
      requires rows == s.rows && q !in s.requests && key !in s.declared
      modifies this`rows
      ensures Takes(cfg, s, t) && rows == t.rows && t.requests == s.requests
      ensures rows != old(rows) ==> OfUser(old(rows), d, user)
      ensures outcome == UrlNotFound ==> !OfUser(old(rows), d, user)
      ensures outcome.UrlIssued? <==>
        Declarable(size, mime) && LiveOwned(s, d, user) && s.rows[d].status in {Draft, Uploading, Uploads.Failed}
      ensures outcome.UnsupportedType? <==> mime !in cfg.allowedMimes
      ensures outcome.InvalidSize? <==> mime in cfg.allowedMimes && size < 1
      ensures outcome.TooLarge? <==> mime in cfg.allowedMimes && 1 <= size && cfg.maxFileSize < size
      ensures outcome.UrlNotFound? <==> Declarable(size, mime) && !LiveOwned(s, d, user)
      ensures outcome.HasFile? <==>
        Declarable(size, mime) && LiveOwned(s, d, user) && s.rows[d].status in {Ready, Deleted}
      ensures !outcome.UrlIssued? ==> rows == old(rows) && t.superseded == s.superseded
      ensures outcome.UrlIssued? ==>
        && rows.Keys == old(rows).Keys && (forall e :: e in rows && e != d ==> rows[e] == old(rows)[e])
        && InProgress(t, d, user) && rows[d].storageKey == Some(key) && rows[d].pageCount.None?
        && key in t.declared && t.declared[key] == Declaration(d, size, mime)
        && outcome.superseded == old(rows)[d].storageKey
        && (outcome.superseded.Some? ==> outcome.superseded.value in t.superseded)
    {
      TakesNothing(cfg, s);
      t := s;
      if mime !in cfg.allowedMimes {
        return UnsupportedType, t;
      }
      if size < 1 {
        return InvalidSize, t;
      }
      if size > cfg.maxFileSize {
        return TooLarge, t;
      }
      if !(d in rows && rows[d].userId == user && rows[d].deletedAt == None) {
        return UrlNotFound, t;
      }
      var current := rows[d];
      if !Uploadable(current.status) {
        return HasFile, t;
      }
      ghost var begun := Step(cfg, s, BeginUrl(q, d, user, key, size, mime));
      TakesStep(cfg, s, s, BeginUrl(q, d, user, key, size, mime), begun);
      var count;
      count, t := PlaceKey(d, user, key, size, mime, q, begun);
      TakesBoth(cfg, s, begun, t);
      if count != 1 {
        return UrlChanged, t;
      }
      ghost var placed := t;
      t := Step(cfg, placed, DropSuperseded(q));
      TakesStep(cfg, s, placed, DropSuperseded(q), t);
      assert t.requests == s.requests;
      outcome := UrlIssued(current.storageKey);
    }

    /**
     `completeUpload`: the document becomes READY exactly when its upload is
     under way and the store holds an object as declared; any other object makes
     it FAILED, and without an object nothing changes.
     */
    method CompleteUpload(user: UserId, d: DocumentId, head: Option<Head>, etagMatches: bool,
                          ghost q: RequestId, ghost s: State)
      returns (outcome: CompleteOutcome, ghost t: State)
      requires rows == s.rows && q !in s.requests && Inv(cfg, s)
      modifies this`rows
      ensures Takes(cfg, s, t) && rows == t.rows && t.requests == s.requests
      ensures outcome.Completed? <==>
        InProgress(s, d, user) && head.Some? && AsDeclared(s, d, head.value, etagMatches)
      ensures outcome.Rejected? <==>
        InProgress(s, d, user) && head.Some? && !AsDeclared(s, d, head.value, etagMatches)
      ensures outcome.ObjectMissing? <==> InProgress(s, d, user) && head.None?
      ensures outcome.NotFound? <==> !OfUser(old(rows), d, user)
      ensures rows != old(rows) ==> OfUser(old(rows), d, user)
      ensures outcome.AlreadyReady? <==> LiveOwned(s, d, user) && s.rows[d].status == Ready
      ensures !outcome.Completed? && !outcome.Rejected? ==> rows == old(rows)
      ensures outcome.Completed? || outcome.Rejected? ==>
        rows == old(rows)[d := old(rows)[d].(status := if outcome.Completed? then Ready else Failed)]
      ensures outcome != Changed
    {
      TakesNothing(cfg, s);
      t := s;
      if !(d in rows && rows[d].userId == user && rows[d].deletedAt == None) {
        return NotFound, t;
      }
      var current := rows[d];
      if current.status == Ready {
        return AlreadyReady, t;
      }
      if current.status != Uploading || current.storageKey == None {
        return NoUpload, t;
      }
      if head == None {
        t := LooksUp(cfg, q, d, user, head, etagMatches, s);
        return ObjectMissing, t;
      }
      ProblemsExactly(cfg, s, d, head.value, etagMatches);
      ReadyChangesStatus(cfg, s, d, head.value, etagMatches);
      t := LooksUp(cfg, q, d, user, head, etagMatches, s);
      var ready;
      ready, t := Settle(user, d, current, head.value, etagMatches, q, s, t);
      outcome := if HasProblems(cfg, current, head.value, etagMatches) then Rejected
                 else if ready then Completed else Changed;
    }

    /** The verdict on the object that was found. */
    method Settle(user: UserId, d: DocumentId, current: Row, head: Head, etagMatches: bool,
                  ghost q: RequestId, ghost s: State, ghost headed: State)
      returns (ready: bool, ghost t: State)
      requires rows == s.rows && q !in s.requests && d in rows && rows[d] == current && current.userId == user
      requires current.deletedAt.None? && current.status == Uploading && Takes(cfg, s, headed)
      requires headed == s.(requests := s.requests[q := if HasProblems(cfg, current, head, etagMatches)
                                                        then Rejecting(d, current) else Verified(d, current, head)],
                            headed := headed.headed)
      modifies this`rows
      ensures Takes(cfg, s, t) && rows == t.rows && t.requests == s.requests
      ensures ready <==> !HasProblems(cfg, current, head, etagMatches)
      ensures rows == old(rows)[d := if ready then ReadyRow(current, current, head) else current.(status := Failed)]
    {
      ready := false;
      if HasProblems(cfg, current, head, etagMatches) {
        t := RejectUpload(d, user, current, q, headed);
      } else {
        var count;
        count, t := MarkReady(d, user, current, head, q, headed);
        ready := count == 1;
      }
      TakesBoth(cfg, s, headed, t);
      assert t.requests == s.requests;
    }

    /** `DocumentsService.remove`: from then on no step of any request changes the row. */
    method Remove(user: UserId, d: DocumentId, at: int, ghost s: State) returns (removed: bool, ghost t: State)
      requires rows == s.rows && Inv(cfg, s)
      modifies this`rows
      ensures Takes(cfg, s, t) && rows == t.rows && t.requests == s.requests
      ensures removed <==> OfUser(old(rows), d, user)
      ensures !removed ==> rows == old(rows)
      ensures removed ==>
        && rows == old(rows)[d := old(rows)[d].(deletedAt := Some(at), status := Deleted)]
        && forall a :: Enabled(cfg, t, a) ==> d in Step(cfg, t, a).rows && Step(cfg, t, a).rows[d] == rows[d]
    {
      TakesNothing(cfg, s);
      t, removed := s, false;
      if d in rows && rows[d].userId == user && rows[d].deletedAt == None {
        rows := rows[d := rows[d].(deletedAt := Some(at), status := Deleted)];
        t := Step(cfg, s, Uploads.Remove(d, user, at));
        TakesStep(cfg, s, s, Uploads.Remove(d, user, at), t);
        TakesKeepsInv(cfg, s, t);
        forall a | Enabled(cfg, t, a)
          ensures d in Step(cfg, t, a).rows && Step(cfg, t, a).rows[d] == t.rows[d]
        {
          DeletedForGood(cfg, t, d, a);
        }
        removed := true;
      }
    }
  }
}
