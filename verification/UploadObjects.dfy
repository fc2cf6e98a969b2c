/**
 The objects behind READY documents.  The service deletes an object in two
 places: upload-url deletes one it has superseded, and a rejected completion
 deletes the one it looked at, also when another completion has meanwhile made
 the document READY.
 */
module UploadObjects {
  import opened Wrappers
  import opened Histories
  import opened Uploads
  import opened UploadRuns

  /** The keys whose objects the service has deleted. */
  function DeletedObjects(s: State): set<Key> {
    s.superseded + s.removed
  }

  /** A completion that read `key` is in flight and may yet reject it. */
  predicate MayReject(req: Request, key: Key) {
    || ((req.Completing? || req.Rejecting?) && req.seen.storageKey == Some(key))
    || (req.Discarding? && req.key == key)
  }

  ghost predicate Threatened(s: State, key: Key) {
    exists q :: q in s.requests && MayReject(s.requests[q], key)
  }

  /** The document is or was READY with `key`. */
  predicate HasFile(s: State, d: DocumentId, key: Key) {
    d in s.rows && s.rows[d].status in {Ready, Deleted} && s.rows[d].storageKey == Some(key)
  }

  /** The object of a READY document is gone exactly when a rejection that read its key has deleted it. */
  lemma ReadyObjectGone(cfg: Config, states: seq<State>, i: nat, d: DocumentId)
    requires IsRun(cfg, states) && i < |states| && d in states[i].rows && states[i].rows[d].status == Ready
    ensures states[i].rows[d].storageKey.Some?
    ensures var key := states[i].rows[d].storageKey.value;
            key in DeletedObjects(states[i]) <==> key in states[i].removed
  {
    ReadyIsVerified(cfg, states, i, d);
    var key := states[i].rows[d].storageKey.value;
    if key in states[i].superseded {
      SupersededIsUnreferenced(cfg, states, i, key, d);
    }
  }

  // ---------------------------------------------------------------------------
  // When it is safe
  // ---------------------------------------------------------------------------

  /** The document has its file, its object is there, and no completion threatens it. */
  ghost predicate Safe(s: State, d: DocumentId, key: Key) {
    HasFile(s, d, key) && key !in s.removed && !Threatened(s, key)
  }

  lemma FileStays(cfg: Config, s: State, d: DocumentId, key: Key, a: Action)
    requires Inv(cfg, s) && HasFile(s, d, key) && Enabled(cfg, s, a)
    ensures HasFile(Step(cfg, s, a), d, key)
  {
    StepMovesRows(cfg, s, a, d);
    assert RowInv(cfg, s, d, s.rows[d]);
  }

  lemma ThreatsAreOld(cfg: Config, s: State, a: Action, q: RequestId, key: Key)
    requires Enabled(cfg, s, a) && !a.BeginComplete?
    requires q in Step(cfg, s, a).requests && MayReject(Step(cfg, s, a).requests[q], key)
    ensures q in s.requests && MayReject(s.requests[q], key)
  {
  }

  /** No new completion can read the key of a document that is READY or deleted. */
  lemma NoNewThreat(cfg: Config, s: State, d: DocumentId, key: Key, a: Action, q: RequestId)
    requires Inv(cfg, s) && Safe(s, d, key) && Enabled(cfg, s, a)
    requires q in Step(cfg, s, a).requests
    ensures !MayReject(Step(cfg, s, a).requests[q], key)
  {
    if a.BeginComplete? {
      assert RowInv(cfg, s, a.document, s.rows[a.document]) && RowInv(cfg, s, d, s.rows[d]);
      assert q != a.request ==> !MayReject(s.requests[q], key);
    } else if MayReject(Step(cfg, s, a).requests[q], key) {
      ThreatsAreOld(cfg, s, a, q, key);
    }
  }

  lemma StepKeepsSafe(cfg: Config, s: State, d: DocumentId, key: Key, a: Action)
    requires Inv(cfg, s) && Safe(s, d, key) && Enabled(cfg, s, a)
    ensures Safe(Step(cfg, s, a), d, key)
  {
    var t := Step(cfg, s, a);
    FileStays(cfg, s, d, key, a);
    if Threatened(t, key) {
      var q :| q in t.requests && MayReject(t.requests[q], key);
      NoNewThreat(cfg, s, d, key, a, q);
    }
    if a.Discard? {
      assert !MayReject(s.requests[a.request], key);
    }
  }

  /** A READY document whose object is there and not threatened keeps it in every later state. */
  lemma SafeForever(cfg: Config, states: seq<State>, i: nat, k: nat, d: DocumentId, key: Key)
    requires IsRun(cfg, states) && i <= k < |states| && Safe(states[i], d, key)
    ensures Safe(states[k], d, key) && key !in DeletedObjects(states[k])
  {
    var inv := (s: State) => Safe(s, d, key);
    forall s, t | Inv(cfg, s) && inv(s) && Next(cfg)(s, t)
      ensures inv(t)
    {
      var a :| Enabled(cfg, s, a) && t == Step(cfg, s, a);
      StepKeepsSafe(cfg, s, d, key, a);
    }
    forall m | i <= m < k
      ensures Inv(cfg, states[m])
    {
      EveryStateInv(cfg, states, m);
    }
    HistoryKeeps(states, Next(cfg), s => Inv(cfg, s), inv, i, k);
    if key in states[k].superseded {
      SupersededIsUnreferenced(cfg, states, k, key, d);
    }
  }

  // ---------------------------------------------------------------------------
  // When it is not
  // ---------------------------------------------------------------------------

  lemma RunNext(cfg: Config, states: seq<State>, a: Action) returns (longer: seq<State>)
    requires IsRun(cfg, states) && Enabled(cfg, states[|states| - 1], a)
    ensures longer == states + [Step(cfg, states[|states| - 1], a)] && IsRun(cfg, longer)
  {
    assert Follows(cfg, states[|states| - 1], Step(cfg, states[|states| - 1], a));
    HistoryNext(states, Next(cfg), Step(cfg, states[|states| - 1], a));
    longer := states + [Step(cfg, states[|states| - 1], a)];
  }

  /** A completion in flight can go through to the deletion, whatever has become of the row. */
  lemma RejectionRuns(cfg: Config, states: seq<State>, q: RequestId, key: Key) returns (longer: seq<State>)
    requires IsRun(cfg, states)
    requires q in states[|states| - 1].requests && MayReject(states[|states| - 1].requests[q], key)
    ensures IsRun(cfg, longer) && states <= longer && key in longer[|longer| - 1].removed
  {
    longer := states;
    if longer[|longer| - 1].requests[q].Completing? {
      longer := RunNext(cfg, longer, HeadObject(q, Some(Head(0, None)), false));
    }
    if longer[|longer| - 1].requests[q].Rejecting? {
      EveryStateInv(cfg, longer, |longer| - 1);
      assert RequestInv(cfg, longer[|longer| - 1], longer[|longer| - 1].requests[q]);
      longer := RunNext(cfg, longer, CommitReject(q));
    }
    longer := RunNext(cfg, longer, Discard(q));
  }

  /** `longer` goes on from `states` to a state in which the object of `key` is deleted. */
  ghost predicate Loses(cfg: Config, states: seq<State>, longer: seq<State>, key: Key) {
    IsRun(cfg, longer) && states <= longer && key in DeletedObjects(longer[|longer| - 1])
  }

  /**
   Exactly when a READY document can lose its object: when a rejection has
   deleted it already, or a completion that read its key is still in flight.
   */
  lemma ObjectAtRiskExactly(cfg: Config, states: seq<State>, d: DocumentId, key: Key)
    requires IsRun(cfg, states) && HasFile(states[|states| - 1], d, key)
    ensures (exists longer :: Loses(cfg, states, longer, key))
            <==> key in states[|states| - 1].removed || Threatened(states[|states| - 1], key)
  {
    var s := states[|states| - 1];
    if key in s.removed {
      assert Loses(cfg, states, states, key);
    } else if Threatened(s, key) {
      var q :| q in s.requests && MayReject(s.requests[q], key);
      var longer := RejectionRuns(cfg, states, q, key);
      assert Loses(cfg, states, longer, key);
    } else {
      forall longer | Loses(cfg, states, longer, key)
        ensures false
      {
        assert longer[|states| - 1] == s;
        SafeForever(cfg, longer, |states| - 1, |longer| - 1, d, key);
      }
    }
  }

  /** Two completions of one upload are in flight. */
  lemma TwoCompletions(cfg: Config) returns (states: seq<State>)
    requires cfg == Config(100, {"image/png"})
    ensures IsRun(cfg, states)
    ensures var s := states[|states| - 1];
            && s.rows == map[1 := Row(5, Uploading, Some(7), Some(60), Some("image/png"), None, None)]
            && 11 in s.requests && s.requests[11] == Completing(1, s.rows[1])
            && 12 in s.requests && s.requests[12] == Completing(1, s.rows[1])
  {
    states := [State(map[], map[], map[], {}, {}, {}, {})];
    states := RunNext(cfg, states, Create(1, 5));
    states := RunNext(cfg, states, BeginUrl(10, 1, 5, 7, 60, "image/png"));
    states := RunNext(cfg, states, CommitUrl(10));
    states := RunNext(cfg, states, BeginComplete(11, 1, 5));
    states := RunNext(cfg, states, BeginComplete(12, 1, 5));
  }

  /**
   A concrete run: one of them makes the document READY, the other carries a
   wrong etag and deletes the object.
   */
  lemma ReadyWithoutObject(cfg: Config) returns (states: seq<State>)
    requires cfg == Config(100, {"image/png"})
    ensures IsRun(cfg, states)
    ensures var s := states[|states| - 1];
            1 in s.rows && s.rows[1].status == Ready && s.rows[1].storageKey == Some(7) && 7 in s.removed
  {
    states := TwoCompletions(cfg);
    states := RunNext(cfg, states, HeadObject(11, Some(Head(60, None)), true));
    states := RunNext(cfg, states, CommitReady(11));
    states := RunNext(cfg, states, HeadObject(12, Some(Head(60, None)), false));
    states := RunNext(cfg, states, CommitReject(12));
    states := RunNext(cfg, states, Discard(12));
  }
}
