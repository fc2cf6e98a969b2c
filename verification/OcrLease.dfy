/**
 The lease: as long as no live call lets the heartbeat of its row go stale, a
 job is held by at most one call, and a row whose call passed the budget check
 stays PROCESSING until that call ends it.
 */
module OcrLease {
  import opened Wrappers
  import opened OcrRows
  import opened OcrExtraction
  import opened OcrProtocol

  ghost predicate Held(w: World) {
    exists r :: r in w.runs && Holding(w.runs[r])
  }

  ghost predicate OneHolder(w: World) {
    forall r, s :: r in w.runs && s in w.runs && Holding(w.runs[r]) && Holding(w.runs[s]) ==> r == s
  }

  /** What the row shows while a call is in the given phase. */
  predicate PhaseFitsRow(phase: Phase, row: Job) {
    && (Holding(phase) ==> row.status != Queued)
    && (Running(phase) ==> row.status == Processing && phase.attempt == row.attemptCount <= row.maxAttempts)
    && (phase.Claimed? ==>
          phase.claim == row.attemptCount && (phase.claim <= row.maxAttempts ==> row.status == Processing))
    && (phase.Exhausted? ==> row.maxAttempts < row.attemptCount)
  }

  /**
   A remembered stale row whose budget was spent: whoever holds the job now
   claimed it later, so its attempt is beyond the budget.
   */
  predicate SnapshotFitsRow(snapshot: Snapshot, row: Job, held: bool) {
    && snapshot.maxAttempts == row.maxAttempts
    && snapshot.attemptCount <= row.attemptCount
    && (held && snapshot.attemptCount >= snapshot.maxAttempts ==> snapshot.attemptCount < row.attemptCount)
  }

  ghost predicate LeaseInv(w: World) {
    && OneHolder(w)
    && (forall r :: r in w.runs ==> PhaseFitsRow(w.runs[r], w.row))
    && (forall p :: p in w.stale ==> SnapshotFitsRow(w.stale[p], w.row, Held(w)))
  }

  lemma NewWorldLease(sources: seq<Source>, row: Job)
    ensures LeaseInv(NewWorld(sources, row))
  {
  }

  lemma ClaimKeepsLease(cfg: Config, now: int, w: World, r: RunId, seen: int, at: int)
    requires LeaseInv(w) && LeaseKept(cfg, now, w) && Enabled(cfg, now, w, Claim(r, seen, at))
    ensures LeaseInv(Step(cfg, now, w, Claim(r, seen, at)))
  {
    var t := Step(cfg, now, w, Claim(r, seen, at));
    if Claimable(w.row, seen - cfg.staleMs) {
      assert !Held(w);
      assert forall s :: s in t.runs && s != r ==> t.runs[s] == w.runs[s];
    } else {
      LoadedIsHarmless(w, t, r);
    }
  }

  lemma ActStaleKeepsLease(cfg: Config, now: int, w: World, p: PassId, seen: int, at: int)
    requires LeaseInv(w) && LeaseKept(cfg, now, w) && Enabled(cfg, now, w, ActStale(p, seen, at))
    ensures LeaseInv(Step(cfg, now, w, ActStale(p, seen, at)))
  {
    var t := Step(cfg, now, w, ActStale(p, seen, at));
    assert SnapshotFitsRow(w.stale[p], w.row, Held(w));
    forall r | r in w.runs
      ensures PhaseFitsRow(w.runs[r], t.row)
    {
      assert Holding(w.runs[r]) ==> Held(w);
    }
    RowStepKeepsLease(w, t);
  }

  /** One call moves on to `phase` or leaves, while the row stays with it. */
  lemma RunStepKeepsLease(w: World, t: World, r: RunId)
    requires LeaseInv(w) && r in w.runs && Holding(w.runs[r])
    requires t.stale == w.stale
    requires t.row.attemptCount == w.row.attemptCount && t.row.maxAttempts == w.row.maxAttempts
    requires t.runs == w.runs - {r}
             || (r in t.runs && t.runs == w.runs[r := t.runs[r]] && Holding(t.runs[r])
                 && PhaseFitsRow(t.runs[r], t.row))
    ensures LeaseInv(t)
  {
    assert Held(w);
    forall s | s in t.runs
      ensures PhaseFitsRow(t.runs[s], t.row)
    {
      if s != r {
        assert !Holding(w.runs[s]);
      }
    }
  }

  /** A step of the reconciler or a heartbeat, which changes no call and no counter. */
  lemma RowStepKeepsLease(w: World, t: World)
    requires LeaseInv(w)
    requires t.runs == w.runs
    requires t.row.attemptCount == w.row.attemptCount && t.row.maxAttempts == w.row.maxAttempts
    requires forall r :: r in w.runs ==> PhaseFitsRow(w.runs[r], t.row)
    requires forall p :: p in t.stale ==> SnapshotFitsRow(t.stale[p], t.row, Held(w))
    ensures LeaseInv(t)
  {
    assert Held(t) == Held(w);
  }

  lemma LoadedIsHarmless(w: World, t: World, r: RunId)
    requires LeaseInv(w) && t.row == w.row && t.stale == w.stale
    requires (r !in w.runs && t.runs == w.runs[r := Loaded])
             || (r in w.runs && w.runs[r].Loaded? && t.runs == w.runs - {r})
    ensures LeaseInv(t)
  {
    if Held(t) {
      var s :| s in t.runs && Holding(t.runs[s]);
      assert s in w.runs && Holding(w.runs[s]);
      assert Held(w);
    }
  }

  /** A step of call `r` itself, other than its crash. */
  predicate OwnStep(a: Action, r: RunId) {
    !a.Heartbeat? && !a.ReadStale? && !a.ActStale? && !a.DropStale? && !a.Crash? && a.run == r
  }

  /** A step of the holder moves only its own phase and leaves the counters. */
  lemma HolderStep(cfg: Config, now: int, w: World, a: Action, r: RunId, t: World)
    requires r in w.runs && PhaseFitsRow(w.runs[r], w.row)
    requires Enabled(cfg, now, w, a) && OwnStep(a, r) && !a.Deliver? && !a.Claim? && t == Step(cfg, now, w, a)
    ensures Holding(w.runs[r]) && t.stale == w.stale
    ensures t.row.attemptCount == w.row.attemptCount && t.row.maxAttempts == w.row.maxAttempts
    ensures t.runs == w.runs - {r}
            || (r in t.runs && t.runs == w.runs[r := t.runs[r]] && Holding(t.runs[r]) && PhaseFitsRow(t.runs[r], t.row))
  {
  }

  /** Every step keeps the lease invariant, provided live calls keep their heartbeat fresh. */
  lemma StepKeepsLease(cfg: Config, now: int, w: World, a: Action)
    requires LeaseInv(w) && LeaseKept(cfg, now, w) && Enabled(cfg, now, w, a)
    ensures LeaseInv(Step(cfg, now, w, a))
  {
    var t := Step(cfg, now, w, a);
    match a
    case Deliver(r) => LoadedIsHarmless(w, t, r);
    case Claim(r, seen, at) => ClaimKeepsLease(cfg, now, w, r, seen, at);
    case Heartbeat(at) => RowStepKeepsLease(w, t);
    case ReadStale(p, seen) =>
      assert !Held(w);
      RowStepKeepsLease(w, t);
    case ActStale(p, seen, at) => ActStaleKeepsLease(cfg, now, w, p, seen, at);
    case DropStale(p) => RowStepKeepsLease(w, t);
    case Crash(r) =>
      if Holding(w.runs[r]) {
        RunStepKeepsLease(w, t, r);
      } else {
        LoadedIsHarmless(w, t, r);
      }
    case _ =>
      HolderStep(cfg, now, w, a, a.run, t);
      RunStepKeepsLease(w, t, a.run);
  }

  /**
   No step of anyone else ends a running call's job: after any step that is not
   the call's own, the call still runs and the row is still PROCESSING.
   */
  lemma OthersCannotEnd(cfg: Config, now: int, w: World, a: Action, r: RunId)
    requires LeaseInv(w) && LeaseKept(cfg, now, w) && Enabled(cfg, now, w, a)
    requires r in w.runs && Running(w.runs[r])
    requires a.Heartbeat? || a.ReadStale? || a.ActStale? || a.DropStale? || a.run != r
    ensures var t := Step(cfg, now, w, a);
            && r in t.runs && t.runs[r] == w.runs[r]
            && t.row.status == Processing && t.row.attemptCount == w.row.attemptCount
  {
    StepKeepsLease(cfg, now, w, a);
  }
}
