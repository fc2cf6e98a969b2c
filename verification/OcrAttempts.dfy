/**
 The attempt budget, in every run: however often a job is redelivered,
 recovered or abandoned, at most `maxAttempts` claims go on to run extraction.
 The counter itself may pass the budget; the number of runs may not.
 */
module OcrAttempts {
  import opened OcrRows
  import opened OcrExtraction
  import opened OcrProtocol

  ghost predicate Distinct(s: seq<nat>) {
    forall i, j :: 0 <= i < j < |s| ==> s[i] != s[j]
  }

  ghost predicate AttemptsInv(w: World) {
    && Distinct(w.starts)
    && (forall c :: c in w.starts ==> 1 <= c <= w.row.attemptCount && c <= w.row.maxAttempts)
    && (forall r :: r in w.runs && w.runs[r].Claimed? ==>
          1 <= w.runs[r].claim <= w.row.attemptCount && w.runs[r].claim !in w.starts)
    && (forall r, s | r in w.runs && s in w.runs && w.runs[r].Claimed? && w.runs[s].Claimed? ::
          w.runs[r].claim == w.runs[s].claim ==> r == s)
  }

  lemma NewWorldAttempts(sources: seq<Source>, row: Job)
    ensures AttemptsInv(NewWorld(sources, row))
  {
  }

  /** Anything that neither claims nor starts leaves the numbers as they are. */
  lemma FewerClaims(w: World, t: World)
    requires AttemptsInv(w)
    requires t.starts == w.starts
    requires t.row.attemptCount == w.row.attemptCount && t.row.maxAttempts == w.row.maxAttempts
    requires forall r :: r in t.runs && t.runs[r].Claimed? ==> r in w.runs && t.runs[r] == w.runs[r]
    ensures AttemptsInv(t)
  {
  }

  lemma ClaimTakesFreshCount(cfg: Config, now: int, w: World, r: RunId, seen: int, at: int)
    requires AttemptsInv(w) && Enabled(cfg, now, w, Claim(r, seen, at))
    ensures AttemptsInv(Step(cfg, now, w, Claim(r, seen, at)))
  {
  }

  lemma ReadClaimStartsOnce(cfg: Config, now: int, w: World, r: RunId)
    requires AttemptsInv(w) && Enabled(cfg, now, w, ReadClaim(r))
    ensures AttemptsInv(Step(cfg, now, w, ReadClaim(r)))
  {
  }

  /** Claims take distinct counts, and a claim enters `starts` only under the budget. */
  lemma StepKeepsAttempts(cfg: Config, now: int, w: World, a: Action)
    requires AttemptsInv(w) && Enabled(cfg, now, w, a)
    ensures AttemptsInv(Step(cfg, now, w, a))
    ensures Step(cfg, now, w, a).row.maxAttempts == w.row.maxAttempts
  {
    if a.Claim? {
      ClaimTakesFreshCount(cfg, now, w, a.run, a.seen, a.at);
    } else if a.ReadClaim? {
      ReadClaimStartsOnce(cfg, now, w, a.run);
    } else {
      OnlyClaimsCount(cfg, now, w, a);
      FewerClaims(w, Step(cfg, now, w, a));
    }
  }

  // ---------------------------------------------------------------------------
  // Where the counter stands
  // ---------------------------------------------------------------------------

  /** Calls that have claimed the job and not yet read the count back. */
  function Pending(runs: map<RunId, Phase>): set<RunId> {
    set r | r in runs && runs[r].Claimed?
  }

  /** Every claim has started extraction, was lost before that, or is still pending. */
  ghost predicate ClaimsAccounted(w: World) {
    w.row.attemptCount == |w.starts| + w.lost + |Pending(w.runs)|
  }

  lemma PendingAdded(runs: map<RunId, Phase>, r: RunId, phase: Phase)
    requires r in runs ==> !runs[r].Claimed?
    ensures |Pending(runs[r := phase])| == |Pending(runs)| + if phase.Claimed? then 1 else 0
  {
    assert Pending(runs[r := phase]) == Pending(runs) + if phase.Claimed? then {r} else {};
  }

  lemma PendingDone(runs: map<RunId, Phase>, r: RunId, phase: Phase)
    requires r in runs && runs[r].Claimed? && !phase.Claimed?
    ensures |Pending(runs[r := phase])| == |Pending(runs - {r})| == |Pending(runs)| - 1
  {
    assert Pending(runs[r := phase]) == Pending(runs) - {r};
    assert Pending(runs - {r}) == Pending(runs) - {r};
  }

  lemma PendingKept(runs: map<RunId, Phase>, next: map<RunId, Phase>)
    requires forall r :: r in next && next[r].Claimed? <==> r in runs && runs[r].Claimed?
    ensures |Pending(next)| == |Pending(runs)|
  {
    assert Pending(next) == Pending(runs);
  }

  /** No claim is ever unaccounted for, whatever crashes. */
  lemma StepKeepsAccount(cfg: Config, now: int, w: World, a: Action)
    requires ClaimsAccounted(w) && Enabled(cfg, now, w, a)
    ensures ClaimsAccounted(Step(cfg, now, w, a))
  {
    var t := Step(cfg, now, w, a);
    if a.Claim? && Claimable(w.row, a.seen - cfg.staleMs) {
      PendingAdded(w.runs, a.run, Claimed(t.row.attemptCount));
    } else if a.ReadClaim? {
      PendingDone(w.runs, a.run, t.runs[a.run]);
    } else if a.Crash? && w.runs[a.run].Claimed? {
      PendingDone(w.runs, a.run, Exhausted);
    } else {
      PendingKept(w.runs, t.runs);
    }
  }

  /**
   The one step that takes the counter past the budget: a claim of a claimable
   row whose budget is just spent.
   */
  lemma PassesBudgetExactly(cfg: Config, now: int, w: World, a: Action)
    requires Enabled(cfg, now, w, a) && w.row.attemptCount <= w.row.maxAttempts
    ensures var t := Step(cfg, now, w, a);
            t.row.attemptCount > t.row.maxAttempts <==>
            a.Claim? && Claimable(w.row, a.seen - cfg.staleMs) && w.row.attemptCount == w.row.maxAttempts
  {
    if !a.Claim? {
      OnlyClaimsCount(cfg, now, w, a);
    }
  }

  lemma OnlyClaimsCount(cfg: Config, now: int, w: World, a: Action)
    requires Enabled(cfg, now, w, a) && !a.Claim?
    ensures var t := Step(cfg, now, w, a);
            t.row.attemptCount == w.row.attemptCount && t.row.maxAttempts == w.row.maxAttempts
  {
  }

  lemma {:induction false} DistinctBounded(s: seq<nat>, bound: nat)
    requires Distinct(s)
    requires forall x :: x in s ==> 1 <= x <= bound
    ensures |s| <= bound
  {
    if s != [] {
      assert s[0] in s;
      if bound in s {
        var i :| 0 <= i < |s| && s[i] == bound;
        var rest := s[..i] + s[i + 1..];
        assert forall x :: x in rest ==> x in s && x != bound;
        DistinctBounded(rest, bound - 1);
      } else {
        DistinctBounded(s, bound - 1);
      }
    }
  }

  /** At most `maxAttempts` claims of a job ever run extraction. */
  lemma StartsBounded(w: World)
    requires AttemptsInv(w)
    ensures |w.starts| <= w.row.maxAttempts
  {
    DistinctBounded(w.starts, w.row.maxAttempts);
  }
}
