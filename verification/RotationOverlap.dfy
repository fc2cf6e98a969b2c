/**
 Rotation and bulk revocation under READ COMMITTED, where neither is one step.

 A rotation locks the row of the token it exchanges and inserts the new row,
 which others see only once it commits.  A bulk revocation visits the rows that
 were live and committed when it started; it waits for a locked row, looks at it
 again, and never sees a row committed after its start.
 */
module RotationOverlap {
  import opened Wrappers
  import opened Histories
  import T = RefreshTokens

  type TokenId = T.TokenId
  type UserId = T.UserId
  type RequestId = T.RequestId

  /** An open rotation: `used` is locked, `issued` inserted but not committed. */
  datatype Rotation = Rotation(used: TokenId, issued: TokenId, user: UserId, expiresAt: int)

  /**
   A bulk revocation under way and the rows it has not visited.  History: the
   number of sign-ins when it started, and the tokens of those sign-ins that
   rotations have committed since.
   */
  datatype Sweep = Sweep(user: UserId, left: set<TokenId>, bound: nat, missed: set<TokenId>)

  datatype Db = Db(
    tokens: T.Tokens,
    open: map<RequestId, Rotation>,
    sweeps: map<RequestId, Sweep>,
    lineage: map<TokenId, nat>,
    signIns: nat)

  datatype Action =
    | SignIn(token: TokenId, user: UserId, expiresAt: int)
    | Open(request: RequestId, used: TokenId, issued: TokenId, expiresAt: int)
    | Commit(request: RequestId, at: int)
    | Rollback(request: RequestId)
    | RevokeToken(token: TokenId, at: int)
    | StartSweep(request: RequestId, user: UserId)
    | Visit(request: RequestId, token: TokenId, at: int)
    | EndSweep(request: RequestId)

  ghost predicate Locked(db: Db, t: TokenId) {
    exists q :: q in db.open && db.open[q].used == t
  }

  ghost predicate Unused(db: Db, t: TokenId) {
    t !in db.tokens && forall q :: q in db.open ==> db.open[q].issued != t
  }

  ghost predicate Enabled(db: Db, a: Action) {
    match a
    case SignIn(t, user, expiresAt) => Unused(db, t)
    case Open(q, used, issued, expiresAt) =>
      q !in db.open && T.Live(db.tokens, used) && !Locked(db, used) && Unused(db, issued)
    case Commit(q, at) => q in db.open && db.open[q].used in db.lineage
    case Rollback(q) => q in db.open
    case RevokeToken(t, at) => !Locked(db, t)
    case StartSweep(q, user) => q !in db.sweeps
    case Visit(q, t, at) => q in db.sweeps && t in db.sweeps[q].left && !Locked(db, t)
    case EndSweep(q) => q in db.sweeps && db.sweeps[q].left == {}
  }

  /** A sweep that does not see the token `r` has just committed. */
  function Missing(sweep: Sweep, r: Rotation, lineage: nat): Sweep {
    if sweep.user == r.user && lineage < sweep.bound then sweep.(missed := sweep.missed + {r.issued}) else sweep
  }

  function Step(db: Db, a: Action): Db
    requires a.Commit? ==> a.request in db.open && db.open[a.request].used in db.lineage
    requires a.Open? ==> a.used in db.tokens
    requires a.Visit? ==> a.request in db.sweeps
  {
    match a
    case SignIn(t, user, expiresAt) =>
      db.(tokens := T.Issued(db.tokens, t, user, expiresAt),
          lineage := db.lineage[t := db.signIns],
          signIns := db.signIns + 1)
    case Open(q, used, issued, expiresAt) =>
      db.(open := db.open[q := Rotation(used, issued, db.tokens[used].userId, expiresAt)])
    case Commit(q, at) =>
      var r := db.open[q];
      var lineage := db.lineage[r.used];
      db.(tokens := T.Issued(T.Revoked(db.tokens, r.used, at), r.issued, r.user, r.expiresAt),
          open := db.open - {q},
          lineage := db.lineage[r.issued := lineage],
          sweeps := map w | w in db.sweeps :: Missing(db.sweeps[w], r, lineage))
    case Rollback(q) => db.(open := db.open - {q})
    case RevokeToken(t, at) => db.(tokens := T.Revoked(db.tokens, t, at))
    case StartSweep(q, user) =>
      db.(sweeps := db.sweeps[q := Sweep(user, T.LiveOf(db.tokens, user), db.signIns, {})])
    case Visit(q, t, at) =>
      db.(tokens := T.Revoked(db.tokens, t, at),
          sweeps := db.sweeps[q := db.sweeps[q].(left := db.sweeps[q].left - {t})])
    case EndSweep(q) => db.(sweeps := db.sweeps - {q})
  }

  ghost predicate IsRun(states: seq<Db>) {
    states != [] && states[0] == Db(map[], map[], map[], map[], 0) && History(states, Next())
  }

  ghost function Next(): (Db, Db) -> bool {
    (s, t) => Follows(s, t)
  }

  ghost predicate Follows(s: Db, t: Db) {
    exists a :: Enabled(s, a) && t == Step(s, a)
  }

  // ---------------------------------------------------------------------------
  // Invariant
  // ---------------------------------------------------------------------------

  ghost predicate LineagesKnown(db: Db) {
    db.lineage.Keys == db.tokens.Keys && forall t :: t in db.lineage ==> db.lineage[t] < db.signIns
  }

  ghost predicate RotationsHold(db: Db) {
    && (forall q :: q in db.open ==>
          && T.Live(db.tokens, db.open[q].used) && db.open[q].issued !in db.tokens
          && db.tokens[db.open[q].used].userId == db.open[q].user)
    && (forall p, q | p in db.open && q in db.open ::
          db.open[p].used == db.open[q].used || db.open[p].issued == db.open[q].issued ==> p == q)
  }

  /** A live token of an earlier sign-in of `user`. */
  predicate Earlier(db: Db, user: UserId, bound: nat, t: TokenId) {
    T.Live(db.tokens, t) && db.tokens[t].userId == user && t in db.lineage && db.lineage[t] < bound
  }

  /** Every live token of an earlier sign-in is still to be visited, or was missed. */
  ghost predicate SweepSound(db: Db, sweep: Sweep) {
    && sweep.bound <= db.signIns
    && (forall t :: Earlier(db, sweep.user, sweep.bound, t) ==> t in sweep.left || t in sweep.missed)
    && (forall t :: t in sweep.missed && T.Live(db.tokens, t) ==> Earlier(db, sweep.user, sweep.bound, t))
    && sweep.missed <= db.tokens.Keys
  }

  ghost predicate Inv(db: Db) {
    LineagesKnown(db) && RotationsHold(db) && forall q :: q in db.sweeps ==> SweepSound(db, db.sweeps[q])
  }

  lemma RowsKept(db: Db, a: Action)
    requires Inv(db) && Enabled(db, a)
    ensures LineagesKnown(Step(db, a)) && db.signIns <= Step(db, a).signIns
    ensures RotationsHold(Step(db, a))
  {
    if a.Commit? {
      CommitKeepsRotations(db, a.request, a.at);
    } else if a.RevokeToken? || a.Visit? {
      NotLocked(db, a.token);
    } else if a.Open? {
      NotLocked(db, a.used);
    }
  }

  lemma NotLocked(db: Db, t: TokenId)
    requires !Locked(db, t)
    ensures forall q :: q in db.open ==> db.open[q].used != t
  {
  }

  lemma CommitKeepsRotations(db: Db, q: RequestId, at: int)
    requires Inv(db) && Enabled(db, Commit(q, at))
    ensures LineagesKnown(Step(db, Commit(q, at))) && RotationsHold(Step(db, Commit(q, at)))
  {
    var t := Step(db, Commit(q, at));
    forall p | p in t.open
      ensures T.Live(t.tokens, t.open[p].used) && t.open[p].issued !in t.tokens
      ensures t.tokens[t.open[p].used].userId == t.open[p].user
    {
      assert p in db.open && p != q;
    }
  }

  /** A step other than a commit or a sign-in makes no token live. */
  lemma OnlyRevokes(db: Db, a: Action, sweep: Sweep)
    requires Inv(db) && Enabled(db, a) && !a.Commit? && !a.SignIn? && SweepSound(db, sweep)
    ensures a.Visit? && sweep == db.sweeps[a.request] ==>
      SweepSound(Step(db, a), sweep.(left := sweep.left - {a.token}))
    ensures SweepSound(Step(db, a), sweep)
  {
    var t := Step(db, a);
    assert forall x :: T.Live(t.tokens, x) ==> T.Live(db.tokens, x) && t.tokens[x] == db.tokens[x];
  }

  lemma CommitKeepsSweep(db: Db, q: RequestId, at: int, w: RequestId)
    requires Inv(db) && Enabled(db, Commit(q, at)) && w in db.sweeps
    ensures SweepSound(Step(db, Commit(q, at)), Step(db, Commit(q, at)).sweeps[w])
  {
    var r := db.open[q];
    var t := Step(db, Commit(q, at));
    assert SweepSound(db, db.sweeps[w]);
    assert forall x :: T.Live(t.tokens, x) && x != r.issued ==> T.Live(db.tokens, x) && t.tokens[x] == db.tokens[x];
  }

  lemma StepKeepsInv(db: Db, a: Action)
    requires Inv(db) && Enabled(db, a)
    ensures Inv(Step(db, a))
  {
    RowsKept(db, a);
    var t := Step(db, a);
    forall w | w in t.sweeps
      ensures SweepSound(t, t.sweeps[w])
    {
      if a.Commit? {
        CommitKeepsSweep(db, a.request, a.at, w);
      } else if !a.StartSweep? || w != a.request {
        assert SweepSound(db, db.sweeps[w]);
        if !a.SignIn? {
          OnlyRevokes(db, a, db.sweeps[w]);
        }
      }
    }
  }

  lemma EveryStateInv(states: seq<Db>, i: nat)
    requires IsRun(states) && i < |states|
    ensures Inv(states[i])
  {
    forall s, t | Inv(s) && Next()(s, t)
      ensures Inv(t)
    {
      var a :| Enabled(s, a) && t == Step(s, a);
      StepKeepsInv(s, a);
    }
    HistoryKeeps(states, Next(), s => true, s => Inv(s), 0, i);
  }

  // ---------------------------------------------------------------------------
  // When a bulk revocation ends the earlier sessions
  // ---------------------------------------------------------------------------

  ghost predicate Ended(db: Db, user: UserId, bound: nat) {
    forall t :: !Earlier(db, user, bound, t)
  }

  /**
   When a bulk revocation has visited all its rows, the sign-ins before it are
   over exactly if every token that a rotation of theirs committed meanwhile has
   been revoked as well.
   */
  lemma SweepEndsExactly(states: seq<Db>, i: nat, q: RequestId)
    requires IsRun(states) && i < |states| && q in states[i].sweeps && states[i].sweeps[q].left == {}
    ensures var sweep := states[i].sweeps[q];
            Ended(states[i], sweep.user, sweep.bound) <==>
            forall t :: t in sweep.missed ==> !T.Live(states[i].tokens, t)
  {
    EveryStateInv(states, i);
    assert SweepSound(states[i], states[i].sweeps[q]);
  }

  lemma StepKeepsEnded(db: Db, a: Action, user: UserId, bound: nat)
    requires Inv(db) && Enabled(db, a) && Ended(db, user, bound) && bound <= db.signIns
    ensures Ended(Step(db, a), user, bound)
  {
    var t := Step(db, a);
    forall x
      ensures !Earlier(t, user, bound, x)
    {
      assert !Earlier(db, user, bound, x);
      if a.Commit? {
        assert !Earlier(db, user, bound, db.open[a.request].used);
      }
    }
  }

  /** Sign-ins that are over stay over, whatever rotations are open at that moment. */
  lemma EndedStays(states: seq<Db>, i: nat, k: nat, user: UserId, bound: nat)
    requires IsRun(states) && i <= k < |states| && Ended(states[i], user, bound) && bound <= states[i].signIns
    ensures Ended(states[k], user, bound)
  {
    var inv := (s: Db) => Ended(s, user, bound) && bound <= s.signIns;
    forall s, t | Inv(s) && inv(s) && Next()(s, t)
      ensures inv(t)
    {
      var a :| Enabled(s, a) && t == Step(s, a);
      StepKeepsEnded(s, a, user, bound);
    }
    forall m | i <= m < k
      ensures Inv(states[m])
    {
      EveryStateInv(states, m);
    }
    HistoryKeeps(states, Next(), s => Inv(s), inv, i, k);
  }

  /** Anything but a revocation other than the sweep `q` itself: sign-ins, rotations, and rows that `q` visits. */
  predicate BusyAction(a: Action, q: RequestId) {
    a.SignIn? || a.Open? || a.Commit? || a.Rollback? || (a.Visit? && a.request == q)
  }

  ghost function Busy(q: RequestId): (Db, Db) -> bool {
    (s, t) => exists a :: BusyAction(a, q) && Enabled(s, a) && t == Step(s, a)
  }

  /**
   The bulk revocation `q`, started in `s`, is under way in `t`: whatever it has
   missed was committed since, and then one token it has missed is live.
   */
  ghost predicate UnderWay(s: Db, q: RequestId, user: UserId, t: Db) {
    && q in t.sweeps && t.sweeps[q].user == user && t.sweeps[q].bound == s.signIns
    && t.sweeps[q].left <= s.tokens.Keys <= t.tokens.Keys
    && t.sweeps[q].missed !! s.tokens.Keys
    && (t.sweeps[q].missed != {} ==> exists x :: x in t.sweeps[q].missed && T.Live(t.tokens, x))
  }

  lemma CommitKeepsUnderWay(s: Db, q: RequestId, user: UserId, t: Db, p: RequestId, at: int)
    requires Inv(t) && UnderWay(s, q, user, t) && Enabled(t, Commit(p, at))
    ensures UnderWay(s, q, user, Step(t, Commit(p, at)))
  {
    var next := Step(t, Commit(p, at));
    var r := t.open[p];
    assert SweepSound(t, t.sweeps[q]);
    if next.sweeps[q] != t.sweeps[q] {
      assert r.issued in next.sweeps[q].missed && T.Live(next.tokens, r.issued);
    } else if t.sweeps[q].missed != {} {
      var x :| x in t.sweeps[q].missed && T.Live(t.tokens, x);
      assert Earlier(t, user, s.signIns, x);
      assert x in next.sweeps[q].missed && T.Live(next.tokens, x);
    }
  }

  lemma BusyKeepsUnderWay(s: Db, q: RequestId, user: UserId, t: Db, a: Action)
    requires Inv(t) && UnderWay(s, q, user, t) && BusyAction(a, q) && Enabled(t, a)
    ensures UnderWay(s, q, user, Step(t, a))
  {
    if a.Commit? {
      CommitKeepsUnderWay(s, q, user, t, a.request, a.at);
    } else {
      var next := Step(t, a);
      assert next.sweeps[q].missed == t.sweeps[q].missed;
      if t.sweeps[q].missed != {} {
        var x :| x in t.sweeps[q].missed && T.Live(t.tokens, x);
        assert x in next.sweeps[q].missed && T.Live(next.tokens, x);
      }
    }
  }

  lemma BusySweep(s: Db, q: RequestId, user: UserId, course: seq<Db>)
    requires Inv(s) && q !in s.sweeps
    requires course != [] && course[0] == Step(s, StartSweep(q, user)) && History(course, Busy(q))
    ensures Inv(course[|course| - 1]) && UnderWay(s, q, user, course[|course| - 1])
  {
    StepKeepsInv(s, StartSweep(q, user));
    var inv := (u: Db) => Inv(u) && UnderWay(s, q, user, u);
    forall u, v | inv(u) && Busy(q)(u, v)
      ensures inv(v)
    {
      var a :| BusyAction(a, q) && Enabled(u, a) && v == Step(u, a);
      StepKeepsInv(u, a);
      BusyKeepsUnderWay(s, q, user, u, a);
    }
    HistoryKeeps(course, Busy(q), u => true, inv, 0, |course| - 1);
  }

  /**
   Whatever sign-ins and rotations begin, commit or roll back while a bulk
   revocation runs, it ends the sign-ins before it if and only if no rotation of
   theirs committed meanwhile.
   */
  lemma SweepEndsIffNoneCommitted(states: seq<Db>, i: nat, q: RequestId, user: UserId, course: seq<Db>)
    requires IsRun(states) && i < |states| && q !in states[i].sweeps
    requires course != [] && course[0] == Step(states[i], StartSweep(q, user)) && History(course, Busy(q))
    requires var t := course[|course| - 1];
             q in t.sweeps ==> t.sweeps[q].left == {}
    ensures var t := course[|course| - 1];
            && q in t.sweeps
            && (Ended(t, user, states[i].signIns) <==> t.sweeps[q].missed == {})
  {
    EveryStateInv(states, i);
    BusySweep(states[i], q, user, course);
    var t := course[|course| - 1];
    assert SweepSound(t, t.sweeps[q]);
  }

  /** A rotation commits, or the bulk revocation `q` visits a row. */
  predicate QuietAction(a: Action, q: RequestId) {
    a.Commit? || (a.Visit? && a.request == q)
  }

  ghost function Quiet(q: RequestId): (Db, Db) -> bool {
    (s, t) => exists a :: QuietAction(a, q) && Enabled(s, a) && t == Step(s, a)
  }

  /** The bulk revocation `q`, started in `s`, has yet to visit whatever an open rotation holds. */
  ghost predicate HeldUp(s: Db, q: RequestId, user: UserId, t: Db) {
    && q in t.sweeps && t.sweeps[q].user == user && t.sweeps[q].bound == s.signIns == t.signIns
    && t.sweeps[q].left <= s.tokens.Keys
    && (forall p :: p in t.open ==> p in s.open && t.open[p] == s.open[p])
    && (forall p :: p in t.open && t.open[p].user == user ==> t.open[p].used in t.sweeps[q].left)
  }

  ghost predicate IssuedBy(s: Db, user: UserId, x: TokenId) {
    exists p :: p in s.open && s.open[p].user == user && s.open[p].issued == x
  }

  /** The tokens it missed are those of the user's rotations that were open in `s` and are no longer; they are live. */
  ghost predicate MissedThose(s: Db, user: UserId, t: Db, missed: set<TokenId>) {
    && (forall p :: p in s.open && s.open[p].user == user && p !in t.open ==>
          s.open[p].issued in missed && T.Live(t.tokens, s.open[p].issued))
    && (forall x :: x in missed ==> IssuedBy(s, user, x))
  }

  ghost predicate Sweeping(s: Db, q: RequestId, user: UserId, t: Db) {
    HeldUp(s, q, user, t) && MissedThose(s, user, t, t.sweeps[q].missed)
  }

  lemma VisitKeepsSweeping(s: Db, q: RequestId, user: UserId, t: Db, x: TokenId, at: int)
    requires Inv(s) && Inv(t) && Sweeping(s, q, user, t) && Enabled(t, Visit(q, x, at))
    ensures Sweeping(s, q, user, Step(t, Visit(q, x, at)))
  {
    NotLocked(t, x);
  }

  lemma CommitKeepsHeldUp(s: Db, q: RequestId, user: UserId, t: Db, p: RequestId, at: int)
    requires Inv(t) && HeldUp(s, q, user, t) && Enabled(t, Commit(p, at))
    ensures HeldUp(s, q, user, Step(t, Commit(p, at)))
  {
  }

  lemma CommitKeepsMissed(s: Db, q: RequestId, user: UserId, t: Db, p: RequestId, at: int)
    requires Inv(s) && Inv(t) && Sweeping(s, q, user, t) && Enabled(t, Commit(p, at))
    ensures var next := Step(t, Commit(p, at));
            MissedThose(s, user, next, next.sweeps[q].missed)
  {
    var next := Step(t, Commit(p, at));
    assert t.open[p] == s.open[p] && s.open[p].used in s.tokens;
    forall o | o in s.open && s.open[o].user == user && o !in next.open
      ensures s.open[o].issued in next.sweeps[q].missed && T.Live(next.tokens, s.open[o].issued)
    {
      assert o == p || o !in t.open;
    }
  }

  lemma QuietKeepsSweeping(s: Db, q: RequestId, user: UserId, t: Db, a: Action)
    requires Inv(s) && Inv(t) && Sweeping(s, q, user, t) && QuietAction(a, q) && Enabled(t, a)
    ensures Sweeping(s, q, user, Step(t, a))
  {
    if a.Visit? {
      VisitKeepsSweeping(s, q, user, t, a.token, a.at);
    } else {
      CommitKeepsHeldUp(s, q, user, t, a.request, a.at);
      CommitKeepsMissed(s, q, user, t, a.request, a.at);
    }
  }

  lemma QuietSweep(s: Db, q: RequestId, user: UserId, quiet: seq<Db>)
    requires Inv(s) && q !in s.sweeps
    requires quiet != [] && quiet[0] == Step(s, StartSweep(q, user)) && History(quiet, Quiet(q))
    ensures Inv(quiet[|quiet| - 1]) && Sweeping(s, q, user, quiet[|quiet| - 1])
  {
    StepKeepsInv(s, StartSweep(q, user));
    var inv := (u: Db) => Inv(u) && Sweeping(s, q, user, u);
    forall u, v | inv(u) && Quiet(q)(u, v)
      ensures inv(v)
    {
      var a :| QuietAction(a, q) && Enabled(u, a) && v == Step(u, a);
      StepKeepsInv(u, a);
      QuietKeepsSweeping(s, q, user, u, a);
    }
    HistoryKeeps(quiet, Quiet(q), u => true, inv, 0, |quiet| - 1);
  }

  /** When all rows are visited, the rotations of the user that were open in `s` are those it missed. */
  lemma AllCommitted(s: Db, q: RequestId, user: UserId, t: Db)
    requires Inv(t) && Sweeping(s, q, user, t) && t.sweeps[q].left == {}
    ensures t.sweeps[q].missed == {} <==> forall p :: p in s.open ==> s.open[p].user != user
  {
    if x :| x in t.sweeps[q].missed {
      assert IssuedBy(s, user, x);
    }
  }

  /**
   So, when rotations do nothing but commit meanwhile, a bulk revocation ends the
   sign-ins before it if and only if no rotation of that user was open when it
   started.
   */
  lemma SweepEndsIffNoneOpen(states: seq<Db>, i: nat, q: RequestId, user: UserId, quiet: seq<Db>)
    requires IsRun(states) && i < |states| && q !in states[i].sweeps
    requires quiet != [] && quiet[0] == Step(states[i], StartSweep(q, user)) && History(quiet, Quiet(q))
    requires var t := quiet[|quiet| - 1];
             q in t.sweeps ==> t.sweeps[q].left == {}
    ensures Ended(quiet[|quiet| - 1], user, states[i].signIns)
            <==> forall p :: p in states[i].open ==> states[i].open[p].user != user
  {
    EveryStateInv(states, i);
    QuietIsBusy(quiet, q);
    SweepEndsIffNoneCommitted(states, i, q, user, quiet);
    QuietSweep(states[i], q, user, quiet);
    AllCommitted(states[i], q, user, quiet[|quiet| - 1]);
  }

  lemma QuietIsBusy(course: seq<Db>, q: RequestId)
    requires History(course, Quiet(q))
    ensures History(course, Busy(q))
  {
    forall i | 0 < i < |course|
      ensures LinkedAt(course, Busy(q), i)
    {
      assert LinkedAt(course, Quiet(q), i);
      QuietStepIsBusy(course[i - 1], course[i], q);
    }
  }

  lemma QuietStepIsBusy(s: Db, t: Db, q: RequestId)
    requires Quiet(q)(s, t)
    ensures Busy(q)(s, t)
  {
    var a :| QuietAction(a, q) && Enabled(s, a) && t == Step(s, a);
    QuietActionIsBusy(a, q);
  }

  lemma QuietActionIsBusy(a: Action, q: RequestId)
    requires QuietAction(a, q)
    ensures BusyAction(a, q)
  {
  }

  lemma RunNext(states: seq<Db>, a: Action) returns (longer: seq<Db>)
    requires IsRun(states) && Enabled(states[|states| - 1], a)
    ensures longer == states + [Step(states[|states| - 1], a)] && IsRun(longer)
  {
    HistoryNext(states, Next(), Step(states[|states| - 1], a));
    longer := states + [Step(states[|states| - 1], a)];
  }

  /**
   A concrete run: user 5 signs in with token 1; a rotation to token 2 is open
   when a bulk revocation starts and commits before it is done.  All rows are
   visited, and token 2 is still live.
   */
  lemma OpenRotationSurvives() returns (states: seq<Db>)
    ensures IsRun(states)
    ensures var s := states[|states| - 1];
            && 8 in s.sweeps && s.sweeps[8].user == 5 && s.sweeps[8].left == {}
            && T.Live(s.tokens, 2) && !Ended(s, 5, s.sweeps[8].bound)
  {
    states := [Db(map[], map[], map[], map[], 0)];
    states := RunNext(states, SignIn(1, 5, 9));
    states := RunNext(states, Open(7, 1, 2, 9));
    states := RunNext(states, StartSweep(8, 5));
    assert states[3].sweeps[8].left == {1};
    states := RunNext(states, Commit(7, 3));
    states := RunNext(states, Visit(8, 1, 4));
    assert Earlier(states[5], 5, 1, 2);
  }

  /** Another: nothing is open when the bulk revocation starts; the rotation begins and commits before the visit. */
  lemma LateRotationSurvives() returns (states: seq<Db>)
    ensures IsRun(states) && |states| == 6 && states[1].open == map[]
    ensures Enabled(states[1], StartSweep(8, 5)) && states[2] == Step(states[1], StartSweep(8, 5))
    ensures var s := states[5];
            && 8 in s.sweeps && s.sweeps[8].user == 5 && s.sweeps[8].left == {}
            && T.Live(s.tokens, 2) && !Ended(s, 5, s.sweeps[8].bound)
  {
    states := [Db(map[], map[], map[], map[], 0)];
    states := RunNext(states, SignIn(1, 5, 9));
    states := RunNext(states, StartSweep(8, 5));
    assert states[2].sweeps[8].left == {1};
    states := RunNext(states, Open(7, 1, 2, 9));
    states := RunNext(states, Commit(7, 3));
    states := RunNext(states, Visit(8, 1, 4));
    assert Earlier(states[5], 5, 1, 2);
  }
}
