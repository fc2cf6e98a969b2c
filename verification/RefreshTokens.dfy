/**
 Refresh-token rotation.  A request reads a token row once and then acts on
 that reading, however old it has become; each later statement or transaction
 is one atomic step.  Tokens are fresh values.
 */
module RefreshTokens {
  import opened Wrappers
  import opened Histories

  type TokenId = nat
  type UserId = nat
  type RequestId = nat

  datatype Token = Token(userId: UserId, expiresAt: int, revokedAt: Option<int>)

  type Tokens = map<TokenId, Token>

  predicate Live(tokens: Tokens, t: TokenId) {
    t in tokens && tokens[t].revokedAt.None?
  }

  function LiveOf(tokens: Tokens, user: UserId): set<TokenId> {
    set t | t in tokens && tokens[t].userId == user && tokens[t].revokedAt.None?
  }

  // ---------------------------------------------------------------------------
  // Statements
  // ---------------------------------------------------------------------------

  function Issued(tokens: Tokens, t: TokenId, user: UserId, expiresAt: int): Tokens {
    tokens[t := Token(user, expiresAt, None)]
  }

  /** `UPDATE ... WHERE id = t AND revoked_at IS NULL` */
  function Revoked(tokens: Tokens, t: TokenId, at: int): Tokens {
    if Live(tokens, t) then tokens[t := tokens[t].(revokedAt := Some(at))] else tokens
  }

  /** `UPDATE ... WHERE user_id = user AND revoked_at IS NULL` */
  function AllRevoked(tokens: Tokens, user: UserId, at: int): Tokens {
    map t | t in tokens :: if t in LiveOf(tokens, user) then tokens[t].(revokedAt := Some(at)) else tokens[t]
  }

  /** The table `refresh_tokens` and the statements the service runs on it. */
  class TokenTable {
    var tokens: Tokens

    constructor ()
      ensures tokens == map[]
    {
      tokens := map[];
    }

    /** `issueRefreshToken` */
    method Issue(newToken: TokenId, user: UserId, now: int, ttl: int)
      requires newToken !in tokens
      modifies this
      ensures tokens == Issued(old(tokens), newToken, user, now + ttl)
      ensures LiveOf(tokens, user) == LiveOf(old(tokens), user) + {newToken}
      ensures tokens[newToken].userId == user && tokens[newToken].expiresAt == now + ttl
      ensures forall t :: t in old(tokens) ==> t in tokens && tokens[t] == old(tokens)[t]
    {
      tokens := tokens[newToken := Token(user, now + ttl, None)];
    }

    /** Revokes one token if it is live; the count says whether it was. */
    method RevokeOne(t: TokenId, at: int) returns (count: nat)
      modifies this
      ensures tokens == Revoked(old(tokens), t, at)
      ensures !Live(tokens, t) && count == if Live(old(tokens), t) then 1 else 0
      ensures tokens.Keys == old(tokens).Keys && forall u :: u in tokens && u != t ==> tokens[u] == old(tokens)[u]
      ensures count == 1 ==> tokens[t] == old(tokens)[t].(revokedAt := Some(at))
    {
      count := 0;
      if t in tokens && tokens[t].revokedAt == None {
        tokens := tokens[t := tokens[t].(revokedAt := Some(at))];
        count := 1;
      }
    }

    /** The rotation transaction: the presented token is exchanged if it is still live. */
    method Rotate(t: TokenId, user: UserId, newToken: TokenId, at: int, ttl: int) returns (rotated: bool)
      requires newToken !in tokens
      requires t in tokens ==> tokens[t].userId == user
      modifies this
      ensures rotated <==> Live(old(tokens), t)
      ensures tokens == if rotated then Issued(Revoked(old(tokens), t, at), newToken, user, at + ttl) else old(tokens)
      ensures |LiveOf(tokens, user)| == |LiveOf(old(tokens), user)|
    {
      ghost var before := tokens;
      var count := RevokeOne(t, at);
      rotated := count == 1;
      if rotated {
        RotationKeepsCount(before, t, user, newToken, at, at + ttl);
        Issue(newToken, user, at, ttl);
      }
    }

    /** `handleReuse` */
    method RevokeAll(user: UserId, at: int) returns (count: nat)
      modifies this
      ensures tokens == AllRevoked(old(tokens), user, at)
      ensures LiveOf(tokens, user) == {} && count == |LiveOf(old(tokens), user)|
      ensures tokens.Keys == old(tokens).Keys
      ensures forall t :: t in tokens && tokens[t] != old(tokens)[t] ==>
        old(tokens)[t].userId == user && tokens[t] == old(tokens)[t].(revokedAt := Some(at))
    {
      var live := LiveOf(tokens, user);
      tokens := map t | t in tokens :: if t in live then tokens[t].(revokedAt := Some(at)) else tokens[t];
      count := |live|;
    }
  }

  datatype RefreshOutcome = UnknownToken | Reused | Expired | AccountInactive | Rotated

  /** `refresh` and `logout`, no other request coming between. */
  class AuthService {
    const table: TokenTable
    const ttl: int

    constructor (table: TokenTable, ttl: int)
      ensures this.table == table && this.ttl == ttl
    {
      this.table, this.ttl := table, ttl;
    }

    /**
     A token is exchanged exactly when it is live, unexpired and its user active;
     one that is revoked already ends every session of its user; one that is live
     but may not be used is revoked alone.
     */
    method Refresh(t: TokenId, newToken: TokenId, now: int, userActive: bool) returns (outcome: RefreshOutcome)
      requires newToken !in table.tokens
      modifies table
      ensures outcome.UnknownToken? <==> t !in old(table.tokens)
      ensures outcome.Reused? <==> t in old(table.tokens) && !Live(old(table.tokens), t)
      ensures outcome.Expired? <==> Live(old(table.tokens), t) && old(table.tokens)[t].expiresAt <= now
      ensures outcome.AccountInactive? <==>
        Live(old(table.tokens), t) && now < old(table.tokens)[t].expiresAt && !userActive
      ensures outcome.Rotated? <==>
        Live(old(table.tokens), t) && now < old(table.tokens)[t].expiresAt && userActive
      ensures outcome.UnknownToken? ==> table.tokens == old(table.tokens)
      ensures outcome.Reused? ==>
        && LiveOf(table.tokens, old(table.tokens)[t].userId) == {}
        && forall u :: u in old(table.tokens) && old(table.tokens)[u].userId != old(table.tokens)[t].userId ==>
             u in table.tokens && table.tokens[u] == old(table.tokens)[u]
      ensures outcome.Expired? || outcome.AccountInactive? || outcome.Rotated? ==>
        && t in table.tokens && !Live(table.tokens, t)
        && forall u :: u in old(table.tokens) && u != t ==> u in table.tokens && table.tokens[u] == old(table.tokens)[u]
      ensures Live(table.tokens, newToken) <==> outcome.Rotated?
      ensures outcome.Rotated? ==>
        && table.tokens[newToken].userId == old(table.tokens)[t].userId
        && table.tokens[newToken].expiresAt == now + ttl
    {
      if t !in table.tokens {
        return UnknownToken;
      }
      var existing := table.tokens[t];
      if existing.revokedAt != None {
        var revoked := table.RevokeAll(existing.userId, now);
        return Reused;
      }
      if existing.expiresAt <= now {
        var revoked := table.RevokeOne(t, now);
        return Expired;
      }
      if !userActive {
        var revoked := table.RevokeOne(t, now);
        return AccountInactive;
      }
      outcome := Exchange(t, existing.userId, newToken, now);
    }

    /** The rotation of a token that looked live: won if it still is, and otherwise treated as reuse. */
    method Exchange(t: TokenId, user: UserId, newToken: TokenId, now: int) returns (outcome: RefreshOutcome)
      requires newToken !in table.tokens && (t in table.tokens ==> table.tokens[t].userId == user)
      modifies table
      ensures outcome.Rotated? <==> Live(old(table.tokens), t)
      ensures outcome.Reused? <==> !Live(old(table.tokens), t)
      ensures outcome.Reused? ==> LiveOf(table.tokens, user) == {} && newToken !in table.tokens
      ensures outcome.Rotated? ==>
        && t in table.tokens && !Live(table.tokens, t)
        && (forall u :: u in old(table.tokens) && u != t ==>
              u in table.tokens && table.tokens[u] == old(table.tokens)[u])
        && newToken in table.tokens && table.tokens[newToken] == Token(user, now + ttl, None)
    {
      var rotated := table.Rotate(t, user, newToken, now, ttl);
      if !rotated {
        var revoked := table.RevokeAll(user, now);
        return Reused;
      }
      outcome := Rotated;
    }

    /** Only the user's own token is revoked, and no other session ends. */
    method Logout(t: TokenId, user: UserId, now: int)
      modifies table
      ensures table.tokens.Keys == old(table.tokens).Keys
      ensures t in old(table.tokens) && old(table.tokens)[t].userId == user ==> !Live(table.tokens, t)
      ensures forall u :: u in table.tokens && (u != t || old(table.tokens)[u].userId != user) ==>
        table.tokens[u] == old(table.tokens)[u]
    {
      if t !in table.tokens || table.tokens[t].userId != user {
        return;
      }
      var revoked := table.RevokeOne(t, now);
    }
  }

  /** A rotation replaces one live session of the user by another. */
  lemma RotationKeepsCount(tokens: Tokens, t: TokenId, user: UserId, newToken: TokenId, at: int, expiresAt: int)
    requires Live(tokens, t) && tokens[t].userId == user && newToken !in tokens
    ensures |LiveOf(Issued(Revoked(tokens, t, at), newToken, user, expiresAt), user)| == |LiveOf(tokens, user)|
  {
    assert LiveOf(Issued(Revoked(tokens, t, at), newToken, user, expiresAt), user)
        == LiveOf(tokens, user) - {t} + {newToken};
  }

  // ---------------------------------------------------------------------------
  // Requests
  // ---------------------------------------------------------------------------

  /** What a request still intends to do after its first read. */
  datatype Intent =
    | Rotating(token: TokenId, user: UserId)   // the row looked live, unexpired and its user active
    | Revoking(token: TokenId)                 // expired, inactive user, or logout
    | Reusing(user: UserId)                    // the row was revoked, or the rotation was lost

  /**
   `lineage` gives each token the sign-in it descends from, `signIns` counts
   sign-ins, `exchanged` lists the tokens that were exchanged for a new pair;
   all three are history.
   */
  datatype State = State(
    tokens: Tokens,
    requests: map<RequestId, Intent>,
    lineage: map<TokenId, nat>,
    signIns: nat,
    exchanged: seq<TokenId>)

  datatype Action =
    | SignIn(token: TokenId, user: UserId, expiresAt: int)
    | BeginRefresh(request: RequestId, token: TokenId, now: int, userActive: bool)
    | BeginLogout(request: RequestId, token: TokenId, user: UserId)
    | Exchange(request: RequestId, newToken: TokenId, at: int, expiresAt: int)
    | RevokeToken(request: RequestId, at: int)
    | RevokeUser(request: RequestId, at: int)
    | Abandon(request: RequestId)

  predicate Enabled(s: State, a: Action) {
    match a
    case SignIn(t, user, expiresAt) => t !in s.tokens
    case BeginRefresh(q, t, now, userActive) => q !in s.requests
    case BeginLogout(q, t, user) => q !in s.requests
    case Exchange(q, t, at, expiresAt) => q in s.requests && s.requests[q].Rotating? && t !in s.tokens
    case RevokeToken(q, at) => q in s.requests && s.requests[q].Revoking?
    case RevokeUser(q, at) => q in s.requests && s.requests[q].Reusing?
    case Abandon(q) => q in s.requests
  }

  /** What `refresh` decides from the row it reads; nothing for an unknown token. */
  function RefreshIntent(tokens: Tokens, t: TokenId, now: int, userActive: bool): Option<Intent> {
    if t !in tokens then None
    else if tokens[t].revokedAt.Some? then Some(Reusing(tokens[t].userId))
    else if tokens[t].expiresAt <= now then Some(Revoking(t))
    else if !userActive then Some(Revoking(t))
    else Some(Rotating(t, tokens[t].userId))
  }

  /** `logout` revokes a token only for its own user. */
  function LogoutIntent(tokens: Tokens, t: TokenId, user: UserId): Option<Intent> {
    if t in tokens && tokens[t].userId == user then Some(Revoking(t)) else None
  }

  function Intended(s: State, q: RequestId, intent: Option<Intent>): State {
    if intent.None? then s else s.(requests := s.requests[q := intent.value])
  }

  function Step(s: State, a: Action): State
    requires Enabled(s, a)
  {
    match a
    case SignIn(t, user, expiresAt) =>
      s.(tokens := Issued(s.tokens, t, user, expiresAt), lineage := s.lineage[t := s.signIns], signIns := s.signIns + 1)
    case BeginRefresh(q, t, now, userActive) => Intended(s, q, RefreshIntent(s.tokens, t, now, userActive))
    case BeginLogout(q, t, user) => Intended(s, q, LogoutIntent(s.tokens, t, user))
    case Exchange(q, newToken, at, expiresAt) =>
      var Rotating(t, user) := s.requests[q];
      if Live(s.tokens, t) then
        s.(tokens := Issued(Revoked(s.tokens, t, at), newToken, user, expiresAt),
           requests := s.requests - {q},
           lineage := if t in s.lineage then s.lineage[newToken := s.lineage[t]] else s.lineage,
           exchanged := s.exchanged + [t])
      else s.(requests := s.requests[q := Reusing(user)])
    case RevokeToken(q, at) => s.(tokens := Revoked(s.tokens, s.requests[q].token, at), requests := s.requests - {q})
    case RevokeUser(q, at) => s.(tokens := AllRevoked(s.tokens, s.requests[q].user, at), requests := s.requests - {q})
    case Abandon(q) => s.(requests := s.requests - {q})
  }

  ghost predicate IsRun(states: seq<State>) {
    states != [] && states[0] == State(map[], map[], map[], 0, []) && History(states, Next())
  }

  ghost function Next(): (State, State) -> bool {
    (s, t) => Follows(s, t)
  }

  ghost predicate Follows(s: State, t: State) {
    exists a :: Enabled(s, a) && t == Step(s, a)
  }

  // ---------------------------------------------------------------------------
  // Invariant
  // ---------------------------------------------------------------------------

  ghost predicate LineagesKnown(s: State) {
    && s.lineage.Keys == s.tokens.Keys
    && forall t :: t in s.lineage ==> s.lineage[t] < s.signIns
  }

  ghost predicate LineagesOfOneUser(s: State) {
    forall t, u | t in s.tokens && u in s.tokens && t in s.lineage && u in s.lineage ::
      s.lineage[t] == s.lineage[u] ==> s.tokens[t].userId == s.tokens[u].userId
  }

  ghost predicate OneLivePerLineage(s: State) {
    forall t, u | Live(s.tokens, t) && Live(s.tokens, u) && t in s.lineage && u in s.lineage ::
      s.lineage[t] == s.lineage[u] ==> t == u
  }

  ghost predicate ExchangedOnce(s: State) {
    && (forall i, j :: 0 <= i < j < |s.exchanged| ==> s.exchanged[i] != s.exchanged[j])
    && forall t :: t in s.exchanged ==> t in s.tokens && !Live(s.tokens, t)
  }

  ghost predicate RequestsOfOwner(s: State) {
    forall q :: q in s.requests && s.requests[q].Rotating? ==>
      s.requests[q].token in s.tokens && s.tokens[s.requests[q].token].userId == s.requests[q].user
  }

  ghost predicate Inv(s: State) {
    LineagesKnown(s) && LineagesOfOneUser(s) && OneLivePerLineage(s) && ExchangedOnce(s) && RequestsOfOwner(s)
  }

  /** Tokens only ever go from live to revoked. */
  predicate OnlyRevokes(before: Tokens, after: Tokens) {
    && after.Keys == before.Keys
    && forall t :: t in before ==> after[t].userId == before[t].userId && (Live(after, t) ==> Live(before, t))
  }

  lemma RevokingKeepsInv(s: State, t: State)
    requires Inv(s) && OnlyRevokes(s.tokens, t.tokens)
    requires t.lineage == s.lineage && t.signIns == s.signIns && t.exchanged == s.exchanged
    requires forall q :: q in t.requests && t.requests[q].Rotating? ==>
      q in s.requests && t.requests[q] == s.requests[q]
    ensures Inv(t)
  {
  }

  lemma SignInLineages(s: State, a: Action)
    requires Inv(s) && a.SignIn? && Enabled(s, a)
    ensures LineagesKnown(Step(s, a)) && LineagesOfOneUser(Step(s, a))
  {
  }

  lemma SignInOneLive(s: State, a: Action)
    requires Inv(s) && a.SignIn? && Enabled(s, a)
    ensures OneLivePerLineage(Step(s, a))
  {
    var t := Step(s, a);
    forall x, y | Live(t.tokens, x) && Live(t.tokens, y) && x in t.lineage && y in t.lineage
      ensures t.lineage[x] == t.lineage[y] ==> x == y
    {
      assert x != a.token ==> Live(s.tokens, x) && x in s.lineage;
      assert y != a.token ==> Live(s.tokens, y) && y in s.lineage;
    }
  }

  lemma SignInRequests(s: State, a: Action)
    requires Inv(s) && a.SignIn? && Enabled(s, a)
    ensures ExchangedOnce(Step(s, a)) && RequestsOfOwner(Step(s, a))
  {
  }

  lemma SignInKeepsInv(s: State, a: Action)
    requires Inv(s) && a.SignIn? && Enabled(s, a)
    ensures Inv(Step(s, a))
  {
    SignInLineages(s, a);
    SignInOneLive(s, a);
    SignInRequests(s, a);
  }

  lemma BeginKeepsInv(s: State, q: RequestId, intent: Option<Intent>)
    requires Inv(s)
    requires intent.Some? && intent.value.Rotating? ==>
      intent.value.token in s.tokens && s.tokens[intent.value.token].userId == intent.value.user
    ensures Inv(Intended(s, q, intent))
  {
  }

  /** The state after `t` has been exchanged for `newToken`. */
  predicate Exchanged(s: State, after: State, t: TokenId, newToken: TokenId) {
    && Live(s.tokens, t) && t in s.lineage && newToken !in s.tokens
    && after.tokens.Keys == s.tokens.Keys + {newToken}
    && after.tokens[newToken].userId == s.tokens[t].userId
    && (forall x :: x in s.tokens ==> after.tokens[x].userId == s.tokens[x].userId)
    && (forall x :: x in s.tokens ==> (Live(after.tokens, x) <==> x != t && Live(s.tokens, x)))
    && after.lineage == s.lineage[newToken := s.lineage[t]]
    && after.signIns == s.signIns
    && after.exchanged == s.exchanged + [t]
  }

  lemma ExchangedKnown(s: State, after: State, t: TokenId, newToken: TokenId)
    requires Inv(s) && Exchanged(s, after, t, newToken)
    ensures LineagesKnown(after) && ExchangedOnce(after)
  {
  }

  lemma ExchangedOneUser(s: State, after: State, t: TokenId, newToken: TokenId)
    requires Inv(s) && Exchanged(s, after, t, newToken)
    ensures LineagesOfOneUser(after)
  {
  }

  lemma ExchangedOneLive(s: State, after: State, t: TokenId, newToken: TokenId)
    requires Inv(s) && Exchanged(s, after, t, newToken)
    ensures OneLivePerLineage(after)
  {
    forall x, y | Live(after.tokens, x) && Live(after.tokens, y) && x in after.lineage && y in after.lineage
      ensures after.lineage[x] == after.lineage[y] ==> x == y
    {
      assert x != newToken ==> x != t && Live(s.tokens, x);
      assert y != newToken ==> y != t && Live(s.tokens, y);
    }
  }

  lemma WonExchangeKeepsInv(s: State, q: RequestId, newToken: TokenId, at: int, expiresAt: int)
    requires Inv(s) && Enabled(s, Exchange(q, newToken, at, expiresAt)) && Live(s.tokens, s.requests[q].token)
    ensures Inv(Step(s, Exchange(q, newToken, at, expiresAt)))
  {
    var after := Step(s, Exchange(q, newToken, at, expiresAt));
    var t := s.requests[q].token;
    assert Exchanged(s, after, t, newToken);
    ExchangedKnown(s, after, t, newToken);
    ExchangedOneUser(s, after, t, newToken);
    ExchangedOneLive(s, after, t, newToken);
  }

  lemma StepKeepsInv(s: State, a: Action)
    requires Inv(s) && Enabled(s, a)
    ensures Inv(Step(s, a))
  {
    match a
    case SignIn(t, user, expiresAt) => SignInKeepsInv(s, a);
    case BeginRefresh(q, t, now, userActive) => BeginKeepsInv(s, q, RefreshIntent(s.tokens, t, now, userActive));
    case BeginLogout(q, t, user) => BeginKeepsInv(s, q, LogoutIntent(s.tokens, t, user));
    case Exchange(q, newToken, at, expiresAt) =>
      if Live(s.tokens, s.requests[q].token) {
        WonExchangeKeepsInv(s, q, newToken, at, expiresAt);
      } else {
        RevokingKeepsInv(s, Step(s, a));
      }
    case _ => RevokingKeepsInv(s, Step(s, a));
  }

  lemma EveryStateInv(states: seq<State>, i: nat)
    requires IsRun(states) && i < |states|
    ensures Inv(states[i])
  {
    forall s, t | Inv(s) && Next()(s, t)
      ensures Inv(t)
    {
      var a :| Enabled(s, a) && t == Step(s, a);
      StepKeepsInv(s, a);
    }
    HistoryKeeps(states, Next(), s => true, s => Inv(s), 0, i);
  }

  // ---------------------------------------------------------------------------
  // Guarantees over runs
  // ---------------------------------------------------------------------------

  /** In every state a sign-in has at most one live token. */
  lemma OneSessionPerSignIn(states: seq<State>, i: nat)
    requires IsRun(states) && i < |states|
    ensures var s := states[i];
            && (forall t :: t in s.tokens ==> t in s.lineage)
            && forall t, u | t in s.lineage && u in s.lineage ::
                 Live(s.tokens, t) && Live(s.tokens, u) && s.lineage[t] == s.lineage[u] ==> t == u
  {
    EveryStateInv(states, i);
  }

  /** In every state each token has been exchanged at most once, and an exchanged token is not live. */
  lemma NoTokenExchangedTwice(states: seq<State>, i: nat)
    requires IsRun(states) && i < |states|
    ensures forall j, k :: 0 <= j < k < |states[i].exchanged| ==> states[i].exchanged[j] != states[i].exchanged[k]
    ensures forall t :: t in states[i].exchanged ==> t in states[i].tokens && !Live(states[i].tokens, t)
  {
    EveryStateInv(states, i);
  }

  /** Winning an exchange leaves every user with as many live sessions as before. */
  lemma ExchangeKeepsSessions(states: seq<State>, i: nat, a: Action, user: UserId)
    requires IsRun(states) && i < |states| && a.Exchange? && Enabled(states[i], a)
    ensures |LiveOf(Step(states[i], a).tokens, user)| == |LiveOf(states[i].tokens, user)|
  {
    EveryStateInv(states, i);
    var s := states[i];
    var Rotating(t, owner) := s.requests[a.request];
    if Live(s.tokens, t) {
      if user == owner {
        RotationKeepsCount(s.tokens, t, owner, a.newToken, a.at, a.expiresAt);
      } else {
        assert LiveOf(Step(s, a).tokens, user) == LiveOf(s.tokens, user);
      }
    }
  }

  /** Every token of `user` that descends from one of the first `bound` sign-ins is revoked. */
  ghost predicate Ended(s: State, user: UserId, bound: nat) {
    forall t | t in s.tokens && t in s.lineage && s.tokens[t].userId == user && s.lineage[t] < bound ::
      !Live(s.tokens, t)
  }

  lemma RevokingKeepsEnded(s: State, t: State, user: UserId, bound: nat)
    requires Ended(s, user, bound) && OnlyRevokes(s.tokens, t.tokens) && t.lineage == s.lineage
    ensures Ended(t, user, bound)
  {
  }

  /** Every live token was live before, descends from a token that was, or begins a lineage of its own. */
  lemma HandedOn(s: State, t: State, user: UserId, bound: nat)
    requires Ended(s, user, bound) && bound <= s.signIns && s.tokens.Keys <= s.lineage.Keys
    requires forall x :: x in t.tokens && x in s.tokens ==>
      t.tokens[x].userId == s.tokens[x].userId && (Live(t.tokens, x) ==> Live(s.tokens, x))
    requires forall x :: x in s.lineage ==> x in t.lineage && t.lineage[x] == s.lineage[x]
    requires forall x :: x in t.tokens && x !in s.tokens && x in t.lineage ==>
      t.lineage[x] >= s.signIns || Inherits(s, t, x)
    ensures Ended(t, user, bound)
  {
  }

  /** The new token `x` continues the lineage of a live token of the same user. */
  ghost predicate Inherits(s: State, t: State, x: TokenId)
    requires x in t.tokens && x in t.lineage
  {
    exists y :: Live(s.tokens, y) && y in s.lineage
                && t.lineage[x] == s.lineage[y] && t.tokens[x].userId == s.tokens[y].userId
  }

  /** Only a live token can hand its lineage on, and a sign-in begins a new one. */
  lemma StepKeepsEnded(s: State, a: Action, user: UserId, bound: nat)
    requires Inv(s) && Enabled(s, a) && Ended(s, user, bound) && bound <= s.signIns
    ensures Ended(Step(s, a), user, bound) && s.signIns <= Step(s, a).signIns
  {
    if a.SignIn? {
      SignInKeepsEnded(s, a, user, bound);
    } else if a.Exchange? && Live(s.tokens, s.requests[a.request].token) {
      ExchangeKeepsEnded(s, a, user, bound);
    } else {
      OtherStepsRevoke(s, a);
      RevokingKeepsEnded(s, Step(s, a), user, bound);
    }
  }

  lemma OtherStepsRevoke(s: State, a: Action)
    requires Enabled(s, a) && !a.SignIn? && !(a.Exchange? && Live(s.tokens, s.requests[a.request].token))
    ensures OnlyRevokes(s.tokens, Step(s, a).tokens)
    ensures Step(s, a).lineage == s.lineage && Step(s, a).signIns == s.signIns
  {
  }

  lemma SignInKeepsEnded(s: State, a: Action, user: UserId, bound: nat)
    requires Inv(s) && a.SignIn? && Enabled(s, a) && Ended(s, user, bound) && bound <= s.signIns
    ensures Ended(Step(s, a), user, bound)
  {
    HandedOn(s, Step(s, a), user, bound);
  }

  lemma ExchangeKeepsEnded(s: State, a: Action, user: UserId, bound: nat)
    requires Inv(s) && Enabled(s, a) && Ended(s, user, bound) && bound <= s.signIns
    requires a.Exchange? && Live(s.tokens, s.requests[a.request].token)
    ensures Ended(Step(s, a), user, bound)
  {
    var t := Step(s, a);
    assert Inherits(s, t, a.newToken) by {
      assert t.lineage[a.newToken] == s.lineage[s.requests[a.request].token];
    }
    HandedOn(s, t, user, bound);
  }

  lemma ReuseEndsNow(s: State, a: Action)
    requires Inv(s) && a.RevokeUser? && Enabled(s, a)
    ensures Ended(Step(s, a), s.requests[a.request].user, s.signIns) && Step(s, a).signIns == s.signIns
  {
  }

  lemma EndedStays(states: seq<State>, i: nat, k: nat, user: UserId, bound: nat)
    requires IsRun(states) && i <= k < |states| && Ended(states[i], user, bound) && bound <= states[i].signIns
    ensures Ended(states[k], user, bound) && bound <= states[k].signIns
  {
    var inv := (s: State) => Ended(s, user, bound) && bound <= s.signIns;
    forall s, t | Inv(s) && inv(s) && Next()(s, t)
      ensures inv(t)
    {
      var a :| Enabled(s, a) && t == Step(s, a);
      StepKeepsEnded(s, a, user, bound);
    }
    forall m | i <= m < k
      ensures Inv(states[m])
    {
      EveryStateInv(states, m);
    }
    HistoryKeeps(states, Next(), s => Inv(s), inv, i, k);
  }

  /**
   Once reuse is detected for a user, no sign-in that came before ever has a
   live token again, whatever requests are still in flight.
   */
  lemma ReuseEndsSessions(states: seq<State>, i: nat, k: nat, a: Action)
    requires IsRun(states) && i < k < |states|
    requires a.RevokeUser? && Enabled(states[i], a) && states[i + 1] == Step(states[i], a)
    ensures Ended(states[k], states[i].requests[a.request].user, states[i].signIns)
    ensures states[i].signIns <= states[k].signIns
  {
    EveryStateInv(states, i);
    ReuseEndsNow(states[i], a);
    EndedStays(states, i + 1, k, states[i].requests[a.request].user, states[i].signIns);
  }

  lemma StepKeepsExchanged(s: State, a: Action, t: TokenId)
    requires Enabled(s, a) && t in s.exchanged
    ensures t in Step(s, a).exchanged
  {
  }

  lemma ExchangedStays(states: seq<State>, i: nat, k: nat, t: TokenId)
    requires IsRun(states) && i <= k < |states| && t in states[i].exchanged
    ensures t in states[k].exchanged
  {
    var inv := (s: State) => t in s.exchanged;
    forall s, next | inv(s) && Next()(s, next)
      ensures inv(next)
    {
      var a :| Enabled(s, a) && next == Step(s, a);
      StepKeepsExchanged(s, a, t);
    }
    HistoryKeeps(states, Next(), s => true, inv, i, k);
  }

  // ---------------------------------------------------------------------------
  // What a request decides
  // ---------------------------------------------------------------------------

  /** The request `q` is in flight with the given intent. */
  predicate Intends(s: State, q: RequestId, intent: Intent) {
    q in s.requests && s.requests[q] == intent
  }

  /**
   What a refresh sets out to do: revoke all sessions of the token's user exactly
   when the token is not live, exchange it exactly when it is live, unexpired and
   the user active, revoke it alone exactly when it is live but one of these
   fails; an unknown token leaves no request.
   */
  lemma RefreshDecides(s: State, a: Action)
    requires a.BeginRefresh? && Enabled(s, a)
    ensures var t, q, after := a.token, a.request, Step(s, a);
            && after.tokens == s.tokens
            && (t !in s.tokens ==> after == s)
            && (t in s.tokens ==>
                  var user := s.tokens[t].userId;
                  var usable := a.now < s.tokens[t].expiresAt && a.userActive;
                  && (Intends(after, q, Reusing(user)) <==> !Live(s.tokens, t))
                  && (Intends(after, q, Rotating(t, user)) <==> Live(s.tokens, t) && usable)
                  && (Intends(after, q, Revoking(t)) <==> Live(s.tokens, t) && !usable))
  {
  }

  /** A logout sets out to revoke the token exactly when it is the user's own. */
  lemma LogoutDecides(s: State, a: Action)
    requires a.BeginLogout? && Enabled(s, a)
    ensures var after := Step(s, a);
            && after.tokens == s.tokens
            && (Intends(after, a.request, Revoking(a.token)) <==>
                  a.token in s.tokens && s.tokens[a.token].userId == a.user)
            && (a.request !in after.requests <==> !(a.token in s.tokens && s.tokens[a.token].userId == a.user))
  {
  }

  lemma ReusingStays(s: State, a: Action, q: RequestId, user: UserId)
    requires Enabled(s, a) && Intends(s, q, Reusing(user)) && q in Step(s, a).requests
    ensures Intends(Step(s, a), q, Reusing(user))
  {
  }

  /** A request that set out to end a user's sessions keeps that intent for as long as it is in flight. */
  lemma ReusingUntilDone(states: seq<State>, i: nat, k: nat, q: RequestId, user: UserId)
    requires IsRun(states) && i <= k < |states| && Intends(states[i], q, Reusing(user))
    requires forall m :: i <= m <= k ==> q in states[m].requests
    ensures Intends(states[k], q, Reusing(user))
    decreases k - i
  {
    if i < k {
      ReusingUntilDone(states, i, k - 1, q, user);
      assert LinkedAt(states, Next(), k);
      var a :| Enabled(states[k - 1], a) && states[k] == Step(states[k - 1], a);
      ReusingStays(states[k - 1], a, q, user);
    }
  }

  /**
   The promise: once a token has been exchanged, any refresh that presents it
   again ends, by its own next step, every sign-in its user had made by then, for
   good.
   */
  lemma ReplayEndsSessions(states: seq<State>, i: nat, k: nat, m: nat, begin: Action, at: int)
    requires IsRun(states) && i < k < m < |states|
    requires begin.BeginRefresh? && Enabled(states[i], begin) && states[i + 1] == Step(states[i], begin)
    requires begin.token in states[i].exchanged
    requires forall n :: i < n <= k ==> begin.request in states[n].requests
    requires Enabled(states[k], RevokeUser(begin.request, at)) ==>
      states[k + 1] == Step(states[k], RevokeUser(begin.request, at))
    ensures begin.token in states[i].tokens && Enabled(states[k], RevokeUser(begin.request, at))
    ensures Ended(states[m], states[i].tokens[begin.token].userId, states[k].signIns)
  {
    EveryStateInv(states, i);
    RefreshDecides(states[i], begin);
    var user := states[i].tokens[begin.token].userId;
    ReusingUntilDone(states, i + 1, k, begin.request, user);
    ReuseEndsSessions(states, k, m, RevokeUser(begin.request, at));
  }

  /** Ending a user's sessions ends nobody else's. */
  lemma OtherUsersKeepSessions(s: State, a: Action, user: UserId)
    requires a.RevokeUser? && Enabled(s, a) && s.requests[a.request].user != user
    ensures LiveOf(Step(s, a).tokens, user) == LiveOf(s.tokens, user)
  {
  }

  /**
   Of all requests that ever present a token, one wins it: once a request has
   exchanged it, every other request that still intends to gets no token, changes
   no row, and goes on to revoke the sessions of the token's owner.
   */
  lemma OneWinnerPerToken(states: seq<State>, i: nat, k: nat, won: Action, late: Action)
    requires IsRun(states) && i < k < |states|
    requires won.Exchange? && Enabled(states[i], won) && states[i + 1] == Step(states[i], won)
    requires Live(states[i].tokens, states[i].requests[won.request].token)
    requires late.Exchange? && Enabled(states[k], late)
    requires states[k].requests[late.request].token == states[i].requests[won.request].token
    ensures var t := states[i].requests[won.request].token;
            var after := Step(states[k], late);
            && after.tokens == states[k].tokens
            && t in after.tokens
            && after.requests[late.request] == Reusing(after.tokens[t].userId)
  {
    var t := states[i].requests[won.request].token;
    assert states[i + 1].exchanged == states[i].exchanged + [t];
    ExchangedStays(states, i + 1, k, t);
    EveryStateInv(states, k);
  }
}
