/** Refresh tokens over whole runs: spent means spent, and rotation neither multiplies nor loses sessions. */
module Rotation {
  import opened Basics
  import opened Redis
  import opened Session
  import opened SessionInvariant
  import Acl
  import SessionSafety

  // ---- A revoked token stays revoked ----

  /** A token drawn before now whose row is revoked or deleted. */
  ghost predicate Unusable(s: State, jwt: RefreshJwt) {
    && jwt.tokenId < s.nextId
    && (Sha256(jwt) in s.refresh ==> s.refresh[Sha256(jwt)].isRevoked)
  }

  lemma MoveKeepsUnusable(s: State, s': State, jwt: RefreshJwt)
    requires RowIdsBelow(s.refresh, s.nextId) && Unusable(s, jwt) && Moves(s, s')
    ensures Unusable(s', jwt)
  {
  }

  /** No call ever makes a revoked refresh token usable again, whatever happens to its row. */
  lemma {:induction false} RevokedForever(c: Config, s: State, ops: seq<Op>, jwt: RefreshJwt)
    requires Valid(c, s) && Unusable(s, jwt)
    ensures Unusable(Run(c, s, ops), jwt)
    ensures RefreshTokens(c, Run(c, s, ops), jwt) == Reply(Run(c, s, ops), Fail(AuthenticationError))
  {
    if ops == [] {
    } else {
      var init := ops[..|ops| - 1];
      RevokedForever(c, s, init, jwt);
      RunValid(c, s, init);
      StepMoves(c, Run(c, s, init), ops[|ops| - 1], Run(c, s, ops));
      MoveKeepsUnusable(Run(c, s, init), Run(c, s, ops), jwt);
    }
  }

  /** What a refresh does to the table: nothing, a revocation, or a revocation and one new row of the same user. */
  lemma RefreshCases(c: Config, s: State, jwt: RefreshJwt)
    requires RowsOwned(s.users, s.refresh) && RowIdsBelow(s.refresh, s.nextId)
    ensures var r := RefreshTokens(c, s, jwt);
      if !RefreshUsable(s, jwt) then r.state == s && r.outcome == Fail(AuthenticationError)
      else
        && Sha256(jwt) in s.refresh && s.refresh[Sha256(jwt)].userId == jwt.userId
        && (if s.users[jwt.userId].isActive then
              && r.outcome.Tokens? && r.outcome.refresh.userId == jwt.userId
              && Sha256(r.outcome.refresh) !in s.refresh
              && r.state.refresh == RevokeRow(s.refresh, Sha256(jwt))[
                   Sha256(r.outcome.refresh) := RefreshRow(jwt.userId, s.now + REFRESH_ROW_MS, false)]
            else
              r.outcome.Fail? && r.state.refresh == RevokeRow(s.refresh, Sha256(jwt)))
  {
    if RefreshUsable(s, jwt) && s.users[jwt.userId].isActive {
      var spent := s.(refresh := RevokeRow(s.refresh, Sha256(jwt)));
      var who := IdentityOf(s.users[jwt.userId]);
      var tok, next := IssueShape(c, spent, jwt.userId, who, Acl.Resolve(s.acl, jwt.userId));
    }
  }

  lemma RefreshSpends(c: Config, s: State, jwt: RefreshJwt)
    requires Valid(c, s) && RefreshUsable(s, jwt)
    ensures Unusable(RefreshTokens(c, s, jwt).state, jwt)
  {
    RefreshCases(c, s, jwt);
  }

  /**
   * A refresh token gets past the checks of `refreshTokens` at most once, even when the user was inactive that time.
   */
  lemma SingleUse(c: Config, s: State, ops: seq<Op>, jwt: RefreshJwt)
    requires Valid(c, s) && RefreshUsable(s, jwt)
    ensures !RefreshUsable(Run(c, RefreshTokens(c, s, jwt).state, ops), jwt)
  {
    RefreshSpends(c, s, jwt);
    RefreshValid(c, s, jwt, RefreshTokens(c, s, jwt));
    RevokedForever(c, RefreshTokens(c, s, jwt).state, ops, jwt);
  }

  /** Logging out with a refresh token spends it as well. */
  lemma LogoutSpends(c: Config, s: State, ops: seq<Op>, tok: AccessToken, jwt: RefreshJwt)
    requires Valid(c, s) && Accepts(s, tok) && jwt.tokenId < s.nextId
    ensures !RefreshUsable(Run(c, Logout(s, tok, jwt).state, ops), jwt)
  {
    LogoutValid(c, s, tok, jwt);
    RevokedForever(c, Logout(s, tok, jwt).state, ops, jwt);
  }

  // ---- Conservation of live sessions ----

  /** The user's unrevoked refresh rows. */
  function LiveRows(t: RefreshTable, u: Id): set<Digest<RefreshJwt>> {
    set h | h in t && t[h].userId == u && !t[h].isRevoked
  }

  lemma RevokeTakesOne(t: RefreshTable, spent: Digest<RefreshJwt>, u: Id)
    requires spent in t
    ensures LiveRows(RevokeRow(t, spent), u) == LiveRows(t, u) - {spent}
  {
  }

  lemma NewRowAddsOne(t: RefreshTable, h: Digest<RefreshJwt>, row: RefreshRow, u: Id)
    requires h !in t && !row.isRevoked
    ensures LiveRows(t[h := row], u) == if row.userId == u then LiveRows(t, u) + {h} else LiveRows(t, u)
  {
  }

  /** Revoking one live row and adding one of the same user keeps everybody's count. */
  lemma SwapConserves(t: RefreshTable, spent: Digest<RefreshJwt>, next: Digest<RefreshJwt>, expiresAt: nat, u: Id)
    requires spent in t && !t[spent].isRevoked && next !in t
    ensures |LiveRows(RevokeRow(t, spent)[next := RefreshRow(t[spent].userId, expiresAt, false)], u)| ==
      |LiveRows(t, u)|
  {
    RevokeTakesOne(t, spent, u);
    NewRowAddsOne(RevokeRow(t, spent), next, RefreshRow(t[spent].userId, expiresAt, false), u);
    assert spent in LiveRows(t, u) <==> t[spent].userId == u;
    assert next !in LiveRows(t, u);
  }

  /** A successful refresh leaves every user with exactly as many live refresh tokens as before. */
  lemma RefreshConserves(c: Config, s: State, jwt: RefreshJwt, u: Id)
    requires Valid(c, s) && RefreshTokens(c, s, jwt).outcome.Tokens?
    ensures |LiveRows(RefreshTokens(c, s, jwt).state.refresh, u)| == |LiveRows(s.refresh, u)|
  {
    RefreshCases(c, s, jwt);
    SwapConserves(s.refresh, Sha256(jwt), Sha256(RefreshTokens(c, s, jwt).outcome.refresh), s.now + REFRESH_ROW_MS, u);
  }

  lemma SubsetSize<T>(a: set<T>, b: set<T>)
    requires a <= b
    ensures |a| <= |b|
  {
    assert b == a + (b - a);
  }

  lemma ShrinkingRows(t: RefreshTable, t': RefreshTable, u: Id)
    requires RowsShrink(t, t')
    ensures |LiveRows(t', u)| <= |LiveRows(t, u)|
  {
    SubsetSize(LiveRows(t', u), LiveRows(t, u));
  }

  lemma RefreshNeverAdds(c: Config, s: State, jwt: RefreshJwt, u: Id)
    requires Valid(c, s)
    ensures |LiveRows(RefreshTokens(c, s, jwt).state.refresh, u)| <= |LiveRows(s.refresh, u)|
  {
    RefreshCases(c, s, jwt);
    if RefreshTokens(c, s, jwt).outcome.Tokens? {
      RefreshConserves(c, s, jwt, u);
    } else {
      ShrinkingRows(s.refresh, RefreshTokens(c, s, jwt).state.refresh, u);
    }
  }

  /** A successful login of this user. */
  ghost predicate LogsIn(c: Config, s: State, op: Op, u: Id) {
    op.DoLogin? && FindByEmail(s, op.email) == Some(u) && Login(c, s, op.email, op.password).outcome.Tokens?
  }

  lemma NewToken(c: Config, s: State, id: Id, who: Identity, r: Reply)
    requires r == IssueTokens(c, s, id, who)
    ensures r.outcome.Tokens? && r.outcome.refresh == RefreshJwt(id, s.nextId + 1, Sec(s.now) + c.refreshTtl)
  {
    var tok, jwt := IssueShape(c, s, id, who, Acl.Resolve(s.acl, id));
  }

  /** Issuing tokens adds one live row, the user's. */
  lemma IssueAddsOne(c: Config, s: State, id: Id, s': State, u: Id)
    requires RowIdsBelow(s.refresh, s.nextId) && TokensAdded(c, s, id, s')
    ensures |LiveRows(s'.refresh, u)| == |LiveRows(s.refresh, u)| + if id == u then 1 else 0
  {
    var h := Sha256(RefreshJwt(id, s.nextId + 1, Sec(s.now) + c.refreshTtl));
    NewRowAddsOne(s.refresh, h, RefreshRow(id, s.now + REFRESH_ROW_MS, false), u);
    assert h !in LiveRows(s.refresh, u);
  }

  lemma IssuedRow(c: Config, s: State, id: Id, r: Reply, u: Id)
    requires RowIdsBelow(s.refresh, s.nextId) && LoginIssued(c, s, id, r)
    ensures r.outcome.Tokens?
    ensures |LiveRows(r.state.refresh, u)| == |LiveRows(s.refresh, u)| + if id == u then 1 else 0
  {
    var s1 := PutUser(s, id, LoginReset(s.users[id], s.now));
    IssueAdds(c, s1, id, IdentityOf(s.users[id]), r.state);
    NewToken(c, s1, id, IdentityOf(s.users[id]), r);
    IssueAddsOne(c, s1, id, r.state, u);
  }

  lemma LoginAddsOne(c: Config, s: State, email: string, password: string, r: Reply, u: Id)
    requires RowIdsBelow(s.refresh, s.nextId) && r == Login(c, s, email, password)
    ensures |LiveRows(r.state.refresh, u)| <=
      |LiveRows(s.refresh, u)| + if FindByEmail(s, email) == Some(u) && r.outcome.Tokens? then 1 else 0
  {
    LoginCases(c, s, email, password, r);
    if FindByEmail(s, email).Some? && LoginIssued(c, s, FindByEmail(s, email).value, r) {
      IssuedRow(c, s, FindByEmail(s, email).value, r, u);
    }
  }

  /** A successful call that ends this user's sessions. */
  ghost predicate EndsFor(c: Config, s: State, op: Op, u: Id) {
    SessionSafety.EndsSessions(op) && !Step(c, s, op).outcome.Fail? && u in SessionSafety.Affected(s, op)
  }

  /** Successful logins of the user since the last call that ended all the user's sessions. */
  ghost function LoginsSince(c: Config, ops: seq<Op>, u: Id): nat {
    if ops == [] then 0
    else
      var init, op := ops[..|ops| - 1], ops[|ops| - 1];
      var s := Run(c, Init, init);
      if EndsFor(c, s, op, u) then 0
      else LoginsSince(c, init, u) + if LogsIn(c, s, op, u) then 1 else 0
  }

  lemma EndedMeansNone(c: Config, s: State, op: Op, s': State, u: Id)
    requires Valid(c, s) && EndsFor(c, s, op, u) && s' == Step(c, s, op).state
    ensures LiveRows(s'.refresh, u) == {}
  {
    SessionSafety.SessionKillComplete(c, s, op, Step(c, s, op));
    assert SessionSafety.SessionsEnded(s', u);
  }

  lemma StepRows(c: Config, s: State, op: Op, s': State, u: Id)
    requires Valid(c, s) && s' == Step(c, s, op).state
    ensures |LiveRows(s'.refresh, u)| <= |LiveRows(s.refresh, u)| + if LogsIn(c, s, op, u) then 1 else 0
  {
    if op.DoLogin? {
      LoginAddsOne(c, s, op.email, op.password, Login(c, s, op.email, op.password), u);
    } else if op.DoRefresh? {
      RefreshNeverAdds(c, s, op.jwt, u);
    } else {
      StepFrame(c, s, op, s');
      ShrinkingRows(s.refresh, s'.refresh, u);
    }
  }

  /** In every run a user's live refresh tokens number at most the successful logins since all sessions last ended. */
  lemma {:induction false} LiveRowsBounded(c: Config, ops: seq<Op>, u: Id)
    requires ValidConfig(c)
    ensures |LiveRows(Run(c, Init, ops).refresh, u)| <= LoginsSince(c, ops, u)
  {
    if ops == [] {
      assert LiveRows(Init.refresh, u) == {};
    } else {
      var init, op := ops[..|ops| - 1], ops[|ops| - 1];
      var s := Run(c, Init, init);
      LiveRowsBounded(c, init, u);
      InitValid(c);
      RunValid(c, Init, init);
      if EndsFor(c, s, op, u) {
        EndedMeansNone(c, s, op, Run(c, Init, ops), u);
      } else {
        StepRows(c, s, op, Run(c, Init, ops), u);
      }
    }
  }
}
