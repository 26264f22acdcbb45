/** Which refresh tokens still work, told by what has happened since they were stored. */
module RefreshVerdicts {
  import opened Basics
  import opened Redis
  import opened Session
  import opened SessionInvariant
  import opened SessionSafety
  import Acl
  import Credentials
  import Rotation
  import Verdicts

  /** The token's row stands unrevoked, with this expiry. */
  predicate Stands(s: State, jwt: RefreshJwt, until: nat) {
    Sha256(jwt) in s.refresh && s.refresh[Sha256(jwt)] == RefreshRow(jwt.userId, until, false)
  }

  /** The call spends the row: a refresh or logout with the token, the end of the user's sessions, or the user's own. */
  predicate SpendsRow(s: State, op: Op, ok: bool, jwt: RefreshJwt) {
    || (op.DoRefresh? && op.jwt == jwt && RefreshUsable(s, jwt))
    || (op.DoLogout? && op.jwt == jwt && ok)
    || (EndsSessions(op) && ok && jwt.userId in Affected(s, op))
    || (op.DoDelete? && op.userId == jwt.userId && ok)
  }

  predicate Fallen(s: State, jwt: RefreshJwt) { Sha256(jwt) in s.refresh ==> s.refresh[Sha256(jwt)].isRevoked }

  /** The row falls with a call that spends it, and stands with every other. */
  ghost predicate Decides(s: State, op: Op, r: Reply, jwt: RefreshJwt, until: nat) {
    if SpendsRow(s, op, !r.outcome.Fail?, jwt) then Fallen(r.state, jwt) else Stands(r.state, jwt, until)
  }

  // ---- Single calls ----

  predicate KeepsRows(op: Op) {
    || op.Tick? || op.DoRegister? || op.DoOrgRegister? || op.DoVerifyEmail? || op.DoResend? || op.DoForgot?
    || op.DoUpdateMe? || op.DoGetMe? || op.DoActivate? || op.DoForceActivate?
  }

  lemma RowsKept(c: Config, s: State, op: Op, s': State)
    requires KeepsRows(op) && s' == Step(c, s, op).state
    ensures s'.refresh == s.refresh
  {
    if op.DoUpdateMe? {
      UpdateMeCases(s, op.userId, op.data, Step(c, s, op));
    } else if op.DoVerifyEmail? {
      VerifyKeepsRows(s, op.raw, Step(c, s, op));
    }
  }

  lemma ConfirmKeepsRows(s: State, id: Id, r: Reply)
    requires id in s.users && r == Confirm(s, id)
    ensures r.state.refresh == s.refresh
  {
  }

  lemma VerifyKeepsRows(s: State, raw: Id, r: Reply)
    requires r == VerifyEmail(s, raw)
    ensures r.state.refresh == s.refresh
  {
    Credentials.VerifyCases(s, raw, r);
    var checked := OneShot.Check(s.emailTokens, raw, s.now);
    if checked.Ok? && checked.value in s.users {
      ConfirmKeepsRows(s.(emailTokens := OneShot.Spend(s.emailTokens, raw)), checked.value, r);
    }
  }

  lemma SameRowsDecide(s: State, op: Op, r: Reply, jwt: RefreshJwt, until: nat)
    requires Stands(s, jwt, until) && r.state.refresh == s.refresh
    requires KeepsRows(op) || (EndsSessions(op) && r.outcome.Fail?) || (op.DoUpdateUser? && !EndsSessions(op))
    ensures Decides(s, op, r, jwt, until)
  {
  }

  lemma RowsMoved(c: Config, s: State, op: Op, s': State)
    requires RowIdsBelow(s.refresh, s.nextId) && s' == Step(c, s, op).state
    ensures RowsMove(s.refresh, s'.refresh, s.nextId)
  {
    StepMoves(c, s, op, s');
  }

  /** The rows of these users are revoked where they stand, and all others are as they were. */
  ghost predicate RevokedFor(t: RefreshTable, t': RefreshTable, userIds: set<Id>) {
    && (forall h :: h in t && h in t' && t[h].userId in userIds ==> t'[h].isRevoked)
    && (forall h :: h in t && t[h].userId !in userIds ==> h in t' && t'[h] == t[h])
  }

  lemma EndedRows(s: State, s': State, userIds: set<Id>)
    requires EndsExactly(s, s', userIds) && RowsMove(s.refresh, s'.refresh, s.nextId)
    ensures RevokedFor(s.refresh, s'.refresh, userIds)
  {
    forall h | h in s.refresh && h in s'.refresh && s.refresh[h].userId in userIds ensures s'.refresh[h].isRevoked {
      assert SessionsEnded(s', s.refresh[h].userId);
    }
    forall h | h in s.refresh && s.refresh[h].userId !in userIds
      ensures h in s'.refresh && s'.refresh[h] == s.refresh[h]
    {
      assert SessionsUntouched(s, s', s.refresh[h].userId);
    }
  }

  lemma EndingRevokes(c: Config, s: State, op: Op, r: Reply)
    requires Valid(c, s) && r == Step(c, s, op) && EndsSessions(op) && !r.outcome.Fail?
    ensures RevokedFor(s.refresh, r.state.refresh, Affected(s, op))
  {
    SessionKillComplete(c, s, op, r);
    RowsMoved(c, s, op, r.state);
    EndedRows(s, r.state, Affected(s, op));
  }

  lemma RevokedForDecides(s: State, op: Op, r: Reply, jwt: RefreshJwt, until: nat)
    requires RevokedFor(s.refresh, r.state.refresh, Affected(s, op)) && Stands(s, jwt, until)
    requires EndsSessions(op) && !r.outcome.Fail?
    ensures Decides(s, op, r, jwt, until)
  {
  }

  lemma EndingDecides(c: Config, s: State, op: Op, r: Reply, jwt: RefreshJwt, until: nat)
    requires Valid(c, s) && Stands(s, jwt, until) && r == Step(c, s, op) && EndsSessions(op) && !r.outcome.Fail?
    ensures Decides(s, op, r, jwt, until)
  {
    EndingRevokes(c, s, op, r);
    RevokedForDecides(s, op, r, jwt, until);
  }

  lemma EditKeepsRows(s: State, id: Id, adminId: Id, role: Option<UserRole>, isActive: Option<bool>,
      data: map<string, string>, r: Reply)
    requires r == UpdateUser(s, id, adminId, role, isActive, data) && !Deactivates(isActive)
    ensures r.state.refresh == s.refresh
  {
    UpdateUserCases(s, id, adminId, role, isActive, data, r);
  }

  lemma IssuedDecides(c: Config, s: State, id: Id, op: Op, r: Reply, jwt: RefreshJwt, until: nat)
    requires Stands(s, jwt, until) && RowIdsBelow(s.refresh, s.nextId) && LoginIssued(c, s, id, r) && op.DoLogin?
    ensures Decides(s, op, r, jwt, until)
  {
    IssueAdds(c, PutUser(s, id, LoginReset(s.users[id], s.now)), id, IdentityOf(s.users[id]), r.state);
  }

  lemma CountingKeepsRows(c: Config, s: State, email: string, password: string, r: Reply)
    requires r == Login(c, s, email, password) && r.outcome.Fail?
    ensures r.state.refresh == s.refresh
  {
  }

  lemma LoginDecides(c: Config, s: State, op: Op, r: Reply, jwt: RefreshJwt, until: nat)
    requires Stands(s, jwt, until) && RowIdsBelow(s.refresh, s.nextId) && op.DoLogin? && r == Step(c, s, op)
    ensures Decides(s, op, r, jwt, until)
  {
    LoginCases(c, s, op.email, op.password, r);
    if r.outcome.Fail? {
      CountingKeepsRows(c, s, op.email, op.password, r);
    } else {
      IssuedDecides(c, s, FindByEmail(s, op.email).value, op, r, jwt, until);
    }
  }

  /** A usable token's row is revoked, and at most a row under a later id is added. */
  ghost predicate RowSpent(s: State, jwt: RefreshJwt, s': State) {
    if !RefreshUsable(s, jwt) then s' == s
    else
      && Sha256(jwt) in s'.refresh && s'.refresh[Sha256(jwt)].isRevoked
      && (forall h :: h in s.refresh && h != Sha256(jwt) ==> h in s'.refresh && s'.refresh[h] == s.refresh[h])
  }

  lemma RefreshOnRows(c: Config, s: State, jwt: RefreshJwt, r: Reply)
    requires Valid(c, s) && r == RefreshTokens(c, s, jwt)
    ensures RowSpent(s, jwt, r.state)
  {
    Rotation.RefreshCases(c, s, jwt);
  }

  lemma SpentDecides(s: State, op: Op, r: Reply, jwt: RefreshJwt, until: nat)
    requires Stands(s, jwt, until) && op.DoRefresh? && RowSpent(s, op.jwt, r.state)
    ensures Decides(s, op, r, jwt, until)
  {
  }

  lemma RefreshDecides(c: Config, s: State, op: Op, r: Reply, jwt: RefreshJwt, until: nat)
    requires Valid(c, s) && Stands(s, jwt, until) && op.DoRefresh? && r == Step(c, s, op)
    ensures Decides(s, op, r, jwt, until)
  {
    RefreshOnRows(c, s, op.jwt, r);
    SpentDecides(s, op, r, jwt, until);
  }

  lemma LogoutCases(s: State, tok: AccessToken, jwt: RefreshJwt, r: Reply)
    requires r == Logout(s, tok, jwt)
    ensures r.state.refresh == if r.outcome.Fail? then s.refresh else RevokeRow(s.refresh, Sha256(jwt))
  {
  }

  lemma RevokedDecides(s: State, op: Op, r: Reply, jwt: RefreshJwt, until: nat)
    requires Stands(s, jwt, until) && op.DoLogout?
    requires r.state.refresh == if r.outcome.Fail? then s.refresh else RevokeRow(s.refresh, Sha256(op.jwt))
    ensures Decides(s, op, r, jwt, until)
  {
  }

  lemma LogoutDecides(c: Config, s: State, op: Op, r: Reply, jwt: RefreshJwt, until: nat)
    requires Stands(s, jwt, until) && op.DoLogout? && r == Step(c, s, op)
    ensures Decides(s, op, r, jwt, until)
  {
    LogoutCases(s, op.tok, op.jwt, r);
    RevokedDecides(s, op, r, jwt, until);
  }

  lemma DeletionDecides(c: Config, s: State, op: Op, r: Reply, jwt: RefreshJwt, until: nat)
    requires Stands(s, jwt, until) && op.DoDelete? && r == Step(c, s, op)
    ensures Decides(s, op, r, jwt, until)
  {
  }

  lemma StepDecides(c: Config, s: State, op: Op, r: Reply, jwt: RefreshJwt, until: nat)
    requires Valid(c, s) && Stands(s, jwt, until) && r == Step(c, s, op)
    ensures Decides(s, op, r, jwt, until)
  {
    if op.DoLogin? {
      LoginDecides(c, s, op, r, jwt, until);
    } else if op.DoRefresh? {
      RefreshDecides(c, s, op, r, jwt, until);
    } else if op.DoLogout? {
      LogoutDecides(c, s, op, r, jwt, until);
    } else if op.DoDelete? {
      DeletionDecides(c, s, op, r, jwt, until);
    } else if EndsSessions(op) && !r.outcome.Fail? {
      EndingDecides(c, s, op, r, jwt, until);
    } else {
      QuietDecides(c, s, op, r, jwt, until);
    }
  }

  lemma QuietDecides(c: Config, s: State, op: Op, r: Reply, jwt: RefreshJwt, until: nat)
    requires Stands(s, jwt, until) && r == Step(c, s, op) && (r.outcome.Fail? || !EndsSessions(op))
    requires !op.DoLogin? && !op.DoRefresh? && !op.DoLogout? && !op.DoDelete?
    ensures Decides(s, op, r, jwt, until)
  {
    if EndsSessions(op) {
      Verdicts.FailedCallKeepsStamps(c, s, op, r);
    } else if op.DoUpdateUser? {
      EditKeepsRows(s, op.userId, op.adminId, op.role, op.isActive, op.data, r);
    } else {
      RowsKept(c, s, op, r.state);
    }
    SameRowsDecide(s, op, r, jwt, until);
  }

  // ---- Whole runs ----

  ghost predicate SpentIn(c: Config, s: State, ops: seq<Op>, jwt: RefreshJwt) {
    ops != [] &&
    (var before, op := Run(c, s, ops[..|ops| - 1]), ops[|ops| - 1];
     SpentIn(c, s, ops[..|ops| - 1], jwt) || SpendsRow(before, op, Credentials.Succeeds(c, before, op), jwt))
  }

  lemma FallenStays(c: Config, s: State, op: Op, s': State, jwt: RefreshJwt)
    requires Valid(c, s) && Fallen(s, jwt) && jwt.tokenId < s.nextId && s' == Step(c, s, op).state
    ensures Fallen(s', jwt) && jwt.tokenId < s'.nextId
  {
    StepMoves(c, s, op, s');
    Rotation.MoveKeepsUnusable(s, s', jwt);
  }

  /** From any valid state on, a row falls with the first call that spends it, and stands until then. */
  lemma {:induction false} RowStandsIff(c: Config, s: State, ops: seq<Op>, jwt: RefreshJwt, until: nat)
    requires Valid(c, s) && Stands(s, jwt, until)
    ensures jwt.tokenId < Run(c, s, ops).nextId
    ensures if SpentIn(c, s, ops, jwt) then Fallen(Run(c, s, ops), jwt) else Stands(Run(c, s, ops), jwt, until)
  {
    if ops == [] {
    } else {
      var init, op := ops[..|ops| - 1], ops[|ops| - 1];
      var mid := Run(c, s, init);
      RowStandsIff(c, s, init, jwt, until);
      RunValid(c, s, init);
      RunIds(c, mid, [op]);
      RunOne(c, mid, op);
      if SpentIn(c, s, init, jwt) {
        FallenStays(c, mid, op, Run(c, s, ops), jwt);
      } else {
        StepDecides(c, mid, op, Step(c, mid, op), jwt, until);
      }
    }
  }

  lemma StandingWorksIff(c: Config, s: State, jwt: RefreshJwt, until: nat, spent: bool, r: Reply)
    requires if spent then Fallen(s, jwt) else Stands(s, jwt, until)
    requires r == RefreshTokens(c, s, jwt)
    ensures r.outcome.Tokens? <==>
      && !spent && Sec(s.now) < jwt.exp && s.now <= until
      && jwt.userId in s.users && s.users[jwt.userId].isActive
  {
  }

  /**
   * From any valid state on, a refresh with a stored token gets new tokens if and only if neither the token nor its row
   * has expired, no call since has spent it, and the user is there and active.
   */
  lemma RefreshWorksIff(c: Config, s: State, ops: seq<Op>, jwt: RefreshJwt, until: nat, r: Reply)
    requires Valid(c, s) && Stands(s, jwt, until) && r == RefreshTokens(c, Run(c, s, ops), jwt)
    ensures var end := Run(c, s, ops);
      r.outcome.Tokens? <==>
      && Sec(end.now) < jwt.exp && end.now <= until && !SpentIn(c, s, ops, jwt)
      && jwt.userId in end.users && end.users[jwt.userId].isActive
  {
    RowStandsIff(c, s, ops, jwt, until);
    StandingWorksIff(c, Run(c, s, ops), jwt, until, SpentIn(c, s, ops, jwt), r);
  }

  // ---- What signing in hands out ----

  /**
   * Both tokens are the user's and start now: the access token lives as long as configured and carries the row's
   * claims and the present permissions; the refresh token's row stands for a week.
   */
  ghost predicate HandsOut(c: Config, s: State, u: Id, r: Reply) {
    && r.outcome.Tokens? && u in s.users
    && r.outcome.access.userId == u && r.outcome.access.who == IdentityOf(s.users[u])
    && r.outcome.access.iat == Sec(s.now) && r.outcome.access.exp == Sec(s.now) + c.accessTtl
    && r.outcome.access.appPermissions == Acl.Resolve(s.acl, u)
    && r.outcome.refresh.userId == u && r.outcome.refresh.exp == Sec(s.now) + c.refreshTtl
    && r.outcome.access in r.state.issued && r.outcome.access !in s.issued
    && Stands(r.state, r.outcome.refresh, s.now + 7 * 24 * 3600 * 1000)
  }

  lemma IssuingHandsOut(c: Config, s: State, s1: State, u: Id, r: Reply)
    requires JtisBelow(s.issued, s.nextId) && u in s.users && r == IssueTokens(c, s1, u, IdentityOf(s.users[u]))
    requires s1.now == s.now && s1.nextId == s.nextId && s1.acl == s.acl && s1.issued == s.issued
    ensures HandsOut(c, s, u, r)
  {
  }

  lemma LoginHandsOut(c: Config, s: State, email: string, password: string, r: Reply)
    requires Valid(c, s) && r == Login(c, s, email, password) && r.outcome.Tokens?
    ensures FindByEmail(s, email).Some? && HandsOut(c, s, FindByEmail(s, email).value, r)
  {
    LoginCases(c, s, email, password, r);
    var u := FindByEmail(s, email).value;
    IssuingHandsOut(c, s, PutUser(s, u, LoginReset(s.users[u], s.now)), u, r);
  }

  lemma RefreshHandsOut(c: Config, s: State, jwt: RefreshJwt, r: Reply)
    requires Valid(c, s) && r == RefreshTokens(c, s, jwt) && r.outcome.Tokens?
    ensures HandsOut(c, s, jwt.userId, r)
  {
    RefreshOutcomes(c, s, jwt, r);
    IssuingHandsOut(c, s, Spent(s, jwt), jwt.userId, r);
  }

  /** A successful login or refresh hands out a pair of tokens that start now. */
  lemma SigningInHandsOut(c: Config, s: State, op: Op, r: Reply, u: Id)
    requires Valid(c, s) && (op.DoLogin? || op.DoRefresh?) && r == Step(c, s, op) && r.outcome.Tokens?
    requires u == if op.DoLogin? then GetOr(FindByEmail(s, op.email), 0) else op.jwt.userId
    ensures HandsOut(c, s, u, r)
  {
    if op.DoLogin? {
      LoginHandsOut(c, s, op.email, op.password, r);
    } else {
      RefreshHandsOut(c, s, op.jwt, r);
    }
  }
}
