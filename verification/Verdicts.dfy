/** Which access tokens are accepted, told by what has happened since they were signed. */
module Verdicts {
  import opened Basics
  import opened Redis
  import opened Session
  import opened SessionInvariant
  import opened SessionSafety
  import opened OneShot
  import Acl
  import Claims
  import Snapshots

  // ---- The two logouts ----

  /** A logout ends the presented access token and no other. */
  lemma LogoutVerdictIff(c: Config, s: State, tok: AccessToken, jwt: RefreshJwt, r: Reply, t: AccessToken)
    requires Valid(c, s) && Accepts(s, tok) && r == Logout(s, tok, jwt)
    ensures r.outcome == Done
    ensures Accepts(r.state, t) <==> Accepts(s, t) && t != tok
  {
    BlacklistVerdictIff(s, tok, s, t);
  }

  /** The key just written for an accepted token is live, and is no other issued token's. */
  lemma BlacklistVerdictIff(s: State, tok: AccessToken, s1: State, t: AccessToken)
    requires JtisUnique(s.issued) && Accepts(s, tok) && s1.issued == s.issued && s1.now == s.now
    ensures Accepts(BlacklistAccess(s1, tok.jti, tok.exp), t) <==> Accepts(s1, t) && t != tok
  {
    assert s.now >= Sec(s.now) * MS_PER_SECOND;
  }

  /** A logout-all ends the presented token and all its user's tokens of earlier seconds, and no other. */
  lemma LogoutAllVerdictIff(c: Config, s: State, tok: AccessToken, r: Reply, t: AccessToken)
    requires Valid(c, s) && Accepts(s, tok) && r == LogoutAll(s, tok)
    ensures r.outcome == Done
    ensures Accepts(r.state, t) <==>
      Accepts(s, t) && t != tok && (t.userId == tok.userId ==> t.iat == Sec(s.now))
  {
    BlacklistVerdictIff(s, tok, Kill(s, {tok.userId}), t);
    if Accepts(s, t) && t.userId == tok.userId {
      KillVerdictIff(s, {tok.userId}, t);
    }
  }

  // ---- A blacklisted token stays out, however long tokens live ----

  ghost predicate Blacklisted(s: State, tok: AccessToken) { tok in s.issued && tok.jti in s.blacklist }

  lemma BlacklistedIsRejected(c: Config, s: State, tok: AccessToken)
    requires Valid(c, s) && Blacklisted(s, tok)
    ensures !Accepts(s, tok)
  {
    if !Live(s.blacklist, tok.jti, s.now) {
      assert tok.exp * MS_PER_SECOND <= s.now;
    }
  }

  lemma {:induction false} BlacklistedForever(c: Config, s: State, tok: AccessToken, ops: seq<Op>)
    requires Valid(c, s) && Blacklisted(s, tok)
    ensures Blacklisted(Run(c, s, ops), tok) && !Accepts(Run(c, s, ops), tok)
  {
    if ops == [] {
    } else {
      var init, op := ops[..|ops| - 1], ops[|ops| - 1];
      BlacklistedForever(c, s, tok, init);
      StepBlacklists(c, Run(c, s, init), op, Run(c, s, ops));
      IssuedGrows(c, Run(c, s, init), op, Run(c, s, ops));
    }
    RunValid(c, s, ops);
    BlacklistedIsRejected(c, Run(c, s, ops), tok);
  }

  /** The call is one of the two logouts, with this token. */
  predicate LogsOut(op: Op, tok: AccessToken) { (op.DoLogout? || op.DoLogoutAll?) && op.tok == tok }

  lemma LogoutBlacklisted(c: Config, s: State, op: Op, s': State, tok: AccessToken)
    requires Accepts(s, tok) && LogsOut(op, tok) && s' == Step(c, s, op).state
    ensures Blacklisted(s', tok)
  {
  }

  /** An access token presented at either logout is never accepted again, whatever lifetime is configured. */
  lemma LogoutIsFinal(c: Config, s: State, op: Op, s': State, tok: AccessToken, ops: seq<Op>)
    requires Valid(c, s) && Accepts(s, tok) && LogsOut(op, tok) && s' == Step(c, s, op).state
    ensures !Accepts(Run(c, s', ops), tok)
  {
    LogoutBlacklisted(c, s, op, s', tok);
    StepValid(c, s, op, s');
    BlacklistedForever(c, s', tok, ops);
  }

  // ---- The whole account ----

  /** The call ends this token: a logout with it, or the end of its user's sessions in a later second than its own. */
  predicate EndsToken(c: Config, s: State, op: Op, tok: AccessToken) {
    || LogsOut(op, tok)
    || (EndsSessions(op) && !Step(c, s, op).outcome.Fail? && tok.userId in Affected(s, op) && tok.iat < Sec(s.now))
  }

  lemma OtherCallsKeepStamps(c: Config, s: State, op: Op, s': State)
    requires s' == Step(c, s, op).state && !EndsSessions(op)
    ensures s'.revokeBefore == s.revokeBefore
  {
    if op.DoLogin? {
      LoginMoves(c, s, op.email, op.password, Step(c, s, op));
    } else if op.DoRefresh? {
      RefreshMoves(c, s, op.jwt, Step(c, s, op));
    } else if op.DoUpdateUser? {
      UpdateUserCases(s, op.userId, op.adminId, op.role, op.isActive, op.data, Step(c, s, op));
    }
  }

  lemma FailedCallKeepsStamps(c: Config, s: State, op: Op, r: Reply)
    requires r == Step(c, s, op) && r.outcome.Fail? && EndsSessions(op)
    ensures r.state.revokeBefore == s.revokeBefore && r.state.refresh == s.refresh
  {
    if op.DoReset? {
      FailedReset(c, s, op.raw, op.password, r);
    } else if op.DoAcl? {
      FailedAcl(s, op.acl, r);
    } else if op.DoUpdateUser? {
      FailedEdit(s, op.userId, op.adminId, op.role, op.isActive, op.data, r);
    } else {
      FailedOwnCall(c, s, op, r);
    }
  }

  lemma FailedOwnCall(c: Config, s: State, op: Op, r: Reply)
    requires r == Step(c, s, op) && r.outcome.Fail? && (op.DoLogoutAll? || op.DoSuspend? || op.DoChangePassword?)
    ensures r.state == s
  {
    if op.DoChangePassword? {
      FailedChange(c, s, op.userId, op.current, op.password, r);
    }
  }

  lemma FailedChange(c: Config, s: State, id: Id, current: string, password: string, r: Reply)
    requires r == ChangePassword(c, s, id, current, password) && r.outcome.Fail?
    ensures r.state == s
  {
    ChangeCases(c, s, id, current, password, r);
    if r.state != s {
      RefusedPassword(c, s, id, password, r);
    }
  }

  lemma FailedEdit(s: State, id: Id, adminId: Id, role: Option<UserRole>, isActive: Option<bool>,
      data: map<string, string>, r: Reply)
    requires r == UpdateUser(s, id, adminId, role, isActive, data) && r.outcome.Fail?
    ensures r.state == s
  {
    UpdateUserCases(s, id, adminId, role, isActive, data, r);
  }

  lemma FailedAcl(s: State, op: Acl.Op, r: Reply)
    requires r == AdministerAcl(s, op) && r.outcome.Fail?
    ensures r.state.revokeBefore == s.revokeBefore && r.state.refresh == s.refresh
  {
    AclKills(s.acl, s.users.Keys, op);
    assert RevokeAllOf(s.refresh, {}) == s.refresh;
  }

  lemma RefusedPassword(c: Config, s: State, id: Id, password: string, r: Reply)
    requires id in s.users && r == SetPassword(c, s, id, password) && r.outcome.Fail?
    ensures r.state == s
  {
  }

  lemma FailedReset(c: Config, s: State, raw: Id, password: string, r: Reply)
    requires r == ResetPassword(c, s, raw, password) && r.outcome.Fail?
    ensures r.state.revokeBefore == s.revokeBefore && r.state.refresh == s.refresh
  {
    ResetCases(c, s, raw, password, r);
    var checked, s1 := Check(s.resetTokens, raw, s.now), s.(resetTokens := Spend(s.resetTokens, raw));
    if r.state != s && r.state != s1 {
      RefusedPassword(c, s1, checked.value, password, r);
    }
  }

  /** With stamps and blacklist as they were, only the clock decides. */
  lemma SameKeysVerdict(s: State, s': State, tok: AccessToken)
    requires Accepts(s, tok) && s.issued <= s'.issued && s.now <= s'.now
    requires s'.revokeBefore == s.revokeBefore && s'.blacklist == s.blacklist
    ensures Accepts(s', tok) <==> Sec(s'.now) < tok.exp
  {
  }

  /** A stamp of the token's own second does not reach it. */
  lemma SameSecondVerdict(s: State, s': State, tok: AccessToken)
    requires Accepts(s, tok) && s.issued <= s'.issued && s'.now == s.now && tok.iat == Sec(s.now)
    requires StampsMove(s.revokeBefore, s'.revokeBefore, s.now) && s'.blacklist == s.blacklist
    ensures Accepts(s', tok)
  {
  }

  lemma EndedVerdict(s: State, s': State, userIds: set<Id>, tok: AccessToken)
    requires EndsExactly(s, s', userIds) && Accepts(s, tok) && s'.now == s.now
    ensures tok.userId !in userIds ==> Accepts(s', tok)
    ensures tok.userId in userIds && tok.iat < Sec(s.now) ==> !Accepts(s', tok)
  {
  }

  lemma KillingCallVerdict(c: Config, s: State, op: Op, r: Reply, tok: AccessToken)
    requires Valid(c, s) && Accepts(s, tok) && r == Step(c, s, op)
    requires EndsSessions(op) && !op.DoLogoutAll? && !r.outcome.Fail?
    ensures r.state.now == s.now && (Accepts(r.state, tok) <==> !EndsToken(c, s, op, tok))
  {
    SessionKillComplete(c, s, op, r);
    StepFrame(c, s, op, r.state);
    EndedVerdict(s, r.state, Affected(s, op), tok);
    if tok.userId in Affected(s, op) && tok.iat >= Sec(s.now) {
      StepMoves(c, s, op, r.state);
      IssuedGrows(c, s, op, r.state);
      SameSecondVerdict(s, r.state, tok);
    }
  }

  /** One call: an accepted token stays so exactly if it has not expired and the call does not end it. */
  lemma StepVerdictIff(c: Config, s: State, op: Op, s': State, tok: AccessToken)
    requires Valid(c, s) && Accepts(s, tok) && s' == Step(c, s, op).state
    ensures Accepts(s', tok) <==> Sec(s'.now) < tok.exp && !EndsToken(c, s, op, tok)
  {
    var r := Step(c, s, op);
    if op.DoLogout? {
      LogoutStepVerdict(c, s, op, r, tok);
    } else if op.DoLogoutAll? {
      LogoutAllStepVerdict(c, s, op, r, tok);
    } else if EndsSessions(op) && !r.outcome.Fail? {
      KillingCallVerdict(c, s, op, r, tok);
    } else {
      OtherCallVerdict(c, s, op, r, tok);
    }
  }

  lemma OtherCallVerdict(c: Config, s: State, op: Op, r: Reply, tok: AccessToken)
    requires Accepts(s, tok) && r == Step(c, s, op)
    requires !op.DoLogout? && !op.DoLogoutAll? && (r.outcome.Fail? || !EndsSessions(op))
    ensures Accepts(r.state, tok) <==> Sec(r.state.now) < tok.exp && !EndsToken(c, s, op, tok)
  {
    StepFrame(c, s, op, r.state);
    StepMoves(c, s, op, r.state);
    IssuedGrows(c, s, op, r.state);
    if EndsSessions(op) {
      FailedCallKeepsStamps(c, s, op, r);
    } else {
      OtherCallsKeepStamps(c, s, op, r.state);
    }
    SameKeysVerdict(s, r.state, tok);
  }

  lemma LogoutStepVerdict(c: Config, s: State, op: Op, r: Reply, tok: AccessToken)
    requires Valid(c, s) && Accepts(s, tok) && op.DoLogout? && r == Step(c, s, op)
    ensures r.state.now == s.now && (Accepts(r.state, tok) <==> !EndsToken(c, s, op, tok))
  {
    assert r == Logout(s, op.tok, op.jwt);
    if Accepts(s, op.tok) {
      LogoutVerdictIff(c, s, op.tok, op.jwt, r, tok);
    }
  }

  lemma LogoutAllStepVerdict(c: Config, s: State, op: Op, r: Reply, tok: AccessToken)
    requires Valid(c, s) && Accepts(s, tok) && op.DoLogoutAll? && r == Step(c, s, op)
    ensures r.state.now == s.now && (Accepts(r.state, tok) <==> !EndsToken(c, s, op, tok))
  {
    assert r == LogoutAll(s, op.tok);
    if Accepts(s, op.tok) {
      LogoutAllVerdictIff(c, s, op.tok, r, tok);
    }
  }

  /** Some call of this run ended the token. */
  ghost predicate EndedIn(c: Config, s: State, ops: seq<Op>, tok: AccessToken) {
    ops != [] &&
    (EndedIn(c, s, ops[..|ops| - 1], tok) || EndsToken(c, Run(c, s, ops[..|ops| - 1]), ops[|ops| - 1], tok))
  }

  lemma RejectedStays(c: Config, s: State, op: Op, s': State, tok: AccessToken)
    requires Valid(c, s) && TtlCovered(c) && tok in s.issued && !Accepts(s, tok) && s' == Step(c, s, op).state
    ensures !Accepts(s', tok)
  {
    RunOne(c, s, op);
    RevocationIsPermanent(c, s, tok, [op]);
  }

  /**
   * From any valid state on, an accepted token is accepted later if and only if it has not expired and no call in
   * between ended it.
   */
  lemma {:induction false} AcceptedIff(c: Config, s: State, ops: seq<Op>, tok: AccessToken)
    requires Valid(c, s) && TtlCovered(c) && Accepts(s, tok)
    ensures tok in Run(c, s, ops).issued
    ensures Accepts(Run(c, s, ops), tok) <==> Sec(Run(c, s, ops).now) < tok.exp && !EndedIn(c, s, ops, tok)
  {
    if ops == [] {
    } else {
      var init, op := ops[..|ops| - 1], ops[|ops| - 1];
      AcceptedIff(c, s, init, tok);
      RunValid(c, s, init);
      IssuedGrows(c, Run(c, s, init), op, Run(c, s, ops));
      StepMoves(c, Run(c, s, init), op, Run(c, s, ops));
      SecMonotone(Run(c, s, init).now, Run(c, s, ops).now);
      if Accepts(Run(c, s, init), tok) {
        StepVerdictIff(c, Run(c, s, init), op, Run(c, s, ops), tok);
      } else {
        RejectedStays(c, Run(c, s, init), op, Run(c, s, ops), tok);
      }
    }
  }

  lemma FreshIsAccepted(c: Config, s: State, s': State, tok: AccessToken)
    requires Valid(c, s) && SignedIn(c, s, tok) && tok in s'.issued
    requires s'.now == s.now && s'.revokeBefore == s.revokeBefore && s'.blacklist == s.blacklist
    ensures Accepts(s', tok) <==> c.accessTtl > 0
  {
  }

  lemma SigningKeepsKeys(c: Config, s: State, op: Op, s': State)
    requires (op.DoLogin? || op.DoRefresh?) && s' == Step(c, s, op).state
    ensures s'.now == s.now && SameGates(s, s')
  {
    if op.DoLogin? {
      LoginMoves(c, s, op.email, op.password, Step(c, s, op));
    } else {
      RefreshMoves(c, s, op.jwt, Step(c, s, op));
    }
  }

  /** Unless it is born expired, a token just signed is accepted: no key names it, and no stamp lies ahead of it. */
  lemma SignedIsAccepted(c: Config, s: State, op: Op, s': State, tok: AccessToken)
    requires Valid(c, s) && s' == Step(c, s, op).state && Signs(c, s, s', tok)
    ensures Accepts(s', tok) <==> c.accessTtl > 0
  {
    Claims.SignsOnlyThen(c, s, op, s', tok);
    SigningKeepsKeys(c, s, op, s');
    FreshIsAccepted(c, s, s', tok);
  }

  lemma FromSigning(c: Config, s: State, op: Op, s': State, after: seq<Op>, end: State, tok: AccessToken)
    requires Valid(c, s) && TtlCovered(c) && s' == Step(c, s, op).state && Signs(c, s, s', tok)
    requires end == Run(c, s', after)
    ensures Accepts(end, tok) <==> Sec(end.now) < tok.exp && !EndedIn(c, s', after, tok)
  {
    StepValid(c, s, op, s');
    SignedIsAccepted(c, s, op, s', tok);
    RunIds(c, s', after);
    StepMoves(c, s, op, s');
    SecMonotone(s.now, end.now);
    if c.accessTtl > 0 {
      AcceptedIff(c, s', after, tok);
    }
  }

  /**
   * In every run, an issued access token is accepted if and only if it has not expired, and since it was signed nobody
   * logged out with it and no call ended its user's sessions in a later second than the token's.
   */
  lemma IssuedVerdictIff(c: Config, ops: seq<Op>, tok: AccessToken) returns (g: Signing)
    requires ValidConfig(c) && TtlCovered(c) && tok in Run(c, Init, ops).issued
    ensures SignedBy(c, ops, g, tok)
    ensures var end, signed := Run(c, Init, ops), Step(c, Run(c, Init, g.before), g.op).state;
      Accepts(end, tok) <==> Sec(end.now) < tok.exp && !EndedIn(c, signed, g.after, tok)
  {
    g := IssuedOnlyToVerifiedActive(c, ops, tok);
    var s := Run(c, Init, g.before);
    InitValid(c);
    RunValid(c, Init, g.before);
    Snapshots.RunThrough(c, Init, g.before, g.op, g.after);
    FromSigning(c, s, g.op, Step(c, s, g.op).state, g.after, Run(c, Init, ops), tok);
  }
}
