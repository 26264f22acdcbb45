/** Safety of access tokens over whole runs: revocation, kill completeness, snapshots, and who tokens are issued to. */
module SessionSafety {
  import opened Basics
  import opened Redis
  import opened Session
  import opened SessionInvariant
  import Acl
  import OneShot

  // ---- Revocation is permanent ----

  /** A token no later state can accept: expired, or covered by a Redis key that outlives it. */
  ghost predicate Dead(s: State, tok: AccessToken) {
    || tok.exp <= Sec(s.now)
    || (tok.jti in s.blacklist && s.blacklist[tok.jti].expiresAt >= tok.exp * MS_PER_SECOND)
    || (tok.userId in s.revokeBefore && tok.iat < s.revokeBefore[tok.userId].value &&
        s.revokeBefore[tok.userId].expiresAt >= tok.exp * MS_PER_SECOND)
  }

  /** Token lifetimes for which the thirty-day key is long enough. */
  predicate TtlCovered(c: Config) { c.accessTtl <= 30 * 24 * 3600 + 1 }

  lemma DeadIsRejected(s: State, tok: AccessToken)
    requires Dead(s, tok)
    ensures !Accepts(s, tok)
  {
  }

  lemma RejectedIsDead(c: Config, s: State, tok: AccessToken)
    requires TtlCovered(c) && tok in s.issued && !Accepts(s, tok)
    requires TokenTimes(c, s.issued, s.now) && BlacklistOk(s.issued, s.blacklist) && StampsOk(s.revokeBefore, s.now)
    ensures Dead(s, tok)
  {
  }

  lemma DeadStaysDead(c: Config, s: State, s': State, tok: AccessToken)
    requires TtlCovered(c) && tok in s.issued && Dead(s, tok)
    requires TokenTimes(c, s.issued, s.now) && JtisUnique(s.issued) && StampsOk(s.revokeBefore, s.now)
    requires s.now <= s'.now && StampsMove(s.revokeBefore, s'.revokeBefore, s.now) && BlacklistStep(s, s')
    ensures Dead(s', tok)
  {
    SecMonotone(s.now, s'.now);
    if tok.exp > Sec(s.now) {
      if tok.jti in s.blacklist && s.blacklist[tok.jti].expiresAt >= tok.exp * MS_PER_SECOND {
        BlacklistedStays(s, s', tok);
      } else {
        StampedStays(c, s, s', tok);
      }
    }
  }

  lemma SecMonotone(a: nat, b: nat)
    requires a <= b
    ensures Sec(a) <= Sec(b)
  {
  }

  lemma BlacklistedStays(s: State, s': State, tok: AccessToken)
    requires BlacklistStep(s, s') && JtisUnique(s.issued) && tok in s.issued
    requires tok.jti in s.blacklist && s.blacklist[tok.jti].expiresAt >= tok.exp * MS_PER_SECOND
    ensures tok.jti in s'.blacklist && s'.blacklist[tok.jti].expiresAt >= tok.exp * MS_PER_SECOND
  {
  }

  lemma StampedStays(c: Config, s: State, s': State, tok: AccessToken)
    requires TtlCovered(c) && tok.exp == tok.iat + c.accessTtl
    requires StampsMove(s.revokeBefore, s'.revokeBefore, s.now) && StampsOk(s.revokeBefore, s.now)
    requires tok.userId in s.revokeBefore && tok.iat < s.revokeBefore[tok.userId].value
    requires s.revokeBefore[tok.userId].expiresAt >= tok.exp * MS_PER_SECOND
    ensures tok.userId in s'.revokeBefore && tok.iat < s'.revokeBefore[tok.userId].value
    ensures s'.revokeBefore[tok.userId].expiresAt >= tok.exp * MS_PER_SECOND
  {
  }

  lemma IssuedGrows(c: Config, s: State, op: Op, s': State)
    requires s' == Step(c, s, op).state
    ensures s.issued <= s'.issued
  {
    if op.DoLogin? {
      LoginMoves(c, s, op.email, op.password, Step(c, s, op));
    } else if op.DoRefresh? {
      RefreshMoves(c, s, op.jwt, Step(c, s, op));
    } else {
      StepFrame(c, s, op, s');
    }
  }

  lemma StepKeepsDead(c: Config, s: State, op: Op, s': State, tok: AccessToken)
    requires Valid(c, s) && TtlCovered(c) && tok in s.issued && Dead(s, tok) && s' == Step(c, s, op).state
    ensures tok in s'.issued && Dead(s', tok)
  {
    StepMoves(c, s, op, s');
    StepBlacklists(c, s, op, s');
    DeadStaysDead(c, s, s', tok);
    IssuedGrows(c, s, op, s');
  }

  /** Once an issued access token is rejected - expired, blacklisted or stamped out - no later state accepts it. */
  lemma {:induction false} RevocationIsPermanent(c: Config, s: State, tok: AccessToken, ops: seq<Op>)
    requires Valid(c, s) && TtlCovered(c)
    requires tok in s.issued && !Accepts(s, tok)
    ensures Dead(Run(c, s, ops), tok) && tok in Run(c, s, ops).issued
    ensures !Accepts(Run(c, s, ops), tok)
  {
    if ops == [] {
      RejectedIsDead(c, s, tok);
    } else {
      var init := ops[..|ops| - 1];
      RevocationIsPermanent(c, s, tok, init);
      RunValid(c, s, init);
      StepKeepsDead(c, Run(c, s, init), ops[|ops| - 1], Run(c, s, ops), tok);
    }
    DeadIsRejected(Run(c, s, ops), tok);
  }

  // ---- Ending sessions ----

  /** Nothing of the user's earlier sessions works: no live refresh row, and no access token from an earlier second. */
  ghost predicate SessionsEnded(s: State, u: Id) {
    && (forall h :: h in s.refresh && s.refresh[h].userId == u ==> s.refresh[h].isRevoked)
    && (forall tok: AccessToken :: tok.userId == u && tok.iat < Sec(s.now) ==> !Accepts(s, tok))
  }

  /**
   * The user's refresh rows and stamp are exactly as before, and so is the verdict on each of the user's access
   * tokens.
   */
  ghost predicate SessionsUntouched(s: State, s': State, u: Id) {
    && (forall h :: h in s.refresh && s.refresh[h].userId == u ==> h in s'.refresh && s'.refresh[h] == s.refresh[h])
    && (forall h :: h in s'.refresh && s'.refresh[h].userId == u ==> h in s.refresh)
    && (forall tok :: tok in s.issued && tok.userId == u ==> (Accepts(s', tok) <==> Accepts(s, tok)))
  }

  /** The users whose sessions a successful call must end. */
  function Affected(s: State, op: Op): set<Id> {
    match op
    case DoLogoutAll(tok) => {tok.userId}
    case DoReset(raw, _) => if Sha256(raw) in s.resetTokens then {s.resetTokens[Sha256(raw)].userId} else {}
    case DoChangePassword(id, _, _) => {id}
    case DoSuspend(id, _) => {id}
    case DoUpdateUser(id, _, _, isActive, _) => if Deactivates(isActive) then {id} else {}
    case DoAcl(aop) => AclAffected(s.acl, aop)
    case _ => {}
  }

  /** A changed role affects every active holder; a changed access affects its user. */
  function AclAffected(t: Acl.Tables, op: Acl.Op): set<Id> {
    match op
    case UpdateRole(r, _) => Acl.Holders(t, r)
    case DeleteRole(r) => Acl.Holders(t, r)
    case SetRoleFeatures(r, _) => Acl.Holders(t, r)
    case UpdateUserApp(u, _, _, _) => {u}
    case RemoveUser(u, _) => {u}
    case SetOverrides(u, _, _) => {u}
    case _ => {}
  }

  /** The one-second gap: of an invalidated user's accepted tokens exactly those signed this very second survive. */
  lemma KillVerdictIff(s: State, userIds: set<Id>, tok: AccessToken)
    requires Accepts(s, tok) && tok.userId in userIds && tok.iat <= Sec(s.now)
    ensures Accepts(Kill(s, userIds), tok) <==> tok.iat == Sec(s.now)
  {
  }

  /** Blacklisting one more token of user `v` neither revives anything nor touches another user. */
  lemma BlacklistOnTop(s: State, tok: AccessToken, u: Id)
    ensures SessionsEnded(s, u) ==> SessionsEnded(BlacklistAccess(s, tok.jti, tok.exp), u)
  {
  }

  /** The call ends the sessions of exactly these users. */
  ghost predicate EndsExactly(s: State, s': State, userIds: set<Id>) {
    && (forall u :: u in userIds ==> SessionsEnded(s', u))
    && (forall u :: u !in userIds ==> SessionsUntouched(s, s', u))
  }

  lemma KillEndsExactly(s: State, s1: State, userIds: set<Id>)
    requires s1.refresh == s.refresh && s1.revokeBefore == s.revokeBefore && s1.blacklist == s.blacklist
    requires s1.now == s.now && s1.issued == s.issued
    ensures EndsExactly(s, Kill(s1, userIds), userIds)
  {
  }

  lemma BlacklistSpares(s: State, s1: State, tok: AccessToken, u: Id)
    requires JtisUnique(s.issued) && tok in s.issued && u != tok.userId
    requires s1.now == s.now && s1.issued == s.issued && SessionsUntouched(s, s1, u)
    ensures SessionsUntouched(s, BlacklistAccess(s1, tok.jti, tok.exp), u)
  {
  }

  lemma LogoutAllEnds(s: State, tok: AccessToken, r: Reply)
    requires JtisUnique(s.issued) && r == LogoutAll(s, tok) && !r.outcome.Fail?
    ensures EndsExactly(s, r.state, {tok.userId})
  {
    var s1 := Kill(s, {tok.userId});
    KillEndsExactly(s, s, {tok.userId});
    BlacklistOnTop(s1, tok, tok.userId);
    forall u | u != tok.userId ensures SessionsUntouched(s, r.state, u) { BlacklistSpares(s, s1, tok, u); }
  }

  lemma SetPasswordEnds(c: Config, s: State, id: Id, password: string, r: Reply)
    requires id in s.users && r == SetPassword(c, s, id, password) && !r.outcome.Fail?
    ensures EndsExactly(s, r.state, {id})
  {
    KillEndsExactly(s, StoreHash(c, s, id, password), {id});
  }

  lemma ResetIsSet(c: Config, s: State, raw: Id, password: string, r: Reply)
    requires r == ResetPassword(c, s, raw, password) && !r.outcome.Fail?
    ensures Sha256(raw) in s.resetTokens && s.resetTokens[Sha256(raw)].userId in s.users
    ensures r ==
      SetPassword(c, s.(resetTokens := OneShot.Spend(s.resetTokens, raw)), s.resetTokens[Sha256(raw)].userId, password)
  {
  }

  /** Spending the reset token first touches no session. */
  lemma EndsAfterSpending(s: State, s': State, t: OneShot.Table, userIds: set<Id>)
    requires EndsExactly(s.(resetTokens := t), s', userIds)
    ensures EndsExactly(s, s', userIds)
  {
  }

  lemma ResetEnds(c: Config, s: State, raw: Id, password: string, r: Reply)
    requires r == ResetPassword(c, s, raw, password) && !r.outcome.Fail?
    ensures Sha256(raw) in s.resetTokens
    ensures EndsExactly(s, r.state, {s.resetTokens[Sha256(raw)].userId})
  {
    ResetIsSet(c, s, raw, password, r);
    var id, t := s.resetTokens[Sha256(raw)].userId, OneShot.Spend(s.resetTokens, raw);
    SetPasswordEnds(c, s.(resetTokens := t), id, password, r);
    EndsAfterSpending(s, r.state, t, {id});
  }

  lemma ChangeEnds(c: Config, s: State, id: Id, current: string, password: string, r: Reply)
    requires r == ChangePassword(c, s, id, current, password) && !r.outcome.Fail?
    ensures EndsExactly(s, r.state, {id})
  {
    ChangeIsSet(c, s, id, current, password, r);
    SetPasswordEnds(c, s, id, password, r);
  }

  lemma ChangeIsSet(c: Config, s: State, id: Id, current: string, password: string, r: Reply)
    requires r == ChangePassword(c, s, id, current, password) && !r.outcome.Fail?
    ensures id in s.users && r == SetPassword(c, s, id, password)
  {
  }

  lemma StoredRowEnds(s: State, id: Id, edited: User, r: Reply)
    requires RowStored(s, id, edited, true, r)
    ensures EndsExactly(s, r.state, {id})
  {
    KillEndsExactly(s, PutUser(s, id, edited), {id});
  }

  lemma SuspensionEnds(s: State, id: Id, adminId: Id, r: Reply)
    requires r == SuspendUser(s, id, adminId) && !r.outcome.Fail?
    ensures EndsExactly(s, r.state, {id})
  {
    SwitchCases(s, id, adminId, false, r);
    StoredRowEnds(s, id, s.users[id].(isActive := false), r);
  }

  lemma DeactivationEnds(s: State, id: Id, adminId: Id, role: Option<UserRole>, isActive: Option<bool>,
      data: map<string, string>, r: Reply)
    requires r == UpdateUser(s, id, adminId, role, isActive, data) && !r.outcome.Fail? && Deactivates(isActive)
    ensures EndsExactly(s, r.state, {id})
  {
    UpdateUserCases(s, id, adminId, role, isActive, data, r);
    StoredRowEnds(s, id, AdminEdit(s.users[id], role, isActive, data), r);
  }

  lemma AclKills(t: Acl.Tables, users: set<Id>, op: Acl.Op)
    ensures Acl.Step(t, users, op).killed == if Acl.Step(t, users, op).result.Ok? then AclAffected(t, op) else {}
  {
  }

  lemma AclEnds(s: State, op: Acl.Op, r: Reply)
    requires r == AdministerAcl(s, op) && !r.outcome.Fail?
    ensures EndsExactly(s, r.state, AclAffected(s.acl, op))
  {
    AclKills(s.acl, s.users.Keys, op);
    var a := Acl.Step(s.acl, s.users.Keys, op);
    KillEndsExactly(s, s.(acl := a.tables), a.killed);
  }

  /** Calls whose purpose includes ending somebody's sessions. */
  predicate EndsSessions(op: Op) {
    || op.DoLogoutAll? || op.DoReset? || op.DoChangePassword? || op.DoSuspend? || op.DoAcl?
    || (op.DoUpdateUser? && Deactivates(op.isActive))
  }

  lemma OwnCallEnds(c: Config, s: State, op: Op, r: Reply)
    requires JtisUnique(s.issued) && r == Step(c, s, op) && !r.outcome.Fail?
    requires op.DoLogoutAll? || op.DoReset? || op.DoChangePassword?
    ensures EndsExactly(s, r.state, Affected(s, op))
  {
    match op
    case DoLogoutAll(tok) => LogoutAllEnds(s, tok, r);
    case DoReset(raw, password) => ResetEnds(c, s, raw, password, r);
    case DoChangePassword(id, current, password) => ChangeEnds(c, s, id, current, password, r);
  }

  lemma AdminCallEnds(c: Config, s: State, op: Op, r: Reply)
    requires r == Step(c, s, op) && !r.outcome.Fail?
    requires op.DoSuspend? || (op.DoUpdateUser? && Deactivates(op.isActive))
    ensures EndsExactly(s, r.state, Affected(s, op))
  {
    match op
    case DoSuspend(id, adminId) => SuspensionEnds(s, id, adminId, r);
    case DoUpdateUser(id, adminId, role, isActive, data) =>
      DeactivationEnds(s, id, adminId, role, isActive, data, r);
  }

  /**
   * Right after a successful logout-all, password reset or change, suspension, deactivation or RBAC change,
   * every affected user has no live refresh token and no acceptable access token from an earlier second,
   * and every other user's sessions are untouched.
   */
  lemma SessionKillComplete(c: Config, s: State, op: Op, r: Reply)
    requires Valid(c, s) && EndsSessions(op) && r == Step(c, s, op) && !r.outcome.Fail?
    ensures EndsExactly(s, r.state, Affected(s, op))
  {
    if op.DoLogoutAll? || op.DoReset? || op.DoChangePassword? {
      OwnCallEnds(c, s, op, r);
    } else if op.DoAcl? {
      AclEnds(s, op.acl, r);
    } else {
      AdminCallEnds(c, s, op, r);
    }
  }

  // ---- Who tokens are issued to ----

  lemma IssueSigns(c: Config, s: State, id: Id, who: Identity, r: Reply, tok: AccessToken)
    requires r == IssueTokens(c, s, id, who) && tok in r.state.issued && tok !in s.issued
    ensures tok.userId == id && SignedFor(c, s.now, s.nextId, s.acl, id, who, tok)
  {
    var t, j := IssueShape(c, s, id, who, Acl.Resolve(s.acl, id));
  }

  lemma CountedSignsNothing(c: Config, s: State, id: Id, r: Reply)
    requires LoginCounted(c, s, id, r)
    ensures r.state.issued == s.issued
  {
  }

  lemma LoginIssuedSigns(c: Config, s: State, id: Id, r: Reply, tok: AccessToken)
    requires LoginIssued(c, s, id, r) && tok in r.state.issued && tok !in s.issued
    ensures SignedIn(c, s, tok)
  {
    IssueSigns(c, PutUser(s, id, LoginReset(s.users[id], s.now)), id, IdentityOf(s.users[id]), r, tok);
  }

  lemma LoginIssues(c: Config, s: State, email: string, password: string, r: Reply, tok: AccessToken)
    requires r == Login(c, s, email, password) && tok in r.state.issued && tok !in s.issued
    ensures SignedIn(c, s, tok)
  {
    LoginCases(c, s, email, password, r);
    var id := FindByEmail(s, email).value;
    if LoginCounted(c, s, id, r) {
      CountedSignsNothing(c, s, id, r);
    } else {
      LoginIssuedSigns(c, s, id, r, tok);
    }
  }

  lemma RefreshIssues(c: Config, s: State, jwt: RefreshJwt, r: Reply, tok: AccessToken)
    requires RowsOwned(s.users, s.refresh)
    requires r == RefreshTokens(c, s, jwt) && tok in r.state.issued && tok !in s.issued
    ensures SignedIn(c, s, tok)
  {
    RefreshOutcomes(c, s, jwt, r);
    assert s.refresh[Sha256(jwt)].userId == jwt.userId;
    IssueSigns(c, Spent(s, jwt), jwt.userId, IdentityOf(s.users[jwt.userId]), r, tok);
  }

  /** Every token signed by a step is for a user who is verified and active at that moment, with current permissions. */
  lemma StepIssues(c: Config, s: State, op: Op, s': State, tok: AccessToken)
    requires RowsOwned(s.users, s.refresh) && s' == Step(c, s, op).state
    requires tok in s'.issued && tok !in s.issued
    ensures SignedIn(c, s, tok) && s'.acl == s.acl
  {
    StepFrame(c, s, op, s');
    if op.DoLogin? {
      LoginIssues(c, s, op.email, op.password, Step(c, s, op), tok);
    } else {
      RefreshIssues(c, s, op.jwt, Step(c, s, op), tok);
    }
  }

  lemma RunRowsOwned(c: Config, ops: seq<Op>)
    requires ValidConfig(c)
    ensures RowsOwned(Run(c, Init, ops).users, Run(c, Init, ops).refresh)
  {
    InitValid(c);
    RunValid(c, Init, ops);
  }

  /** Between these two states the token was signed: now, for a user verified and active at that moment. */
  ghost predicate Signs(c: Config, s: State, s': State, tok: AccessToken) {
    tok !in s.issued && tok in s'.issued && SignedIn(c, s, tok)
  }

  /** The call that signed the token, what came before it and what came after it. */
  datatype Signing = Signing(before: seq<Op>, op: Op, after: seq<Op>)

  ghost predicate SignedBy(c: Config, ops: seq<Op>, g: Signing, tok: AccessToken) {
    && ops == g.before + [g.op] + g.after
    && Signs(c, Run(c, Init, g.before), Step(c, Run(c, Init, g.before), g.op).state, tok)
  }

  lemma StepSigns(c: Config, s: State, op: Op, s': State, tok: AccessToken)
    requires RowsOwned(s.users, s.refresh) && s' == Step(c, s, op).state
    requires tok !in s.issued && tok in s'.issued
    ensures Signs(c, s, s', tok)
  {
    StepIssues(c, s, op, s', tok);
  }

  lemma SignedLater(c: Config, init: seq<Op>, last: Op, g: Signing, tok: AccessToken)
    requires SignedBy(c, init, g, tok)
    ensures SignedBy(c, init + [last], g.(after := g.after + [last]), tok)
  {
  }

  lemma SignedLast(c: Config, init: seq<Op>, last: Op, s: State, tok: AccessToken)
    requires s == Run(c, Init, init) && Signs(c, s, Step(c, s, last).state, tok)
    ensures SignedBy(c, init + [last], Signing(init, last, []), tok)
  {
    assert init + [last] == init + [last] + [];
  }

  /** The last call of a run signed every token that the run before it had not. */
  lemma SignedNow(c: Config, init: seq<Op>, last: Op, s: State, s': State, tok: AccessToken)
    requires ValidConfig(c) && s == Run(c, Init, init) && s' == Step(c, s, last).state
    requires tok !in s.issued && tok in s'.issued
    ensures SignedBy(c, init + [last], Signing(init, last, []), tok)
  {
    RunRowsOwned(c, init);
    StepSigns(c, s, last, s', tok);
    SignedLast(c, init, last, s, tok);
  }

  lemma SignedBefore(c: Config, init: seq<Op>, last: Op, earlier: Signing, tok: AccessToken) returns (g: Signing)
    requires SignedBy(c, init, earlier, tok)
    ensures SignedBy(c, init + [last], g, tok)
  {
    SignedLater(c, init, last, earlier, tok);
    g := earlier.(after := earlier.after + [last]);
  }

  /** Every access token ever issued was signed by some call of the run, for a user then verified and active. */
  lemma {:induction false} IssuedOnlyToVerifiedActive(c: Config, ops: seq<Op>, tok: AccessToken) returns (g: Signing)
    requires ValidConfig(c) && tok in Run(c, Init, ops).issued
    ensures SignedBy(c, ops, g, tok)
  {
    var init, last := ops[..|ops| - 1], ops[|ops| - 1];
    assert ops == init + [last];
    if tok in Run(c, Init, init).issued {
      g := IssuedOnlyToVerifiedActive(c, init, tok);
      g := SignedBefore(c, init, last, g, tok);
    } else {
      SignedNow(c, init, last, Run(c, Init, init), Run(c, Init, ops), tok);
      g := Signing(init, last, []);
    }
  }
}
