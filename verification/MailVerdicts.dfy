/** Which mailed tokens still work, told by what has happened since they were mailed. */
module MailVerdicts {
  import opened Basics
  import opened Session
  import opened SessionInvariant
  import opened OneShot
  import opened OneShotRuns
  import Credentials
  import Passwords

  /** The token's row stands unused. */
  predicate Stands(s: State, kind: Kind, raw: Id, u: Id, deadline: nat) {
    Sha256(raw) in TableOf(s, kind) && TableOf(s, kind)[Sha256(raw)] == Row(u, deadline, false)
  }

  /** The token is presented while it works; a reset also needs a strong password to look at it. */
  predicate Presents(s: State, op: Op, kind: Kind, raw: Id) {
    && Works(s, kind, raw)
    && (if kind.Verification? then op.DoVerifyEmail? && op.raw == raw
        else op.DoReset? && op.raw == raw && Passwords.Strong(op.password))
  }

  /** A newer token of this kind is mailed to the user. */
  predicate Supersedes(s: State, op: Op, outcome: Outcome, kind: Kind, u: Id) {
    && (if kind.Verification? then op.DoResend? else op.DoForgot?)
    && FindByEmail(s, op.email) == Some(u) && outcome.Mailed?
  }

  /** The call ends the token of this user. */
  predicate Retires(s: State, op: Op, outcome: Outcome, kind: Kind, raw: Id, u: Id) {
    || Presents(s, op, kind, raw)
    || Supersedes(s, op, outcome, kind, u)
    || (op.DoForceActivate? && kind.Verification? && op.userId == u && !outcome.Fail?)
    || (op.DoDelete? && op.userId == u && !outcome.Fail?)
  }

  /** The token falls with a call that ends it, and stands with every other. */
  ghost predicate Decides(s: State, op: Op, r: Reply, kind: Kind, raw: Id, u: Id, deadline: nat) {
    if Retires(s, op, r.outcome, kind, raw, u) then Dead(TableOf(r.state, kind), raw)
    else Stands(r.state, kind, raw, u, deadline)
  }

  // ---- Single calls ----

  predicate Touches(op: Op, kind: Kind) {
    || op.DoDelete?
    || (if kind.Verification? then op.DoRegister? || op.DoVerifyEmail? || op.DoResend? || op.DoForceActivate?
        else op.DoForgot? || op.DoReset?)
  }

  predicate OwnEdit(op: Op) { op.DoChangePassword? || op.DoUpdateMe? }

  predicate AdminEdit(op: Op) { op.DoSuspend? || op.DoActivate? || op.DoUpdateUser? }

  ghost predicate MailsKept(s: State, s': State) {
    s'.emailTokens == s.emailTokens && s'.resetTokens == s.resetTokens
  }

  lemma SettingKeepsMails(c: Config, s: State, id: Id, password: string, r: Reply)
    requires id in s.users && r == SetPassword(c, s, id, password)
    ensures MailsKept(s, r.state)
  {
  }

  lemma ChangeKeepsMails(c: Config, s: State, id: Id, current: string, password: string, r: Reply)
    requires r == ChangePassword(c, s, id, current, password)
    ensures MailsKept(s, r.state)
  {
    ChangeCases(c, s, id, current, password, r);
    if r.state != s {
      SettingKeepsMails(c, s, id, password, r);
    }
  }

  lemma StoredKeepsMails(s: State, id: Id, u: User, endSessions: bool, r: Reply)
    requires RowStored(s, id, u, endSessions, r)
    ensures MailsKept(s, r.state)
  {
  }

  lemma AdminEditKeepsMails(s: State, id: Id, adminId: Id, role: Option<UserRole>, isActive: Option<bool>,
      data: map<string, string>, r: Reply)
    requires r == UpdateUser(s, id, adminId, role, isActive, data)
    ensures MailsKept(s, r.state)
  {
    UpdateUserCases(s, id, adminId, role, isActive, data, r);
    if r.state != s {
      StoredKeepsMails(s, id, Session.AdminEdit(s.users[id], role, isActive, data), Deactivates(isActive), r);
    }
  }

  lemma ProfileKeepsMails(s: State, id: Id, data: map<string, string>, r: Reply)
    requires r == UpdateMe(s, id, data)
    ensures MailsKept(s, r.state)
  {
    UpdateMeCases(s, id, data, r);
    if r.state != s {
      StoredKeepsMails(s, id, MergeProfile(s.users[id], data), false, r);
    }
  }

  lemma SwitchKeepsMails(s: State, id: Id, adminId: Id, active: bool, r: Reply)
    requires r == if active then ActivateUser(s, id) else SuspendUser(s, id, adminId)
    ensures MailsKept(s, r.state)
  {
    SwitchCases(s, id, adminId, active, r);
    if r.state != s {
      StoredKeepsMails(s, id, s.users[id].(isActive := active), !active, r);
    }
  }

  lemma OwnEditsKeepMails(c: Config, s: State, op: Op, r: Reply)
    requires OwnEdit(op) && r == Step(c, s, op)
    ensures MailsKept(s, r.state)
  {
    if op.DoChangePassword? {
      ChangeKeepsMails(c, s, op.userId, op.current, op.password, r);
    } else {
      ProfileKeepsMails(s, op.userId, op.data, r);
    }
  }

  lemma AdminEditsKeepMails(c: Config, s: State, op: Op, r: Reply)
    requires AdminEdit(op) && r == Step(c, s, op)
    ensures MailsKept(s, r.state)
  {
    if op.DoUpdateUser? {
      AdminEditKeepsMails(s, op.userId, op.adminId, op.role, op.isActive, op.data, r);
    } else {
      SwitchKeepsMails(s, op.userId, if op.DoSuspend? then op.adminId else 0, op.DoActivate?, r);
    }
  }

  predicate NeverMails(op: Op) {
    op.Tick? || op.DoOrgRegister? || op.DoLogout? || op.DoLogoutAll? || op.DoGetMe? || op.DoAcl?
  }

  lemma NeverMailsKeeps(c: Config, s: State, op: Op, s': State)
    requires NeverMails(op) && s' == Step(c, s, op).state
    ensures MailsKept(s, s')
  {
  }

  lemma RegisterKeepsResets(c: Config, s: State, op: Op, s': State)
    requires op.DoRegister? && s' == Step(c, s, op).state
    ensures s'.resetTokens == s.resetTokens
  {
  }

  lemma MailingKeepsOthers(c: Config, s: State, op: Op, s': State)
    requires (op.DoForgot? || op.DoResend? || op.DoForceActivate?) && s' == Step(c, s, op).state
    ensures if op.DoForgot? then s'.emailTokens == s.emailTokens else s'.resetTokens == s.resetTokens
  {
  }

  lemma OthersKeepMails(c: Config, s: State, op: Op, kind: Kind, s': State)
    requires !Touches(op, kind) && !OwnEdit(op) && !AdminEdit(op) && !op.DoReset? && !op.DoVerifyEmail?
    requires s' == Step(c, s, op).state
    ensures TableOf(s', kind) == TableOf(s, kind)
  {
    if NeverMails(op) {
      NeverMailsKeeps(c, s, op, s');
    } else if op.DoLogin? {
      LoginKeepsMails(c, s, op.email, op.password, Step(c, s, op));
    } else if op.DoRefresh? {
      RefreshKeepsMails(c, s, op.jwt, Step(c, s, op));
    } else if op.DoRegister? {
      RegisterKeepsResets(c, s, op, s');
    } else {
      MailingKeepsOthers(c, s, op, s');
    }
  }

  lemma LoginIssuedKeepsMails(c: Config, s: State, id: Id, r: Reply)
    requires LoginIssued(c, s, id, r)
    ensures MailsKept(s, r.state)
  {
    IssueAdds(c, PutUser(s, id, LoginReset(s.users[id], s.now)), id, IdentityOf(s.users[id]), r.state);
  }

  lemma CountedKeepsMails(c: Config, s: State, id: Id, r: Reply)
    requires LoginCounted(c, s, id, r)
    ensures MailsKept(s, r.state)
  {
  }

  lemma LoginKeepsMails(c: Config, s: State, email: string, password: string, r: Reply)
    requires r == Login(c, s, email, password)
    ensures MailsKept(s, r.state)
  {
    LoginCases(c, s, email, password, r);
    if r.state == s {
    } else if r.outcome.Fail? {
      CountedKeepsMails(c, s, FindByEmail(s, email).value, r);
    } else {
      LoginIssuedKeepsMails(c, s, FindByEmail(s, email).value, r);
    }
  }

  lemma RefreshIssuedKeepsMails(c: Config, s: State, jwt: RefreshJwt, r: Reply)
    requires RefreshIssued(c, s, jwt, r)
    ensures MailsKept(s, r.state)
  {
    IssueAdds(c, Session.Spent(s, jwt), jwt.userId, IdentityOf(s.users[jwt.userId]), r.state);
  }

  lemma RefreshKeepsMails(c: Config, s: State, jwt: RefreshJwt, r: Reply)
    requires r == RefreshTokens(c, s, jwt)
    ensures MailsKept(s, r.state)
  {
    RefreshOutcomes(c, s, jwt, r);
    if !r.outcome.Fail? {
      RefreshIssuedKeepsMails(c, s, jwt, r);
    }
  }

  lemma ResetOnMails(c: Config, s: State, raw: Id, password: string, r: Reply)
    requires r == ResetPassword(c, s, raw, password)
    ensures r.state.emailTokens == s.emailTokens
    ensures r.state.resetTokens ==
      if Passwords.Strong(password) && Check(s.resetTokens, raw, s.now).Ok? then Spend(s.resetTokens, raw)
      else s.resetTokens
  {
    ResetCases(c, s, raw, password, r);
    var checked, s1 := Check(s.resetTokens, raw, s.now), s.(resetTokens := Spend(s.resetTokens, raw));
    if r.state != s && r.state != s1 {
      SettingKeepsMails(c, s1, checked.value, password, r);
    }
  }

  lemma ConfirmKeepsMails(s: State, id: Id, r: Reply)
    requires id in s.users && r == Confirm(s, id)
    ensures MailsKept(s, r.state)
  {
  }

  lemma VerifyOnMails(s: State, raw: Id, r: Reply)
    requires r == VerifyEmail(s, raw)
    ensures r.state.resetTokens == s.resetTokens
    ensures r.state.emailTokens ==
      if Check(s.emailTokens, raw, s.now).Ok? then Spend(s.emailTokens, raw) else s.emailTokens
  {
    Credentials.VerifyCases(s, raw, r);
    var checked, s1 := Check(s.emailTokens, raw, s.now), s.(emailTokens := Spend(s.emailTokens, raw));
    if checked.Ok? && checked.value in s.users {
      ConfirmKeepsMails(s1, checked.value, r);
    }
  }

  // ---- Who is mailed ----

  lemma ResendIff(s: State, email: string, r: Reply)
    requires r == ResendVerification(s, email)
    ensures r.outcome.Mailed? <==>
      FindByEmail(s, email).Some? && !s.users[FindByEmail(s, email).value].isVerified
    ensures if r.outcome.Mailed? then
        r.outcome.raw == s.nextId && r.state.emailTokens ==
        Create(s.emailTokens, FindByEmail(s, email).value, s.nextId, s.now + 24 * 60 * 60 * 1000)
      else r == Reply(s, Done)
  {
  }

  lemma ForgotIff(s: State, email: string, r: Reply)
    requires r == ForgotPassword(s, email)
    ensures r.outcome.Mailed? <==>
      FindByEmail(s, email).Some? && s.users[FindByEmail(s, email).value].isActive
    ensures if r.outcome.Mailed? then
        r.outcome.raw == s.nextId && r.state.resetTokens ==
        Create(s.resetTokens, FindByEmail(s, email).value, s.nextId, s.now + 60 * 60 * 1000)
      else r == Reply(s, Done)
  {
  }

  /** Whether an account may be mailed a token of this kind. */
  predicate MayBeMailed(kind: Kind, u: User) { if kind.Verification? then !u.isVerified else u.isActive }

  /** A token is mailed exactly for an account that may be, and stands for its user and nobody else. */
  lemma MailingIff(c: Config, s: State, kind: Kind, email: string, r: Reply)
    requires r == Step(c, s, IssuingOp(kind, email))
    ensures r.outcome.Mailed? <==>
      FindByEmail(s, email).Some? && MayBeMailed(kind, s.users[FindByEmail(s, email).value])
    ensures if r.outcome.Mailed? then
        Stands(r.state, kind, r.outcome.raw, FindByEmail(s, email).value, s.now + Lifetime(kind))
      else r == Reply(s, Done)
  {
    if kind.Verification? {
      ResendIff(s, email, r);
    } else {
      ForgotIff(s, email, r);
    }
  }

  lemma MailingOnTables(c: Config, s: State, op: Op, kind: Kind, r: Reply)
    requires (if kind.Verification? then op.DoResend? else op.DoForgot?) && r == Step(c, s, op)
    ensures if r.outcome.Mailed? then
        FindByEmail(s, op.email).Some? && TableOf(r.state, kind) ==
        Create(TableOf(s, kind), FindByEmail(s, op.email).value, s.nextId, s.now + Lifetime(kind))
      else TableOf(r.state, kind) == TableOf(s, kind)
  {
    if kind.Verification? {
      ResendIff(s, op.email, r);
    } else {
      ForgotIff(s, op.email, r);
    }
  }

  lemma EnlistedMail(c: Config, s: State, u: User, s': State)
    requires u.lastLoginAt.None? && s' == MailVerification(Enlist(c, s, u), s.nextId)
    ensures s'.emailTokens == Create(s.emailTokens, s.nextId, s.nextId + 1, s.now + EMAIL_VERIFICATION_MS)
  {
  }

  lemma RegisterOnTables(c: Config, s: State, op: Op, r: Reply)
    requires op.DoRegister? && r == Step(c, s, op)
    ensures r.state.emailTokens == s.emailTokens || r.state.emailTokens ==
      Create(s.emailTokens, s.nextId, s.nextId + 1, s.now + EMAIL_VERIFICATION_MS)
  {
    Credentials.RegisterCases(c, s, op.email, op.password, r);
    if r.outcome.Created? {
      var hash := Passwords.Bcrypt(op.password, s.nextId);
      EnlistedMail(c, s, NewUser(op.email, hash, DEFAULT_ORG, false, map[], s.now), r.state);
    }
  }

  lemma ForcingOnTables(c: Config, s: State, op: Op, r: Reply)
    requires op.DoForceActivate? && r == Step(c, s, op)
    ensures r.state.emailTokens ==
      if r.outcome.Fail? then s.emailTokens else InvalidateAll(s.emailTokens, op.userId)
  {
  }

  lemma DeletionOnTables(c: Config, s: State, op: Op, r: Reply, kind: Kind)
    requires op.DoDelete? && r == Step(c, s, op)
    ensures TableOf(r.state, kind) ==
      if r.outcome.Fail? then TableOf(s, kind) else ForgetUser(TableOf(s, kind), op.userId)
  {
  }

  // ---- Every call ----

  /** What each table operation does to one unused row of user `u`. */
  lemma SpendOnRow(t: Table, other: Id, raw: Id, row: Row)
    requires Sha256(raw) in t && t[Sha256(raw)] == row
    ensures Sha256(raw) in Spend(t, other)
    ensures Spend(t, other)[Sha256(raw)] == if other == raw then row.(isUsed := true) else row
  {
  }

  lemma CreateOnRow(t: Table, other: Id, drawn: Id, deadline: nat, raw: Id, row: Row)
    requires Sha256(raw) in t && t[Sha256(raw)] == row && raw != drawn
    ensures Sha256(raw) in Create(t, other, drawn, deadline)
    ensures Create(t, other, drawn, deadline)[Sha256(raw)] ==
      if row.userId == other then row.(isUsed := true) else row
  {
  }

  lemma PresentingDecides(c: Config, s: State, op: Op, r: Reply, kind: Kind, raw: Id, u: Id, deadline: nat)
    requires Stands(s, kind, raw, u, deadline) && r == Step(c, s, op)
    requires if kind.Verification? then op.DoVerifyEmail? else op.DoReset?
    ensures Decides(s, op, r, kind, raw, u, deadline)
  {
    SpendOnRow(TableOf(s, kind), op.raw, raw, Row(u, deadline, false));
    if op.DoVerifyEmail? {
      VerifyOnMails(s, op.raw, r);
    } else {
      ResetOnMails(c, s, op.raw, op.password, r);
    }
  }

  lemma MailingDecides(c: Config, s: State, op: Op, r: Reply, kind: Kind, raw: Id, u: Id, deadline: nat)
    requires Stands(s, kind, raw, u, deadline) && raw < s.nextId && r == Step(c, s, op)
    requires if kind.Verification? then op.DoResend? else op.DoForgot?
    ensures Decides(s, op, r, kind, raw, u, deadline)
  {
    MailingOnTables(c, s, op, kind, r);
    if r.outcome.Mailed? {
      CreateOnRow(TableOf(s, kind), FindByEmail(s, op.email).value, s.nextId, s.now + Lifetime(kind), raw,
        Row(u, deadline, false));
    }
  }

  lemma CreatedForNewcomer(s: State, op: Op, r: Reply, raw: Id, u: Id, deadline: nat)
    requires Stands(s, Verification, raw, u, deadline) && raw < s.nextId && u < s.nextId && op.DoRegister?
    requires r.state.emailTokens == s.emailTokens || r.state.emailTokens ==
      Create(s.emailTokens, s.nextId, s.nextId + 1, s.now + EMAIL_VERIFICATION_MS)
    ensures Decides(s, op, r, Verification, raw, u, deadline)
  {
    CreateOnRow(s.emailTokens, s.nextId, s.nextId + 1, s.now + EMAIL_VERIFICATION_MS, raw, Row(u, deadline, false));
  }

  lemma RegisterDecides(c: Config, s: State, op: Op, r: Reply, raw: Id, u: Id, deadline: nat)
    requires Stands(s, Verification, raw, u, deadline) && raw < s.nextId && u < s.nextId
    requires op.DoRegister? && r == Step(c, s, op)
    ensures Decides(s, op, r, Verification, raw, u, deadline)
  {
    RegisterOnTables(c, s, op, r);
    CreatedForNewcomer(s, op, r, raw, u, deadline);
  }

  lemma ForcingDecides(c: Config, s: State, op: Op, r: Reply, raw: Id, u: Id, deadline: nat)
    requires Stands(s, Verification, raw, u, deadline) && op.DoForceActivate? && r == Step(c, s, op)
    ensures Decides(s, op, r, Verification, raw, u, deadline)
  {
    ForcingOnTables(c, s, op, r);
  }

  lemma DeletionDecides(c: Config, s: State, op: Op, r: Reply, kind: Kind, raw: Id, u: Id, deadline: nat)
    requires Stands(s, kind, raw, u, deadline) && op.DoDelete? && r == Step(c, s, op)
    ensures Decides(s, op, r, kind, raw, u, deadline)
  {
    DeletionOnTables(c, s, op, r, kind);
  }

  lemma SameTableDecides(s: State, op: Op, r: Reply, kind: Kind, raw: Id, u: Id, deadline: nat)
    requires Stands(s, kind, raw, u, deadline) && !Touches(op, kind) && TableOf(r.state, kind) == TableOf(s, kind)
    ensures Decides(s, op, r, kind, raw, u, deadline)
  {
  }

  lemma OtherDecides(c: Config, s: State, op: Op, r: Reply, kind: Kind, raw: Id, u: Id, deadline: nat)
    requires Stands(s, kind, raw, u, deadline) && !Touches(op, kind) && r == Step(c, s, op)
    ensures Decides(s, op, r, kind, raw, u, deadline)
  {
    if OwnEdit(op) {
      OwnEditsKeepMails(c, s, op, r);
    } else if AdminEdit(op) {
      AdminEditsKeepMails(c, s, op, r);
    } else if op.DoReset? {
      ResetOnMails(c, s, op.raw, op.password, r);
    } else if op.DoVerifyEmail? {
      VerifyOnMails(s, op.raw, r);
    } else {
      OthersKeepMails(c, s, op, kind, r.state);
    }
    SameTableDecides(s, op, r, kind, raw, u, deadline);
  }

  lemma StepDecides(c: Config, s: State, op: Op, r: Reply, kind: Kind, raw: Id, u: Id, deadline: nat)
    requires Stands(s, kind, raw, u, deadline) && raw < s.nextId && u < s.nextId && r == Step(c, s, op)
    ensures Decides(s, op, r, kind, raw, u, deadline)
  {
    if !Touches(op, kind) {
      OtherDecides(c, s, op, r, kind, raw, u, deadline);
    } else if op.DoDelete? {
      DeletionDecides(c, s, op, r, kind, raw, u, deadline);
    } else if op.DoRegister? {
      RegisterDecides(c, s, op, r, raw, u, deadline);
    } else if op.DoForceActivate? {
      ForcingDecides(c, s, op, r, raw, u, deadline);
    } else if op.DoResend? || op.DoForgot? {
      MailingDecides(c, s, op, r, kind, raw, u, deadline);
    } else {
      PresentingDecides(c, s, op, r, kind, raw, u, deadline);
    }
  }

  // ---- Whole runs ----

  ghost predicate RetiredIn(c: Config, s: State, ops: seq<Op>, kind: Kind, raw: Id, u: Id) {
    ops != [] &&
    (var before, op := Run(c, s, ops[..|ops| - 1]), ops[|ops| - 1];
     RetiredIn(c, s, ops[..|ops| - 1], kind, raw, u) ||
     Retires(before, op, Step(c, before, op).outcome, kind, raw, u))
  }

  lemma DeadStays(c: Config, s: State, op: Op, s': State, kind: Kind, raw: Id)
    requires Valid(c, s) && Finished(s, kind, raw) && s' == Step(c, s, op).state
    ensures Finished(s', kind, raw)
  {
    StepMoves(c, s, op, s');
    MoveKeepsFinished(s, s', kind, raw);
  }

  /** From any valid state on, a mailed token falls with the first call that ends it, and stands until then. */
  lemma {:induction false} TokenStandsIff(c: Config, s: State, ops: seq<Op>, kind: Kind, raw: Id, u: Id, deadline: nat)
    requires Valid(c, s) && Stands(s, kind, raw, u, deadline) && raw < s.nextId && u < s.nextId
    ensures raw < Run(c, s, ops).nextId
    ensures if RetiredIn(c, s, ops, kind, raw, u) then Dead(TableOf(Run(c, s, ops), kind), raw)
      else Stands(Run(c, s, ops), kind, raw, u, deadline)
  {
    if ops == [] {
    } else {
      var init, op := ops[..|ops| - 1], ops[|ops| - 1];
      var mid := Run(c, s, init);
      TokenStandsIff(c, s, init, kind, raw, u, deadline);
      RunValid(c, s, init);
      RunIds(c, s, init);
      RunIds(c, s, ops);
      if RetiredIn(c, s, init, kind, raw, u) {
        DeadStays(c, mid, op, Run(c, s, ops), kind, raw);
      } else {
        StepDecides(c, mid, op, Step(c, mid, op), kind, raw, u, deadline);
      }
    }
  }

  lemma IndexedBelow(c: Config, s: State, email: string)
    requires Valid(c, s) && FindByEmail(s, email).Some?
    ensures FindByEmail(s, email).value < s.nextId
  {
  }

  lemma StandingWorksIff(s: State, kind: Kind, raw: Id, u: Id, deadline: nat, retired: bool)
    requires if retired then Dead(TableOf(s, kind), raw) else Stands(s, kind, raw, u, deadline)
    ensures Works(s, kind, raw) <==> s.now <= deadline && !retired
    ensures Works(s, kind, raw) ==> Check(TableOf(s, kind), raw, s.now) == Ok(u)
  {
  }

  /**
   * From any valid state on, a token just mailed works, for the user it was mailed to, if and only if its lifetime has
   * not passed and no call since has ended it: it was not presented, no newer one was mailed to the user, the user was
   * not activated by force, if it is a verification token, and not deleted.
   */
  lemma MailedWorksIff(c: Config, s: State, kind: Kind, email: string, r: Reply, ops: seq<Op>)
    requires Valid(c, s) && r == Step(c, s, IssuingOp(kind, email)) && r.outcome.Mailed?
    ensures FindByEmail(s, email).Some?
    ensures var u, raw, end := FindByEmail(s, email).value, r.outcome.raw, Run(c, r.state, ops);
      && (Works(end, kind, raw) <==> end.now <= s.now + Lifetime(kind) && !RetiredIn(c, r.state, ops, kind, raw, u))
      && (Works(end, kind, raw) ==> Check(TableOf(end, kind), raw, end.now) == Ok(u))
  {
    var op := IssuingOp(kind, email);
    MailingIff(c, s, kind, email, r);
    IssueShapes(c, s, kind, email, r);
    IndexedBelow(c, s, email);
    StepValid(c, s, op, r.state);
    var u, raw, deadline := FindByEmail(s, email).value, r.outcome.raw, s.now + Lifetime(kind);
    TokenStandsIff(c, r.state, ops, kind, raw, u, deadline);
    StandingWorksIff(Run(c, r.state, ops), kind, raw, u, deadline, RetiredIn(c, r.state, ops, kind, raw, u));
  }

  lemma RegistrationStands(c: Config, s: State, email: string, password: string, r: Reply)
    requires r == Register(c, s, email, password) && r.outcome.Created?
    ensures r.outcome.mailed.Some? && r.outcome.mailed.value < r.state.nextId && r.outcome.id < r.state.nextId
    ensures Stands(r.state, Verification, r.outcome.mailed.value, r.outcome.id, s.now + EMAIL_VERIFICATION_MS)
  {
  }

  /** The same for the token mailed at registration, which works for the new user. */
  lemma RegistrationTokenWorksIff(c: Config, s: State, email: string, password: string, r: Reply, ops: seq<Op>)
    requires Valid(c, s) && r == Register(c, s, email, password) && r.outcome.Created?
    ensures r.outcome.mailed.Some?
    ensures var u, raw, end := r.outcome.id, r.outcome.mailed.value, Run(c, r.state, ops);
      && (Works(end, Verification, raw) <==>
          end.now <= s.now + 24 * 60 * 60 * 1000 && !RetiredIn(c, r.state, ops, Verification, raw, u))
      && (Works(end, Verification, raw) ==> Check(end.emailTokens, raw, end.now) == Ok(u))
  {
    RegistrationStands(c, s, email, password, r);
    RegisterValid(c, s, email, password);
    var u, raw, deadline := r.outcome.id, r.outcome.mailed.value, s.now + 24 * 60 * 60 * 1000;
    TokenStandsIff(c, r.state, ops, Verification, raw, u, deadline);
    StandingWorksIff(Run(c, r.state, ops), Verification, raw, u, deadline,
      RetiredIn(c, r.state, ops, Verification, raw, u));
  }
}
