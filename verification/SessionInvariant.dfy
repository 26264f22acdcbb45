/** The inductive invariant of the session machine, proved one aspect at a time over every service call. */
module SessionInvariant {
  import opened Basics
  import opened Redis
  import opened Session
  import OneShot
  import Passwords
  import Acl

  // ---- The invariant ----

  // Each part speaks only of the fields it needs, so a call that leaves those alone keeps it trivially.

  ghost predicate EmailIndex(users: map<Id, User>, byEmail: map<string, Id>) {
    && (forall e :: e in byEmail ==> byEmail[e] in users && users[byEmail[e]].email == e)
    && (forall u :: u in users ==> users[u].email in byEmail && byEmail[users[u].email] == u)
  }

  /** A refresh row belongs to the user its JWT names, and that user is verified. */
  ghost predicate RowsOwned(users: map<Id, User>, t: RefreshTable) {
    forall h :: h in t ==>
      t[h].userId == h.preimage.userId && t[h].userId in users && users[t[h].userId].isVerified
  }

  ghost predicate TokenTimes(c: Config, issued: set<AccessToken>, now: nat) {
    forall tok :: tok in issued ==> tok.exp == tok.iat + c.accessTtl && tok.iat <= Sec(now)
  }

  ghost predicate JtisUnique(issued: set<AccessToken>) {
    forall t1, t2 :: t1 in issued && t2 in issued && t1.jti == t2.jti ==> t1 == t2
  }

  /** A blacklist key of an issued token outlives the token. */
  ghost predicate BlacklistOk(issued: set<AccessToken>, blacklist: Cache<Id, string>) {
    forall tok :: tok in issued && tok.jti in blacklist ==> blacklist[tok.jti].expiresAt >= tok.exp * MS_PER_SECOND
  }

  /** A stamp is in the past and its key lives thirty days past the stamped second. */
  ghost predicate StampsOk(stamps: Cache<Id, nat>, now: nat) {
    forall u :: u in stamps ==>
      stamps[u].value <= Sec(now) && stamps[u].expiresAt >= (stamps[u].value + REVOKE_BEFORE_TTL) * MS_PER_SECOND
  }

  /** Equal on every field except the last login time. */
  ghost predicate SameButLogin(a: UserResponse, b: UserResponse) {
    a.(lastLoginAt := None) == b.(lastLoginAt := None)
  }

  ghost predicate CacheCoherent(users: map<Id, User>, cache: Cache<Id, UserResponse>) {
    forall u :: u in cache ==> u in users && SameButLogin(cache[u].value, ToUserResponse(u, users[u]))
  }

  ghost predicate AttemptsBelowLimit(c: Config, users: map<Id, User>) {
    forall u :: u in users ==> users[u].failedLoginAttempts < c.maxAttempts
  }

  ghost predicate HistoryBounded(c: Config, history: map<Id, seq<Passwords.Row>>) {
    forall u :: u in history ==> |history[u]| <= c.historyLimit
  }

  ghost predicate Valid(c: Config, s: State) {
    && ValidConfig(c)
    && UserIdsBelow(s.users, s.nextId) && JtisBelow(s.issued, s.nextId) && BlacklistBelow(s.blacklist, s.nextId)
    && RowIdsBelow(s.refresh, s.nextId) && RawsBelow(s.emailTokens, s.nextId) && RawsBelow(s.resetTokens, s.nextId)
    && EmailIndex(s.users, s.byEmail)
    && RowsOwned(s.users, s.refresh)
    && TokenTimes(c, s.issued, s.now) && JtisUnique(s.issued)
    && BlacklistOk(s.issued, s.blacklist)
    && StampsOk(s.revokeBefore, s.now)
    && CacheCoherent(s.users, s.userCache)
    && AttemptsBelowLimit(c, s.users)
    && OneShot.AtMostOneUnused(s.emailTokens) && OneShot.AtMostOneUnused(s.resetTokens)
    && HistoryBounded(c, s.history)
  }

  // ---- What one step can do to the tokens, the stamps and the blacklist ----

  /** The claims of a token signed at this moment for this user. */
  ghost predicate SignedFor(c: Config, now: nat, jti: Id, acl: Acl.Tables, id: Id, who: Identity, tok: AccessToken) {
    tok == AccessToken(id, who, jti, Sec(now), Sec(now) + c.accessTtl, Acl.Resolve(acl, id))
  }

  /** A token as it is signed in state `s`: now, for a verified and active user, with the current permissions. */
  ghost predicate SignedIn(c: Config, s: State, tok: AccessToken) {
    && tok.userId in s.users && s.users[tok.userId].isVerified && s.users[tok.userId].isActive
    && SignedFor(c, s.now, s.nextId, s.acl, tok.userId, IdentityOf(s.users[tok.userId]), tok)
  }

  ghost predicate BlacklistStep(s: State, s': State) {
    && (forall j :: j in s.blacklist ==> j in s'.blacklist)
    && (forall j :: j in s'.blacklist ==>
          (j in s.blacklist && s'.blacklist[j] == s.blacklist[j]) || NewlyBlacklisted(s, s', j))
  }

  ghost predicate NewlyBlacklisted(s: State, s': State, j: Id)
    requires j in s'.blacklist
  {
    exists tok :: tok in s.issued && tok.jti == j && s'.blacklist[j].expiresAt >= tok.exp * MS_PER_SECOND
  }

  lemma BlacklistKeyOutlivesToken(s: State, tok: AccessToken)
    requires tok in s.issued
    ensures BlacklistStep(s, BlacklistAccess(s, tok.jti, tok.exp))
  {
    var s' := BlacklistAccess(s, tok.jti, tok.exp);
    if tok.exp > Sec(s.now) {
      assert s'.blacklist[tok.jti].expiresAt == s.now + (tok.exp - Sec(s.now)) * MS_PER_SECOND;
      assert s.now >= Sec(s.now) * MS_PER_SECOND;
      assert NewlyBlacklisted(s, s', tok.jti);
    }
  }

  lemma LogoutBlacklists(s: State, tok: AccessToken, jwt: RefreshJwt)
    ensures BlacklistStep(s, Logout(s, tok, jwt).state)
  {
  }

  lemma LogoutAllBlacklists(s: State, tok: AccessToken)
    ensures BlacklistStep(s, LogoutAll(s, tok).state)
  {
    if Accepts(s, tok) {
      BlacklistKeyOutlivesToken(Kill(s, {tok.userId}), tok);
    }
  }

  lemma StepBlacklists(c: Config, s: State, op: Op, s': State)
    requires s' == Step(c, s, op).state
    ensures BlacklistStep(s, s')
  {
    if op.DoLogout? {
      LogoutBlacklists(s, op.tok, op.jwt);
    } else if op.DoLogoutAll? {
      LogoutAllBlacklists(s, op.tok);
    } else {
      StepFrame(c, s, op, s');
    }
  }

  // ---- The building blocks keep the invariant ----

  lemma KillValid(c: Config, s: State, userIds: set<Id>)
    requires Valid(c, s)
    ensures Valid(c, Kill(s, userIds))
  {
  }

  lemma KillNobody(s: State)
    ensures Kill(s, {}) == s
  {
  }

  lemma BlacklistValid(c: Config, s: State, tok: AccessToken)
    requires Valid(c, s) && tok in s.issued
    ensures Valid(c, BlacklistAccess(s, tok.jti, tok.exp))
  {
    if tok.exp > Sec(s.now) {
      BlacklistKeyKeeps(s.issued, s.blacklist, tok, s.now, s.nextId);
      BlacklistTableValid(c, s, SetEx(s.blacklist, tok.jti, "1", tok.exp - Sec(s.now), s.now));
    }
  }

  lemma BlacklistTableValid(c: Config, s: State, m: Cache<Id, string>)
    requires Valid(c, s) && BlacklistOk(s.issued, m) && BlacklistBelow(m, s.nextId)
    ensures Valid(c, s.(blacklist := m))
  {
  }

  lemma BlacklistKeyKeeps(issued: set<AccessToken>, blacklist: Cache<Id, string>, tok: AccessToken, now: nat, n: Id)
    requires JtisUnique(issued) && JtisBelow(issued, n)
    requires BlacklistOk(issued, blacklist) && BlacklistBelow(blacklist, n)
    requires tok in issued && tok.exp > Sec(now)
    ensures var more := SetEx(blacklist, tok.jti, "1", tok.exp - Sec(now), now);
      BlacklistOk(issued, more) && BlacklistBelow(more, n)
  {
  }

  lemma RevokeRowValid(c: Config, s: State, h: Digest<RefreshJwt>)
    requires Valid(c, s)
    ensures Valid(c, s.(refresh := RevokeRow(s.refresh, h)))
  {
  }

  lemma BelowGrows(s: State, n: Id)
    requires UserIdsBelow(s.users, s.nextId) && BlacklistBelow(s.blacklist, s.nextId)
    requires RowIdsBelow(s.refresh, s.nextId) && JtisBelow(s.issued, s.nextId)
    requires RawsBelow(s.emailTokens, s.nextId) && RawsBelow(s.resetTokens, s.nextId)
    requires s.nextId <= n
    ensures UserIdsBelow(s.users, n) && BlacklistBelow(s.blacklist, n) && RowIdsBelow(s.refresh, n)
    ensures JtisBelow(s.issued, n) && RawsBelow(s.emailTokens, n) && RawsBelow(s.resetTokens, n)
  {
  }

  lemma BumpValid(c: Config, s: State, n: Id)
    requires Valid(c, s) && s.nextId <= n
    ensures Valid(c, s.(nextId := n))
  {
  }

  lemma IssueValid(c: Config, s: State, id: Id, who: Identity, perms: map<Id, Acl.AppPermission>)
    requires Valid(c, s) && id in s.users && s.users[id].isVerified && s.users[id].isActive
    ensures Valid(c, IssueWith(c, s, id, who, perms).state)
  {
    var tok, jwt := IssueShape(c, s, id, who, perms);
    SignValid(c, s, tok);
    StoreRefreshValid(c, SignAccess(s, tok), jwt);
  }

  lemma SignValid(c: Config, s: State, tok: AccessToken)
    requires Valid(c, s)
    requires tok.exp == tok.iat + c.accessTtl && tok.iat == Sec(s.now) && tok.jti == s.nextId
    ensures Valid(c, SignAccess(s, tok))
  {
  }

  lemma StoreRefreshValid(c: Config, s: State, jwt: RefreshJwt)
    requires Valid(c, s) && jwt.tokenId == s.nextId
    requires jwt.userId in s.users && s.users[jwt.userId].isVerified
    ensures Valid(c, StoreRefresh(s, jwt))
  {
  }

  lemma EditKeepsMaps(c: Config, s: State, id: Id, u: User)
    requires EmailIndex(s.users, s.byEmail) && RowsOwned(s.users, s.refresh)
    requires AttemptsBelowLimit(c, s.users) && UserIdsBelow(s.users, s.nextId)
    requires EditKeeps(c, s, id, u)
    ensures var users := s.users[id := u];
      && EmailIndex(users, s.byEmail) && RowsOwned(users, s.refresh)
      && AttemptsBelowLimit(c, users) && UserIdsBelow(users, s.nextId)
  {
  }

  lemma EditKeepsCache(s: State, id: Id, u: User, cache: Cache<Id, UserResponse>)
    requires CacheCoherent(s.users, s.userCache) && id in s.users
    requires cache == s.userCache - {id} ||
             (cache == s.userCache && SameButLogin(ToUserResponse(id, s.users[id]), ToUserResponse(id, u)))
    ensures CacheCoherent(s.users[id := u], cache)
  {
  }

  /** What every edit of a user row respects. */
  ghost predicate EditKeeps(c: Config, s: State, id: Id, u: User) {
    EditOk(s, id, u) && u.failedLoginAttempts < c.maxAttempts
  }

  /** An edit that drops the cached copy. */
  lemma EditValid(c: Config, s: State, id: Id, u: User)
    requires Valid(c, s) && EditKeeps(c, s, id, u)
    ensures Valid(c, Uncache(PutUser(s, id, u), id))
  {
    EditKeepsMaps(c, s, id, u);
    EditKeepsCache(s, id, u, s.userCache - {id});
  }

  /** An edit that changes nothing a cached copy shows, except the last login time. */
  lemma InvisibleEditValid(c: Config, s: State, id: Id, u: User)
    requires Valid(c, s) && EditKeeps(c, s, id, u)
    requires SameButLogin(ToUserResponse(id, s.users[id]), ToUserResponse(id, u))
    ensures Valid(c, PutUser(s, id, u))
  {
    EditKeepsMaps(c, s, id, u);
    EditKeepsCache(s, id, u, s.userCache);
  }

  /** An edit followed by the end of the user's sessions, which also drops the cached copy. */
  lemma SuspensionValid(c: Config, s: State, id: Id, u: User)
    requires Valid(c, s) && EditKeeps(c, s, id, u)
    ensures Valid(c, Kill(PutUser(s, id, u), {id}))
  {
    var s1 := Uncache(PutUser(s, id, u), id);
    EditValid(c, s, id, u);
    KillValid(c, s1, {id});
    assert Kill(PutUser(s, id, u), {id}).userCache == Kill(s1, {id}).userCache;
  }

  lemma StoreEditValid(c: Config, s: State, id: Id, u: User, endSessions: bool)
    requires Valid(c, s) && EditKeeps(c, s, id, u) && PlainEdit(s, id, u)
    ensures Valid(c, StoreEdit(s, id, u, endSessions).state)
  {
    if endSessions {
      SuspensionValid(c, s, id, u);
    } else {
      EditValid(c, s, id, u);
    }
  }

  lemma CountedValid(c: Config, s: State, id: Id, r: Reply)
    requires Valid(c, s) && LoginCounted(c, s, id, r)
    ensures Valid(c, r.state)
  {
    InvisibleEditValid(c, s, id, CountFailure(c, s.users[id], s.now));
  }

  lemma LoginIssuedValid(c: Config, s: State, id: Id, r: Reply)
    requires Valid(c, s) && LoginIssued(c, s, id, r)
    ensures Valid(c, r.state)
  {
    var s1 := PutUser(s, id, LoginReset(s.users[id], s.now));
    InvisibleEditValid(c, s, id, LoginReset(s.users[id], s.now));
    IssueValid(c, s1, id, IdentityOf(s.users[id]), Acl.Resolve(s1.acl, id));
  }

  lemma LoginValid(c: Config, s: State, email: string, password: string, r: Reply)
    requires Valid(c, s) && r == Login(c, s, email, password)
    ensures Valid(c, r.state)
  {
    LoginCases(c, s, email, password, r);
    if r.state == s {
    } else if r.outcome.Fail? {
      CountedValid(c, s, FindByEmail(s, email).value, r);
    } else {
      LoginIssuedValid(c, s, FindByEmail(s, email).value, r);
    }
  }

  lemma RefreshIssuedValid(c: Config, s: State, jwt: RefreshJwt, r: Reply)
    requires Valid(c, s) && RefreshIssued(c, s, jwt, r)
    ensures Valid(c, r.state)
  {
    assert s.users[jwt.userId].isVerified;
    RevokeRowValid(c, s, Sha256(jwt));
    var who := IdentityOf(s.users[jwt.userId]);
    IssueValid(c, Spent(s, jwt), jwt.userId, who, Acl.Resolve(Spent(s, jwt).acl, jwt.userId));
  }

  lemma RefreshValid(c: Config, s: State, jwt: RefreshJwt, r: Reply)
    requires Valid(c, s) && r == RefreshTokens(c, s, jwt)
    ensures Valid(c, r.state)
  {
    RefreshOutcomes(c, s, jwt, r);
    if RefreshIssued(c, s, jwt, r) {
      RefreshIssuedValid(c, s, jwt, r);
    } else {
      RevokeRowValid(c, s, Sha256(jwt));
    }
  }

  lemma LogoutValid(c: Config, s: State, tok: AccessToken, jwt: RefreshJwt)
    requires Valid(c, s)
    ensures Valid(c, Logout(s, tok, jwt).state)
  {
    if Accepts(s, tok) {
      BlacklistValid(c, s, tok);
      RevokeRowValid(c, BlacklistAccess(s, tok.jti, tok.exp), Sha256(jwt));
    }
  }

  lemma LogoutAllValid(c: Config, s: State, tok: AccessToken)
    requires Valid(c, s)
    ensures Valid(c, LogoutAll(s, tok).state)
  {
    if Accepts(s, tok) {
      KillValid(c, s, {tok.userId});
      BlacklistValid(c, Kill(s, {tok.userId}), tok);
    }
  }

  // ---- One-shot tokens ----

  lemma EmailTableValid(c: Config, s: State, t: OneShot.Table)
    requires Valid(c, s) && OneShot.AtMostOneUnused(t) && RawsBelow(t, s.nextId)
    ensures Valid(c, s.(emailTokens := t))
  {
  }

  lemma ResetTableValid(c: Config, s: State, t: OneShot.Table)
    requires Valid(c, s) && OneShot.AtMostOneUnused(t) && RawsBelow(t, s.nextId)
    ensures Valid(c, s.(resetTokens := t))
  {
  }

  lemma CreateRaw(t: OneShot.Table, userId: Id, n: Id, expiresAt: nat)
    requires OneShot.AtMostOneUnused(t) && RawsBelow(t, n)
    ensures OneShot.AtMostOneUnused(OneShot.Create(t, userId, n, expiresAt))
    ensures RawsBelow(OneShot.Create(t, userId, n, expiresAt), n + 1)
  {
    OneShot.CreateKeepsOne(t, userId, n, expiresAt);
  }

  lemma MailVerificationValid(c: Config, s: State, id: Id)
    requires Valid(c, s)
    ensures Valid(c, MailVerification(s, id))
  {
    CreateRaw(s.emailTokens, id, s.nextId, s.now + EMAIL_VERIFICATION_MS);
    BelowGrows(s, s.nextId + 1);
  }

  lemma MailResetValid(c: Config, s: State, id: Id)
    requires Valid(c, s)
    ensures Valid(c, MailReset(s, id))
  {
    CreateRaw(s.resetTokens, id, s.nextId, s.now + PASSWORD_RESET_MS);
    BelowGrows(s, s.nextId + 1);
  }

  lemma ResendValid(c: Config, s: State, email: string)
    requires Valid(c, s)
    ensures Valid(c, ResendVerification(s, email).state)
  {
    if FindByEmail(s, email).Some? {
      MailVerificationValid(c, s, FindByEmail(s, email).value);
    }
  }

  lemma ForgotValid(c: Config, s: State, email: string)
    requires Valid(c, s)
    ensures Valid(c, ForgotPassword(s, email).state)
  {
    if FindByEmail(s, email).Some? {
      MailResetValid(c, s, FindByEmail(s, email).value);
    }
  }

  lemma SpendKeeps(t: OneShot.Table, raw: Id, n: Id)
    requires OneShot.AtMostOneUnused(t) && RawsBelow(t, n)
    ensures OneShot.AtMostOneUnused(OneShot.Spend(t, raw)) && RawsBelow(OneShot.Spend(t, raw), n)
  {
    OneShot.ShrinkingKeepsOne(t, OneShot.Spend(t, raw));
  }

  lemma VerifyEmailValid(c: Config, s: State, raw: Id)
    requires Valid(c, s)
    ensures Valid(c, VerifyEmail(s, raw).state)
  {
    var checked := OneShot.Check(s.emailTokens, raw, s.now);
    if checked.Ok? {
      var s1 := s.(emailTokens := OneShot.Spend(s.emailTokens, raw));
      SpendKeeps(s.emailTokens, raw, s.nextId);
      EmailTableValid(c, s, s1.emailTokens);
      if checked.value in s.users {
        StoreEditValid(c, s1, checked.value, MarkVerified(s1.users[checked.value]), false);
      }
    }
  }

  // ---- Registration and passwords ----

  lemma AddUserKeepsMaps(c: Config, s: State, id: Id, u: User)
    requires EmailIndex(s.users, s.byEmail) && RowsOwned(s.users, s.refresh) && CacheCoherent(s.users, s.userCache)
    requires AttemptsBelowLimit(c, s.users) && UserIdsBelow(s.users, s.nextId)
    requires id == s.nextId && u.failedLoginAttempts < c.maxAttempts && u.email !in s.byEmail
    ensures var users := s.users[id := u];
      && EmailIndex(users, s.byEmail[u.email := id]) && RowsOwned(users, s.refresh)
      && CacheCoherent(users, s.userCache)
      && AttemptsBelowLimit(c, users) && UserIdsBelow(users, s.nextId + 1)
  {
  }

  lemma AddUserValid(c: Config, s: State, u: User)
    requires Valid(c, s) && u.failedLoginAttempts < c.maxAttempts && u.email !in s.byEmail
    ensures Valid(c, AddUser(s, u))
  {
    AddUserKeepsMaps(c, s, s.nextId, u);
    BelowGrows(s, s.nextId + 1);
  }

  lemma RecordValid(c: Config, s: State, id: Id, hash: Passwords.Hash)
    requires Valid(c, s)
    ensures Valid(c, RecordPassword(c, s, id, hash))
  {
  }

  lemma EnlistValid(c: Config, s: State, u: User)
    requires Valid(c, s) && u.failedLoginAttempts < c.maxAttempts && u.email !in s.byEmail && u.lastLoginAt.None?
    ensures Valid(c, Enlist(c, s, u))
  {
    AddUserValid(c, s, u);
    RecordValid(c, AddUser(s, u), s.nextId, u.passwordHash);
  }

  lemma RegisterValid(c: Config, s: State, email: string, password: string)
    requires Valid(c, s)
    ensures Valid(c, Register(c, s, email, password).state)
  {
    if FindByEmail(s, email).None? && Passwords.Strong(password) {
      var u := NewUser(email, Passwords.Bcrypt(password, s.nextId), DEFAULT_ORG, false, map[], s.now);
      EnlistValid(c, s, u);
      MailVerificationValid(c, Enlist(c, s, u), s.nextId);
    }
  }

  lemma OrgRegisterValid(c: Config, s: State, u: OrgUser)
    requires Valid(c, s)
    ensures Valid(c, OrgRegister(s, u).state)
  {
    if FindByEmail(s, u.email).None? && PasswordOk(u) {
      AddUserValid(c, s, NewUser(u.email, OrgHash(s, u), u.org, true, u.names, s.now));
    }
  }

  lemma ReplaceHashValid(c: Config, s: State, id: Id, password: string)
    requires Valid(c, s) && id in s.users
    ensures Valid(c, ReplaceHash(s, id, password))
  {
    var u := s.users[id].(passwordHash := Passwords.Bcrypt(password, s.nextId));
    InvisibleEditValid(c, s, id, u);
    BumpValid(c, PutUser(s, id, u), s.nextId + 1);
  }

  lemma SetPasswordValid(c: Config, s: State, id: Id, password: string)
    requires Valid(c, s) && id in s.users
    ensures Valid(c, SetPassword(c, s, id, password).state)
  {
    var s1 := ReplaceHash(s, id, password);
    ReplaceHashValid(c, s, id, password);
    RecordValid(c, s1, id, Passwords.Bcrypt(password, s.nextId));
    KillValid(c, RecordPassword(c, s1, id, Passwords.Bcrypt(password, s.nextId)), {id});
  }

  /** The token is refused, or spent: without an owner to be found, or with the owner's new password stored. */
  lemma ResetCases(c: Config, s: State, raw: Id, password: string, r: Reply)
    requires r == ResetPassword(c, s, raw, password)
    ensures var checked, s1 :=
        OneShot.Check(s.resetTokens, raw, s.now), s.(resetTokens := OneShot.Spend(s.resetTokens, raw));
      || r.state == s
      || r.state == s1
      || (checked.Ok? && checked.value in s.users && r == SetPassword(c, s1, checked.value, password))
  {
  }

  lemma ResetValid(c: Config, s: State, raw: Id, password: string, r: Reply)
    requires Valid(c, s) && r == ResetPassword(c, s, raw, password)
    ensures Valid(c, r.state)
  {
    var s1 := s.(resetTokens := OneShot.Spend(s.resetTokens, raw));
    SpendKeeps(s.resetTokens, raw, s.nextId);
    ResetTableValid(c, s, s1.resetTokens);
    ResetCases(c, s, raw, password, r);
    var checked := OneShot.Check(s.resetTokens, raw, s.now);
    if checked.Ok? && checked.value in s.users {
      SetPasswordValid(c, s1, checked.value, password);
    }
  }

  lemma ChangeCases(c: Config, s: State, id: Id, current: string, password: string, r: Reply)
    requires r == ChangePassword(c, s, id, current, password)
    ensures r.state == s || (id in s.users && r == SetPassword(c, s, id, password))
  {
  }

  lemma ChangeValid(c: Config, s: State, id: Id, current: string, password: string, r: Reply)
    requires Valid(c, s) && r == ChangePassword(c, s, id, current, password)
    ensures Valid(c, r.state)
  {
    ChangeCases(c, s, id, current, password, r);
    if id in s.users {
      SetPasswordValid(c, s, id, password);
    }
  }

  // ---- Profiles and administration ----

  /** The call stored this row. */
  ghost predicate RowStored(s: State, id: Id, edited: User, endSessions: bool, r: Reply) {
    PlainEdit(s, id, edited) && r == StoreEdit(s, id, edited, endSessions)
  }

  lemma RowStoredValid(c: Config, s: State, id: Id, edited: User, endSessions: bool, r: Reply)
    requires Valid(c, s) && RowStored(s, id, edited, endSessions, r) && edited.failedLoginAttempts < c.maxAttempts
    ensures Valid(c, r.state)
  {
    StoreEditValid(c, s, id, edited, endSessions);
  }

  /** An edit of the user's own profile fails without effect or stores the merged row. */
  lemma UpdateMeCases(s: State, id: Id, data: map<string, string>, r: Reply)
    requires r == UpdateMe(s, id, data)
    ensures
      || (r.outcome.Fail? && r.state == s)
      || (id in s.users && RowStored(s, id, MergeProfile(s.users[id], data), false, r))
  {
  }

  lemma UpdateMeValid(c: Config, s: State, id: Id, data: map<string, string>, r: Reply)
    requires Valid(c, s) && r == UpdateMe(s, id, data)
    ensures Valid(c, r.state)
  {
    UpdateMeCases(s, id, data, r);
    if r.outcome.Fail? && r.state == s {
    } else {
      RowStoredValid(c, s, id, MergeProfile(s.users[id], data), false, r);
    }
  }

  lemma CacheValid(c: Config, s: State, id: Id)
    requires Valid(c, s) && id in s.users
    ensures Valid(c, CacheUser(s, id, ToUserResponse(id, s.users[id])))
  {
  }

  lemma GetMeValid(c: Config, s: State, id: Id, r: Reply)
    requires Valid(c, s) && r == GetMe(s, id)
    ensures Valid(c, r.state)
  {
    if r.state != s {
      CacheValid(c, s, id);
    }
  }

  /** Activation and suspension fail without effect or store the row with the one flag set. */
  lemma SwitchCases(s: State, id: Id, adminId: Id, active: bool, r: Reply)
    requires r == if active then ActivateUser(s, id) else SuspendUser(s, id, adminId)
    ensures
      || (r.outcome.Fail? && r.state == s)
      || (id in s.users && RowStored(s, id, s.users[id].(isActive := active), !active, r))
  {
  }

  lemma SwitchValid(c: Config, s: State, id: Id, adminId: Id, active: bool, r: Reply)
    requires Valid(c, s) && r == if active then ActivateUser(s, id) else SuspendUser(s, id, adminId)
    ensures Valid(c, r.state)
  {
    SwitchCases(s, id, adminId, active, r);
    if r.outcome.Fail? && r.state == s {
    } else {
      RowStoredValid(c, s, id, s.users[id].(isActive := active), !active, r);
    }
  }

  lemma ForcedValid(c: Config, s: State, id: Id, r: Reply)
    requires Valid(c, s) && id in s.users && r == StoreForced(s, id, ForcedActive(s.users[id]))
    ensures Valid(c, r.state)
  {
    EditValid(c, s, id, ForcedActive(s.users[id]));
    OneShot.ShrinkingKeepsOne(s.emailTokens, OneShot.InvalidateAll(s.emailTokens, id));
    var s1 := Uncache(PutUser(s, id, ForcedActive(s.users[id])), id);
    EmailTableValid(c, s1, OneShot.InvalidateAll(s.emailTokens, id));
  }

  lemma ForceActivateValid(c: Config, s: State, id: Id, adminId: Id, password: string, r: Reply)
    requires Valid(c, s) && r == ForceActivate(s, id, adminId, password)
    ensures Valid(c, r.state)
  {
    if r.outcome.Fail? {
    } else {
      ForcedValid(c, s, id, r);
    }
  }

  /** An administrator's edit fails without effect or stores the edited row. */
  lemma UpdateUserCases(s: State, id: Id, adminId: Id, role: Option<UserRole>, isActive: Option<bool>,
      data: map<string, string>, r: Reply)
    requires r == UpdateUser(s, id, adminId, role, isActive, data)
    ensures
      || (r.outcome.Fail? && r.state == s)
      || (id in s.users && RowStored(s, id, AdminEdit(s.users[id], role, isActive, data), Deactivates(isActive), r))
  {
  }

  lemma UpdateUserValid(c: Config, s: State, id: Id, adminId: Id, role: Option<UserRole>, isActive: Option<bool>,
      data: map<string, string>, r: Reply)
    requires Valid(c, s) && r == UpdateUser(s, id, adminId, role, isActive, data)
    ensures Valid(c, r.state)
  {
    UpdateUserCases(s, id, adminId, role, isActive, data, r);
    if r.outcome.Fail? && r.state == s {
    } else {
      RowStoredValid(c, s, id, AdminEdit(s.users[id], role, isActive, data), Deactivates(isActive), r);
    }
  }

  lemma RemovingUserKeepsMaps(c: Config, s: State, id: Id)
    requires EmailIndex(s.users, s.byEmail) && RowsOwned(s.users, s.refresh) && CacheCoherent(s.users, s.userCache)
    requires id in s.users
    ensures var users := s.users - {id};
      && EmailIndex(users, s.byEmail - {s.users[id].email})
      && RowsOwned(users, RowsWithout(s.refresh, id))
      && CacheCoherent(users, s.userCache - {id})
  {
  }

  lemma ForgettingKeeps(t: OneShot.Table, id: Id, n: Id)
    requires OneShot.AtMostOneUnused(t) && RawsBelow(t, n)
    ensures OneShot.AtMostOneUnused(OneShot.ForgetUser(t, id)) && RawsBelow(OneShot.ForgetUser(t, id), n)
  {
    OneShot.ShrinkingKeepsOne(t, OneShot.ForgetUser(t, id));
  }

  lemma EraseValid(c: Config, s: State, id: Id)
    requires Valid(c, s) && id in s.users
    ensures Valid(c, Erase(s, id))
  {
    RemovingUserKeepsMaps(c, s, id);
    ForgettingKeeps(s.emailTokens, id, s.nextId);
    ForgettingKeeps(s.resetTokens, id, s.nextId);
  }

  lemma DeleteValid(c: Config, s: State, id: Id, adminId: Id, r: Reply)
    requires Valid(c, s) && r == DeleteUser(s, id, adminId)
    ensures Valid(c, r.state)
  {
    if r.outcome.Fail? {
    } else {
      EraseValid(c, s, id);
    }
  }

  lemma AclValid(c: Config, s: State, op: Acl.Op, r: Reply)
    requires Valid(c, s) && r == AdministerAcl(s, op)
    ensures Valid(c, r.state)
  {
    var a := Acl.Step(s.acl, s.users.Keys, op);
    KillValid(c, s.(acl := a.tables), a.killed);
  }

  // ---- Every call ----

  lemma AuthStepValid(c: Config, s: State, op: Op)
    requires Valid(c, s)
    requires
      || op.Tick? || op.DoRegister? || op.DoOrgRegister? || op.DoLogin?
      || op.DoRefresh? || op.DoLogout? || op.DoLogoutAll?
    ensures Valid(c, Step(c, s, op).state)
  {
    match op
    case Tick(d) =>
    case DoRegister(email, pw) => RegisterValid(c, s, email, pw);
    case DoOrgRegister(user) => OrgRegisterValid(c, s, user);
    case DoLogin(email, pw) => LoginValid(c, s, email, pw, Step(c, s, op));
    case DoRefresh(jwt) => RefreshValid(c, s, jwt, Step(c, s, op));
    case DoLogout(tok, jwt) => LogoutValid(c, s, tok, jwt);
    case DoLogoutAll(tok) => LogoutAllValid(c, s, tok);
  }

  lemma MailStepValid(c: Config, s: State, op: Op)
    requires Valid(c, s)
    requires op.DoVerifyEmail? || op.DoResend? || op.DoForgot?
    ensures Valid(c, Step(c, s, op).state)
  {
    match op
    case DoVerifyEmail(raw) => VerifyEmailValid(c, s, raw);
    case DoResend(email) => ResendValid(c, s, email);
    case DoForgot(email) => ForgotValid(c, s, email);
  }

  lemma PasswordStepValid(c: Config, s: State, op: Op)
    requires Valid(c, s)
    requires op.DoReset? || op.DoChangePassword?
    ensures Valid(c, Step(c, s, op).state)
  {
    match op
    case DoReset(raw, pw) => ResetValid(c, s, raw, pw, Step(c, s, op));
    case DoChangePassword(id, cur, pw) => ChangeValid(c, s, id, cur, pw, Step(c, s, op));
  }

  lemma ProfileStepValid(c: Config, s: State, op: Op)
    requires Valid(c, s)
    requires op.DoUpdateMe? || op.DoGetMe?
    ensures Valid(c, Step(c, s, op).state)
  {
    match op
    case DoUpdateMe(id, data) => UpdateMeValid(c, s, id, data, Step(c, s, op));
    case DoGetMe(id) => GetMeValid(c, s, id, Step(c, s, op));
  }

  lemma AdminStepValid(c: Config, s: State, op: Op)
    requires Valid(c, s)
    requires op.DoSuspend? || op.DoActivate?
    ensures Valid(c, Step(c, s, op).state)
  {
    match op
    case DoSuspend(id, admin) => SwitchValid(c, s, id, admin, false, Step(c, s, op));
    case DoActivate(id) => SwitchValid(c, s, id, id, true, Step(c, s, op));
  }

  lemma EditStepValid(c: Config, s: State, op: Op)
    requires Valid(c, s)
    requires op.DoForceActivate? || op.DoUpdateUser?
    ensures Valid(c, Step(c, s, op).state)
  {
    match op
    case DoForceActivate(id, admin, pw) => ForceActivateValid(c, s, id, admin, pw, Step(c, s, op));
    case DoUpdateUser(id, admin, role, active, data) =>
      UpdateUserValid(c, s, id, admin, role, active, data, Step(c, s, op));
  }

  lemma TableStepValid(c: Config, s: State, op: Op)
    requires Valid(c, s)
    requires op.DoDelete? || op.DoAcl?
    ensures Valid(c, Step(c, s, op).state)
  {
    match op
    case DoDelete(id, admin) => DeleteValid(c, s, id, admin, Step(c, s, op));
    case DoAcl(aop) => AclValid(c, s, aop, Step(c, s, op));
  }

  /** The invariant survives every service call. */
  lemma StepValid(c: Config, s: State, op: Op, s': State)
    requires Valid(c, s) && s' == Step(c, s, op).state
    ensures Valid(c, s')
  {
    if op.DoVerifyEmail? || op.DoResend? || op.DoForgot? {
      MailStepValid(c, s, op);
    } else if op.DoReset? || op.DoChangePassword? {
      PasswordStepValid(c, s, op);
    } else if op.DoUpdateMe? || op.DoGetMe? {
      ProfileStepValid(c, s, op);
    } else if op.DoSuspend? || op.DoActivate? {
      AdminStepValid(c, s, op);
    } else if op.DoForceActivate? || op.DoUpdateUser? {
      EditStepValid(c, s, op);
    } else if op.DoDelete? || op.DoAcl? {
      TableStepValid(c, s, op);
    } else {
      AuthStepValid(c, s, op);
    }
  }

  lemma InitValid(c: Config)
    requires ValidConfig(c)
    ensures Valid(c, Init)
  {
  }

  /** Every state of every run satisfies the invariant. */
  lemma {:induction false} RunValid(c: Config, s: State, ops: seq<Op>)
    requires Valid(c, s)
    ensures Valid(c, Run(c, s, ops))
  {
    if ops == [] {
    } else {
      RunValid(c, s, ops[..|ops| - 1]);
      StepValid(c, Run(c, s, ops[..|ops| - 1]), ops[|ops| - 1], Run(c, s, ops));
    }
  }

  /** Neither the clock nor the fresh-id counter ever goes back. */
  lemma {:induction false} RunIds(c: Config, s: State, ops: seq<Op>)
    ensures s.nextId <= Run(c, s, ops).nextId && s.now <= Run(c, s, ops).now
  {
    if ops == [] {
    } else {
      RunIds(c, s, ops[..|ops| - 1]);
      StepMoves(c, Run(c, s, ops[..|ops| - 1]), ops[|ops| - 1], Run(c, s, ops));
    }
  }

  // ---- Runs in parts ----

  lemma RunSnoc(c: Config, s: State, ops: seq<Op>, op: Op)
    ensures Run(c, s, ops + [op]) == Step(c, Run(c, s, ops), op).state
  {
  }

  lemma RunOne(c: Config, s: State, op: Op)
    ensures Run(c, s, [op]) == Step(c, s, op).state
  {
  }

  lemma {:induction false} RunAppend(c: Config, s: State, ops: seq<Op>, more: seq<Op>)
    ensures Run(c, s, ops + more) == Run(c, Run(c, s, ops), more)
  {
    if more == [] {
      assert ops + more == ops;
    } else {
      var init := more[..|more| - 1];
      RunAppend(c, s, ops, init);
      assert (ops + more)[..|ops + more| - 1] == ops + init;
    }
  }
}
