/**
 * The token and authentication services, step by step over the store, each proved equal to its call of the session
 * machine.
 */
module AuthServices {
  import opened Basics
  import opened Redis
  import opened Session
  import opened Storage
  import Acl
  import OneShot
  import Passwords

  /** Three writes that together end all of one user's sessions. */
  lemma KillOne(s: State, u: Id)
    ensures Kill(s, {u}) ==
      Uncache(s.(refresh := RevokeAllOf(s.refresh, {u}),
                 revokeBefore := SetEx(s.revokeBefore, u, Sec(s.now), REVOKE_BEFORE_TTL, s.now)), u)
  {
  }

  class TokenService {
    const store: Store

    constructor (store: Store)
      ensures this.store == store
    {
      this.store := store;
    }

    /** `exp` in seconds; a token with no whole second left is not listed. */
    method BlacklistAccessToken(jti: Id, exp: nat)
      modifies store`blacklist
      ensures store.St() == BlacklistAccess(old(store.St()), jti, exp)
    {
      var ttl := if exp > Sec(store.now) then exp - Sec(store.now) else 0;
      if ttl > 0 {
        store.SetBlacklistKey(jti, ttl);
      }
    }

    method IsAccessTokenRevoked(jti: Id, userId: Id, iat: nat) returns (revoked: bool)
      ensures revoked == IsRevoked(store.St(), jti, userId, iat)
    {
      if Live(store.blacklist, jti, store.now) {
        return true;
      }
      var revokeBefore := Get(store.revokeBefore, userId, store.now);
      if revokeBefore.Some? && iat < revokeBefore.value {
        return true;
      }
      return false;
    }

    method VerifyAndConsumeRefreshToken(jwt: RefreshJwt) returns (r: Result<Id>)
      modifies store`refresh
      ensures r.Ok? <==> RefreshUsable(old(store.St()), jwt)
      ensures store.St() ==
        if r.Ok? then old(store.St()).(refresh := RevokeRow(old(store.refresh), Sha256(jwt))) else old(store.St())
      ensures r == if r.Ok? then Ok(jwt.userId) else Err(AuthenticationError)
    {
      if Sec(store.now) >= jwt.exp {
        return Err(AuthenticationError);
      }
      var h := Sha256(jwt);
      if h !in store.refresh || store.refresh[h].isRevoked {
        return Err(AuthenticationError);
      }
      if store.refresh[h].expiresAt < store.now {
        return Err(AuthenticationError);
      }
      store.RevokeRefreshToken(h);
      return Ok(jwt.userId);
    }

    method RevokeRefreshToken(jwt: RefreshJwt)
      modifies store`refresh
      ensures store.St() == old(store.St()).(refresh := RevokeRow(old(store.refresh), Sha256(jwt)))
    {
      var h := Sha256(jwt);
      if h in store.refresh && !store.refresh[h].isRevoked {
        store.RevokeRefreshToken(h);
      } else if h in store.refresh {
        assert store.refresh == RevokeRow(store.refresh, h);
      }
    }

    method ConsumeEmailVerificationToken(raw: Id) returns (r: Result<Id>)
      modifies store`emailTokens
      ensures r == OneShot.Check(old(store.emailTokens), raw, store.now)
      ensures store.St() ==
        if r.Ok? then old(store.St()).(emailTokens := OneShot.Spend(old(store.emailTokens), raw)) else old(store.St())
    {
      var h := Sha256(raw);
      if h !in store.emailTokens || store.emailTokens[h].isUsed || store.emailTokens[h].expiresAt < store.now {
        return Err(AuthenticationError);
      }
      var userId := store.emailTokens[h].userId;
      store.MarkEmailVerificationTokenUsed(raw);
      return Ok(userId);
    }

    method ConsumePasswordResetToken(raw: Id) returns (r: Result<Id>)
      modifies store`resetTokens
      ensures r == OneShot.Check(old(store.resetTokens), raw, store.now)
      ensures store.St() ==
        if r.Ok? then old(store.St()).(resetTokens := OneShot.Spend(old(store.resetTokens), raw)) else old(store.St())
    {
      var h := Sha256(raw);
      if h !in store.resetTokens || store.resetTokens[h].isUsed || store.resetTokens[h].expiresAt < store.now {
        return Err(AuthenticationError);
      }
      var userId := store.resetTokens[h].userId;
      store.MarkPasswordResetTokenUsed(raw);
      return Ok(userId);
    }

    /** Revoke the user's refresh tokens, stamp the revocation second, drop the cached user. */
    method EndSessions(userId: Id)
      modifies store`refresh, store`revokeBefore, store`userCache
      ensures store.St() == Kill(old(store.St()), {userId})
    {
      KillOne(store.St(), userId);
      store.RevokeAllUserRefreshTokens(userId);
      store.SetUserRevocationTime(userId, Sec(store.now));
      store.InvalidateUser(userId);
    }
  }

  /** Both ids may be drawn before either write. */
  lemma TwoWrites(s: State, access: AccessToken, refresh: RefreshJwt)
    ensures StoreRefresh(SignAccess(s, access), refresh) ==
      s.(issued := s.issued + {access}, nextId := s.nextId + 2,
         refresh := s.refresh[Sha256(refresh) := RefreshRow(refresh.userId, s.now + REFRESH_ROW_MS, false)])
  {
  }

  lemma IssueIsTwoWrites(c: Config, s: State, id: Id, who: Identity, access: AccessToken, refresh: RefreshJwt)
    requires access == AccessToken(id, who, s.nextId, Sec(s.now), Sec(s.now) + c.accessTtl, Acl.Resolve(s.acl, id))
    requires refresh == RefreshJwt(id, s.nextId + 1, Sec(s.now) + c.refreshTtl)
    ensures Session.IssueTokens(c, s, id, who) ==
      Session.Reply(StoreRefresh(SignAccess(s, access), refresh), Tokens(access, refresh))
  {
    var a, r := Session.IssueShape(c, s, id, who, Acl.Resolve(s.acl, id));
  }

  /** Creating a user unverified and then verifying it is adding a verified user. */
  lemma VerifiedAtOnce(s: State, r: OrgUser, hash: Passwords.Hash)
    ensures var u := NewUser(r.email, hash, r.org, false, r.names, s.now);
      PutUser(AddUser(s, u), s.nextId, u.(isVerified := true, isActive := true)) ==
      AddUser(s, NewUser(r.email, hash, r.org, true, r.names, s.now))
  {
  }

  class AuthService {
    const store: Store
    const tokens: TokenService

    constructor (store: Store, tokens: TokenService)
      requires tokens.store == store
      ensures this.store == store && this.tokens == tokens
    {
      this.store, this.tokens := store, tokens;
    }

    /** The gate in front of every authenticated call. */
    method Authenticate(tok: AccessToken) returns (accepted: bool)
      requires tokens.store == store
      ensures accepted == Accepts(store.St(), tok)
    {
      if tok !in store.issued || Sec(store.now) >= tok.exp {
        return false;
      }
      var revoked := tokens.IsAccessTokenRevoked(tok.jti, tok.userId, tok.iat);
      return !revoked;
    }

    method Register(email: string, password: string) returns (outcome: Outcome)
      modifies store
      ensures Session.Reply(store.St(), outcome) == Session.Register(store.config, old(store.St()), email, password)
    {
      var existing := store.FindByEmail(email);
      if existing.Some? {
        return Fail(Conflict);
      }
      if !Passwords.Strong(password) {
        return Fail(Validation);
      }
      var hash := Passwords.Bcrypt(password, store.nextId);
      var id := store.CreateUser(NewUser(email, hash, DEFAULT_ORG, false, map[], store.now));
      store.AddPasswordHistory(id, hash);
      var raw := store.CreateEmailVerificationToken(id);
      return Created(id, Some(raw));
    }

    /** Registration by an organization: check the mode, create the row, then verify and activate it. */
    method OrgRegisterUser(u: OrgUser) returns (outcome: Outcome)
      modifies store
      ensures Session.Reply(store.St(), outcome) == OrgRegister(old(store.St()), u)
    {
      var mode := if u.mode.Some? then u.mode.value else if u.authMode.DELEGATED? then DelegatedMode else FullMode;
      if u.authMode.FULL? && mode.DelegatedMode? {
        return Fail(Validation);
      }
      if u.authMode.DELEGATED? && mode.FullMode? {
        return Fail(Validation);
      }
      var existing := store.FindByEmail(u.email);
      if existing.Some? && store.users[existing.value].organizationId == u.org {
        return Fail(Conflict);
      }
      var hash := Passwords.Unusable(store.nextId);
      if mode.FullMode? {
        if u.password.None? || !Passwords.Strong(u.password.value) {
          return Fail(Validation);
        }
        hash := Passwords.Bcrypt(u.password.value, store.nextId);
      }
      if existing.Some? {
        return Fail(DatabaseError);
      }
      var id := store.CreateUser(NewUser(u.email, hash, u.org, false, u.names, store.now));
      store.UpdateUserRow(id, store.users[id].(isVerified := true, isActive := true));
      VerifiedAtOnce(old(store.St()), u, hash);
      return Created(id, None);
    }

    method Login(email: string, password: string) returns (outcome: Outcome)
      modifies store
      ensures Session.Reply(store.St(), outcome) == Session.Login(store.config, old(store.St()), email, password)
    {
      var found := store.FindByEmail(email);
      if found.None? || (store.users[found.value].isVerified && !store.users[found.value].isActive) {
        return Fail(AuthenticationError);
      }
      var id := found.value;
      var user := store.users[id];
      if user.lockedUntil.Some? && user.lockedUntil.value > store.now {
        return Fail(AccountLocked(user.lockedUntil.value));
      }
      if !Passwords.Compare(password, user.passwordHash) {
        outcome := CountFailedAttempt(id);
        return;
      }
      if !user.isVerified {
        return Fail(AuthorizationError);
      }
      store.ResetLoginAttempts(id);
      outcome := IssueTokens(id, IdentityOf(user));
    }

    method CountFailedAttempt(id: Id) returns (outcome: Outcome)
      requires id in store.users
      modifies store`users
      ensures store.St() == PutUser(old(store.St()), id, CountFailure(store.config, old(store.users)[id], store.now))
      ensures outcome == Fail(
        if old(store.users)[id].failedLoginAttempts + 1 >= store.config.maxAttempts
        then AccountLocked(store.now + store.config.lockMs) else AuthenticationError)
    {
      var attempts := store.IncrementFailedLoginAttempts(id);
      if attempts >= store.config.maxAttempts {
        var lockedUntil := store.now + store.config.lockMs;
        store.LockAccount(id, lockedUntil);
        return Fail(AccountLocked(lockedUntil));
      }
      return Fail(AuthenticationError);
    }

    method IssueTokens(id: Id, who: Identity) returns (outcome: Outcome)
      modifies store`issued, store`refresh, store`nextId
      ensures Session.Reply(store.St(), outcome) == Session.IssueTokens(store.config, old(store.St()), id, who)
    {
      ghost var s := store.St();
      var jti := store.DrawId();
      var appPermissions := store.ResolveUserPermissions(id);
      var tokenId := store.DrawId();
      var now := Sec(store.now);
      var access := AccessToken(id, who, jti, now, now + store.config.accessTtl, appPermissions);
      var refresh := RefreshJwt(id, tokenId, now + store.config.refreshTtl);
      store.SignAccessToken(access);
      store.CreateRefreshToken(refresh);
      outcome := Tokens(access, refresh);
      assert store.St() == StoreRefresh(SignAccess(s, access), refresh) by { TwoWrites(s, access, refresh); }
      IssueIsTwoWrites(store.config, s, id, who, access, refresh);
    }

    method RefreshTokens(jwt: RefreshJwt) returns (outcome: Outcome)
      requires tokens.store == store
      modifies store
      ensures Session.Reply(store.St(), outcome) == Session.RefreshTokens(store.config, old(store.St()), jwt)
    {
      var consumed := tokens.VerifyAndConsumeRefreshToken(jwt);
      if consumed.Err? {
        return Fail(consumed.error);
      }
      if jwt.userId !in store.users || !store.users[jwt.userId].isActive {
        return Fail(AuthenticationError);
      }
      outcome := IssueTokens(jwt.userId, IdentityOf(store.users[jwt.userId]));
    }

    method Logout(tok: AccessToken, jwt: RefreshJwt) returns (outcome: Outcome)
      requires tokens.store == store
      modifies store`blacklist, store`refresh
      ensures Session.Reply(store.St(), outcome) == Session.Logout(old(store.St()), tok, jwt)
    {
      var accepted := Authenticate(tok);
      if !accepted {
        return Fail(AuthenticationError);
      }
      tokens.BlacklistAccessToken(tok.jti, tok.exp);
      tokens.RevokeRefreshToken(jwt);
      return Done;
    }

    method LogoutAll(tok: AccessToken) returns (outcome: Outcome)
      requires tokens.store == store
      modifies store`blacklist, store`refresh, store`revokeBefore, store`userCache
      ensures Session.Reply(store.St(), outcome) == Session.LogoutAll(old(store.St()), tok)
    {
      var accepted := Authenticate(tok);
      if !accepted {
        return Fail(AuthenticationError);
      }
      tokens.EndSessions(tok.userId);
      tokens.BlacklistAccessToken(tok.jti, tok.exp);
      return Done;
    }

    method VerifyEmail(raw: Id) returns (outcome: Outcome)
      requires tokens.store == store
      modifies store`emailTokens, store`users, store`userCache
      ensures Session.Reply(store.St(), outcome) == Session.VerifyEmail(old(store.St()), raw)
    {
      var consumed := tokens.ConsumeEmailVerificationToken(raw);
      if consumed.Err? {
        return Fail(consumed.error);
      }
      var userId := consumed.value;
      if userId !in store.users {
        return Fail(NotFound);
      }
      if store.users[userId].isVerified {
        return Done;
      }
      store.MarkEmailVerified(userId);
      store.InvalidateUser(userId);
      return Done;
    }

    method ResendVerificationEmail(email: string) returns (outcome: Outcome)
      modifies store`emailTokens, store`nextId
      ensures Session.Reply(store.St(), outcome) == ResendVerification(old(store.St()), email)
    {
      var found := store.FindByEmail(email);
      if found.None? || store.users[found.value].isVerified {
        return Done;
      }
      var raw := store.CreateEmailVerificationToken(found.value);
      return Mailed(raw);
    }

    method ForgotPassword(email: string) returns (outcome: Outcome)
      modifies store`resetTokens, store`nextId
      ensures Session.Reply(store.St(), outcome) == Session.ForgotPassword(old(store.St()), email)
    {
      var found := store.FindByEmail(email);
      if found.None? || !store.users[found.value].isActive {
        return Done;
      }
      var raw := store.CreatePasswordResetToken(found.value);
      return Mailed(raw);
    }

    /** The shared tail of a reset and a change: enforce the history, store the hash, end every session. */
    method SetPassword(id: Id, password: string) returns (outcome: Outcome)
      requires tokens.store == store && id in store.users
      modifies store`nextId, store`users, store`history, store`refresh, store`revokeBefore, store`userCache
      ensures Session.Reply(store.St(), outcome) == Session.SetPassword(store.config, old(store.St()), id, password)
    {
      var accepted := Passwords.EnforceHistory(HistoryOf(store.St(), id), password, store.config.historyLimit);
      if !accepted {
        return Fail(Validation);
      }
      WritePassword(id, password);
      tokens.EndSessions(id);
      return Done;
    }

    method WritePassword(id: Id, password: string)
      requires id in store.users
      modifies store`nextId, store`users, store`history
      ensures store.St() == StoreHash(store.config, old(store.St()), id, password)
    {
      var hash := store.HashPassword(password);
      store.UpdatePassword(id, hash);
      store.AddPasswordHistory(id, hash);
    }

    method ResetPassword(raw: Id, password: string) returns (outcome: Outcome)
      requires tokens.store == store
      modifies store
      ensures Session.Reply(store.St(), outcome) == Session.ResetPassword(store.config, old(store.St()), raw, password)
    {
      if !Passwords.Strong(password) {
        return Fail(Validation);
      }
      var consumed := tokens.ConsumePasswordResetToken(raw);
      if consumed.Err? {
        return Fail(consumed.error);
      }
      if consumed.value !in store.users {
        return Fail(NotFound);
      }
      outcome := SetPassword(consumed.value, password);
    }

    method ChangePassword(id: Id, current: string, password: string) returns (outcome: Outcome)
      requires tokens.store == store
      modifies store
      ensures Session.Reply(store.St(), outcome) ==
        Session.ChangePassword(store.config, old(store.St()), id, current, password)
    {
      if id !in store.users {
        return Fail(NotFound);
      }
      if !Passwords.Compare(current, store.users[id].passwordHash) {
        return Fail(AuthenticationError);
      }
      if !Passwords.Strong(password) {
        return Fail(Validation);
      }
      outcome := SetPassword(id, password);
    }

    method UpdateMe(id: Id, data: map<string, string>) returns (outcome: Outcome)
      modifies store`users, store`userCache
      ensures Session.Reply(store.St(), outcome) == Session.UpdateMe(old(store.St()), id, data)
    {
      if id !in store.users {
        return Fail(NotFound);
      }
      if UniqueClash(store.St(), id, data) {
        return Fail(DatabaseError);
      }
      var updated := MergeProfile(store.users[id], data);
      store.UpdateUserRow(id, updated);
      store.InvalidateUser(id);
      return Profile(ToUserResponse(id, updated));
    }

    method GetMe(id: Id) returns (outcome: Outcome)
      modifies store`userCache
      ensures Session.Reply(store.St(), outcome) == Session.GetMe(old(store.St()), id)
    {
      var cached := store.GetUser(id);
      if cached.Some? {
        return Profile(cached.value);
      }
      if id !in store.users {
        return Fail(NotFound);
      }
      var response := ToUserResponse(id, store.users[id]);
      store.SetUser(id, response);
      return Profile(response);
    }

    method SuspendUser(id: Id, adminId: Id) returns (outcome: Outcome)
      requires tokens.store == store
      modifies store`users, store`refresh, store`revokeBefore, store`userCache
      ensures Session.Reply(store.St(), outcome) == Session.SuspendUser(old(store.St()), id, adminId)
    {
      if id !in store.users {
        return Fail(NotFound);
      }
      if id == adminId {
        return Fail(Validation);
      }
      var updated := store.users[id].(isActive := false);
      store.UpdateUserRow(id, updated);
      tokens.EndSessions(id);
      return Profile(ToUserResponse(id, updated));
    }

    method ActivateUser(id: Id) returns (outcome: Outcome)
      modifies store`users, store`userCache
      ensures Session.Reply(store.St(), outcome) == Session.ActivateUser(old(store.St()), id)
    {
      if id !in store.users {
        return Fail(NotFound);
      }
      var updated := store.users[id].(isActive := true);
      store.UpdateUserRow(id, updated);
      store.InvalidateUser(id);
      return Profile(ToUserResponse(id, updated));
    }

    method ForceActivateUser(id: Id, adminId: Id, adminPassword: string) returns (outcome: Outcome)
      modifies store`users, store`emailTokens, store`userCache
      ensures Session.Reply(store.St(), outcome) == ForceActivate(old(store.St()), id, adminId, adminPassword)
    {
      if id !in store.users {
        return Fail(NotFound);
      }
      if store.users[id].isVerified {
        return Fail(Validation);
      }
      if adminId !in store.users {
        return Fail(NotFound);
      }
      if !Passwords.Compare(adminPassword, store.users[adminId].passwordHash) {
        return Fail(AuthenticationError);
      }
      var updated := store.users[id].(
        isActive := true, isVerified := true, failedLoginAttempts := 0, lockedUntil := None);
      store.UpdateUserRow(id, updated);
      store.InvalidateAllEmailVerificationTokens(id);
      store.InvalidateUser(id);
      return Profile(ToUserResponse(id, updated));
    }

    method UpdateUser(id: Id, adminId: Id, role: Option<UserRole>, isActive: Option<bool>, data: map<string, string>)
      returns (outcome: Outcome)
      requires tokens.store == store
      modifies store`users, store`refresh, store`revokeBefore, store`userCache
      ensures Session.Reply(store.St(), outcome) ==
        Session.UpdateUser(old(store.St()), id, adminId, role, isActive, data)
    {
      if id !in store.users {
        return Fail(NotFound);
      }
      if id == adminId && Deactivates(isActive) {
        return Fail(Validation);
      }
      if UniqueClash(store.St(), id, data) {
        return Fail(DatabaseError);
      }
      var updated := AdminEdit(store.users[id], role, isActive, data);
      store.UpdateUserRow(id, updated);
      if Deactivates(isActive) {
        tokens.EndSessions(id);
      } else {
        store.InvalidateUser(id);
      }
      return Profile(ToUserResponse(id, updated));
    }

    method DeleteUser(id: Id, adminId: Id) returns (outcome: Outcome)
      modifies store
      ensures Session.Reply(store.St(), outcome) == Session.DeleteUser(old(store.St()), id, adminId)
    {
      if id !in store.users {
        return Fail(NotFound);
      }
      if id == adminId {
        return Fail(Validation);
      }
      store.DeleteUserRow(id);
      store.InvalidateUser(id);
      return Done;
    }
  }
}
