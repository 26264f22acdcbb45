/**
 * The session lifecycle: users, refresh tokens, one-shot tokens, the Redis keys that revoke access tokens,
 * the user cache and the RBAC tables, with one function per service call.
 */
module Session {
  import opened Basics
  import opened Redis
  import Passwords
  import OneShot
  import Acl

  // ---- Configuration ----

  /** Deployment settings: token lifetimes in seconds, lockout threshold and duration, history length. */
  datatype Config = Config(accessTtl: nat, refreshTtl: nat, maxAttempts: nat, lockMs: nat, historyLimit: nat)

  ghost predicate ValidConfig(c: Config) {
    c.maxAttempts >= 1 && c.lockMs >= 60000 && c.historyLimit >= 1
  }

  const REFRESH_ROW_MS: nat := 7 * 24 * 3600 * 1000
  const EMAIL_VERIFICATION_MS: nat := 24 * 60 * 60 * 1000
  const PASSWORD_RESET_MS: nat := 60 * 60 * 1000
  const USER_CACHE_TTL: nat := 300
  const REVOKE_BEFORE_TTL: nat := 30 * 24 * 3600
  const DEFAULT_ORG: Id := 1

  // ---- State ----

  datatype UserRole = USER | ADMIN | MODERATOR

  datatype User = User(
    email: string,
    passwordHash: Passwords.Hash,
    role: UserRole,
    isVerified: bool,
    isActive: bool,
    failedLoginAttempts: nat,
    lockedUntil: Option<nat>,
    lastLoginAt: Option<nat>,
    organizationId: Id,
    profile: map<string, string>,
    createdAt: nat)

  /** What clients see of a user, and what the user cache stores. */
  datatype UserResponse = UserResponse(
    id: Id,
    email: string,
    role: UserRole,
    isVerified: bool,
    isActive: bool,
    organizationId: Id,
    profile: map<string, string>,
    lastLoginAt: Option<nat>,
    createdAt: nat)

  function ToUserResponse(id: Id, u: User): UserResponse {
    UserResponse(id, u.email, u.role, u.isVerified, u.isActive, u.organizationId, u.profile, u.lastLoginAt, u.createdAt)
  }

  /** The claims copied from the user's row. */
  datatype Identity = Identity(email: string, role: UserRole, orgId: Id)

  function IdentityOf(u: User): Identity { Identity(u.email, u.role, u.organizationId) }

  /** A signed access token's claims; times are in seconds. */
  datatype AccessToken = AccessToken(
    userId: Id, who: Identity, jti: Id, iat: nat, exp: nat, appPermissions: map<Id, Acl.AppPermission>)

  /** A signed refresh token's claims. */
  datatype RefreshJwt = RefreshJwt(userId: Id, tokenId: Id, exp: nat)

  datatype RefreshRow = RefreshRow(userId: Id, expiresAt: nat, isRevoked: bool)

  type RefreshTable = map<Digest<RefreshJwt>, RefreshRow>

  datatype State = State(
    now: nat,
    nextId: Id,
    users: map<Id, User>,
    byEmail: map<string, Id>,                 // the unique index on email
    history: map<Id, seq<Passwords.Row>>,
    refresh: RefreshTable,
    emailTokens: OneShot.Table,
    resetTokens: OneShot.Table,
    blacklist: Cache<Id, string>,             // by jti
    revokeBefore: Cache<Id, nat>,             // by user, in seconds
    userCache: Cache<Id, UserResponse>,
    acl: Acl.Tables,
    issued: set<AccessToken>)                 // every access token ever signed: the signature check

  const Init: State :=
    State(0, 0, map[], map[], map[], map[], map[], map[], map[], map[], map[], Acl.Empty, {})

  datatype Outcome =
    | Done
    | Created(id: Id, mailed: Option<Id>)
    | Mailed(raw: Id)
    | Tokens(access: AccessToken, refresh: RefreshJwt)
    | Profile(user: UserResponse)
    | Fail(error: Error)

  datatype Reply = Reply(state: State, outcome: Outcome)

  // ---- Access-token acceptance ----

  predicate IsRevoked(s: State, jti: Id, userId: Id, iat: nat) {
    || Live(s.blacklist, jti, s.now)
    || (Live(s.revokeBefore, userId, s.now) && iat < s.revokeBefore[userId].value)
  }

  /** JWT verification: signed by us and not expired. */
  predicate Verifies(s: State, tok: AccessToken) {
    tok in s.issued && Sec(s.now) < tok.exp
  }

  predicate Accepts(s: State, tok: AccessToken) {
    Verifies(s, tok) && !IsRevoked(s, tok.jti, tok.userId, tok.iat)
  }

  // ---- Repository and cache writes ----

  function RevokeRow(t: RefreshTable, h: Digest<RefreshJwt>): RefreshTable {
    if h in t then t[h := t[h].(isRevoked := true)] else t
  }

  function RowsWithout(t: RefreshTable, userId: Id): RefreshTable {
    map h | h in t && t[h].userId != userId :: t[h]
  }

  function RevokeAllOf(t: RefreshTable, userIds: set<Id>): (t': RefreshTable)
    ensures RowsShrink(t, t')
  {
    map h | h in t :: if t[h].userId in userIds then t[h].(isRevoked := true) else t[h]
  }

  function Stamp(m: Cache<Id, nat>, userIds: set<Id>, now: nat): (m': Cache<Id, nat>)
    ensures StampsMove(m, m', now)
  {
    m + (map u | u in userIds :: Entry(Sec(now), now + REVOKE_BEFORE_TTL * MS_PER_SECOND))
  }

  /** Revoke all refresh tokens, stamp the revocation second, drop the cached user: for each given user. */
  function Kill(s: State, userIds: set<Id>): State {
    s.(refresh := RevokeAllOf(s.refresh, userIds),
       revokeBefore := Stamp(s.revokeBefore, userIds, s.now),
       userCache := s.userCache - userIds)
  }

  /** The blacklist key lives for the token's remaining whole seconds, and is not written when none remain. */
  function BlacklistAccess(s: State, jti: Id, exp: nat): State {
    if exp > Sec(s.now) then s.(blacklist := SetEx(s.blacklist, jti, "1", exp - Sec(s.now), s.now)) else s
  }

  function PutUser(s: State, id: Id, u: User): State {
    s.(users := s.users[id := u])
  }

  function Uncache(s: State, id: Id): State {
    s.(userCache := s.userCache - {id})
  }

  function FindByEmail(s: State, email: string): Option<Id> {
    if email in s.byEmail && s.byEmail[email] in s.users then Some(s.byEmail[email]) else None
  }

  // ---- What any call can do to the stored rows ----

  /** Everything named so far lies below the fresh-id counter. */
  ghost predicate UserIdsBelow(users: map<Id, User>, n: Id) { forall u :: u in users ==> u < n }

  ghost predicate JtisBelow(issued: set<AccessToken>, n: Id) { forall tok :: tok in issued ==> tok.jti < n }

  ghost predicate BlacklistBelow(blacklist: Cache<Id, string>, n: Id) { forall j :: j in blacklist ==> j < n }

  ghost predicate RowIdsBelow(t: RefreshTable, n: Id) { forall h :: h in t ==> h.preimage.tokenId < n }

  ghost predicate RawsBelow(t: OneShot.Table, n: Id) { forall h :: h in t ==> h.preimage < n }

  /** A stamp stays, or becomes the current second with a fresh thirty-day key. */
  ghost predicate StampsMove(m: Cache<Id, nat>, m': Cache<Id, nat>, now: nat) {
    && (forall u :: u in m ==> u in m')
    && (forall u :: u in m' ==>
          (u in m && m'[u] == m[u]) || m'[u] == Entry(Sec(now), now + REVOKE_BEFORE_TTL * MS_PER_SECOND))
  }

  /** A refresh row keeps its owner, never becomes unrevoked, and new rows carry ids drawn after `n`. */
  ghost predicate RowsMove(t: RefreshTable, t': RefreshTable, n: Id) {
    && (forall h :: h in t && h in t' ==> t'[h].userId == t[h].userId && (t[h].isRevoked ==> t'[h].isRevoked))
    && (forall h :: h in t' && h !in t ==> h.preimage.tokenId >= n)
  }

  /** A user keeps email and organization and never becomes unverified; new users carry ids drawn after `n`. */
  ghost predicate UsersMove(m: map<Id, User>, m': map<Id, User>, n: Id) {
    && (forall u :: u in m && u in m' ==> m'[u].email == m[u].email && (m[u].isVerified ==> m'[u].isVerified))
    && (forall u :: u in m && u in m' ==> m'[u].organizationId == m[u].organizationId)
    && (forall u :: u in m' && u !in m ==> u >= n)
  }

  /** No new refresh row, and rows only move towards revocation. */
  ghost predicate RowsShrink(t: RefreshTable, t': RefreshTable) {
    forall h :: h in t' ==> h in t && t'[h].userId == t[h].userId && (t[h].isRevoked ==> t'[h].isRevoked)
  }

  /** The attempt counters and locks of existing users are untouched. */
  ghost predicate LocksKept(m: map<Id, User>, m': map<Id, User>) {
    forall u :: u in m && u in m' ==>
      m'[u].failedLoginAttempts == m[u].failedLoginAttempts && m'[u].lockedUntil == m[u].lockedUntil
  }

  function HistoryOf(s: State, id: Id): seq<Passwords.Row> {
    if id in s.history then s.history[id] else []
  }

  /** A history within the limit is only ever extended, for as long as its user exists. */
  ghost predicate HistoryExtends(c: Config, s: State, s': State) {
    forall u :: u in s'.users && |HistoryOf(s, u)| <= c.historyLimit ==> HistoryOf(s, u) <= HistoryOf(s', u)
  }

  /** No login time changes, and a new user has none. */
  ghost predicate LoginTimesKept(m: map<Id, User>, m': map<Id, User>) {
    forall u :: u in m' ==> m'[u].lastLoginAt == if u in m then m[u].lastLoginAt else None
  }

  ghost predicate RolesKept(m: map<Id, User>, m': map<Id, User>) {
    forall u :: u in m && u in m' ==> m'[u].role == m[u].role
  }

  /** Attempt counters, locks, login times and roles of existing users are untouched. */
  ghost predicate SameAccounts(m: map<Id, User>, m': map<Id, User>) {
    LocksKept(m, m') && LoginTimesKept(m, m') && RolesKept(m, m')
  }

  /** Revocation keys and RBAC tables are untouched. */
  ghost predicate SameGates(s: State, s': State) {
    s'.revokeBefore == s.revokeBefore && s'.blacklist == s.blacklist && s'.acl == s.acl
  }

  /** No token is issued, and refresh rows only move towards revocation. */
  ghost predicate NoNewTokens(s: State, s': State) {
    s'.issued == s.issued && RowsShrink(s.refresh, s'.refresh)
  }

  /** No profile is cached that was not before. */
  ghost predicate CopiesKept(m: Cache<Id, UserResponse>, m': Cache<Id, UserResponse>) {
    forall id :: id in m' ==> id in m && m'[id] == m[id]
  }

  ghost predicate NothingNew(s: State, s': State) { NoNewTokens(s, s') && CopiesKept(s.userCache, s'.userCache) }

  ghost predicate Moves(s: State, s': State) {
    && s.nextId <= s'.nextId && s.now <= s'.now
    && StampsMove(s.revokeBefore, s'.revokeBefore, s.now)
    && (RowIdsBelow(s.refresh, s.nextId) ==> RowsMove(s.refresh, s'.refresh, s.nextId))
    && (UserIdsBelow(s.users, s.nextId) ==> UsersMove(s.users, s'.users, s.nextId))
    && (RawsBelow(s.emailTokens, s.nextId) ==> OneShot.Ages(s.emailTokens, s'.emailTokens, s.nextId))
    && (RawsBelow(s.resetTokens, s.nextId) ==> OneShot.Ages(s.resetTokens, s'.resetTokens, s.nextId))
  }

  // ---- Registration ----

  function NewUser(email: string, hash: Passwords.Hash, org: Id, verified: bool, profile: map<string, string>,
      now: nat): User
  {
    User(email, hash, USER, verified, verified, 0, None, None, org, profile, now)
  }

  function AddUser(s: State, u: User): State {
    s.(users := s.users[s.nextId := u], byEmail := s.byEmail[u.email := s.nextId], nextId := s.nextId + 1)
  }

  function RecordPassword(c: Config, s: State, id: Id, hash: Passwords.Hash): State {
    s.(history := s.history[id := Passwords.AddHistory(HistoryOf(s, id), hash, s.now, c.historyLimit)])
  }

  function MailVerification(s: State, id: Id): State {
    s.(emailTokens := OneShot.Create(s.emailTokens, id, s.nextId, s.now + EMAIL_VERIFICATION_MS),
       nextId := s.nextId + 1)
  }

  function MailReset(s: State, id: Id): State {
    s.(resetTokens := OneShot.Create(s.resetTokens, id, s.nextId, s.now + PASSWORD_RESET_MS), nextId := s.nextId + 1)
  }

  /** The new row and the first entry of its password history. */
  function Enlist(c: Config, s: State, u: User): (s': State)
    requires u.lastLoginAt.None?
    ensures Moves(s, s') && s'.now == s.now
    ensures HistoryExtends(c, s, s')
    ensures NothingNew(s, s')
    ensures SameGates(s, s')
    ensures UserIdsBelow(s.users, s.nextId) ==> SameAccounts(s.users, s'.users)
    ensures s.users.Keys <= s'.users.Keys
  {
    RecordPassword(c, AddUser(s, u), s.nextId, u.passwordHash)
  }

  function Register(c: Config, s: State, email: string, password: string): (r: Reply)
    ensures Moves(s, r.state) && r.state.now == s.now
    ensures HistoryExtends(c, s, r.state)
    ensures NothingNew(s, r.state)
    ensures SameGates(s, r.state)
    ensures UserIdsBelow(s.users, s.nextId) ==> SameAccounts(s.users, r.state.users)
    ensures s.users.Keys <= r.state.users.Keys
  {
    if FindByEmail(s, email).Some? then Reply(s, Fail(Conflict))
    else if !Passwords.Strong(password) then Reply(s, Fail(Validation))
    else
      var id := s.nextId;
      var u := NewUser(email, Passwords.Bcrypt(password, id), DEFAULT_ORG, false, map[], s.now);
      Reply(MailVerification(Enlist(c, s, u), id), Created(id, Some(id + 1)))
  }

  /** How an organization lets its users in, and how one of them is registered. */
  datatype AuthMode = FULL | DELEGATED | BOTH

  datatype RegisterMode = FullMode | DelegatedMode

  /** The organization and what its backend submits about a new user. */
  datatype OrgUser = OrgUser(
    org: Id, authMode: AuthMode, email: string, password: Option<string>, mode: Option<RegisterMode>,
    names: map<string, string>)

  function EffectiveMode(r: OrgUser): RegisterMode {
    GetOr(r.mode, if r.authMode.DELEGATED? then DelegatedMode else FullMode)
  }

  predicate ModeAllowed(r: OrgUser) {
    !(r.authMode.FULL? && EffectiveMode(r).DelegatedMode?) && !(r.authMode.DELEGATED? && EffectiveMode(r).FullMode?)
  }

  predicate PasswordOk(r: OrgUser) {
    EffectiveMode(r).FullMode? ==> r.password.Some? && Passwords.Strong(r.password.value)
  }

  function OrgHash(s: State, r: OrgUser): Passwords.Hash
    requires PasswordOk(r)
  {
    if EffectiveMode(r).FullMode? then Passwords.Bcrypt(r.password.value, s.nextId) else Passwords.Unusable(s.nextId)
  }

  /** Users registered by an organization are verified and active at once, and get no history row. */
  function OrgRegister(s: State, u: OrgUser): (r: Reply)
    ensures Moves(s, r.state) && r.state.now == s.now
    ensures r.state.history == s.history
    ensures NothingNew(s, r.state)
    ensures SameGates(s, r.state)
    ensures UserIdsBelow(s.users, s.nextId) ==> SameAccounts(s.users, r.state.users)
    ensures s.users.Keys <= r.state.users.Keys
  {
    var found := FindByEmail(s, u.email);
    if !ModeAllowed(u) then Reply(s, Fail(Validation))
    else if found.Some? && s.users[found.value].organizationId == u.org then Reply(s, Fail(Conflict))
    else if !PasswordOk(u) then Reply(s, Fail(Validation))
    else if found.Some? then Reply(s, Fail(DatabaseError))
    else Reply(AddUser(s, NewUser(u.email, OrgHash(s, u), u.org, true, u.names, s.now)), Created(s.nextId, None))
  }

  // ---- Login, refresh, logout ----

  function SignAccess(s: State, tok: AccessToken): State {
    s.(issued := s.issued + {tok}, nextId := s.nextId + 1)
  }

  function StoreRefresh(s: State, jwt: RefreshJwt): State {
    s.(refresh := s.refresh[Sha256(jwt) := RefreshRow(jwt.userId, s.now + REFRESH_ROW_MS, false)],
       nextId := s.nextId + 1)
  }

  /** Sign an access token with this permission snapshot, and store a new refresh token. */
  function IssueWith(c: Config, s: State, id: Id, who: Identity, perms: map<Id, Acl.AppPermission>): Reply
  {
    var tok := AccessToken(id, who, s.nextId, Sec(s.now), Sec(s.now) + c.accessTtl, perms);
    var jwt := RefreshJwt(id, s.nextId + 1, Sec(s.now) + c.refreshTtl);
    Reply(StoreRefresh(SignAccess(s, tok), jwt), Tokens(tok, jwt))
  }

  /** The snapshot is what the user resolves to now. */
  function IssueTokens(c: Config, s: State, id: Id, who: Identity): Reply
  {
    IssueWith(c, s, id, who, Acl.Resolve(s.acl, id))
  }

  lemma IssueShape(c: Config, s: State, id: Id, who: Identity, perms: map<Id, Acl.AppPermission>)
    returns (tok: AccessToken, jwt: RefreshJwt)
    ensures tok == AccessToken(id, who, s.nextId, Sec(s.now), Sec(s.now) + c.accessTtl, perms)
    ensures jwt == RefreshJwt(id, s.nextId + 1, Sec(s.now) + c.refreshTtl)
    ensures IssueWith(c, s, id, who, perms) == Reply(StoreRefresh(SignAccess(s, tok), jwt), Tokens(tok, jwt))
  {
    tok := AccessToken(id, who, s.nextId, Sec(s.now), Sec(s.now) + c.accessTtl, perms);
    jwt := RefreshJwt(id, s.nextId + 1, Sec(s.now) + c.refreshTtl);
  }

  predicate Locked(u: User, now: nat) {
    u.lockedUntil.Some? && u.lockedUntil.value > now
  }

  /** A wrong password counts one attempt; the last one allowed locks the account and resets the count. */
  function CountFailure(c: Config, u: User, now: nat): User {
    if u.failedLoginAttempts + 1 >= c.maxAttempts
    then u.(failedLoginAttempts := 0, lockedUntil := Some(now + c.lockMs))
    else u.(failedLoginAttempts := u.failedLoginAttempts + 1)
  }

  function LoginReset(u: User, now: nat): User {
    u.(failedLoginAttempts := 0, lockedUntil := None, lastLoginAt := Some(now))
  }

  function Login(c: Config, s: State, email: string, password: string): Reply
  {
    var found := FindByEmail(s, email);
    if found.None? then Reply(s, Fail(AuthenticationError))
    else
      var id := found.value;
      var u := s.users[id];
      if u.isVerified && !u.isActive then Reply(s, Fail(AuthenticationError))
      else if Locked(u, s.now) then Reply(s, Fail(AccountLocked(u.lockedUntil.value)))
      else if !Passwords.Compare(password, u.passwordHash) then
        Reply(PutUser(s, id, CountFailure(c, u, s.now)),
              Fail(if u.failedLoginAttempts + 1 >= c.maxAttempts then AccountLocked(s.now + c.lockMs)
                   else AuthenticationError))
      else if !u.isVerified then Reply(s, Fail(AuthorizationError))
      else IssueTokens(c, PutUser(s, id, LoginReset(u, s.now)), id, IdentityOf(u))
  }

  /** The login failed and counted one more attempt. */
  ghost predicate LoginCounted(c: Config, s: State, id: Id, r: Reply) {
    id in s.users && r.outcome.Fail? && r.state == PutUser(s, id, CountFailure(c, s.users[id], s.now))
  }

  /** The login cleared the counter of a verified and active user and issued tokens. */
  ghost predicate LoginIssued(c: Config, s: State, id: Id, r: Reply) {
    && id in s.users && s.users[id].isVerified && s.users[id].isActive
    && r == IssueTokens(c, PutUser(s, id, LoginReset(s.users[id], s.now)), id, IdentityOf(s.users[id]))
  }

  /** A login is rejected without effect, counts a failure, or issues tokens to a verified and active user. */
  lemma LoginCases(c: Config, s: State, email: string, password: string, r: Reply)
    requires r == Login(c, s, email, password)
    ensures
      || (r.outcome.Fail? && r.state == s)
      || (FindByEmail(s, email).Some? && LoginCounted(c, s, FindByEmail(s, email).value, r))
      || (FindByEmail(s, email).Some? && LoginIssued(c, s, FindByEmail(s, email).value, r))
  {
  }

  /** What issuing tokens to this user does to each field but the tokens themselves. */
  ghost predicate TokensAdded(c: Config, s: State, id: Id, s': State) {
    && s'.now == s.now && s'.nextId == s.nextId + 2 && SameGates(s, s')
    && s'.users == s.users && s'.byEmail == s.byEmail && s'.history == s.history && s'.userCache == s.userCache
    && s'.emailTokens == s.emailTokens && s'.resetTokens == s.resetTokens
    && s'.refresh == s.refresh[Sha256(RefreshJwt(id, s.nextId + 1, Sec(s.now) + c.refreshTtl)) :=
         RefreshRow(id, s.now + REFRESH_ROW_MS, false)]
  }

  lemma IssueAdds(c: Config, s: State, id: Id, who: Identity, s': State)
    requires s' == IssueTokens(c, s, id, who).state
    ensures TokensAdded(c, s, id, s') && s.issued <= s'.issued
  {
    var tok, jwt := IssueShape(c, s, id, who, Acl.Resolve(s.acl, id));
  }

  /** After an edit that keeps what every edit keeps, or the revocation of some rows. */
  lemma AddedMoves(c: Config, s: State, s1: State, id: Id, s': State)
    requires TokensAdded(c, s1, id, s') && s1.now == s.now && s1.nextId == s.nextId && SameGates(s, s1)
    requires s1.emailTokens == s.emailTokens && s1.resetTokens == s.resetTokens
    requires UsersMove(s.users, s1.users, s.nextId) && RowsMove(s.refresh, s1.refresh, s.nextId)
    ensures Moves(s, s')
  {
  }

  lemma StillMoves(s: State)
    ensures Moves(s, s) && SameGates(s, s) && SameAccounts(s.users, s.users)
  {
  }

  lemma CountedMoves(c: Config, s: State, id: Id, r: Reply)
    requires LoginCounted(c, s, id, r)
    ensures Moves(s, r.state) && r.state.now == s.now && r.state.history == s.history && r.state.issued == s.issued
    ensures SameGates(s, r.state) && RolesKept(s.users, r.state.users) && s.users.Keys <= r.state.users.Keys
  {
  }

  lemma LoginIssuedMoves(c: Config, s: State, id: Id, r: Reply)
    requires LoginIssued(c, s, id, r)
    ensures Moves(s, r.state) && r.state.now == s.now && r.state.history == s.history && s.issued <= r.state.issued
    ensures SameGates(s, r.state) && RolesKept(s.users, r.state.users) && s.users.Keys <= r.state.users.Keys
  {
    var s1 := PutUser(s, id, LoginReset(s.users[id], s.now));
    IssueAdds(c, s1, id, IdentityOf(s.users[id]), r.state);
    AddedMoves(c, s, s1, id, r.state);
  }

  lemma LoginResultMoves(c: Config, s: State, id: Id, r: Reply)
    requires (r.outcome.Fail? && r.state == s) || LoginCounted(c, s, id, r) || LoginIssued(c, s, id, r)
    ensures Moves(s, r.state) && r.state.now == s.now && r.state.history == s.history && s.issued <= r.state.issued
    ensures SameGates(s, r.state) && RolesKept(s.users, r.state.users) && s.users.Keys <= r.state.users.Keys
  {
    if LoginCounted(c, s, id, r) {
      CountedMoves(c, s, id, r);
    } else if LoginIssued(c, s, id, r) {
      LoginIssuedMoves(c, s, id, r);
    } else {
      StillMoves(s);
    }
  }

  lemma LoginMoves(c: Config, s: State, email: string, password: string, r: Reply)
    requires r == Login(c, s, email, password)
    ensures Moves(s, r.state) && r.state.now == s.now && r.state.history == s.history && s.issued <= r.state.issued
    ensures SameGates(s, r.state) && RolesKept(s.users, r.state.users) && s.users.Keys <= r.state.users.Keys
  {
    LoginCases(c, s, email, password, r);
    LoginResultMoves(c, s, GetOr(FindByEmail(s, email), 0), r);
  }

  predicate RefreshUsable(s: State, jwt: RefreshJwt) {
    && Sec(s.now) < jwt.exp
    && Sha256(jwt) in s.refresh
    && !s.refresh[Sha256(jwt)].isRevoked
    && s.now <= s.refresh[Sha256(jwt)].expiresAt
  }

  /** The presented token's row is revoked. */
  function Spent(s: State, jwt: RefreshJwt): State { s.(refresh := RevokeRow(s.refresh, Sha256(jwt))) }

  /** The presented token is revoked first, and stays revoked when its user turns out to be inactive. */
  function RefreshTokens(c: Config, s: State, jwt: RefreshJwt): Reply
  {
    if !RefreshUsable(s, jwt) then Reply(s, Fail(AuthenticationError))
    else
      var spent := Spent(s, jwt);
      if jwt.userId !in s.users || !s.users[jwt.userId].isActive then Reply(spent, Fail(AuthenticationError))
      else IssueTokens(c, spent, jwt.userId, IdentityOf(s.users[jwt.userId]))
  }

  /** A refresh is rejected without effect, or revokes the presented token, and then issues new ones or does not. */
  lemma RefreshOutcomes(c: Config, s: State, jwt: RefreshJwt, r: Reply)
    requires r == RefreshTokens(c, s, jwt)
    ensures
      || (r.outcome.Fail? && r.state == s && !RefreshUsable(s, jwt))
      || (r.outcome.Fail? && r.state == Spent(s, jwt) && RefreshUsable(s, jwt))
      || RefreshIssued(c, s, jwt, r)
  {
  }

  ghost predicate RefreshIssued(c: Config, s: State, jwt: RefreshJwt, r: Reply) {
    && RefreshUsable(s, jwt) && jwt.userId in s.users && s.users[jwt.userId].isActive
    && r == IssueTokens(c, Spent(s, jwt), jwt.userId, IdentityOf(s.users[jwt.userId]))
  }

  lemma RefreshIssuedMoves(c: Config, s: State, jwt: RefreshJwt, r: Reply)
    requires RefreshIssued(c, s, jwt, r)
    ensures Moves(s, r.state) && r.state.now == s.now && r.state.history == s.history && s.issued <= r.state.issued
    ensures SameGates(s, r.state) && r.state.users == s.users
  {
    IssueAdds(c, Spent(s, jwt), jwt.userId, IdentityOf(s.users[jwt.userId]), r.state);
    AddedMoves(c, s, Spent(s, jwt), jwt.userId, r.state);
  }

  lemma SpentMoves(s: State, jwt: RefreshJwt, s': State)
    requires s' == Spent(s, jwt)
    ensures Moves(s, s') && s'.now == s.now && s'.history == s.history && s'.issued == s.issued
    ensures SameGates(s, s') && s'.users == s.users
  {
  }

  lemma RefreshMoves(c: Config, s: State, jwt: RefreshJwt, r: Reply)
    requires r == RefreshTokens(c, s, jwt)
    ensures Moves(s, r.state) && r.state.now == s.now && r.state.history == s.history && s.issued <= r.state.issued
    ensures SameGates(s, r.state) && r.state.users == s.users
  {
    RefreshOutcomes(c, s, jwt, r);
    if r.state == s {
      StillMoves(s);
    } else if r.outcome.Fail? {
      SpentMoves(s, jwt, r.state);
    } else {
      RefreshIssuedMoves(c, s, jwt, r);
    }
  }

  function Logout(s: State, tok: AccessToken, jwt: RefreshJwt): (r: Reply)
    ensures Moves(s, r.state) && r.state.now == s.now
    ensures r.state.history == s.history
    ensures NothingNew(s, r.state)
    ensures r.state.revokeBefore == s.revokeBefore
    ensures r.state.acl == s.acl
    ensures SameAccounts(s.users, r.state.users)
    ensures s.users.Keys <= r.state.users.Keys
  {
    if !Accepts(s, tok) then Reply(s, Fail(AuthenticationError))
    else
      var s1 := BlacklistAccess(s, tok.jti, tok.exp);
      Reply(s1.(refresh := RevokeRow(s1.refresh, Sha256(jwt))), Done)
  }

  function LogoutAll(s: State, tok: AccessToken): (r: Reply)
    ensures Moves(s, r.state) && r.state.now == s.now
    ensures r.state.history == s.history
    ensures NothingNew(s, r.state)
    ensures r.state.acl == s.acl
    ensures SameAccounts(s.users, r.state.users)
    ensures s.users.Keys <= r.state.users.Keys
  {
    if !Accepts(s, tok) then Reply(s, Fail(AuthenticationError))
    else Reply(BlacklistAccess(Kill(s, {tok.userId}), tok.jti, tok.exp), Done)
  }

  // ---- Edits of a user row ----

  /** Every edit keeps email and organization and never unverifies. */
  ghost predicate EditOk(s: State, id: Id, u: User) {
    && id in s.users && u.email == s.users[id].email && u.organizationId == s.users[id].organizationId
    && (s.users[id].isVerified ==> u.isVerified)
  }

  ghost predicate LockKept(u: User, u': User) {
    u'.failedLoginAttempts == u.failedLoginAttempts && u'.lockedUntil == u.lockedUntil
  }

  /** An edit that also leaves the attempt counter, the lock and the login time alone. */
  ghost predicate PlainEdit(s: State, id: Id, u: User) {
    EditOk(s, id, u) && LockKept(s.users[id], u) && u.lastLoginAt == s.users[id].lastLoginAt
  }

  /** Store the row and drop the cached copy, or end all the user's sessions, which drops it too. */
  function StoreEdit(s: State, id: Id, u: User, endSessions: bool): (r: Reply)
    requires PlainEdit(s, id, u)
    ensures r.state.emailTokens == s.emailTokens
    ensures Moves(s, r.state) && r.state.now == s.now
    ensures r.state.history == s.history
    ensures NothingNew(s, r.state)
    ensures r.state.blacklist == s.blacklist
    ensures !endSessions ==> r.state.revokeBefore == s.revokeBefore
    ensures r.state.acl == s.acl
    ensures LocksKept(s.users, r.state.users)
    ensures LoginTimesKept(s.users, r.state.users)
    ensures u.role == s.users[id].role ==> RolesKept(s.users, r.state.users)
    ensures s.users.Keys <= r.state.users.Keys
  {
    if endSessions then Reply(Kill(PutUser(s, id, u), {id}), Profile(ToUserResponse(id, u)))
    else Reply(Uncache(PutUser(s, id, u), id), Profile(ToUserResponse(id, u)))
  }

  // ---- Email verification and password change ----

  function MarkVerified(u: User): (r: User)
    ensures r == u.(isVerified := true, isActive := true)
  {
    u.(isVerified := true, isActive := true)
  }

  function Confirm(s: State, id: Id): (r: Reply)
    requires id in s.users
    ensures r.state.emailTokens == s.emailTokens
    ensures Moves(s, r.state) && r.state.now == s.now
    ensures r.state.history == s.history
    ensures NothingNew(s, r.state)
    ensures SameGates(s, r.state)
    ensures SameAccounts(s.users, r.state.users)
    ensures s.users.Keys <= r.state.users.Keys
  {
    if s.users[id].isVerified then Reply(s, Done)
    else Reply(StoreEdit(s, id, MarkVerified(s.users[id]), false).state, Done)
  }

  function VerifyEmail(s: State, raw: Id): (r: Reply)
    ensures OneShot.Check(s.emailTokens, raw, s.now).Ok? ==> r.state.emailTokens == OneShot.Spend(s.emailTokens, raw)
    ensures Moves(s, r.state) && r.state.now == s.now
    ensures r.state.history == s.history
    ensures NothingNew(s, r.state)
    ensures SameGates(s, r.state)
    ensures SameAccounts(s.users, r.state.users)
    ensures s.users.Keys <= r.state.users.Keys
  {
    var checked := OneShot.Check(s.emailTokens, raw, s.now);
    if checked.Err? then Reply(s, Fail(checked.error))
    else
      var s1 := s.(emailTokens := OneShot.Spend(s.emailTokens, raw));
      if checked.value !in s.users then Reply(s1, Fail(NotFound)) else Confirm(s1, checked.value)
  }

  function ResendVerification(s: State, email: string): (r: Reply)
    ensures Moves(s, r.state) && r.state.now == s.now
    ensures r.state.history == s.history
    ensures NothingNew(s, r.state)
    ensures SameGates(s, r.state)
    ensures SameAccounts(s.users, r.state.users)
    ensures s.users.Keys <= r.state.users.Keys
  {
    var found := FindByEmail(s, email);
    if found.None? || s.users[found.value].isVerified then Reply(s, Done)
    else Reply(MailVerification(s, found.value), Mailed(s.nextId))
  }

  function ForgotPassword(s: State, email: string): (r: Reply)
    ensures Moves(s, r.state) && r.state.now == s.now
    ensures r.state.history == s.history
    ensures NothingNew(s, r.state)
    ensures SameGates(s, r.state)
    ensures SameAccounts(s.users, r.state.users)
    ensures s.users.Keys <= r.state.users.Keys
  {
    var found := FindByEmail(s, email);
    if found.None? || !s.users[found.value].isActive then Reply(s, Done)
    else Reply(MailReset(s, found.value), Mailed(s.nextId))
  }

  function ReplaceHash(s: State, id: Id, password: string): State
    requires id in s.users
  {
    PutUser(s, id, s.users[id].(passwordHash := Passwords.Bcrypt(password, s.nextId))).(nextId := s.nextId + 1)
  }

  function StoreHash(c: Config, s: State, id: Id, password: string): (s': State)
    requires id in s.users
    ensures Moves(s, s') && HistoryExtends(c, s, s')
    ensures LocksKept(s.users, s'.users) && s'.users.Keys == s.users.Keys
    ensures LoginTimesKept(s.users, s'.users) && s'.users.Keys == s.users.Keys
    ensures RolesKept(s.users, s'.users) && s'.users.Keys == s.users.Keys
  {
    RecordPassword(c, ReplaceHash(s, id, password), id, Passwords.Bcrypt(password, s.nextId))
  }

  function StorePassword(c: Config, s: State, id: Id, password: string): (s': State)
    requires id in s.users
    ensures s'.resetTokens == s.resetTokens
    ensures Moves(s, s') && s'.now == s.now
    ensures HistoryExtends(c, s, s')
    ensures s'.issued == s.issued
    ensures s'.blacklist == s.blacklist
    ensures s'.acl == s.acl
    ensures RowsShrink(s.refresh, s'.refresh)
    ensures LocksKept(s.users, s'.users)
    ensures LoginTimesKept(s.users, s'.users)
    ensures RolesKept(s.users, s'.users)
    ensures s.users.Keys <= s'.users.Keys
  {
    Kill(StoreHash(c, s, id, password), {id})
  }

  /** Store the new hash, extend the history, end every session of the user. */
  function SetPassword(c: Config, s: State, id: Id, password: string): (r: Reply)
    requires id in s.users
    ensures r.state.resetTokens == s.resetTokens
    ensures Moves(s, r.state) && r.state.now == s.now
    ensures HistoryExtends(c, s, r.state)
    ensures NothingNew(s, r.state)
    ensures r.state.blacklist == s.blacklist
    ensures r.state.acl == s.acl
    ensures SameAccounts(s.users, r.state.users)
    ensures s.users.Keys <= r.state.users.Keys
  {
    if Passwords.Reused(HistoryOf(s, id), password, c.historyLimit) then Reply(s, Fail(Validation))
    else Reply(StorePassword(c, s, id, password), Done)
  }

  /** The reset token is spent even when the new password is then refused for reuse. */
  function ResetPassword(c: Config, s: State, raw: Id, password: string): (r: Reply)
    ensures Passwords.Strong(password) && OneShot.Check(s.resetTokens, raw, s.now).Ok? ==>
      r.state.resetTokens == OneShot.Spend(s.resetTokens, raw)
    ensures Moves(s, r.state) && r.state.now == s.now
    ensures HistoryExtends(c, s, r.state)
    ensures NothingNew(s, r.state)
    ensures r.state.blacklist == s.blacklist
    ensures r.state.acl == s.acl
    ensures SameAccounts(s.users, r.state.users)
    ensures s.users.Keys <= r.state.users.Keys
  {
    if !Passwords.Strong(password) then Reply(s, Fail(Validation))
    else
      var checked := OneShot.Check(s.resetTokens, raw, s.now);
      if checked.Err? then Reply(s, Fail(checked.error))
      else
        var s1 := s.(resetTokens := OneShot.Spend(s.resetTokens, raw));
        if checked.value !in s.users then Reply(s1, Fail(NotFound))
        else SetPassword(c, s1, checked.value, password)
  }

  function ChangePassword(c: Config, s: State, id: Id, current: string, password: string): (r: Reply)
    ensures Moves(s, r.state) && r.state.now == s.now
    ensures HistoryExtends(c, s, r.state)
    ensures NothingNew(s, r.state)
    ensures r.state.blacklist == s.blacklist
    ensures r.state.acl == s.acl
    ensures SameAccounts(s.users, r.state.users)
    ensures s.users.Keys <= r.state.users.Keys
  {
    if id !in s.users then Reply(s, Fail(NotFound))
    else if !Passwords.Compare(current, s.users[id].passwordHash) then Reply(s, Fail(AuthenticationError))
    else if !Passwords.Strong(password) then Reply(s, Fail(Validation))
    else SetPassword(c, s, id, password)
  }

  // ---- Profiles and administration ----

  /** nid and identifierNumber are unique; the repository reports any violation as a database error. */
  predicate UniqueClash(s: State, id: Id, data: map<string, string>) {
    exists other, field ::
      other in s.users && field in data && (field == "nid" || field == "identifierNumber") &&
      other != id && field in s.users[other].profile && s.users[other].profile[field] == data[field]
  }

  function MergeProfile(u: User, data: map<string, string>): (r: User)
    ensures r == u.(profile := r.profile)
  {
    u.(profile := u.profile + data)
  }

  function UpdateMe(s: State, id: Id, data: map<string, string>): (r: Reply)
    ensures r.outcome != Fail(Conflict)
    ensures Moves(s, r.state) && r.state.now == s.now
    ensures r.state.history == s.history
    ensures NothingNew(s, r.state)
    ensures SameGates(s, r.state)
    ensures SameAccounts(s.users, r.state.users)
    ensures s.users.Keys <= r.state.users.Keys
  {
    if id !in s.users then Reply(s, Fail(NotFound))
    else if UniqueClash(s, id, data) then Reply(s, Fail(DatabaseError))
    else StoreEdit(s, id, MergeProfile(s.users[id], data), false)
  }

  function CacheUser(s: State, id: Id, r: UserResponse): (s': State)
    ensures Moves(s, s')
    ensures s'.history == s.history
  {
    s.(userCache := SetEx(s.userCache, id, r, USER_CACHE_TTL, s.now))
  }

  /** Read-through: a cached copy is returned as it is. */
  function GetMe(s: State, id: Id): (r: Reply)
    ensures Moves(s, r.state) && r.state.now == s.now
    ensures r.state.history == s.history
    ensures NoNewTokens(s, r.state)
    ensures SameGates(s, r.state)
    ensures SameAccounts(s.users, r.state.users)
    ensures s.users.Keys <= r.state.users.Keys
  {
    var cached := Get(s.userCache, id, s.now);
    if cached.Some? then Reply(s, Profile(cached.value))
    else if id !in s.users then Reply(s, Fail(NotFound))
    else
      var r := ToUserResponse(id, s.users[id]);
      Reply(CacheUser(s, id, r), Profile(r))
  }

  function SuspendUser(s: State, id: Id, adminId: Id): (r: Reply)
    ensures Moves(s, r.state) && r.state.now == s.now
    ensures r.state.history == s.history
    ensures NothingNew(s, r.state)
    ensures r.state.blacklist == s.blacklist
    ensures r.state.acl == s.acl
    ensures SameAccounts(s.users, r.state.users)
    ensures s.users.Keys <= r.state.users.Keys
  {
    if id !in s.users then Reply(s, Fail(NotFound))
    else if id == adminId then Reply(s, Fail(Validation))
    else StoreEdit(s, id, s.users[id].(isActive := false), true)
  }

  function ActivateUser(s: State, id: Id): (r: Reply)
    ensures Moves(s, r.state) && r.state.now == s.now
    ensures r.state.history == s.history
    ensures NothingNew(s, r.state)
    ensures SameGates(s, r.state)
    ensures SameAccounts(s.users, r.state.users)
    ensures s.users.Keys <= r.state.users.Keys
  {
    if id !in s.users then Reply(s, Fail(NotFound))
    else StoreEdit(s, id, s.users[id].(isActive := true), false)
  }

  function ForcedActive(u: User): User {
    u.(isActive := true, isVerified := true, failedLoginAttempts := 0, lockedUntil := None)
  }

  ghost predicate ForcedEdit(s: State, id: Id, u: User) {
    id in s.users && u == ForcedActive(s.users[id])
  }

  function StoreForced(s: State, id: Id, u: User): (r: Reply)
    requires ForcedEdit(s, id, u)
    ensures Moves(s, r.state) && r.state.now == s.now
    ensures r.state.history == s.history
    ensures NothingNew(s, r.state)
    ensures SameGates(s, r.state)
    ensures LoginTimesKept(s.users, r.state.users)
    ensures RolesKept(s.users, r.state.users)
    ensures s.users.Keys <= r.state.users.Keys
  {
    Reply(Uncache(PutUser(s, id, u), id).(emailTokens := OneShot.InvalidateAll(s.emailTokens, id)),
          Profile(ToUserResponse(id, u)))
  }

  function ForceActivate(s: State, id: Id, adminId: Id, adminPassword: string): (r: Reply)
    ensures Moves(s, r.state) && r.state.now == s.now
    ensures r.state.history == s.history
    ensures NothingNew(s, r.state)
    ensures SameGates(s, r.state)
    ensures LoginTimesKept(s.users, r.state.users)
    ensures RolesKept(s.users, r.state.users)
    ensures s.users.Keys <= r.state.users.Keys
  {
    if id !in s.users then Reply(s, Fail(NotFound))
    else if s.users[id].isVerified then Reply(s, Fail(Validation))
    else if adminId !in s.users then Reply(s, Fail(NotFound))
    else if !Passwords.Compare(adminPassword, s.users[adminId].passwordHash) then Reply(s, Fail(AuthenticationError))
    else StoreForced(s, id, ForcedActive(s.users[id]))
  }

  predicate Deactivates(isActive: Option<bool>) {
    isActive.Some? && !isActive.value
  }

  function AdminEdit(u: User, role: Option<UserRole>, isActive: Option<bool>, data: map<string, string>): (r: User)
    ensures r == u.(role := r.role, isActive := r.isActive, profile := r.profile)
  {
    u.(role := GetOr(role, u.role), isActive := GetOr(isActive, u.isActive), profile := u.profile + data)
  }

  /** The administrator's edit; only an explicit deactivation ends the user's sessions. */
  function UpdateUser(s: State, id: Id, adminId: Id, role: Option<UserRole>, isActive: Option<bool>,
      data: map<string, string>): (r: Reply)
    ensures Moves(s, r.state) && r.state.now == s.now
    ensures r.state.history == s.history
    ensures NothingNew(s, r.state)
    ensures r.state.blacklist == s.blacklist
    ensures r.state.acl == s.acl
    ensures LocksKept(s.users, r.state.users)
    ensures LoginTimesKept(s.users, r.state.users)
    ensures s.users.Keys <= r.state.users.Keys
  {
    if id !in s.users then Reply(s, Fail(NotFound))
    else if id == adminId && Deactivates(isActive) then Reply(s, Fail(Validation))
    else if UniqueClash(s, id, data) then Reply(s, Fail(DatabaseError))
    else StoreEdit(s, id, AdminEdit(s.users[id], role, isActive, data), Deactivates(isActive))
  }

  /** The rows of other tables that refer to the user are gone. */
  function Cascaded(s: State, id: Id): State {
    s.(history := s.history - {id},
      refresh := RowsWithout(s.refresh, id),
      emailTokens := OneShot.ForgetUser(s.emailTokens, id),
      resetTokens := OneShot.ForgetUser(s.resetTokens, id),
      acl := Acl.ForgetUser(s.acl, id))
  }

  /** Deletion cascades to every table that refers to the user. */
  function Erase(s: State, id: Id): (s': State)
    requires id in s.users
    ensures Moves(s, s') && s'.now == s.now
    ensures NothingNew(s, s')
  {
    Cascaded(s, id).(
      users := s.users - {id},
      byEmail := s.byEmail - {s.users[id].email},
      userCache := s.userCache - {id})
  }

  /** No access token of a deleted user is revoked. */
  function DeleteUser(s: State, id: Id, adminId: Id): (r: Reply)
    ensures Moves(s, r.state) && r.state.now == s.now
    ensures forall u :: u in r.state.users ==> HistoryOf(r.state, u) == HistoryOf(s, u)
    ensures NothingNew(s, r.state)
    ensures r.state.revokeBefore == s.revokeBefore
    ensures r.state.blacklist == s.blacklist
    ensures SameAccounts(s.users, r.state.users)
  {
    if id !in s.users then Reply(s, Fail(NotFound))
    else if id == adminId then Reply(s, Fail(Validation))
    else Reply(Erase(s, id), Done)
  }

  /** An RBAC call: change the tables, then end the sessions of the users it invalidates. */
  function AdministerAcl(s: State, op: Acl.Op): (r: Reply)
    ensures Moves(s, r.state) && r.state.now == s.now
    ensures r.state.history == s.history
    ensures NothingNew(s, r.state)
    ensures r.state.blacklist == s.blacklist
    ensures SameAccounts(s.users, r.state.users)
    ensures s.users.Keys <= r.state.users.Keys
  {
    var r := Acl.Step(s.acl, s.users.Keys, op);
    var s1 := Kill(s.(acl := r.tables), r.killed);
    Reply(s1, if r.result.Err? then Fail(r.result.error) else Done)
  }

  // ---- Runs ----

  datatype Op =
    | Tick(elapsed: nat)
    | DoRegister(email: string, password: string)
    | DoOrgRegister(user: OrgUser)
    | DoLogin(email: string, password: string)
    | DoRefresh(jwt: RefreshJwt)
    | DoLogout(tok: AccessToken, jwt: RefreshJwt)
    | DoLogoutAll(tok: AccessToken)
    | DoVerifyEmail(raw: Id)
    | DoResend(email: string)
    | DoForgot(email: string)
    | DoReset(raw: Id, password: string)
    | DoChangePassword(userId: Id, current: string, password: string)
    | DoUpdateMe(userId: Id, data: map<string, string>)
    | DoGetMe(userId: Id)
    | DoSuspend(userId: Id, adminId: Id)
    | DoActivate(userId: Id)
    | DoForceActivate(userId: Id, adminId: Id, password: string)
    | DoUpdateUser(userId: Id, adminId: Id, role: Option<UserRole>, isActive: Option<bool>, data: map<string, string>)
    | DoDelete(userId: Id, adminId: Id)
    | DoAcl(acl: Acl.Op)

  function Step(c: Config, s: State, op: Op): Reply
  {
    match op
    case Tick(d) => Reply(s.(now := s.now + d), Done)
    case DoRegister(email, pw) => Register(c, s, email, pw)
    case DoOrgRegister(user) => OrgRegister(s, user)
    case DoLogin(email, pw) => Login(c, s, email, pw)
    case DoRefresh(jwt) => RefreshTokens(c, s, jwt)
    case DoLogout(tok, jwt) => Logout(s, tok, jwt)
    case DoLogoutAll(tok) => LogoutAll(s, tok)
    case DoVerifyEmail(raw) => VerifyEmail(s, raw)
    case DoResend(email) => ResendVerification(s, email)
    case DoForgot(email) => ForgotPassword(s, email)
    case DoReset(raw, pw) => ResetPassword(c, s, raw, pw)
    case DoChangePassword(id, cur, pw) => ChangePassword(c, s, id, cur, pw)
    case DoUpdateMe(id, data) => UpdateMe(s, id, data)
    case DoGetMe(id) => GetMe(s, id)
    case DoSuspend(id, admin) => SuspendUser(s, id, admin)
    case DoActivate(id) => ActivateUser(s, id)
    case DoForceActivate(id, admin, pw) => ForceActivate(s, id, admin, pw)
    case DoUpdateUser(id, admin, role, active, data) => UpdateUser(s, id, admin, role, active, data)
    case DoDelete(id, admin) => DeleteUser(s, id, admin)
    case DoAcl(op) => AdministerAcl(s, op)
  }

  /** What no call ever undoes. */
  lemma StepMoves(c: Config, s: State, op: Op, s': State)
    requires s' == Step(c, s, op).state
    ensures Moves(s, s') && HistoryExtends(c, s, s')
  {
    if op.DoLogin? {
      LoginMoves(c, s, op.email, op.password, Step(c, s, op));
    } else if op.DoRefresh? {
      RefreshMoves(c, s, op.jwt, Step(c, s, op));
    }
  }

  /** What each kind of call leaves alone. */
  lemma StepFrame(c: Config, s: State, op: Op, s': State)
    requires s' == Step(c, s, op).state
    ensures !op.Tick? ==> s'.now == s.now
    ensures !op.DoLogin? && !op.DoRefresh? ==> NoNewTokens(s, s')
    ensures !op.DoLogout? && !op.DoLogoutAll? ==> s'.blacklist == s.blacklist
    ensures !op.DoAcl? && !op.DoDelete? ==> s'.acl == s.acl
    ensures !op.DoDelete? ==> s.users.Keys <= s'.users.Keys
  {
    if op.DoLogin? {
      LoginMoves(c, s, op.email, op.password, Step(c, s, op));
    } else if op.DoRefresh? {
      RefreshMoves(c, s, op.jwt, Step(c, s, op));
    }
  }

  lemma StepKeepsCopies(c: Config, s: State, op: Op, s': State)
    requires s' == Step(c, s, op).state && !op.DoGetMe? && !op.DoLogin? && !op.DoRefresh?
    ensures CopiesKept(s.userCache, s'.userCache)
  {
  }

  /** The calls that can change an attempt counter, a lock, a login time or a role. */
  predicate TouchesAccounts(op: Op) { op.DoLogin? || op.DoForceActivate? || op.DoUpdateUser? }

  predicate Registers(op: Op) { op.DoRegister? || op.DoOrgRegister? }

  predicate Sessions(op: Op) { op.DoRefresh? || op.DoLogout? || op.DoLogoutAll? || op.DoResend? || op.DoForgot? }

  lemma RegisteringKeepsAccounts(c: Config, s: State, op: Op, s': State)
    requires s' == Step(c, s, op).state && UserIdsBelow(s.users, s.nextId) && Registers(op)
    ensures SameAccounts(s.users, s'.users)
  {
  }

  lemma SessionCallKeepsAccounts(c: Config, s: State, op: Op, s': State)
    requires s' == Step(c, s, op).state && Sessions(op)
    ensures SameAccounts(s.users, s'.users)
  {
    if op.DoRefresh? {
      RefreshMoves(c, s, op.jwt, Step(c, s, op));
      StillMoves(s);
    }
  }

  lemma EditKeepsAccounts(c: Config, s: State, op: Op, s': State)
    requires s' == Step(c, s, op).state && !TouchesAccounts(op) && !Registers(op) && !Sessions(op)
    ensures SameAccounts(s.users, s'.users)
  {
    StillMoves(s);
  }

  lemma StepKeepsAccounts(c: Config, s: State, op: Op, s': State)
    requires s' == Step(c, s, op).state && UserIdsBelow(s.users, s.nextId) && !TouchesAccounts(op)
    ensures SameAccounts(s.users, s'.users)
  {
    if Registers(op) {
      RegisteringKeepsAccounts(c, s, op, s');
    } else if Sessions(op) {
      SessionCallKeepsAccounts(c, s, op, s');
    } else {
      EditKeepsAccounts(c, s, op, s');
    }
  }

  lemma StepKeepsLocks(c: Config, s: State, op: Op, s': State)
    requires s' == Step(c, s, op).state && UserIdsBelow(s.users, s.nextId)
    requires !op.DoLogin? && !op.DoForceActivate?
    ensures LocksKept(s.users, s'.users)
  {
    if !op.DoUpdateUser? {
      StepKeepsAccounts(c, s, op, s');
    }
  }

  lemma StepKeepsLoginTimes(c: Config, s: State, op: Op, s': State)
    requires s' == Step(c, s, op).state && UserIdsBelow(s.users, s.nextId) && !op.DoLogin?
    ensures LoginTimesKept(s.users, s'.users)
  {
    if TouchesAccounts(op) {
      AdminKeepsLoginTimes(c, s, op, s');
    } else {
      StepKeepsAccounts(c, s, op, s');
    }
  }

  lemma AdminKeepsLoginTimes(c: Config, s: State, op: Op, s': State)
    requires s' == Step(c, s, op).state && (op.DoForceActivate? || op.DoUpdateUser?)
    ensures LoginTimesKept(s.users, s'.users)
  {
  }

  lemma StepKeepsRoles(c: Config, s: State, op: Op, s': State)
    requires s' == Step(c, s, op).state && UserIdsBelow(s.users, s.nextId) && !op.DoUpdateUser?
    ensures RolesKept(s.users, s'.users)
  {
    if op.DoLogin? {
      LoginMoves(c, s, op.email, op.password, Step(c, s, op));
    } else if !op.DoForceActivate? {
      StepKeepsAccounts(c, s, op, s');
    }
  }

  function Run(c: Config, s: State, ops: seq<Op>): State {
    if ops == [] then s else Step(c, Run(c, s, ops[..|ops| - 1]), ops[|ops| - 1]).state
  }
}
