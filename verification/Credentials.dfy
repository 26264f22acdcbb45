/** Who can log in: passwords, verification and activation over whole runs, told by the calls that set them. */
module Credentials {
  import opened Basics
  import opened Redis
  import opened Session
  import opened SessionInvariant
  import opened OneShot
  import Claims
  import Lockout
  import Passwords

  /** The columns of a user's row that decide about a login, besides the lock. */
  datatype Standing = Standing(hash: Passwords.Hash, isVerified: bool, isActive: bool)

  function StandingOf(u: User): Standing { Standing(u.passwordHash, u.isVerified, u.isActive) }

  ghost predicate StandingsKept(m: map<Id, User>, m': map<Id, User>) {
    forall u :: u in m && u in m' ==> StandingOf(m'[u]) == StandingOf(m[u])
  }

  // ---- What a single call sets ----

  /** The owner of a mailed reset token that still works. */
  function ResetOwner(s: State, raw: Id): Option<Id> {
    var checked := Check(s.resetTokens, raw, s.now);
    if checked.Ok? then Some(checked.value) else None
  }

  /** The call does not fail. */
  predicate Succeeds(c: Config, s: State, op: Op) { !Step(c, s, op).outcome.Fail? }

  /** A reset or change, if it succeeds, gives the user this password. */
  function NewPassword(s: State, op: Op, ok: bool, u: Id): Option<string> {
    if !ok then None
    else if op.DoReset? && ResetOwner(s, op.raw) == Some(u) then Some(op.password)
    else if op.DoChangePassword? && op.userId == u then Some(op.password)
    else None
  }

  /** The user presents a mailed token that works, or is activated by force. */
  predicate Confirms(s: State, op: Op, ok: bool, u: Id) {
    || (op.DoVerifyEmail? && Check(s.emailTokens, op.raw, s.now) == Ok(u))
    || (op.DoForceActivate? && op.userId == u && ok)
  }

  /** What a call makes of the user's activation: a first confirmation activates, whoever suspended the account. */
  function NewActive(s: State, op: Op, ok: bool, u: Id): Option<bool>
    requires u in s.users
  {
    if Confirms(s, op, ok, u) then if s.users[u].isVerified then None else Some(true)
    else if !ok then None
    else if op.DoSuspend? && op.userId == u then Some(false)
    else if op.DoActivate? && op.userId == u then Some(true)
    else if op.DoUpdateUser? && op.userId == u then op.isActive
    else None
  }

  /** The hash answers to this password and no other. */
  ghost predicate AnswersTo(hash: Passwords.Hash, password: string) {
    forall p :: Passwords.Compare(p, hash) <==> p == password
  }

  /** Only this user's row differs, and there only the columns of the standing. */
  ghost predicate OnlyStanding(m: map<Id, User>, m': map<Id, User>, u: Id) {
    && u in m && m'.Keys == m.Keys
    && (forall v :: v in m && v != u ==> m'[v] == m[v])
    && m'[u] == m[u].(passwordHash := m'[u].passwordHash, isVerified := m'[u].isVerified, isActive := m'[u].isActive)
  }

  /** The new password replaces the old one, for this user alone and in no other column. */
  ghost predicate PasswordSet(s: State, s': State, u: Id, password: string) {
    && OnlyStanding(s.users, s'.users, u) && AnswersTo(s'.users[u].passwordHash, password)
    && s'.users[u].isVerified == s.users[u].isVerified && s'.users[u].isActive == s.users[u].isActive
  }

  lemma HashIsStored(c: Config, s: State, u: Id, password: string, s': State)
    requires u in s.users && s' == StorePassword(c, s, u, password)
    ensures PasswordSet(s, s', u, password)
  {
    assert s'.users == ReplaceHash(s, u, password).users;
  }

  lemma PasswordIsSet(c: Config, s: State, u: Id, password: string, r: Reply)
    requires u in s.users && r == SetPassword(c, s, u, password)
    ensures r.outcome.Fail? || r.outcome == Done
    ensures if r.outcome.Fail? then r.state == s else PasswordSet(s, r.state, u, password)
  {
    if !r.outcome.Fail? {
      HashIsStored(c, s, u, password, r.state);
    }
  }

  /** A change asks for the current password, and sets the new one. */
  lemma ChangeSets(c: Config, s: State, u: Id, current: string, password: string, r: Reply)
    requires r == ChangePassword(c, s, u, current, password)
    ensures if r.outcome.Fail? then r.state == s
      else u in s.users && Passwords.Compare(current, s.users[u].passwordHash) && PasswordSet(s, r.state, u, password)
  {
    ChangeCases(c, s, u, current, password, r);
    if u in s.users && r.state != s {
      PasswordIsSet(c, s, u, password, r);
    } else {
      assert r.outcome.Fail?;
    }
  }

  /** A reset sets the password of the user the token was mailed to. */
  lemma ResetSets(c: Config, s: State, raw: Id, password: string, r: Reply)
    requires r == ResetPassword(c, s, raw, password)
    ensures if r.outcome.Fail? then r.state.users == s.users
      else ResetOwner(s, raw).Some? && PasswordSet(s, r.state, ResetOwner(s, raw).value, password)
  {
    ResetCases(c, s, raw, password, r);
    var checked, s1 := Check(s.resetTokens, raw, s.now), s.(resetTokens := Spend(s.resetTokens, raw));
    if checked.Ok? && checked.value in s.users && r == SetPassword(c, s1, checked.value, password) {
      PasswordIsSet(c, s1, checked.value, password, r);
    }
  }

  /** The first confirmation of an account verifies and activates it; a later one changes no row. */
  ghost predicate Confirmed(s: State, s': State, u: Id) {
    && OnlyStanding(s.users, s'.users, u) && s'.users[u].passwordHash == s.users[u].passwordHash
    && s'.users[u].isVerified
    && s'.users[u].isActive == (!s.users[u].isVerified || s.users[u].isActive)
  }

  lemma StoredRow(s: State, u: Id, edited: User, endSessions: bool, r: Reply)
    requires RowStored(s, u, edited, endSessions, r)
    ensures u in s.users && r.outcome == Profile(ToUserResponse(u, edited)) && r.state.users == s.users[u := edited]
  {
  }

  lemma ConfirmSets(s: State, u: Id, r: Reply)
    requires u in s.users && r == Confirm(s, u)
    ensures r.outcome == Done && Confirmed(s, r.state, u)
  {
    if !s.users[u].isVerified {
      StoredRow(s, u, MarkVerified(s.users[u]), false, StoreEdit(s, u, MarkVerified(s.users[u]), false));
    }
  }

  lemma VerifyCases(s: State, raw: Id, r: Reply)
    requires r == VerifyEmail(s, raw)
    ensures var checked, s1 := Check(s.emailTokens, raw, s.now), s.(emailTokens := Spend(s.emailTokens, raw));
      if checked.Ok? && checked.value in s.users then r == Confirm(s1, checked.value)
      else r.outcome.Fail? && (r.state == s || r.state == s1)
  {
  }

  /** A mailed token that works confirms the user it was mailed to, and nobody else. */
  lemma VerifyConfirms(s: State, raw: Id, r: Reply)
    requires r == VerifyEmail(s, raw)
    ensures var checked := Check(s.emailTokens, raw, s.now);
      if checked.Ok? && checked.value in s.users then r.outcome == Done && Confirmed(s, r.state, checked.value)
      else r.outcome.Fail? && r.state.users == s.users
  {
    VerifyCases(s, raw, r);
    var checked, s1 := Check(s.emailTokens, raw, s.now), s.(emailTokens := Spend(s.emailTokens, raw));
    if checked.Ok? && checked.value in s.users {
      ConfirmSets(s1, checked.value, r);
    }
  }

  /** Confirmed, with counter and lock cleared, and nothing else changed in any row. */
  ghost predicate ForcedIn(s: State, s': State, u: Id) {
    && u in s.users && !s.users[u].isVerified && s'.users.Keys == s.users.Keys
    && (forall v :: v in s.users && v != u ==> s'.users[v] == s.users[v])
    && s'.users[u] == s.users[u].(isVerified := true, isActive := true, failedLoginAttempts := 0, lockedUntil := None)
  }

  /**
   * Activation by force needs an unverified user and the right password of an existing administrator; it confirms the
   * user, clears counter and lock, and retires the user's mailed tokens.
   */
  lemma ForceConfirms(s: State, u: Id, adminId: Id, password: string, r: Reply)
    requires r == ForceActivate(s, u, adminId, password)
    ensures !r.outcome.Fail? <==>
      && u in s.users && !s.users[u].isVerified && adminId in s.users
      && Passwords.Compare(password, s.users[adminId].passwordHash)
    ensures if r.outcome.Fail? then r.state == s
      else
        && ForcedIn(s, r.state, u)
        && (forall raw :: Check(s.emailTokens, raw, s.now) == Ok(u) ==> Check(r.state.emailTokens, raw, s.now).Err?)
  {
  }

  /** The switch is set for this user alone and in no other column. */
  ghost predicate ActiveSet(s: State, s': State, u: Id, active: bool) {
    u in s.users && s'.users == s.users[u := s.users[u].(isActive := active)]
  }

  lemma SwitchSets(s: State, u: Id, adminId: Id, active: bool, r: Reply)
    requires r == if active then ActivateUser(s, u) else SuspendUser(s, u, adminId)
    ensures r.outcome.Fail? <==> u !in s.users || (!active && u == adminId)
    ensures if r.outcome.Fail? then r.state == s else ActiveSet(s, r.state, u, active)
  {
  }

  lemma EditFails(s: State, u: Id, adminId: Id, role: Option<UserRole>, isActive: Option<bool>,
      data: map<string, string>, r: Reply)
    requires r == UpdateUser(s, u, adminId, role, isActive, data)
    ensures r.outcome.Fail? <==> u !in s.users || (u == adminId && isActive == Some(false)) || UniqueClash(s, u, data)
    ensures r.outcome.Fail? ==> r.state == s
  {
  }

  /** Only this row differs, and there only the role, the status and the profile, by what was given. */
  ghost predicate RowEdited(s: State, s': State, u: Id, role: Option<UserRole>, isActive: Option<bool>,
      data: map<string, string>)
  {
    && u in s.users && s'.users.Keys == s.users.Keys
    && (forall v :: v in s.users && v != u ==> s'.users[v] == s.users[v])
    && EditedRow(s.users[u], s'.users[u], role, isActive, data)
  }

  lemma StoredEdit(s: State, u: Id, role: Option<UserRole>, isActive: Option<bool>, data: map<string, string>,
      endSessions: bool, r: Reply)
    requires u in s.users && RowStored(s, u, AdminEdit(s.users[u], role, isActive, data), endSessions, r)
    ensures RowEdited(s, r.state, u, role, isActive, data) && !r.outcome.Fail?
  {
    StoredRow(s, u, AdminEdit(s.users[u], role, isActive, data), endSessions, r);
  }

  /**
   * An administrator's edit writes the given role, status and profile fields and leaves everything else, in this row
   * and in all others; no administrator deactivates himself.
   */
  lemma EditSets(s: State, u: Id, adminId: Id, role: Option<UserRole>, isActive: Option<bool>,
      data: map<string, string>, r: Reply)
    requires r == UpdateUser(s, u, adminId, role, isActive, data)
    ensures r.outcome.Fail? <==> u !in s.users || (u == adminId && isActive == Some(false)) || UniqueClash(s, u, data)
    ensures if r.outcome.Fail? then r.state == s else RowEdited(s, r.state, u, role, isActive, data)
  {
    EditFails(s, u, adminId, role, isActive, data, r);
    if !r.outcome.Fail? {
      UpdateUserCases(s, u, adminId, role, isActive, data, r);
      StoredEdit(s, u, role, isActive, data, Deactivates(isActive), r);
    }
  }

  ghost predicate EditedRow(u: User, u': User, role: Option<UserRole>, isActive: Option<bool>,
      data: map<string, string>)
  {
    && u' == u.(role := u'.role, isActive := u'.isActive, profile := u'.profile)
    && u'.role == GetOr(role, u.role) && u'.isActive == GetOr(isActive, u.isActive)
    && Merged(u.profile, u'.profile, data)
  }

  /** The given fields have their new values, the other ones their old. */
  ghost predicate Merged(m: map<string, string>, m': map<string, string>, data: map<string, string>) {
    && m'.Keys == m.Keys + data.Keys
    && (forall f :: f in m' ==> m'[f] == if f in data then data[f] else m[f])
  }

  /** The user's own edit: the given fields are merged into the profile, and nothing else changes. */
  lemma ProfileSets(s: State, u: Id, data: map<string, string>, r: Reply)
    requires r == UpdateMe(s, u, data)
    ensures r.outcome.Fail? <==> u !in s.users || UniqueClash(s, u, data)
    ensures if r.outcome.Fail? then r.state == s
      else
        && RowEdited(s, r.state, u, None, None, data)
        && r.outcome == Profile(ToUserResponse(u, r.state.users[u])) && u !in r.state.userCache
  {
    UpdateMeCases(s, u, data, r);
  }

  // ---- Every call ----

  /** The calls that can set a password, confirm an account, or switch it on or off. */
  predicate SetsStanding(op: Op) {
    || op.DoReset? || op.DoChangePassword? || op.DoVerifyEmail? || op.DoForceActivate?
    || op.DoSuspend? || op.DoActivate? || op.DoUpdateUser?
  }

  predicate KeepsUsers(op: Op) {
    op.Tick? || op.DoLogout? || op.DoLogoutAll? || op.DoResend? || op.DoForgot? || op.DoGetMe? || op.DoAcl?
  }

  lemma UsersKept(c: Config, s: State, op: Op, s': State)
    requires KeepsUsers(op) && s' == Step(c, s, op).state
    ensures s'.users == s.users
  {
  }

  lemma IssuingKeepsStandings(c: Config, s: State, id: Id, r: Reply)
    requires LoginIssued(c, s, id, r)
    ensures StandingsKept(s.users, r.state.users)
  {
    IssueAdds(c, PutUser(s, id, LoginReset(s.users[id], s.now)), id, IdentityOf(s.users[id]), r.state);
  }

  lemma CountingKeepsStandings(c: Config, s: State, id: Id, r: Reply)
    requires LoginCounted(c, s, id, r)
    ensures StandingsKept(s.users, r.state.users)
  {
  }

  lemma LoginKeepsStandings(c: Config, s: State, email: string, password: string, r: Reply)
    requires r == Login(c, s, email, password)
    ensures StandingsKept(s.users, r.state.users)
  {
    LoginCases(c, s, email, password, r);
    if r.state == s {
    } else if r.outcome.Fail? {
      CountingKeepsStandings(c, s, FindByEmail(s, email).value, r);
    } else {
      IssuingKeepsStandings(c, s, FindByEmail(s, email).value, r);
    }
  }

  lemma RegisterKeepsStandings(c: Config, s: State, email: string, password: string, s': State)
    requires UserIdsBelow(s.users, s.nextId) && s' == Register(c, s, email, password).state
    ensures StandingsKept(s.users, s'.users)
  {
  }

  lemma OrgRegisterKeepsStandings(s: State, user: OrgUser, s': State)
    requires UserIdsBelow(s.users, s.nextId) && s' == OrgRegister(s, user).state
    ensures StandingsKept(s.users, s'.users)
  {
  }

  lemma OthersKeepStandings(c: Config, s: State, op: Op, s': State)
    requires UserIdsBelow(s.users, s.nextId) && !SetsStanding(op) && s' == Step(c, s, op).state
    ensures StandingsKept(s.users, s'.users)
  {
    if KeepsUsers(op) {
      UsersKept(c, s, op, s');
    } else if op.DoLogin? {
      LoginKeepsStandings(c, s, op.email, op.password, Step(c, s, op));
    } else if op.DoRegister? {
      RegisterKeepsStandings(c, s, op.email, op.password, s');
    } else if op.DoOrgRegister? {
      OrgRegisterKeepsStandings(s, op.user, s');
    } else if op.DoRefresh? {
      RefreshMoves(c, s, op.jwt, Step(c, s, op));
    } else if op.DoUpdateMe? {
      ProfileSets(s, op.userId, op.data, Step(c, s, op));
    }
  }

  /** The row's standing afterwards is what the call set, or what it was before. */
  ghost predicate Follows(u: User, u': User, password: Option<string>, active: Option<bool>, confirmed: bool) {
    && u'.isVerified == (u.isVerified || confirmed)
    && u'.isActive == GetOr(active, u.isActive)
    && (if password.Some? then AnswersTo(u'.passwordHash, password.value) else u'.passwordHash == u.passwordHash)
  }

  ghost predicate CallFollows(s: State, op: Op, r: Reply, u: Id)
    requires u in s.users && u in r.state.users
  {
    var ok := !r.outcome.Fail?;
    Follows(s.users[u], r.state.users[u], NewPassword(s, op, ok, u), NewActive(s, op, ok, u), Confirms(s, op, ok, u))
  }

  lemma PasswordFollows(s: State, op: Op, r: Reply, owner: Id, u: Id)
    requires op.DoReset? || op.DoChangePassword?
    requires r.outcome.Fail? || owner == if op.DoReset? then GetOr(ResetOwner(s, op.raw), owner) else op.userId
    requires op.DoReset? && !r.outcome.Fail? ==> ResetOwner(s, op.raw).Some?
    requires if r.outcome.Fail? then r.state.users == s.users else PasswordSet(s, r.state, owner, op.password)
    requires u in s.users && u in r.state.users
    ensures CallFollows(s, op, r, u)
  {
  }

  lemma ResetFollows(c: Config, s: State, op: Op, r: Reply, u: Id)
    requires op.DoReset? && r == Step(c, s, op) && u in s.users && u in r.state.users
    ensures CallFollows(s, op, r, u)
  {
    ResetSets(c, s, op.raw, op.password, r);
    PasswordFollows(s, op, r, GetOr(ResetOwner(s, op.raw), 0), u);
  }

  lemma ChangeFollows(c: Config, s: State, op: Op, r: Reply, u: Id)
    requires op.DoChangePassword? && r == Step(c, s, op) && u in s.users && u in r.state.users
    ensures CallFollows(s, op, r, u)
  {
    ChangeSets(c, s, op.userId, op.current, op.password, r);
    PasswordFollows(s, op, r, op.userId, u);
  }

  lemma ConfirmedFollows(s: State, raw: Id, r: Reply, u: Id)
    requires var checked := Check(s.emailTokens, raw, s.now);
      if checked.Ok? && checked.value in s.users then r.outcome == Done && Confirmed(s, r.state, checked.value)
      else r.outcome.Fail? && r.state.users == s.users
    requires u in s.users && u in r.state.users
    ensures CallFollows(s, DoVerifyEmail(raw), r, u)
  {
  }

  lemma VerifyFollows(c: Config, s: State, op: Op, r: Reply, u: Id)
    requires op.DoVerifyEmail? && r == Step(c, s, op) && u in s.users && u in r.state.users
    ensures CallFollows(s, op, r, u)
  {
    VerifyConfirms(s, op.raw, r);
    ConfirmedFollows(s, op.raw, r, u);
  }

  lemma ForcedFollows(s: State, op: Op, r: Reply, u: Id)
    requires op.DoForceActivate? && u in s.users && u in r.state.users
    requires if r.outcome.Fail? then r.state == s else ForcedIn(s, r.state, op.userId)
    ensures CallFollows(s, op, r, u)
  {
  }

  lemma ForceFollows(c: Config, s: State, op: Op, r: Reply, u: Id)
    requires op.DoForceActivate? && r == Step(c, s, op) && u in s.users && u in r.state.users
    ensures CallFollows(s, op, r, u)
  {
    ForceConfirms(s, op.userId, op.adminId, op.password, r);
    ForcedFollows(s, op, r, u);
  }

  lemma SwitchedFollows(s: State, op: Op, r: Reply, active: bool, u: Id)
    requires if active then op.DoActivate? else op.DoSuspend?
    requires if r.outcome.Fail? then r.state == s else ActiveSet(s, r.state, op.userId, active)
    requires u in s.users && u in r.state.users
    ensures CallFollows(s, op, r, u)
  {
  }

  lemma SuspendFollows(c: Config, s: State, op: Op, r: Reply, u: Id)
    requires op.DoSuspend? && r == Step(c, s, op) && u in s.users && u in r.state.users
    ensures CallFollows(s, op, r, u)
  {
    SwitchSets(s, op.userId, op.adminId, false, r);
    SwitchedFollows(s, op, r, false, u);
  }

  lemma ActivateFollows(c: Config, s: State, op: Op, r: Reply, u: Id)
    requires op.DoActivate? && r == Step(c, s, op) && u in s.users && u in r.state.users
    ensures CallFollows(s, op, r, u)
  {
    SwitchSets(s, op.userId, op.userId, true, r);
    SwitchedFollows(s, op, r, true, u);
  }

  lemma EditedFollows(s: State, op: Op, r: Reply, u: Id)
    requires op.DoUpdateUser?
    requires if r.outcome.Fail? then r.state == s else RowEdited(s, r.state, op.userId, op.role, op.isActive, op.data)
    requires u in s.users && u in r.state.users
    ensures CallFollows(s, op, r, u)
  {
  }

  lemma EditFollows(c: Config, s: State, op: Op, r: Reply, u: Id)
    requires op.DoUpdateUser? && r == Step(c, s, op) && u in s.users && u in r.state.users
    ensures CallFollows(s, op, r, u)
  {
    EditSets(s, op.userId, op.adminId, op.role, op.isActive, op.data, r);
    EditedFollows(s, op, r, u);
  }

  lemma UntouchedFollows(s: State, op: Op, r: Reply, u: Id)
    requires !SetsStanding(op) && StandingsKept(s.users, r.state.users) && u in s.users && u in r.state.users
    ensures CallFollows(s, op, r, u)
  {
  }

  lemma EveryCallFollows(c: Config, s: State, op: Op, r: Reply, u: Id)
    requires UserIdsBelow(s.users, s.nextId) && r == Step(c, s, op) && u in s.users && u in r.state.users
    ensures CallFollows(s, op, r, u)
  {
    if op.DoReset? {
      ResetFollows(c, s, op, r, u);
    } else if op.DoChangePassword? {
      ChangeFollows(c, s, op, r, u);
    } else if op.DoVerifyEmail? {
      VerifyFollows(c, s, op, r, u);
    } else if op.DoForceActivate? {
      ForceFollows(c, s, op, r, u);
    } else if op.DoSuspend? {
      SuspendFollows(c, s, op, r, u);
    } else if op.DoActivate? {
      ActivateFollows(c, s, op, r, u);
    } else if op.DoUpdateUser? {
      EditFollows(c, s, op, r, u);
    } else {
      OthersKeepStandings(c, s, op, r.state);
      UntouchedFollows(s, op, r, u);
    }
  }

  // ---- Whole runs ----

  /** The passwords given to the user in this run, oldest first. */
  ghost function PasswordsSet(c: Config, s: State, ops: seq<Op>, u: Id): seq<string> {
    if ops == [] then []
    else
      var before, op := Run(c, s, ops[..|ops| - 1]), ops[|ops| - 1];
      var given := NewPassword(before, op, Succeeds(c, before, op), u);
      PasswordsSet(c, s, ops[..|ops| - 1], u) + if given.Some? then [given.value] else []
  }

  function Last<T>(xs: seq<T>): Option<T> { if xs == [] then None else Some(xs[|xs| - 1]) }

  /** What the last call that switched the user on or off made of it. */
  ghost function LastActive(c: Config, s: State, ops: seq<Op>, u: Id): Option<bool> {
    if ops == [] then None
    else
      var before, op := Run(c, s, ops[..|ops| - 1]), ops[|ops| - 1];
      var given := if u in before.users then NewActive(before, op, Succeeds(c, before, op), u) else None;
      if given.Some? then given else LastActive(c, s, ops[..|ops| - 1], u)
  }

  ghost predicate ConfirmedIn(c: Config, s: State, ops: seq<Op>, u: Id) {
    ops != [] &&
    (var before, op := Run(c, s, ops[..|ops| - 1]), ops[|ops| - 1];
     ConfirmedIn(c, s, ops[..|ops| - 1], u) || Confirms(before, op, Succeeds(c, before, op), u))
  }

  lemma FollowsTwice(u: User, v: User, w: User, passwords: seq<string>, active: Option<bool>, confirmed: bool,
      password: Option<string>, switch: Option<bool>, confirms: bool)
    requires Follows(u, v, Last(passwords), active, confirmed) && Follows(v, w, password, switch, confirms)
    ensures Follows(u, w, Last(passwords + if password.Some? then [password.value] else []),
      if switch.Some? then switch else active, confirmed || confirms)
  {
  }

  /** A user's standing is what the calls of the run made of it: the last password, the last switch, a confirmation. */
  lemma {:induction false} StandingIsLastSet(c: Config, s: State, ops: seq<Op>, u: Id)
    requires Valid(c, s) && u in s.users && u in Run(c, s, ops).users
    ensures Follows(s.users[u], Run(c, s, ops).users[u],
      Last(PasswordsSet(c, s, ops, u)), LastActive(c, s, ops, u), ConfirmedIn(c, s, ops, u))
  {
    if ops == [] {
    } else {
      var init, op := ops[..|ops| - 1], ops[|ops| - 1];
      var mid, end := Run(c, s, init), Run(c, s, ops);
      RunValid(c, s, init);
      RunIds(c, s, init);
      Claims.StillThere(c, mid, op, end, u);
      StandingIsLastSet(c, s, init, u);
      EveryCallFollows(c, mid, op, Step(c, mid, op), u);
      FollowsTwice(s.users[u], mid.users[u], end.users[u],
        PasswordsSet(c, s, init, u), LastActive(c, s, init, u), ConfirmedIn(c, s, init, u),
        NewPassword(mid, op, Succeeds(c, mid, op), u), NewActive(mid, op, Succeeds(c, mid, op), u),
        Confirms(mid, op, Succeeds(c, mid, op), u));
    }
  }

  // ---- Login ----

  /** A login gets tokens exactly for a verified, active, unlocked user with the right password. */
  lemma LoginIff(c: Config, s: State, email: string, password: string, r: Reply)
    requires r == Login(c, s, email, password)
    ensures r.outcome.Tokens? <==>
      && FindByEmail(s, email).Some?
      && var u := s.users[FindByEmail(s, email).value];
        u.isVerified && u.isActive && !Locked(u, s.now) && Passwords.Compare(password, u.passwordHash)
  {
  }

  lemma {:induction false} EmailStays(c: Config, s: State, ops: seq<Op>, u: Id)
    requires Valid(c, s) && u in s.users && u in Run(c, s, ops).users
    ensures FindByEmail(Run(c, s, ops), s.users[u].email) == Some(u)
  {
    if ops == [] {
    } else {
      var init, op := ops[..|ops| - 1], ops[|ops| - 1];
      RunValid(c, s, init);
      RunValid(c, s, ops);
      RunIds(c, s, init);
      StepMoves(c, Run(c, s, init), op, Run(c, s, ops));
      EmailStays(c, s, init, u);
    }
  }

  /** The user may log in with this password, as far as the calls since `s` tell. */
  ghost predicate MayLogIn(c: Config, s: State, ops: seq<Op>, u: Id, password: string)
    requires u in s.users
  {
    var last := Last(PasswordsSet(c, s, ops, u));
    && (s.users[u].isVerified || ConfirmedIn(c, s, ops, u))
    && GetOr(LastActive(c, s, ops, u), s.users[u].isActive)
    && (if last.Some? then password == last.value else Passwords.Compare(password, s.users[u].passwordHash))
  }

  /**
   * From any valid state on, while a user exists and the account is not locked, a login gets tokens if and only if the
   * user has been verified, was last switched on, and the password is the one last set.
   */
  lemma LoginInRunIff(c: Config, s: State, ops: seq<Op>, u: Id, password: string, r: Reply)
    requires Valid(c, s) && u in s.users && u in Run(c, s, ops).users
    requires r == Login(c, Run(c, s, ops), s.users[u].email, password)
    ensures r.outcome.Tokens? <==>
      MayLogIn(c, s, ops, u, password) && !Locked(Run(c, s, ops).users[u], Run(c, s, ops).now)
  {
    StandingIsLastSet(c, s, ops, u);
    EmailStays(c, s, ops, u);
    LoginIff(c, Run(c, s, ops), s.users[u].email, password, r);
  }

  // ---- From the call to the login ----

  /** The user could log in, knowing the password. */
  predicate MayEnter(s: State, u: Id) {
    u in s.users && s.users[u].isVerified && s.users[u].isActive && !Locked(s.users[u], s.now)
  }

  lemma PasswordDecides(c: Config, s: State, s': State, u: Id, password: string, attempt: string, r: Reply)
    requires PasswordSet(s, s', u, password) && s'.byEmail == s.byEmail && s'.now == s.now && MayEnter(s, u)
    requires FindByEmail(s, s.users[u].email) == Some(u) && r == Login(c, s', s.users[u].email, attempt)
    ensures if attempt == password then r.outcome.Tokens? && r.outcome.access.userId == u
      else Lockout.WrongGuess(s', s.users[u].email, attempt, u) && r.outcome.Fail?
  {
  }

  lemma SetKeepsIndex(c: Config, s: State, id: Id, password: string, r: Reply)
    requires id in s.users && r == SetPassword(c, s, id, password)
    ensures r.state.byEmail == s.byEmail && r.state.now == s.now
  {
  }

  lemma SettingKeepsIndex(c: Config, s: State, op: Op, r: Reply)
    requires (op.DoReset? || op.DoChangePassword?) && r == Step(c, s, op)
    ensures r.state.byEmail == s.byEmail && r.state.now == s.now
  {
    if op.DoReset? {
      ResetCases(c, s, op.raw, op.password, r);
      var checked, s1 := Check(s.resetTokens, op.raw, s.now), s.(resetTokens := Spend(s.resetTokens, op.raw));
      if r.state != s && r.state != s1 {
        SetKeepsIndex(c, s1, checked.value, op.password, r);
      }
    } else {
      ChangeCases(c, s, op.userId, op.current, op.password, r);
      if r.state != s {
        SetKeepsIndex(c, s, op.userId, op.password, r);
      }
    }
  }

  lemma NewPasswordIsSet(c: Config, s: State, op: Op, r: Reply, u: Id, password: string)
    requires (op.DoReset? || op.DoChangePassword?) && r == Step(c, s, op)
    requires NewPassword(s, op, !r.outcome.Fail?, u) == Some(password)
    ensures PasswordSet(s, r.state, u, password)
  {
    if op.DoReset? {
      ResetSets(c, s, op.raw, op.password, r);
    } else {
      ChangeSets(c, s, op.userId, op.current, op.password, r);
    }
  }

  /**
   * Right after a successful reset or change the new password gets tokens for a user who may log in at all, and every
   * other password, the old one included, is a wrong guess.
   */
  lemma NewPasswordLogsIn(c: Config, s: State, op: Op, s': State, u: Id, password: string, attempt: string, r: Reply)
    requires Valid(c, s) && (op.DoReset? || op.DoChangePassword?) && s' == Step(c, s, op).state
    requires NewPassword(s, op, Succeeds(c, s, op), u) == Some(password) && MayEnter(s, u)
    requires r == Login(c, s', s.users[u].email, attempt)
    ensures if attempt == password then r.outcome.Tokens? && r.outcome.access.userId == u
      else Lockout.WrongGuess(s', s.users[u].email, attempt, u) && r.outcome.Fail?
  {
    SettingKeepsIndex(c, s, op, Step(c, s, op));
    NewPasswordIsSet(c, s, op, Step(c, s, op), u, password);
    PasswordDecides(c, s, s', u, password, attempt, r);
  }

  // ---- Registration and deletion ----

  /** A new row under a fresh id and the given email; all others as they were. */
  ghost predicate Added(s: State, s': State, id: Id, email: string, org: Id) {
    && id !in s.users && s'.users.Keys == s.users.Keys + {id} && FindByEmail(s', email) == Some(id)
    && s'.users[id].email == email && s'.users[id].organizationId == org && s'.users[id].role == USER
    && !Locked(s'.users[id], s'.now) && s'.users[id].failedLoginAttempts == 0
    && (forall v :: v in s.users ==> s'.users[v] == s.users[v])
  }

  lemma RegisterCases(c: Config, s: State, email: string, password: string, r: Reply)
    requires r == Register(c, s, email, password)
    ensures
      || (r.outcome.Fail? && r.state == s)
      || (r.outcome == Created(s.nextId, Some(s.nextId + 1)) && r.state == MailVerification(Enlist(c, s,
            NewUser(email, Passwords.Bcrypt(password, s.nextId), DEFAULT_ORG, false, map[], s.now)), s.nextId))
  {
  }

  lemma RegisterIff(c: Config, s: State, email: string, password: string, r: Reply)
    requires r == Register(c, s, email, password)
    ensures r.outcome.Created? <==> FindByEmail(s, email).None? && Passwords.Strong(password)
  {
  }

  ghost predicate Registered(s: State, s': State, id: Id, email: string, password: string, mailed: Id) {
    && Added(s, s', id, email, DEFAULT_ORG) && AnswersTo(s'.users[id].passwordHash, password)
    && !s'.users[id].isVerified && !s'.users[id].isActive && Check(s'.emailTokens, mailed, s'.now) == Ok(id)
  }

  lemma EnlistedTables(c: Config, s: State, u: User, s': State)
    requires u.lastLoginAt.None? && s' == MailVerification(Enlist(c, s, u), s.nextId)
    ensures s'.users == s.users[s.nextId := u] && s'.byEmail == s.byEmail[u.email := s.nextId] && s'.now == s.now
    ensures Check(s'.emailTokens, s.nextId + 1, s'.now) == Ok(s.nextId)
  {
  }

  lemma EnlistedIsRegistered(c: Config, s: State, email: string, password: string, s': State)
    requires UserIdsBelow(s.users, s.nextId)
    requires s' == MailVerification(Enlist(c, s,
      NewUser(email, Passwords.Bcrypt(password, s.nextId), DEFAULT_ORG, false, map[], s.now)), s.nextId)
    ensures Registered(s, s', s.nextId, email, password, s.nextId + 1)
  {
    EnlistedTables(c, s, NewUser(email, Passwords.Bcrypt(password, s.nextId), DEFAULT_ORG, false, map[], s.now), s');
  }

  /**
   * Registration takes an unused email and a strong password; the new user, in the default organization, answers to
   * that password, is neither verified nor active, is mailed a token that works, and already has the password in the
   * history.
   */
  lemma RegisterAdds(c: Config, s: State, email: string, password: string, r: Reply)
    requires Valid(c, s) && r == Register(c, s, email, password)
    ensures r.outcome.Created? <==> FindByEmail(s, email).None? && Passwords.Strong(password)
    ensures if !r.outcome.Created? then r.outcome.Fail? && r.state == s
      else
        && r.outcome.mailed.Some?
        && Registered(s, r.state, r.outcome.id, email, password, r.outcome.mailed.value)
  {
    RegisterIff(c, s, email, password, r);
    RegisterCases(c, s, email, password, r);
    if r.outcome.Created? {
      EnlistedIsRegistered(c, s, email, password, r.state);
    }
  }

  /**
   * An organization's user is verified and active at once, and answers to the given password; in delegated mode, to
   * none.
   */
  lemma OrgRegisterAdds(c: Config, s: State, user: OrgUser, r: Reply)
    requires Valid(c, s) && r == OrgRegister(s, user)
    ensures r.outcome.Created? <==> ModeAllowed(user) && PasswordOk(user) && FindByEmail(s, user.email).None?
    ensures if !r.outcome.Created? then r.outcome.Fail? && r.state == s
      else
        var id := r.outcome.id;
        && Added(s, r.state, id, user.email, user.org) && r.state.users[id].isVerified && r.state.users[id].isActive
        && (if EffectiveMode(user).FullMode? then AnswersTo(r.state.users[id].passwordHash, user.password.value)
            else forall p :: !Passwords.Compare(p, r.state.users[id].passwordHash))
  {
  }

  /** Nothing of the user is left: no row, no address, no token of any kind, no history, no cached copy, no access. */
  ghost predicate Forgotten(s: State, u: Id, email: string) {
    && u !in s.users && FindByEmail(s, email).None? && u !in s.history && u !in s.userCache
    && (forall h :: h in s.refresh ==> s.refresh[h].userId != u)
    && (forall h :: h in s.emailTokens ==> s.emailTokens[h].userId != u)
    && (forall h :: h in s.resetTokens ==> s.resetTokens[h].userId != u)
    && (forall ua :: ua in s.acl.userApps ==> ua.0 != u)
  }

  /** Whatever belongs to another user is as it was. */
  ghost predicate OthersStand(s: State, s': State, u: Id) {
    && (forall v :: v in s.users && v != u ==> v in s'.users && s'.users[v] == s.users[v])
    && (forall h :: h in s.refresh && s.refresh[h].userId != u ==> h in s'.refresh && s'.refresh[h] == s.refresh[h])
    && (forall ua :: ua in s.acl.userApps && ua.0 != u ==>
          ua in s'.acl.userApps && s'.acl.userApps[ua] == s.acl.userApps[ua])
    && s'.acl.roles == s.acl.roles && s'.acl.apps == s.acl.apps && s'.acl.features == s.acl.features
  }

  /** A deletion forgets the user and leaves the others; no administrator deletes himself. */
  lemma DeletionForgets(c: Config, s: State, u: Id, adminId: Id, r: Reply)
    requires Valid(c, s) && r == DeleteUser(s, u, adminId)
    ensures r.outcome.Fail? <==> u !in s.users || u == adminId
    ensures if r.outcome.Fail? then r.state == s
      else Forgotten(r.state, u, s.users[u].email) && OthersStand(s, r.state, u)
  {
    if u in s.users && u != adminId {
      ErasureForgets(s, u, r.state);
    }
  }

  lemma ErasureForgets(s: State, u: Id, s': State)
    requires u in s.users && s' == Erase(s, u)
    ensures Forgotten(s', u, s.users[u].email) && OthersStand(s, s', u)
  {
  }

  lemma FirstPassword(c: Config, s: State, ops: seq<Op>, u: Id, password: string, attempt: string)
    requires u in s.users && !s.users[u].isVerified && !s.users[u].isActive
    requires AnswersTo(s.users[u].passwordHash, password)
    ensures MayLogIn(c, s, ops, u, attempt) <==>
      && ConfirmedIn(c, s, ops, u) && GetOr(LastActive(c, s, ops, u), false)
      && attempt == GetOr(Last(PasswordsSet(c, s, ops, u)), password)
  {
  }

  /**
   * After a registration, through any further calls: while the user exists and the account is not locked, a login gets
   * tokens if and only if the account has been confirmed and was last switched on, and the password is the one last
   * set, or the one registered with if none was.
   */
  lemma RegisteredLogsInIff(c: Config, s: State, email: string, password: string, r: Reply, ops: seq<Op>,
      attempt: string, l: Reply)
    requires Valid(c, s) && r == Register(c, s, email, password) && r.outcome.Created?
    requires r.outcome.id in Run(c, r.state, ops).users && l == Login(c, Run(c, r.state, ops), email, attempt)
    ensures var u, end := r.outcome.id, Run(c, r.state, ops);
      l.outcome.Tokens? <==>
      && ConfirmedIn(c, r.state, ops, u) && GetOr(LastActive(c, r.state, ops, u), false)
      && attempt == GetOr(Last(PasswordsSet(c, r.state, ops, u)), password) && !Locked(end.users[u], end.now)
  {
    RegisterAdds(c, s, email, password, r);
    RegisterValid(c, s, email, password);
    LoginInRunIff(c, r.state, ops, r.outcome.id, attempt, l);
    FirstPassword(c, r.state, ops, r.outcome.id, password, attempt);
  }
}
