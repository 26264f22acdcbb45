/** The claims an access token copies from its user's row, against the row as it changes over whole runs. */
module Claims {
  import opened Basics
  import opened Session
  import opened SessionInvariant
  import opened SessionSafety
  import Snapshots

  // ---- Email and organization never go stale ----

  /** The token's user was named before now, and as long as the user exists these two claims are the row's. */
  ghost predicate ClaimsFixed(s: State, tok: AccessToken) {
    && tok.userId < s.nextId
    && (tok.userId in s.users ==>
          tok.who.email == s.users[tok.userId].email && tok.who.orgId == s.users[tok.userId].organizationId)
  }

  lemma MoveKeepsClaims(s: State, s': State, tok: AccessToken)
    requires UserIdsBelow(s.users, s.nextId) && ClaimsFixed(s, tok) && Moves(s, s')
    ensures ClaimsFixed(s', tok)
  {
  }

  lemma SignedClaims(c: Config, s: State, tok: AccessToken)
    requires UserIdsBelow(s.users, s.nextId) && SignedIn(c, s, tok)
    ensures ClaimsFixed(s, tok)
  {
  }

  /**
   * In every run, the email and the organization in an issued token are those of its user's row, while there is one.
   */
  lemma {:induction false} EmailAndOrgCurrent(c: Config, ops: seq<Op>, tok: AccessToken)
    requires ValidConfig(c) && tok in Run(c, Init, ops).issued
    ensures ClaimsFixed(Run(c, Init, ops), tok)
  {
    var init, op := ops[..|ops| - 1], ops[|ops| - 1];
    InitValid(c);
    RunValid(c, Init, init);
    if tok in Run(c, Init, init).issued {
      EmailAndOrgCurrent(c, init, tok);
    } else {
      StepIssues(c, Run(c, Init, init), op, Run(c, Init, ops), tok);
      SignedClaims(c, Run(c, Init, init), tok);
    }
    StepMoves(c, Run(c, Init, init), op, Run(c, Init, ops));
    MoveKeepsClaims(Run(c, Init, init), Run(c, Init, ops), tok);
  }

  // ---- The role can ----

  /** A successful edit by an administrator that names a role. */
  predicate SetsRole(c: Config, s: State, op: Op, u: Id) {
    op.DoUpdateUser? && op.userId == u && op.role.Some? && !Step(c, s, op).outcome.Fail?
  }

  /** The last role given to the user in this run. */
  ghost function LastRole(c: Config, s: State, ops: seq<Op>, u: Id): Option<UserRole> {
    if ops == [] then None
    else if SetsRole(c, Run(c, s, ops[..|ops| - 1]), ops[|ops| - 1], u) then ops[|ops| - 1].role
    else LastRole(c, s, ops[..|ops| - 1], u)
  }

  lemma StoredRole(s: State, id: Id, edited: User, endSessions: bool, r: Reply, u: Id)
    requires RowStored(s, id, edited, endSessions, r) && u in s.users
    ensures r.outcome.Profile? && u in r.state.users
    ensures r.state.users[u].role == if u == id then edited.role else s.users[u].role
  {
  }

  lemma EditSetsRole(s: State, id: Id, adminId: Id, role: Option<UserRole>, isActive: Option<bool>,
      data: map<string, string>, r: Reply, u: Id)
    requires r == UpdateUser(s, id, adminId, role, isActive, data) && u in s.users
    ensures u in r.state.users
    ensures r.state.users[u].role ==
      if u == id && !r.outcome.Fail? then GetOr(role, s.users[u].role) else s.users[u].role
  {
    UpdateUserCases(s, id, adminId, role, isActive, data, r);
    if r.outcome.Fail? && r.state == s {
    } else {
      StoredRole(s, id, AdminEdit(s.users[id], role, isActive, data), Deactivates(isActive), r, u);
    }
  }

  lemma StepOnRole(c: Config, s: State, op: Op, s': State, u: Id)
    requires UserIdsBelow(s.users, s.nextId) && s' == Step(c, s, op).state && u in s.users && u in s'.users
    ensures s'.users[u].role == if SetsRole(c, s, op, u) then op.role.value else s.users[u].role
  {
    if op.DoUpdateUser? {
      EditSetsRole(s, op.userId, op.adminId, op.role, op.isActive, op.data, Step(c, s, op), u);
    } else {
      StepKeepsRoles(c, s, op, s');
    }
  }

  lemma StillThere(c: Config, s: State, op: Op, s': State, u: Id)
    requires UserIdsBelow(s.users, s.nextId) && s' == Step(c, s, op).state && u < s.nextId && u in s'.users
    ensures u in s.users
  {
    StepMoves(c, s, op, s');
  }

  /** A user's role is the one last given, or the one the run started with. */
  lemma {:induction false} RoleIsLastGiven(c: Config, s: State, ops: seq<Op>, u: Id)
    requires Valid(c, s) && u in s.users && u in Run(c, s, ops).users
    ensures Run(c, s, ops).users[u].role == GetOr(LastRole(c, s, ops, u), s.users[u].role)
  {
    if ops == [] {
    } else {
      var init, op := ops[..|ops| - 1], ops[|ops| - 1];
      RunValid(c, s, init);
      RunIds(c, s, init);
      StillThere(c, Run(c, s, init), op, Run(c, s, ops), u);
      RoleIsLastGiven(c, s, init, u);
      StepOnRole(c, Run(c, s, init), op, Run(c, s, ops), u);
    }
  }

  /** The roles given to the token's user since it was signed. */
  ghost function RoleSince(c: Config, g: Signing, u: Id): Option<UserRole> {
    LastRole(c, Step(c, Run(c, Init, g.before), g.op).state, g.after, u)
  }

  lemma SignsOnlyThen(c: Config, s: State, op: Op, s': State, tok: AccessToken)
    requires s' == Step(c, s, op).state && Signs(c, s, s', tok)
    ensures op.DoLogin? || op.DoRefresh?
    ensures s.users.Keys <= s'.users.Keys
  {
    StepFrame(c, s, op, s');
  }

  lemma SignerStays(c: Config, s: State, op: Op, s': State, tok: AccessToken)
    requires Valid(c, s) && s' == Step(c, s, op).state && Signs(c, s, s', tok)
    ensures tok.userId in s'.users && s'.users[tok.userId].role == tok.who.role
  {
    SignsOnlyThen(c, s, op, s', tok);
    StepKeepsRoles(c, s, op, s');
  }

  lemma RoleFromSigning(c: Config, s: State, op: Op, s': State, after: seq<Op>, end: State, tok: AccessToken)
    requires Valid(c, s) && s' == Step(c, s, op).state && Signs(c, s, s', tok)
    requires end == Run(c, s', after) && tok.userId in end.users
    ensures end.users[tok.userId].role == GetOr(LastRole(c, s', after, tok.userId), tok.who.role)
  {
    StepValid(c, s, op, s');
    SignerStays(c, s, op, s', tok);
    RoleIsLastGiven(c, s', after, tok.userId);
  }

  /**
   * In every run, an issued token's role claim is its user's present role if and only if no administrator's edit since
   * the signing has given the user a role, or the last one that did gave back the token's.
   */
  lemma RoleCurrentIff(c: Config, ops: seq<Op>, tok: AccessToken) returns (g: Signing)
    requires ValidConfig(c) && tok in Run(c, Init, ops).issued && tok.userId in Run(c, Init, ops).users
    ensures SignedBy(c, ops, g, tok)
    ensures tok.who.role == Run(c, Init, ops).users[tok.userId].role <==>
      RoleSince(c, g, tok.userId) in {None, Some(tok.who.role)}
  {
    g := IssuedOnlyToVerifiedActive(c, ops, tok);
    var s := Run(c, Init, g.before);
    InitValid(c);
    RunValid(c, Init, g.before);
    Snapshots.RunThrough(c, Init, g.before, g.op, g.after);
    RoleFromSigning(c, s, g.op, Step(c, s, g.op).state, g.after, Run(c, Init, ops), tok);
  }

  /** Giving another role signs nobody out: unless it also deactivates, the edit leaves every verdict as it was. */
  lemma RoleChangeKeepsTokens(s: State, id: Id, adminId: Id, role: Option<UserRole>, isActive: Option<bool>,
      data: map<string, string>, r: Reply, tok: AccessToken)
    requires r == UpdateUser(s, id, adminId, role, isActive, data) && !Deactivates(isActive)
    ensures Accepts(r.state, tok) <==> Accepts(s, tok)
  {
  }
}
