/** Permission snapshots in access tokens against the RBAC tables, over whole runs. */
module Snapshots {
  import opened Basics
  import opened Redis
  import opened Session
  import opened SessionInvariant
  import opened SessionSafety
  import Acl
  import AclProofs
  import SilentCalls

  // ---- The tables stay sound ----

  ghost predicate RbacValid(s: State) { Acl.Valid(s.acl, s.users.Keys) }

  lemma MoreUsersRbac(t: Acl.Tables, users: set<Id>, more: set<Id>)
    requires Acl.Valid(t, users) && users <= more
    ensures Acl.Valid(t, more)
  {
  }

  lemma EraseRbac(s: State, id: Id)
    requires RbacValid(s) && id in s.users
    ensures RbacValid(Erase(s, id))
  {
  }

  lemma DeleteRbac(s: State, id: Id, adminId: Id)
    requires RbacValid(s)
    ensures RbacValid(DeleteUser(s, id, adminId).state)
  {
    if id in s.users {
      EraseRbac(s, id);
    }
  }

  lemma AdministerRbac(s: State, op: Acl.Op)
    requires RbacValid(s)
    ensures RbacValid(AdministerAcl(s, op).state)
  {
    AclProofs.StepValid(s.acl, s.users.Keys, op);
  }

  lemma StepRbac(c: Config, s: State, op: Op, s': State)
    requires RbacValid(s) && s' == Step(c, s, op).state
    ensures RbacValid(s')
  {
    if op.DoAcl? {
      AclIsAdminister(c, s, op.acl, s');
      AdministerRbac(s, op.acl);
    } else if op.DoDelete? {
      DeleteRbac(s, op.userId, op.adminId);
    } else {
      StepFrame(c, s, op, s');
      MoreUsersRbac(s.acl, s.users.Keys, s'.users.Keys);
    }
  }

  lemma {:induction false} RunRbac(c: Config, s: State, ops: seq<Op>)
    requires RbacValid(s)
    ensures RbacValid(Run(c, s, ops))
  {
    if ops == [] {
    } else {
      RunRbac(c, s, ops[..|ops| - 1]);
      StepRbac(c, Run(c, s, ops[..|ops| - 1]), ops[|ops| - 1], Run(c, s, ops));
    }
  }

  lemma AclIsAdminister(c: Config, s: State, op: Acl.Op, s': State)
    requires s' == Step(c, s, DoAcl(op)).state
    ensures s' == AdministerAcl(s, op).state
  {
  }

  lemma AdministerTables(s: State, op: Acl.Op)
    ensures AdministerAcl(s, op).state.acl == Acl.Step(s.acl, s.users.Keys, op).tables
  {
  }

  lemma DeleteTables(s: State, id: Id, adminId: Id)
    ensures DeleteUser(s, id, adminId).state.acl ==
      if id in s.users && id != adminId then Acl.ForgetUser(s.acl, id) else s.acl
  {
  }

  // ---- Calls that sign nobody out ----

  /** Calls that can change what users resolve to without invalidating them. */
  predicate SilentCall(op: Op) {
    op.DoDelete? || (op.DoAcl? && AclProofs.Silent(op.acl))
  }

  /** Whether a silent RBAC call changes what this user resolves to, by what stands in the tables before it. */
  predicate AclUnsettles(t: Acl.Tables, users: set<Id>, op: Acl.Op, u: Id) {
    match op
    case SuspendApp(a) => a in Acl.Resolve(t, u)
    case ReactivateApp(a) => a in t.apps && t.apps[a].status != Acl.Active && Acl.ResolveForApp(t, u, a).Some?
    case AssignUser(v, a, role) => v == u && SilentCalls.MayAssign(t, users, v, a, role)
    case RemoveFeature(f) => SilentCalls.InUse(t, u, f)
    case _ => false
  }

  predicate Unsettles(s: State, op: Op, u: Id) {
    match op
    case DoAcl(aop) => AclUnsettles(s.acl, s.users.Keys, aop, u)
    case DoDelete(v, admin) => v == u && v in s.users && v != admin && Acl.Resolve(s.acl, u) != map[]
    case _ => false
  }

  ghost predicate Changed(s: State, s': State, u: Id) { SilentCalls.Changed(s.acl, s'.acl, u) }

  lemma SuspensionUnsettlesIff(t: Acl.Tables, users: set<Id>, a: Id, t': Acl.Tables, u: Id)
    requires t' == Acl.Step(t, users, Acl.SuspendApp(a)).tables
    ensures SilentCalls.Changed(t, t', u) <==> AclUnsettles(t, users, Acl.SuspendApp(a), u)
  {
    SilentCalls.SuspensionChangesIff(t, users, a, t', u);
  }

  lemma ReactivationUnsettlesIff(t: Acl.Tables, users: set<Id>, a: Id, t': Acl.Tables, u: Id)
    requires t' == Acl.Step(t, users, Acl.ReactivateApp(a)).tables
    ensures SilentCalls.Changed(t, t', u) <==> AclUnsettles(t, users, Acl.ReactivateApp(a), u)
  {
    SilentCalls.ReactivationChangesIff(t, users, a, t', u);
  }

  lemma AssignmentUnsettlesIff(t: Acl.Tables, users: set<Id>, v: Id, a: Id, role: Option<Id>, t': Acl.Tables, u: Id)
    requires t' == Acl.Step(t, users, Acl.AssignUser(v, a, role)).tables
    ensures SilentCalls.Changed(t, t', u) <==> AclUnsettles(t, users, Acl.AssignUser(v, a, role), u)
  {
    SilentCalls.AssignmentChangesIff(t, users, v, a, role, t', u);
  }

  /** Except for feature removals, exactly the calls that unsettle the user change what the user resolves to. */
  lemma AclUnsettlesIff(t: Acl.Tables, users: set<Id>, op: Acl.Op, t': Acl.Tables, u: Id)
    requires AclProofs.Silent(op) && !op.RemoveFeature? && t' == Acl.Step(t, users, op).tables
    ensures SilentCalls.Changed(t, t', u) <==> AclUnsettles(t, users, op, u)
  {
    match op
    case SuspendApp(a) => SuspensionUnsettlesIff(t, users, a, t', u);
    case ReactivateApp(a) => ReactivationUnsettlesIff(t, users, a, t', u);
    case AssignUser(v, a, role) => AssignmentUnsettlesIff(t, users, v, a, role, t', u);
  }

  lemma AclTables(c: Config, s: State, op: Acl.Op, s': State)
    requires s' == Step(c, s, DoAcl(op)).state
    ensures s'.acl == Acl.Step(s.acl, s.users.Keys, op).tables
  {
    AclIsAdminister(c, s, op, s');
    AdministerTables(s, op);
  }

  lemma DeletionTables(c: Config, s: State, id: Id, adminId: Id, s': State)
    requires s' == Step(c, s, DoDelete(id, adminId)).state
    ensures s'.acl == if id in s.users && id != adminId then Acl.ForgetUser(s.acl, id) else s.acl
  {
    DeleteTables(s, id, adminId);
  }

  lemma DeletionUnsettlesIff(c: Config, s: State, id: Id, adminId: Id, s': State, u: Id)
    requires s' == Step(c, s, DoDelete(id, adminId)).state
    ensures Changed(s, s', u) <==> Unsettles(s, DoDelete(id, adminId), u)
  {
    DeletionTables(c, s, id, adminId, s');
    SilentCalls.Unchanged(s.acl, u);
    SilentCalls.DeletionChangesIff(s.acl, id, u);
  }

  /** A silent call leaves every verdict on access tokens as it was. */
  lemma SilentCallsKeepVerdicts(c: Config, s: State, op: Op, s': State, tok: AccessToken)
    requires SilentCall(op) && s' == Step(c, s, op).state
    ensures Accepts(s', tok) <==> Accepts(s, tok)
  {
    if op.DoAcl? {
      SilentKillsNobody(s, op.acl);
    }
  }

  lemma SilentKillsNobody(s: State, op: Acl.Op)
    requires AclProofs.Silent(op)
    ensures AdministerAcl(s, op).state.revokeBefore == s.revokeBefore
  {
    AclKills(s.acl, s.users.Keys, op);
  }

  lemma SilentCallChangesIff(c: Config, s: State, op: Op, s': State, u: Id)
    requires SilentCall(op) && !(op.DoAcl? && op.acl.RemoveFeature?) && s' == Step(c, s, op).state
    ensures Changed(s, s', u) <==> Unsettles(s, op, u)
  {
    if op.DoDelete? {
      DeletionUnsettlesIff(c, s, op.userId, op.adminId, s', u);
    } else {
      AclTables(c, s, op.acl, s');
      AclUnsettlesIff(s.acl, s.users.Keys, op.acl, s'.acl, u);
    }
  }

  ghost predicate Current(s: State, tok: AccessToken) {
    tok.appPermissions == Acl.Resolve(s.acl, tok.userId)
  }

  lemma CurrentUnlessChanged(s: State, s': State, tok: AccessToken)
    requires Current(s, tok)
    ensures Current(s', tok) <==> !Changed(s, s', tok.userId)
  {
  }

  /**
   * After a suspension, a reactivation, an assignment or a deletion an accepted, current token is accepted and stale
   * if and only if the call unsettles its user.
   */
  lemma SilentCallStaleIff(c: Config, s: State, op: Op, s': State, tok: AccessToken)
    requires SilentCall(op) && !(op.DoAcl? && op.acl.RemoveFeature?) && s' == Step(c, s, op).state
    requires Accepts(s, tok) && Current(s, tok)
    ensures Accepts(s', tok) && !Current(s', tok) <==> Unsettles(s, op, tok.userId)
  {
    SilentCallsKeepVerdicts(c, s, op, s', tok);
    SilentCallChangesIff(c, s, op, s', tok.userId);
    CurrentUnlessChanged(s, s', tok);
  }

  /** A suspended app leaves the resolution at once, but stays in every accepted token that lists it. */
  lemma SuspendedAppStaysInTokens(c: Config, s: State, appId: Id, s': State, tok: AccessToken)
    requires s' == Step(c, s, DoAcl(Acl.SuspendApp(appId))).state
    requires Accepts(s, tok) && Current(s, tok) && appId in tok.appPermissions
    ensures Accepts(s', tok) && appId !in Acl.Resolve(s'.acl, tok.userId)
  {
    SilentCallsKeepVerdicts(c, s, DoAcl(Acl.SuspendApp(appId)), s', tok);
    AclTables(c, s, Acl.SuspendApp(appId), s');
    AclProofs.SuspensionHidesApp(s.acl, s.users.Keys, appId, s'.acl, tok.userId);
  }

  /** After a feature removal it is stale if and only if the feature alone granted one of the user's keys. */
  lemma RemovalStaleIff(c: Config, s: State, featureId: Id, s': State, tok: AccessToken)
    requires s' == Step(c, s, DoAcl(Acl.RemoveFeature(featureId))).state
    requires RbacValid(s) && SilentCalls.AloneWhereUsed(s.acl, tok.userId, featureId)
    requires Accepts(s, tok) && Current(s, tok)
    ensures Accepts(s', tok) && !Current(s', tok) <==> SilentCalls.GrantedBy(s.acl, tok.userId, featureId)
  {
    SilentCallsKeepVerdicts(c, s, DoAcl(Acl.RemoveFeature(featureId)), s', tok);
    AclTables(c, s, Acl.RemoveFeature(featureId), s');
    SilentCalls.RemovalChangesIff(s.acl, s.users.Keys, featureId, s'.acl, tok.userId);
    CurrentUnlessChanged(s, s', tok);
  }

  // ---- Tracking one token ----

  /** The user was invalidated in or after the token's second, and any later second is still remembered. */
  ghost predicate Outdated(s: State, tok: AccessToken) {
    && tok.userId in s.revokeBefore
    && tok.iat <= s.revokeBefore[tok.userId].value
    && (tok.iat < s.revokeBefore[tok.userId].value ==>
          s.revokeBefore[tok.userId].expiresAt >= tok.exp * MS_PER_SECOND)
  }

  ghost predicate Tracked(s: State, tok: AccessToken) { Current(s, tok) || Outdated(s, tok) }

  /** What is known of an issued token's times in a valid state. */
  ghost predicate Timed(c: Config, s: State, tok: AccessToken) {
    && TtlCovered(c) && tok.exp == tok.iat + c.accessTtl && tok.iat <= Sec(s.now)
    && StampsOk(s.revokeBefore, s.now)
  }

  lemma OutdatedStays(c: Config, s: State, s': State, tok: AccessToken)
    requires Timed(c, s, tok) && Outdated(s, tok) && StampsMove(s.revokeBefore, s'.revokeBefore, s.now)
    ensures Outdated(s', tok)
  {
  }

  lemma KilledIsOutdated(c: Config, s: State, userIds: set<Id>, tok: AccessToken)
    requires Timed(c, s, tok) && tok.userId in userIds
    ensures Outdated(Kill(s, userIds), tok)
  {
  }

  lemma SameResolutionTracked(c: Config, s: State, s': State, tok: AccessToken)
    requires Timed(c, s, tok) && Tracked(s, tok) && StampsMove(s.revokeBefore, s'.revokeBefore, s.now)
    requires !Changed(s, s', tok.userId)
    ensures Tracked(s', tok)
  {
    if Outdated(s, tok) {
      OutdatedStays(c, s, s', tok);
    }
  }

  lemma KillingCallTracked(c: Config, s: State, op: Acl.Op, s': State, tok: AccessToken)
    requires Timed(c, s, tok) && RbacValid(s) && !AclProofs.Silent(op) && Tracked(s, tok)
    requires s' == AdministerAcl(s, op).state && StampsMove(s.revokeBefore, s'.revokeBefore, s.now)
    ensures Tracked(s', tok)
  {
    var r := Acl.Step(s.acl, s.users.Keys, op);
    if tok.userId in r.killed {
      KilledIsOutdated(c, s.(acl := r.tables), r.killed, tok);
    } else {
      AdministerTables(s, op);
      AclProofs.InvalidationComplete(s.acl, s.users.Keys, op, tok.userId);
      SameResolutionTracked(c, s, s', tok);
    }
  }

  lemma StepTracked(c: Config, s: State, op: Op, s': State, tok: AccessToken)
    requires Timed(c, s, tok) && RbacValid(s) && Tracked(s, tok) && s' == Step(c, s, op).state
    requires SilentCall(op) ==> !Changed(s, s', tok.userId)
    ensures Tracked(s', tok)
  {
    StepMoves(c, s, op, s');
    if op.DoAcl? && !SilentCall(op) {
      AclIsAdminister(c, s, op.acl, s');
      KillingCallTracked(c, s, op.acl, s', tok);
    } else {
      if !SilentCall(op) {
        StepFrame(c, s, op, s');
        SilentCalls.Unchanged(s.acl, tok.userId);
      }
      SameResolutionTracked(c, s, s', tok);
    }
  }

  /** No call of this run unsettles the user. */
  ghost predicate Settled(c: Config, s: State, ops: seq<Op>, u: Id) {
    ops == [] ||
    (Settled(c, s, ops[..|ops| - 1], u) && !Unsettles(Run(c, s, ops[..|ops| - 1]), ops[|ops| - 1], u))
  }

  lemma SettledRemoval(c: Config, s: State, featureId: Id, s': State, u: Id)
    requires RbacValid(s) && !SilentCalls.InUse(s.acl, u, featureId)
    requires s' == Step(c, s, DoAcl(Acl.RemoveFeature(featureId))).state
    ensures !Changed(s, s', u)
  {
    AclTables(c, s, Acl.RemoveFeature(featureId), s');
    SilentCalls.UnusedRemovalKeepsResolution(s.acl, s.users.Keys, featureId, s'.acl, u);
  }

  lemma RemovalUnsettles(s: State, featureId: Id, u: Id)
    ensures Unsettles(s, DoAcl(Acl.RemoveFeature(featureId)), u) <==> SilentCalls.InUse(s.acl, u, featureId)
  {
  }

  lemma SettledStep(c: Config, s: State, op: Op, s': State, u: Id)
    requires RbacValid(s) && SilentCall(op) && !Unsettles(s, op, u) && s' == Step(c, s, op).state
    ensures !Changed(s, s', u)
  {
    if op.DoAcl? && op.acl.RemoveFeature? {
      RemovalUnsettles(s, op.acl.featureId, u);
      SettledRemoval(c, s, op.acl.featureId, s', u);
    } else {
      SilentCallChangesIff(c, s, op, s', u);
    }
  }

  lemma TimedInValid(c: Config, s: State, tok: AccessToken)
    requires Valid(c, s) && TtlCovered(c) && tok in s.issued
    ensures Timed(c, s, tok)
  {
  }

  /** From any valid state on, a tracked token stays tracked for as long as no silent call unsettles its user. */
  lemma {:induction false} RunTracked(c: Config, s: State, ops: seq<Op>, tok: AccessToken)
    requires Valid(c, s) && RbacValid(s) && TtlCovered(c) && tok in s.issued && Tracked(s, tok)
    requires Settled(c, s, ops, tok.userId)
    ensures tok in Run(c, s, ops).issued && Tracked(Run(c, s, ops), tok)
  {
    if ops == [] {
    } else {
      var init, op := ops[..|ops| - 1], ops[|ops| - 1];
      var mid, s' := Run(c, s, init), Run(c, s, ops);
      RunTracked(c, s, init, tok);
      RunValid(c, s, init);
      RunRbac(c, s, init);
      TimedInValid(c, mid, tok);
      IssuedGrows(c, mid, op, s');
      if SilentCall(op) {
        SettledStep(c, mid, op, s', tok.userId);
      }
      StepTracked(c, mid, op, s', tok);
    }
  }

  lemma AcceptedTracked(s: State, tok: AccessToken)
    requires Accepts(s, tok) && Tracked(s, tok)
    ensures CurrentOrSameSecond(s, tok)
  {
  }

  /**
   * What the token lists is what its user resolves to now, or it was signed in the second of the latest invalidation.
   */
  ghost predicate CurrentOrSameSecond(s: State, tok: AccessToken) {
    || tok.appPermissions == Acl.Resolve(s.acl, tok.userId)
    || (tok.userId in s.revokeBefore && tok.iat == s.revokeBefore[tok.userId].value)
  }

  lemma SigningStep(c: Config, s: State, op: Op, s': State, tok: AccessToken)
    requires RowsOwned(s.users, s.refresh) && s' == Step(c, s, op).state && tok in s'.issued && tok !in s.issued
    ensures Current(s', tok)
  {
    StepIssues(c, s, op, s', tok);
  }

  lemma SignedThenAccepted(c: Config, s: State, op: Op, s': State, after: seq<Op>, end: State, tok: AccessToken)
    requires Valid(c, s) && RbacValid(s) && TtlCovered(c)
    requires s' == Step(c, s, op).state && tok !in s.issued && tok in s'.issued
    requires end == Run(c, s', after) && Settled(c, s', after, tok.userId) && Accepts(end, tok)
    ensures CurrentOrSameSecond(end, tok)
  {
    StepValid(c, s, op, s');
    StepRbac(c, s, op, s');
    SigningStep(c, s, op, s', tok);
    RunTracked(c, s', after, tok);
    AcceptedTracked(end, tok);
  }

  lemma RunThrough(c: Config, s: State, before: seq<Op>, op: Op, after: seq<Op>)
    ensures Run(c, s, before + [op] + after) == Run(c, Step(c, Run(c, s, before), op).state, after)
  {
    RunSnoc(c, s, before, op);
    RunAppend(c, s, before + [op], after);
  }

  /** Since the signing no call has unsettled the user. */
  ghost predicate SettledSince(c: Config, g: Signing, u: Id) {
    Settled(c, Step(c, Run(c, Init, g.before), g.op).state, g.after, u)
  }

  lemma ReachableSound(c: Config, ops: seq<Op>)
    requires ValidConfig(c)
    ensures Valid(c, Run(c, Init, ops)) && RbacValid(Run(c, Init, ops))
  {
    InitValid(c);
    RunValid(c, Init, ops);
    RunRbac(c, Init, ops);
  }

  /**
   * In every run, for every accepted token: it was signed by some call, and unless a silent call unsettled its user
   * since, it carries exactly what the user resolves to now, or it was signed in the very second of the user's latest
   * invalidation. Before the signing, and for other users at any time, every call is allowed.
   */
  lemma AcceptedSnapshotsAreCurrent(c: Config, ops: seq<Op>, tok: AccessToken) returns (g: Signing)
    requires ValidConfig(c) && TtlCovered(c) && Accepts(Run(c, Init, ops), tok)
    ensures SignedBy(c, ops, g, tok)
    ensures SettledSince(c, g, tok.userId) ==> CurrentOrSameSecond(Run(c, Init, ops), tok)
  {
    g := IssuedOnlyToVerifiedActive(c, ops, tok);
    if SettledSince(c, g, tok.userId) {
      var s := Run(c, Init, g.before);
      ReachableSound(c, g.before);
      RunThrough(c, Init, g.before, g.op, g.after);
      SignedThenAccepted(c, s, g.op, Step(c, s, g.op).state, g.after, Run(c, Init, ops), tok);
    }
  }
}
