/** The RBAC tables over whole session runs: role versions, access rows and sync requests. */
module RbacRuns {
  import opened Basics
  import opened Session
  import opened SessionInvariant
  import opened Snapshots
  import Acl
  import AclProofs

  // ---- Role versions ----

  /** The call deletes a feature that the role has at that moment. */
  predicate TakesFrom(s: State, op: Op, roleId: Id) {
    op.DoAcl? && AclProofs.Takes(s.acl, op.acl, roleId)
  }

  /** No call of this run deletes a feature of the role. */
  ghost predicate NothingTaken(c: Config, s: State, ops: seq<Op>, roleId: Id) {
    ops == [] ||
    (NothingTaken(c, s, ops[..|ops| - 1], roleId) && !TakesFrom(Run(c, s, ops[..|ops| - 1]), ops[|ops| - 1], roleId))
  }

  /** What one call does to a role that survives it. */
  ghost predicate RoleMoves(t: Acl.Tables, t': Acl.Tables, roleId: Id, taken: bool) {
    && roleId in t.roles && roleId in t'.roles && t.nextId <= t'.nextId
    && t.roles[roleId].version <= t'.roles[roleId].version
    && (t'.roles[roleId].version == t.roles[roleId].version ==>
          if taken then |t'.roles[roleId].features| < |t.roles[roleId].features| else AclProofs.RoleKept(t, t', roleId))
  }

  lemma KeptRoles(t: Acl.Tables, t': Acl.Tables, roleId: Id)
    requires t'.roles == t.roles && t'.features == t.features && t'.nextId == t.nextId && roleId in t.roles
    ensures RoleMoves(t, t', roleId, false)
  {
  }

  lemma StepRole(c: Config, s: State, op: Op, s': State, roleId: Id)
    requires RbacValid(s) && roleId < s.acl.nextId && s' == Step(c, s, op).state && roleId in s'.acl.roles
    ensures RoleMoves(s.acl, s'.acl, roleId, TakesFrom(s, op, roleId))
  {
    if op.DoAcl? {
      AclTables(c, s, op.acl, s');
      AclProofs.RoleStep(s.acl, s.users.Keys, op.acl, s'.acl, roleId);
    } else {
      OtherTables(c, s, op, s');
      KeptRoles(s.acl, s'.acl, roleId);
    }
  }

  /** Outside RBAC calls only a deletion touches the tables, and only their access rows. */
  lemma OtherTables(c: Config, s: State, op: Op, s': State)
    requires s' == Step(c, s, op).state && !op.DoAcl?
    ensures s'.acl == s.acl.(userApps := s'.acl.userApps)
  {
    if op.DoDelete? {
      DeletionTables(c, s, op.userId, op.adminId, s');
    } else {
      StepFrame(c, s, op, s');
    }
  }

  lemma MovesTwice(a: Acl.Tables, b: Acl.Tables, t: Acl.Tables, roleId: Id, first: bool, second: bool)
    requires RoleMoves(a, b, roleId, first) && RoleMoves(b, t, roleId, second)
    ensures RoleMoves(a, t, roleId, first || second)
  {
  }

  /**
   * Between two moments of any run a surviving role's version never falls, and at an equal version the role is
   * unchanged unless one of its features was deleted.
   */
  lemma {:induction false} RunRole(c: Config, s: State, ops: seq<Op>, roleId: Id)
    requires RbacValid(s) && roleId < s.acl.nextId && roleId in Run(c, s, ops).acl.roles
    ensures RoleMoves(s.acl, Run(c, s, ops).acl, roleId, !NothingTaken(c, s, ops, roleId))
  {
    if ops == [] {
      KeptRoles(s.acl, s.acl, roleId);
    } else {
      var init, op := ops[..|ops| - 1], ops[|ops| - 1];
      var mid, s' := Run(c, s, init), Run(c, s, ops);
      RunRbac(c, s, init);
      RunAclIds(c, s, init);
      StepRole(c, mid, op, s', roleId);
      RunRole(c, s, init, roleId);
      MovesTwice(s.acl, mid.acl, s'.acl, roleId, !NothingTaken(c, s, init, roleId), TakesFrom(mid, op, roleId));
    }
  }

  lemma StepAclIds(c: Config, s: State, op: Op, s': State)
    requires s' == Step(c, s, op).state
    ensures s.acl.nextId <= s'.acl.nextId
  {
    if op.DoAcl? {
      AclTables(c, s, op.acl, s');
      AclProofs.StepIds(s.acl, s.users.Keys, op.acl, s'.acl);
    } else {
      OtherTables(c, s, op, s');
    }
  }

  lemma {:induction false} RunAclIds(c: Config, s: State, ops: seq<Op>)
    ensures s.acl.nextId <= Run(c, s, ops).acl.nextId
  {
    if ops == [] {
    } else {
      RunAclIds(c, s, ops[..|ops| - 1]);
      StepAclIds(c, Run(c, s, ops[..|ops| - 1]), ops[|ops| - 1], Run(c, s, ops));
    }
  }

  /**
   * Equal versions at two moments of a run mean equal roles if and only if no feature of the role was deleted in
   * between.
   */
  lemma EqualVersionsIff(c: Config, s: State, ops: seq<Op>, roleId: Id)
    requires RbacValid(s) && roleId in s.acl.roles && roleId in Run(c, s, ops).acl.roles
    requires Run(c, s, ops).acl.roles[roleId].version == s.acl.roles[roleId].version
    ensures Run(c, s, ops).acl.roles[roleId] == s.acl.roles[roleId] <==> NothingTaken(c, s, ops, roleId)
  {
    RunRole(c, s, ops, roleId);
  }

  /**
   * A token signed in `s` is checked later in the run: if the stale flag is down for an app, and the user still holds
   * the same role there, of which no feature was deleted, then the role's name, version and feature keys are still
   * those the snapshot was made from.
   */
  lemma NotStaleInRun(c: Config, s: State, ops: seq<Op>, tok: AccessToken, appId: Id)
    requires RbacValid(s) && SignedIn(c, s, tok)
    requires appId in tok.appPermissions && Acl.ResolveForApp(Run(c, s, ops).acl, tok.userId, appId).Some?
    requires SameRoleRow(s.acl, Run(c, s, ops).acl, tok.userId, appId)
    requires var role := s.acl.userApps[(tok.userId, appId)].roleId; role.Some? ==> NothingTaken(c, s, ops, role.value)
    requires !Acl.PermissionsStale(Run(c, s, ops).acl, tok.userId, appId, Some(tok.appPermissions[appId].roleVersion))
    ensures SameRolePart(s.acl, Run(c, s, ops).acl, tok.userId, appId)
  {
    var role := s.acl.userApps[(tok.userId, appId)].roleId;
    assert Acl.UserAppValid(s.acl, appId, s.acl.userApps[(tok.userId, appId)]);
    if role.Some? {
      RunRole(c, s, ops, role.value);
    }
    AclProofs.NotStaleMeansRoleCurrent(s.acl, Run(c, s, ops).acl, s.users.Keys, tok.userId, appId);
  }

  /** The access rows resolve to the same role, with the same feature keys. */
  ghost predicate SameRolePart(t: Acl.Tables, t': Acl.Tables, userId: Id, appId: Id) {
    && (userId, appId) in t.userApps && (userId, appId) in t'.userApps
    && Acl.RoleOf(t', t'.userApps[(userId, appId)]) == Acl.RoleOf(t, t.userApps[(userId, appId)])
    && Acl.RoleKeys(t', Acl.RoleOf(t', t'.userApps[(userId, appId)])) ==
       Acl.RoleKeys(t, Acl.RoleOf(t, t.userApps[(userId, appId)]))
  }

  /** The user's access row names the same role, and that role has not been deleted. */
  ghost predicate SameRoleRow(t: Acl.Tables, t': Acl.Tables, userId: Id, appId: Id) {
    && (userId, appId) in t.userApps && (userId, appId) in t'.userApps
    && t'.userApps[(userId, appId)].roleId == t.userApps[(userId, appId)].roleId
    && (t.userApps[(userId, appId)].roleId.Some? ==> t.userApps[(userId, appId)].roleId.value in t'.roles)
  }

  /** In every run, the role of a user's access to an app is a role of that app. */
  lemma RoleBelongsToApp(c: Config, ops: seq<Op>, userId: Id, appId: Id)
    requires (userId, appId) in Run(c, Init, ops).acl.userApps
    requires Run(c, Init, ops).acl.userApps[(userId, appId)].roleId.Some?
    ensures Acl.RoleInApp(Run(c, Init, ops).acl, Run(c, Init, ops).acl.userApps[(userId, appId)].roleId.value, appId)
  {
    RunRbac(c, Init, ops);
    var t := Run(c, Init, ops).acl;
    assert Acl.UserAppValid(t, appId, t.userApps[(userId, appId)]);
  }

  // ---- Sync requests ----

  ghost predicate Decided(t: Acl.Tables, id: Id, request: Acl.SyncRequest) {
    id in t.requests && t.requests[id] == request && request.status != Acl.SyncPending
  }

  lemma StepKeepsDecided(c: Config, s: State, op: Op, s': State, id: Id, request: Acl.SyncRequest)
    requires RbacValid(s) && Decided(s.acl, id, request) && s' == Step(c, s, op).state
    ensures Decided(s'.acl, id, request)
  {
    if op.DoAcl? {
      AclTables(c, s, op.acl, s');
      AclProofs.SyncDecidedOnce(s.acl, s.users.Keys, op.acl, Acl.Step(s.acl, s.users.Keys, op.acl), id);
    } else {
      OtherTables(c, s, op, s');
    }
  }

  /** Once approved or rejected, a sync request never changes again, and no later approval applies its manifest. */
  lemma {:induction false} DecidedForever(c: Config, s: State, ops: seq<Op>, id: Id, request: Acl.SyncRequest)
    requires RbacValid(s) && Decided(s.acl, id, request)
    ensures Decided(Run(c, s, ops).acl, id, request)
    ensures Acl.Review(Run(c, s, ops).acl, id, true) == Acl.Fail(Run(c, s, ops).acl, Validation)
  {
    if ops == [] {
    } else {
      var mid := Run(c, s, ops[..|ops| - 1]);
      DecidedForever(c, s, ops[..|ops| - 1], id, request);
      RunRbac(c, s, ops[..|ops| - 1]);
      StepKeepsDecided(c, mid, ops[|ops| - 1], Run(c, s, ops), id, request);
    }
  }
}
