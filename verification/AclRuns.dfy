/** The RBAC tables over whole runs, told by what the administrators last said. */
module AclRuns {
  import opened Basics
  import opened Session
  import opened SessionInvariant
  import opened AclEffects
  import Acl
  import AclProofs
  import Credentials
  import Features
  import RbacRuns
  import SilentCalls
  import Snapshots

  // ---- The features of a role ----

  /** Whether the role has the feature after this call, given whether it had it before. */
  predicate RoleHasAfter(op: Acl.Op, ok: bool, roleId: Id, f: Id, had: bool) {
    if !ok then had
    else if op.SetRoleFeatures? && op.roleId == roleId then f in op.featureIds
    else if op.RemoveFeature? && op.featureId == f then false
    else had
  }

  lemma StepRoleHas(t: Acl.Tables, users: set<Id>, op: Acl.Op, r: Acl.Reply, roleId: Id, f: Id)
    requires Acl.Valid(t, users) && r == Acl.Step(t, users, op) && roleId in t.roles && roleId in r.tables.roles
    ensures f in r.tables.roles[roleId].features <==>
      RoleHasAfter(op, r.result.Ok?, roleId, f, f in t.roles[roleId].features)
  {
    if op.SetRoleFeatures? {
      RoleHasExactly(t, users, op.roleId, op.featureIds, r);
    } else if op.RemoveFeature? {
      FeatureIsRemoved(t, users, op.featureId, r);
    } else {
      OthersKeepRoleFeatures(t, users, op, r, roleId);
    }
  }

  lemma OthersKeepRoleFeatures(t: Acl.Tables, users: set<Id>, op: Acl.Op, r: Acl.Reply, roleId: Id)
    requires !op.SetRoleFeatures? && !op.RemoveFeature? && r == Acl.Step(t, users, op)
    requires Acl.Valid(t, users) && roleId in t.roles && roleId in r.tables.roles
    ensures r.tables.roles[roleId].features == t.roles[roleId].features
  {
    match op
    case CreateRole(a, name, info) => RoleIsCreated(t, users, a, name, info, r);
    case UpdateRole(q, edit) => RoleIsEdited(t, users, q, edit, r);
    case DeleteRole(q) => RoleIsDeleted(t, users, q, r);
    case _ => OthersKeepRoles(t, users, op, r);
  }

  lemma OthersKeepRoles(t: Acl.Tables, users: set<Id>, op: Acl.Op, r: Acl.Reply)
    requires !op.SetRoleFeatures? && !op.RemoveFeature? && !op.CreateRole? && !op.UpdateRole? && !op.DeleteRole?
    requires r == Acl.Step(t, users, op)
    ensures r.tables.roles == t.roles
  {
  }

  /** Whether the role has the feature, told by the last setting of its features and the removals since. */
  ghost predicate HasFeatureAfter(c: Config, s: State, ops: seq<Op>, roleId: Id, f: Id) {
    if ops == [] then roleId in s.acl.roles && f in s.acl.roles[roleId].features
    else
      var init, op := ops[..|ops| - 1], ops[|ops| - 1];
      var had := HasFeatureAfter(c, s, init, roleId, f);
      if op.DoAcl? then RoleHasAfter(op.acl, Credentials.Succeeds(c, Run(c, s, init), op), roleId, f, had) else had
  }

  lemma AclReply(c: Config, s: State, op: Acl.Op, r: Reply)
    requires r == Step(c, s, DoAcl(op))
    ensures r.state.acl == Acl.Step(s.acl, s.users.Keys, op).tables
    ensures r.outcome.Fail? <==> Acl.Step(s.acl, s.users.Keys, op).result.Err?
  {
    Snapshots.AclTables(c, s, op, r.state);
  }

  lemma StepFeatures(c: Config, s: State, op: Op, r: Reply, roleId: Id, f: Id)
    requires Snapshots.RbacValid(s) && r == Step(c, s, op) && roleId in s.acl.roles && roleId in r.state.acl.roles
    ensures f in r.state.acl.roles[roleId].features <==>
      if op.DoAcl? then RoleHasAfter(op.acl, !r.outcome.Fail?, roleId, f, f in s.acl.roles[roleId].features)
      else f in s.acl.roles[roleId].features
  {
    if op.DoAcl? {
      AclReply(c, s, op.acl, r);
      StepRoleHas(s.acl, s.users.Keys, op.acl, Acl.Step(s.acl, s.users.Keys, op.acl), roleId, f);
    } else {
      RbacRuns.OtherTables(c, s, op, r.state);
    }
  }

  lemma StillThere(c: Config, s: State, op: Op, s': State, roleId: Id)
    requires Snapshots.RbacValid(s) && s' == Step(c, s, op).state && roleId < s.acl.nextId && roleId in s'.acl.roles
    ensures roleId in s.acl.roles
  {
    RbacRuns.StepRole(c, s, op, s', roleId);
  }

  /**
   * Through any run a role has exactly the features of the last setting, less those removed since; or, if there was no
   * setting, less those it had at the start.
   */
  lemma {:induction false} FeatureInRoleIff(c: Config, s: State, ops: seq<Op>, roleId: Id, f: Id)
    requires Snapshots.RbacValid(s) && roleId in s.acl.roles && roleId in Run(c, s, ops).acl.roles
    ensures f in Run(c, s, ops).acl.roles[roleId].features <==> HasFeatureAfter(c, s, ops, roleId, f)
  {
    if ops == [] {
    } else {
      var init, op := ops[..|ops| - 1], ops[|ops| - 1];
      var mid := Run(c, s, init);
      Snapshots.RunRbac(c, s, init);
      RbacRuns.RunAclIds(c, s, init);
      StillThere(c, mid, op, Run(c, s, ops), roleId);
      FeatureInRoleIff(c, s, init, roleId, f);
      StepFeatures(c, mid, op, Step(c, mid, op), roleId, f);
    }
  }

  // ---- Access to an app ----

  /** A user's access to an app: the role, and whether it is switched on. */
  datatype Access = Access(role: Option<Id>, isActive: bool)

  function AccessOf(t: Acl.Tables, u: Id, a: Id): Option<Access> {
    if (u, a) in t.userApps then Some(Access(t.userApps[(u, a)].roleId, t.userApps[(u, a)].isActive)) else None
  }

  /** What this call makes of the user's access to the app. */
  function AccessAfter(op: Acl.Op, ok: bool, u: Id, a: Id, had: Option<Access>): Option<Access> {
    if !ok then had
    else match op
      case AssignUser(v, b, role) => if (v, b) == (u, a) then Some(Access(role, true)) else had
      case RemoveUser(v, b) => if (v, b) == (u, a) then None else had
      case UpdateUserApp(v, b, change, isActive) =>
        if (v, b) != (u, a) || had.None? then had
        else
          var role := match change case SetRole(r) => Some(r) case ClearRole => None case KeepRole => had.value.role;
          Some(Access(role, GetOr(isActive, had.value.isActive)))
      case DeleteRole(roleId) =>
        if had.Some? && had.value.role == Some(roleId) then Some(had.value.(role := None)) else had
      case _ => had
  }

  lemma StepAccess(t: Acl.Tables, users: set<Id>, op: Acl.Op, r: Acl.Reply, u: Id, a: Id)
    requires Acl.Valid(t, users) && r == Acl.Step(t, users, op)
    ensures AccessOf(r.tables, u, a) == AccessAfter(op, r.result.Ok?, u, a, AccessOf(t, u, a))
  {
    if op.RemoveFeature? {
      RemovalKeepsAccess(t, users, op.featureId, r, u, a);
    } else if op.DeleteRole? {
      RoleIsDeleted(t, users, op.roleId, r);
    } else if TouchesAccess(op) {
      AccessCallOnAccess(t, users, op, r, u, a);
    } else {
      OthersKeepAccess(t, users, op, r);
    }
  }

  predicate TouchesAccess(op: Acl.Op) { op.AssignUser? || op.RemoveUser? || op.UpdateUserApp? || op.SetOverrides? }

  lemma AccessCallOnAccess(t: Acl.Tables, users: set<Id>, op: Acl.Op, r: Acl.Reply, u: Id, a: Id)
    requires TouchesAccess(op) && r == Acl.Step(t, users, op)
    ensures AccessOf(r.tables, u, a) == AccessAfter(op, r.result.Ok?, u, a, AccessOf(t, u, a))
  {
    match op
    case AssignUser(v, b, role) => AssignmentGives(t, users, v, b, role, r);
    case RemoveUser(v, b) => RemovalTakes(t, users, v, b, r);
    case UpdateUserApp(v, b, change, isActive) => AccessChanges(t, users, v, b, change, isActive, r);
    case SetOverrides(v, b, ovs) => OverridesReplace(t, users, v, b, ovs, r);
  }

  lemma OthersKeepAccess(t: Acl.Tables, users: set<Id>, op: Acl.Op, r: Acl.Reply)
    requires !TouchesAccess(op) && !op.RemoveFeature? && !op.DeleteRole? && r == Acl.Step(t, users, op)
    ensures r.tables.userApps == t.userApps
  {
  }

  lemma RemovalKeepsAccess(t: Acl.Tables, users: set<Id>, f: Id, r: Acl.Reply, u: Id, a: Id)
    requires r == Acl.Step(t, users, Acl.RemoveFeature(f))
    ensures AccessOf(r.tables, u, a) == AccessOf(t, u, a)
  {
  }

  /** The user's access to the app, told by the calls that gave, changed or took it. */
  ghost function LastAccess(c: Config, s: State, ops: seq<Op>, u: Id, a: Id): Option<Access> {
    if ops == [] then AccessOf(s.acl, u, a)
    else
      var init, op := ops[..|ops| - 1], ops[|ops| - 1];
      var had, ok := LastAccess(c, s, init, u, a), Credentials.Succeeds(c, Run(c, s, init), op);
      if op.DoAcl? then AccessAfter(op.acl, ok, u, a, had)
      else if op.DoDelete? && op.userId == u && ok then None
      else had
  }

  lemma DeletionOnAccess(c: Config, s: State, op: Op, r: Reply, u: Id, a: Id)
    requires op.DoDelete? && r == Step(c, s, op)
    ensures AccessOf(r.state.acl, u, a) ==
      if op.userId == u && !r.outcome.Fail? then None else AccessOf(s.acl, u, a)
  {
  }

  lemma CallOnAccess(c: Config, s: State, op: Op, r: Reply, u: Id, a: Id)
    requires Snapshots.RbacValid(s) && r == Step(c, s, op)
    ensures AccessOf(r.state.acl, u, a) ==
      if op.DoAcl? then AccessAfter(op.acl, !r.outcome.Fail?, u, a, AccessOf(s.acl, u, a))
      else if op.DoDelete? && op.userId == u && !r.outcome.Fail? then None
      else AccessOf(s.acl, u, a)
  {
    if op.DoAcl? {
      AclReply(c, s, op.acl, r);
      StepAccess(s.acl, s.users.Keys, op.acl, Acl.Step(s.acl, s.users.Keys, op.acl), u, a);
    } else if op.DoDelete? {
      DeletionOnAccess(c, s, op, r, u, a);
    } else {
      StepFrame(c, s, op, r.state);
    }
  }

  /** Through any run a user's access to an app is what the last call about it said. */
  lemma {:induction false} AccessIsLastGiven(c: Config, s: State, ops: seq<Op>, u: Id, a: Id)
    requires Snapshots.RbacValid(s)
    ensures AccessOf(Run(c, s, ops).acl, u, a) == LastAccess(c, s, ops, u, a)
  {
    if ops == [] {
    } else {
      var init, op := ops[..|ops| - 1], ops[|ops| - 1];
      AccessIsLastGiven(c, s, init, u, a);
      Snapshots.RunRbac(c, s, init);
      CallOnAccess(c, Run(c, s, init), op, Step(c, Run(c, s, init), op), u, a);
    }
  }

  // ---- Overrides ----

  predicate HasOverride(t: Acl.Tables, u: Id, a: Id, o: Acl.FeatureOverride) {
    (u, a) in t.userApps && o in t.userApps[(u, a)].overrides
  }

  predicate OverrideAfter(op: Acl.Op, ok: bool, u: Id, a: Id, o: Acl.FeatureOverride, had: bool) {
    if !ok then had
    else match op
      case SetOverrides(v, b, ovs) => if (v, b) == (u, a) then o in ovs else had
      case AssignUser(v, b, _) => (v, b) != (u, a) && had
      case RemoveUser(v, b) => (v, b) != (u, a) && had
      case RemoveFeature(f) => f != o.featureId && had
      case _ => had
  }

  lemma StepOverride(t: Acl.Tables, users: set<Id>, op: Acl.Op, r: Acl.Reply, u: Id, a: Id, o: Acl.FeatureOverride)
    requires Acl.Valid(t, users) && r == Acl.Step(t, users, op)
    ensures HasOverride(r.tables, u, a, o) <==> OverrideAfter(op, r.result.Ok?, u, a, o, HasOverride(t, u, a, o))
  {
    if op.RemoveFeature? || op.DeleteRole? {
      TableCallOnOverride(t, users, op, r, u, a, o);
    } else if TouchesAccess(op) {
      AccessCallOnOverride(t, users, op, r, u, a, o);
    } else {
      OthersKeepAccess(t, users, op, r);
    }
  }

  lemma TableCallOnOverride(t: Acl.Tables, users: set<Id>, op: Acl.Op, r: Acl.Reply, u: Id, a: Id,
      o: Acl.FeatureOverride)
    requires (op.RemoveFeature? || op.DeleteRole?) && r == Acl.Step(t, users, op)
    ensures HasOverride(r.tables, u, a, o) <==> OverrideAfter(op, r.result.Ok?, u, a, o, HasOverride(t, u, a, o))
  {
    if op.RemoveFeature? {
      FeatureIsRemoved(t, users, op.featureId, r);
    } else {
      RoleIsDeleted(t, users, op.roleId, r);
    }
  }

  lemma AccessCallOnOverride(t: Acl.Tables, users: set<Id>, op: Acl.Op, r: Acl.Reply, u: Id, a: Id,
      o: Acl.FeatureOverride)
    requires TouchesAccess(op) && r == Acl.Step(t, users, op)
    ensures HasOverride(r.tables, u, a, o) <==> OverrideAfter(op, r.result.Ok?, u, a, o, HasOverride(t, u, a, o))
  {
    match op
    case AssignUser(v, b, role) => AssignmentGives(t, users, v, b, role, r);
    case RemoveUser(v, b) => RemovalTakes(t, users, v, b, r);
    case UpdateUserApp(v, b, change, isActive) => AccessChanges(t, users, v, b, change, isActive, r);
    case SetOverrides(v, b, ovs) => OverridesReplace(t, users, v, b, ovs, r);
  }

  /** Whether this override stands, told by the last setting and what has been removed since. */
  ghost predicate OverrideStands(c: Config, s: State, ops: seq<Op>, u: Id, a: Id, o: Acl.FeatureOverride) {
    if ops == [] then HasOverride(s.acl, u, a, o)
    else
      var init, op := ops[..|ops| - 1], ops[|ops| - 1];
      var had, ok := OverrideStands(c, s, init, u, a, o), Credentials.Succeeds(c, Run(c, s, init), op);
      if op.DoAcl? then OverrideAfter(op.acl, ok, u, a, o, had)
      else !(op.DoDelete? && op.userId == u && ok) && had
  }

  lemma CallOnOverride(c: Config, s: State, op: Op, r: Reply, u: Id, a: Id, o: Acl.FeatureOverride)
    requires Snapshots.RbacValid(s) && r == Step(c, s, op)
    ensures HasOverride(r.state.acl, u, a, o) <==>
      if op.DoAcl? then OverrideAfter(op.acl, !r.outcome.Fail?, u, a, o, HasOverride(s.acl, u, a, o))
      else !(op.DoDelete? && op.userId == u && !r.outcome.Fail?) && HasOverride(s.acl, u, a, o)
  {
    if op.DoAcl? {
      AclReply(c, s, op.acl, r);
      StepOverride(s.acl, s.users.Keys, op.acl, Acl.Step(s.acl, s.users.Keys, op.acl), u, a, o);
    } else if op.DoDelete? {
      DeletionOnOverride(c, s, op, r, u, a, o);
    } else {
      StepFrame(c, s, op, r.state);
    }
  }

  lemma DeletionOnOverride(c: Config, s: State, op: Op, r: Reply, u: Id, a: Id, o: Acl.FeatureOverride)
    requires op.DoDelete? && r == Step(c, s, op)
    ensures HasOverride(r.state.acl, u, a, o) <==>
      !(op.userId == u && !r.outcome.Fail?) && HasOverride(s.acl, u, a, o)
  {
  }

  /** Through any run the overrides of a user's access are those last set, less those on features removed since. */
  lemma {:induction false} OverridesAreLastSet(c: Config, s: State, ops: seq<Op>, u: Id, a: Id, o: Acl.FeatureOverride)
    requires Snapshots.RbacValid(s)
    ensures HasOverride(Run(c, s, ops).acl, u, a, o) <==> OverrideStands(c, s, ops, u, a, o)
  {
    if ops == [] {
    } else {
      var init, op := ops[..|ops| - 1], ops[|ops| - 1];
      OverridesAreLastSet(c, s, init, u, a, o);
      Snapshots.RunRbac(c, s, init);
      CallOnOverride(c, Run(c, s, init), op, Step(c, Run(c, s, init), op), u, a, o);
    }
  }

  // ---- Feature keys ----

  /** Whether the app has the key after this call: additions and approvals give keys, removals take them. */
  predicate KeyAfter(t: Acl.Tables, op: Acl.Op, ok: bool, ak: Features.FeatureKey, had: bool) {
    if !ok then had
    else match op
      case AddFeature(a, f) => ak == (a, f.key) || had
      case ApproveSync(q) =>
        had || (q in t.requests && ak in Features.Submitted(t.requests[q].appId, t.requests[q].features))
      case RemoveFeature(f) => !(f in t.features.byId && t.features.byId[f] == ak) && had
      case _ => had
  }

  lemma StepKey(t: Acl.Tables, users: set<Id>, op: Acl.Op, r: Acl.Reply, ak: Features.FeatureKey)
    requires Acl.Valid(t, users) && r == Acl.Step(t, users, op)
    ensures ak in r.tables.features.rows <==> KeyAfter(t, op, r.result.Ok?, ak, ak in t.features.rows)
  {
    match op
    case AddFeature(a, f) => FeatureIsAdded(t, users, a, f, r);
    case UpdateFeature(f, name, description) => FeatureIsEdited(t, users, f, name, description, r);
    case RemoveFeature(f) => FeatureIsRemoved(t, users, f, r);
    case ApproveSync(q) =>
      ReviewIff(t, users, op, r);
      if r.result.Ok? {
        ApprovalApplies(t, users, q, r.tables);
      }
    case _ => OthersKeepFeatures(t, users, op, r);
  }

  lemma OthersKeepFeatures(t: Acl.Tables, users: set<Id>, op: Acl.Op, r: Acl.Reply)
    requires !op.AddFeature? && !op.UpdateFeature? && !op.RemoveFeature? && !op.ApproveSync?
    requires r == Acl.Step(t, users, op)
    ensures r.tables.features == t.features
  {
  }

  ghost predicate HasKeyAfter(c: Config, s: State, ops: seq<Op>, ak: Features.FeatureKey) {
    if ops == [] then ak in s.acl.features.rows
    else
      var init, op := ops[..|ops| - 1], ops[|ops| - 1];
      var mid, had := Run(c, s, init), HasKeyAfter(c, s, init, ak);
      if op.DoAcl? then KeyAfter(mid.acl, op.acl, Credentials.Succeeds(c, mid, op), ak, had) else had
  }

  lemma CallOnKey(c: Config, s: State, op: Op, r: Reply, ak: Features.FeatureKey)
    requires Snapshots.RbacValid(s) && r == Step(c, s, op)
    ensures ak in r.state.acl.features.rows <==>
      if op.DoAcl? then KeyAfter(s.acl, op.acl, !r.outcome.Fail?, ak, ak in s.acl.features.rows)
      else ak in s.acl.features.rows
  {
    if op.DoAcl? {
      AclReply(c, s, op.acl, r);
      StepKey(s.acl, s.users.Keys, op.acl, Acl.Step(s.acl, s.users.Keys, op.acl), ak);
    } else {
      RbacRuns.OtherTables(c, s, op, r.state);
    }
  }

  /** Through any run an app has exactly the keys that were added or approved last, and not removed since. */
  lemma {:induction false} KeysAreLastGiven(c: Config, s: State, ops: seq<Op>, ak: Features.FeatureKey)
    requires Snapshots.RbacValid(s)
    ensures ak in Run(c, s, ops).acl.features.rows <==> HasKeyAfter(c, s, ops, ak)
  {
    if ops == [] {
    } else {
      var init, op := ops[..|ops| - 1], ops[|ops| - 1];
      KeysAreLastGiven(c, s, init, ak);
      Snapshots.RunRbac(c, s, init);
      CallOnKey(c, Run(c, s, init), op, Step(c, Run(c, s, init), op), ak);
    }
  }

  // ---- App status ----

  /** Whether the app is active after this call. */
  predicate ActiveAfter(op: Acl.Op, ok: bool, a: Id, had: bool) {
    if !ok then had
    else if op.SuspendApp? && op.appId == a then false
    else if op.ReactivateApp? && op.appId == a then true
    else had
  }

  lemma StepActive(t: Acl.Tables, users: set<Id>, op: Acl.Op, r: Acl.Reply, a: Id)
    requires Acl.Valid(t, users) && r == Acl.Step(t, users, op) && a in t.apps
    ensures a in r.tables.apps
    ensures Acl.AppIsActive(r.tables, a) <==> ActiveAfter(op, r.result.Ok?, a, Acl.AppIsActive(t, a))
  {
    if op.SuspendApp? || op.ReactivateApp? {
      StatusIsSet(t, users, op, r);
    } else if op.RegisterApp? {
      AppIsRegistered(t, users, op.name, r);
    }
  }

  ghost predicate ActiveIn(c: Config, s: State, ops: seq<Op>, a: Id) {
    if ops == [] then Acl.AppIsActive(s.acl, a)
    else
      var init, op := ops[..|ops| - 1], ops[|ops| - 1];
      var had := ActiveIn(c, s, init, a);
      if op.DoAcl? then ActiveAfter(op.acl, Credentials.Succeeds(c, Run(c, s, init), op), a, had) else had
  }

  lemma CallOnActive(c: Config, s: State, op: Op, r: Reply, a: Id)
    requires Snapshots.RbacValid(s) && r == Step(c, s, op) && a in s.acl.apps
    ensures a in r.state.acl.apps
    ensures Acl.AppIsActive(r.state.acl, a) <==>
      if op.DoAcl? then ActiveAfter(op.acl, !r.outcome.Fail?, a, Acl.AppIsActive(s.acl, a))
      else Acl.AppIsActive(s.acl, a)
  {
    if op.DoAcl? {
      AclReply(c, s, op.acl, r);
      StepActive(s.acl, s.users.Keys, op.acl, Acl.Step(s.acl, s.users.Keys, op.acl), a);
    } else {
      RbacRuns.OtherTables(c, s, op, r.state);
    }
  }

  /** An app is active or not as the last suspension or reactivation left it, and never disappears. */
  lemma {:induction false} StatusIsLastSet(c: Config, s: State, ops: seq<Op>, a: Id)
    requires Snapshots.RbacValid(s) && a in s.acl.apps
    ensures a in Run(c, s, ops).acl.apps
    ensures Acl.AppIsActive(Run(c, s, ops).acl, a) <==> ActiveIn(c, s, ops, a)
  {
    if ops == [] {
    } else {
      var init, op := ops[..|ops| - 1], ops[|ops| - 1];
      StatusIsLastSet(c, s, init, a);
      Snapshots.RunRbac(c, s, init);
      CallOnActive(c, Run(c, s, init), op, Step(c, Run(c, s, init), op), a);
    }
  }

  // ---- What a user is shown ----

  /** The user has no override in the app that still stands. */
  ghost predicate NoOverrideStands(c: Config, s: State, ops: seq<Op>, u: Id, a: Id) {
    forall o :: !OverrideStands(c, s, ops, u, a, o)
  }

  lemma NoneLeft(c: Config, s: State, ops: seq<Op>, u: Id, a: Id)
    requires Snapshots.RbacValid(s) && NoOverrideStands(c, s, ops, u, a) && (u, a) in Run(c, s, ops).acl.userApps
    ensures Run(c, s, ops).acl.userApps[(u, a)].overrides == []
  {
    var ovs := Run(c, s, ops).acl.userApps[(u, a)].overrides;
    if ovs != [] {
      OverridesAreLastSet(c, s, ops, u, a, ovs[0]);
      assert false;
    }
  }

  /** Some feature that the role was given and still has carries the key. */
  ghost predicate RoleCarries(c: Config, s: State, ops: seq<Op>, roleId: Id, key: string) {
    exists f :: HasFeatureAfter(c, s, ops, roleId, f) && SilentCalls.OnKey(Run(c, s, ops).acl, f, key)
  }

  lemma CarriesIff(c: Config, s: State, ops: seq<Op>, roleId: Id, ua: Acl.UserApp, key: string)
    requires Snapshots.RbacValid(s) && roleId in s.acl.roles && roleId in Run(c, s, ops).acl.roles
    requires ua.roleId == Some(roleId)
    ensures SilentCalls.RoleHas(Run(c, s, ops).acl, ua, key, {}) <==> RoleCarries(c, s, ops, roleId, key)
  {
    var end := Run(c, s, ops).acl;
    if SilentCalls.RoleHas(end, ua, key, {}) {
      var f :| f in end.roles[roleId].features && SilentCalls.OnKey(end, f, key);
      FeatureInRoleIff(c, s, ops, roleId, f);
    }
    if RoleCarries(c, s, ops, roleId, key) {
      var f :| HasFeatureAfter(c, s, ops, roleId, f) && SilentCalls.OnKey(end, f, key);
      FeatureInRoleIff(c, s, ops, roleId, f);
    }
  }

  /**
   * From any sound state on: a user whose access, as last given, is on and under a role, without overrides that stand,
   * is shown the role's name and version, and exactly the keys of the features that the role was last given and that
   * have not been removed since; and the bulk resolver shows the app exactly while it is switched on.
   */
  lemma ShownAsLastGiven(c: Config, s: State, ops: seq<Op>, u: Id, a: Id, roleId: Id, key: string)
    requires Snapshots.RbacValid(s) && roleId in s.acl.roles && roleId in Run(c, s, ops).acl.roles && a in s.acl.apps
    requires LastAccess(c, s, ops, u, a) == Some(Access(Some(roleId), true)) && NoOverrideStands(c, s, ops, u, a)
    ensures var end := Run(c, s, ops).acl;
      && Acl.ResolveForApp(end, u, a).Some?
      && Acl.ResolveForApp(end, u, a).value.role == end.roles[roleId].name
      && Acl.ResolveForApp(end, u, a).value.roleVersion == end.roles[roleId].version
      && (key in Acl.ResolveForApp(end, u, a).value.features <==> RoleCarries(c, s, ops, roleId, key))
      && (a in Acl.Resolve(end, u) <==> ActiveIn(c, s, ops, a))
      && (a in Acl.Resolve(end, u) ==>
            (key in Acl.Resolve(end, u)[a].features <==> RoleCarries(c, s, ops, roleId, key)))
  {
    var end := Run(c, s, ops).acl;
    AccessIsLastGiven(c, s, ops, u, a);
    StatusIsLastSet(c, s, ops, a);
    NoneLeft(c, s, ops, u, a);
    CarriesIff(c, s, ops, roleId, end.userApps[(u, a)], key);
    SilentCalls.ResolversMean(end, u, a, key);
    NoOverrides(end, end.userApps[(u, a)], key);
  }

  // ---- Names ----

  predicate Namesakes(a: Acl.Role, b: Acl.Role) { a.appId == b.appId && a.name == b.name }

  /** No two apps, and no two roles of one app, share a name. */
  ghost predicate NamesUnique(t: Acl.Tables) {
    && (forall a, b :: a in t.apps && b in t.apps && t.apps[a].name == t.apps[b].name ==> a == b)
    && (forall r, q :: r in t.roles && q in t.roles && Namesakes(t.roles[r], t.roles[q]) ==> r == q)
  }

  lemma StepNames(t: Acl.Tables, users: set<Id>, op: Acl.Op, t': Acl.Tables)
    requires Acl.Valid(t, users) && NamesUnique(t) && t' == Acl.Step(t, users, op).tables
    ensures NamesUnique(t')
  {
    var r := Acl.Step(t, users, op);
    if op.RegisterApp? {
      AppIsRegistered(t, users, op.name, r);
    } else if op.CreateRole? {
      RoleIsCreated(t, users, op.appId, op.name, op.info, r);
    } else {
      OthersKeepNames(t, users, op, t');
    }
  }

  lemma OthersKeepNames(t: Acl.Tables, users: set<Id>, op: Acl.Op, t': Acl.Tables)
    requires !op.RegisterApp? && !op.CreateRole? && t' == Acl.Step(t, users, op).tables
    ensures t'.apps.Keys == t.apps.Keys && forall a :: a in t.apps ==> t'.apps[a].name == t.apps[a].name
    ensures t'.roles.Keys <= t.roles.Keys && forall r :: r in t'.roles ==> Namesakes(t'.roles[r], t.roles[r])
  {
  }

  /** In every run the names of apps are unique, and so are the names of roles within each app. */
  lemma {:induction false} NamesStayUnique(c: Config, ops: seq<Op>)
    ensures Snapshots.RbacValid(Run(c, Init, ops)) && NamesUnique(Run(c, Init, ops).acl)
  {
    Snapshots.RunRbac(c, Init, ops);
    if ops == [] {
    } else {
      var init, op := ops[..|ops| - 1], ops[|ops| - 1];
      var mid := Run(c, Init, init);
      NamesStayUnique(c, init);
      if op.DoAcl? {
        AclReply(c, mid, op.acl, Step(c, mid, op));
        StepNames(mid.acl, mid.users.Keys, op.acl, Run(c, Init, ops).acl);
      } else {
        RbacRuns.OtherTables(c, mid, op, Run(c, Init, ops));
      }
    }
  }
}
