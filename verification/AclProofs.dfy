/** What every administrative call keeps, and what an access token's snapshot can rely on. */
module AclProofs {
  import opened Basics
  import Features
  import Resolver
  import opened Acl

  // ---- Integrity is kept ----

  lemma {:induction false} WithoutMembers(ids: seq<Id>, id: Id)
    ensures forall x :: x in Without(ids, id) <==> x in ids && x != id
  {
    if ids == [] {
    } else {
      WithoutMembers(ids[..|ids| - 1], id);
      assert ids == ids[..|ids| - 1] + [ids[|ids| - 1]];
    }
  }

  lemma {:induction false} WithoutOverrideMembers(ovs: seq<FeatureOverride>, id: Id)
    ensures forall o :: o in WithoutOverride(ovs, id) <==> o in ovs && o.featureId != id
  {
    if ovs == [] {
    } else {
      WithoutOverrideMembers(ovs[..|ovs| - 1], id);
      assert ovs == ovs[..|ovs| - 1] + [ovs[|ovs| - 1]];
    }
  }

  lemma OverrideIdsMembers(ovs: seq<FeatureOverride>)
    ensures forall id :: id in OverrideIds(ovs) <==> exists o :: o in ovs && o.featureId == id
  {
    forall id | id in OverrideIds(ovs) ensures exists o :: o in ovs && o.featureId == id {
      var i :| 0 <= i < |ovs| && OverrideIds(ovs)[i] == id;
      assert ovs[i] in ovs;
    }
    forall o | o in ovs ensures o.featureId in OverrideIds(ovs) {
      var i :| 0 <= i < |ovs| && ovs[i] == o;
      assert OverrideIds(ovs)[i] == o.featureId;
    }
  }

  lemma DropFeatureValid(s: Tables, users: set<Id>, id: Id)
    requires Valid(s, users)
    ensures Valid(DropFeature(s, id).tables, users)
  {
    var s' := DropFeature(s, id).tables;
    if id in s.features.byId {
      forall r | r in s.roles ensures FeaturesExist(s', s'.roles[r].features) {
        WithoutMembers(s.roles[r].features, id);
        assert FeaturesExist(s, s.roles[r].features);
      }
      forall ua | ua in s.userApps ensures UserAppValid(s', ua.1, s'.userApps[ua]) {
        assert UserAppValid(s, ua.1, s.userApps[ua]);
        WithoutOverrideMembers(s.userApps[ua].overrides, id);
        OverrideIdsMembers(s.userApps[ua].overrides);
        OverrideIdsMembers(s'.userApps[ua].overrides);
      }
    }
  }

  lemma ReviewValid(s: Tables, users: set<Id>, id: Id, approve: bool)
    requires Valid(s, users)
    ensures Valid(Review(s, id, approve).tables, users)
  {
    var s' := Review(s, id, approve).tables;
    if id in s.requests {
      Features.ApprovalExtends(s.features, s.requests[id].appId, s.requests[id].features);
    }
    GrowingFeaturesValid(s, s', users);
  }

  /** Tables that only gain features keep their foreign keys. */
  lemma GrowingFeaturesValid(s: Tables, s': Tables, users: set<Id>)
    requires Valid(s, users)
    requires Features.Valid(s'.features) && s.features.byId.Keys <= s'.features.byId.Keys
    requires s'.roles == s.roles && s'.userApps == s.userApps && s'.apps == s.apps && s'.nextId == s.nextId
    requires s'.requests.Keys == s.requests.Keys
    ensures Valid(s', users)
  {
  }

  lemma RoleStepValid(s: Tables, users: set<Id>, op: Op, s': Tables)
    requires Valid(s, users) && s' == Step(s, users, op).tables
    requires op.UpdateRole? || op.DeleteRole? || op.SetRoleFeatures? || op.CreateRole?
    ensures Valid(s', users)
  {
    forall ua | ua in s'.userApps ensures UserAppValid(s', ua.1, s'.userApps[ua]) {
      assert UserAppValid(s, ua.1, s.userApps[ua]);
    }
  }

  /** Every access row stands as it was, or is this user's in this app and sound. */
  ghost predicate OneAccess(s: Tables, s': Tables, users: set<Id>, userId: Id, appId: Id) {
    && s' == s.(userApps := s'.userApps)
    && (forall ua :: ua in s'.userApps && ua != (userId, appId) ==>
          ua in s.userApps && s'.userApps[ua] == s.userApps[ua])
    && ((userId, appId) in s'.userApps ==>
          userId in users && appId in s.apps && UserAppValid(s, appId, s'.userApps[(userId, appId)]))
  }

  lemma OneAccessValid(s: Tables, s': Tables, users: set<Id>, userId: Id, appId: Id)
    requires Valid(s, users) && OneAccess(s, s', users, userId, appId)
    ensures Valid(s', users)
  {
    forall ua | ua in s'.userApps ensures UserAppValid(s', ua.1, s'.userApps[ua]) {
      if ua != (userId, appId) {
        assert UserAppValid(s, ua.1, s.userApps[ua]);
      }
    }
  }

  lemma GrantedAccess(s: Tables, users: set<Id>, op: Op, s': Tables)
    requires Valid(s, users) && s' == Step(s, users, op).tables && (op.AssignUser? || op.UpdateUserApp?)
    ensures OneAccess(s, s', users, op.userId, op.appId)
  {
    if (op.userId, op.appId) in s.userApps {
      assert UserAppValid(s, op.appId, s.userApps[(op.userId, op.appId)]);
    }
  }

  lemma EditedAccess(s: Tables, users: set<Id>, op: Op, s': Tables)
    requires Valid(s, users) && s' == Step(s, users, op).tables && (op.RemoveUser? || op.SetOverrides?)
    ensures OneAccess(s, s', users, op.userId, op.appId)
  {
    if (op.userId, op.appId) in s.userApps {
      assert UserAppValid(s, op.appId, s.userApps[(op.userId, op.appId)]);
    }
  }

  lemma AccessStepValid(s: Tables, users: set<Id>, op: Op, s': Tables)
    requires Valid(s, users) && s' == Step(s, users, op).tables
    requires op.AssignUser? || op.UpdateUserApp? || op.RemoveUser? || op.SetOverrides?
    ensures Valid(s', users)
  {
    if op.AssignUser? || op.UpdateUserApp? {
      GrantedAccess(s, users, op, s');
    } else {
      EditedAccess(s, users, op, s');
    }
    OneAccessValid(s, s', users, op.userId, op.appId);
  }

  lemma FeatureStepValid(s: Tables, users: set<Id>, op: Op)
    requires Valid(s, users)
    requires op.AddFeature? || op.UpdateFeature?
    ensures Valid(Step(s, users, op).tables, users)
  {
    var s' := Step(s, users, op).tables;
    if op.AddFeature? {
      if Step(s, users, op).result.Ok? {
        Features.CreateValid(s.features, (op.appId, op.input.key), op.input);
      }
    } else if Step(s, users, op).result.Ok? {
      var ak := s.features.byId[op.featureId];
      Features.RewriteValid(s.features, ak, s'.features.rows[ak]);
    }
    GrowingFeaturesValid(s, s', users);
  }

  lemma AppStepValid(s: Tables, users: set<Id>, op: Op)
    requires Valid(s, users)
    requires op.RegisterApp? || op.SuspendApp? || op.ReactivateApp? || op.SubmitSync?
    ensures Valid(Step(s, users, op).tables, users)
  {
    var s' := Step(s, users, op).tables;
    forall ua | ua in s'.userApps ensures UserAppValid(s', ua.1, s'.userApps[ua]) {
      assert UserAppValid(s, ua.1, s.userApps[ua]);
    }
  }

  /** Every call keeps the foreign keys; in particular a UserApp's role always belongs to the same app. */
  lemma StepValid(s: Tables, users: set<Id>, op: Op)
    requires Valid(s, users)
    ensures Valid(Step(s, users, op).tables, users)
  {
    if op.RemoveFeature? {
      DropFeatureValid(s, users, op.featureId);
    } else if op.ApproveSync? || op.RejectSync? {
      ReviewValid(s, users, op.requestId, op.ApproveSync?);
    } else if op.UpdateRole? || op.DeleteRole? || op.SetRoleFeatures? || op.CreateRole? {
      RoleStepValid(s, users, op, Step(s, users, op).tables);
    } else if op.AddFeature? || op.UpdateFeature? {
      FeatureStepValid(s, users, op);
    } else if op.RegisterApp? || op.SuspendApp? || op.ReactivateApp? || op.SubmitSync? {
      AppStepValid(s, users, op);
    } else {
      AccessStepValid(s, users, op, Step(s, users, op).tables);
    }
  }

  // ---- Who is invalidated covers who is affected ----

  /** Calls that can change what a user resolves to without ending that user's sessions. */
  predicate Silent(op: Op) {
    op.SuspendApp? || op.ReactivateApp? || op.RemoveFeature? || op.AssignUser?
  }

  lemma {:induction false} SameKeys(t: Features.Table, t': Features.Table, ids: seq<Id>)
    requires forall id :: id in ids ==> id in t.byId && id in t'.byId && t.byId[id] == t'.byId[id]
    ensures KeysOf(t, ids) == KeysOf(t', ids)
  {
    if ids == [] {
    } else {
      assert ids == ids[..|ids| - 1] + [ids[|ids| - 1]];
      SameKeys(t, t', ids[..|ids| - 1]);
    }
  }

  lemma {:induction false} SameOverrideRows(t: Features.Table, t': Features.Table, ovs: seq<FeatureOverride>)
    requires forall o :: o in ovs ==>
      o.featureId in t.byId && o.featureId in t'.byId && t.byId[o.featureId] == t'.byId[o.featureId]
    ensures OverrideRows(t, ovs) == OverrideRows(t', ovs)
  {
    if ovs == [] {
    } else {
      assert ovs == ovs[..|ovs| - 1] + [ovs[|ovs| - 1]];
      SameOverrideRows(t, t', ovs[..|ovs| - 1]);
    }
  }

  /** Feature ids keep their keys. */
  ghost predicate IdsKept(t: Features.Table, t': Features.Table) {
    forall id :: id in t.byId ==> id in t'.byId && t'.byId[id] == t.byId[id]
  }

  lemma SamePermission(s: Tables, s': Tables, appId: Id, ua: UserApp)
    requires UserAppValid(s, appId, ua) && IdsKept(s.features, s'.features)
    requires ua.roleId.Some? ==>
      ua.roleId.value in s'.roles && s'.roles[ua.roleId.value] == s.roles[ua.roleId.value] &&
      FeaturesExist(s, s.roles[ua.roleId.value].features)
    ensures PermissionFor(s', ua) == PermissionFor(s, ua)
  {
    if ua.roleId.Some? {
      SameKeys(s.features, s'.features, s.roles[ua.roleId.value].features);
    }
    OverrideIdsMembers(ua.overrides);
    SameOverrideRows(s.features, s'.features, ua.overrides);
  }

  lemma StepKeepsFeatureIds(s: Tables, users: set<Id>, op: Op)
    requires Valid(s, users) && !op.RemoveFeature?
    ensures IdsKept(s.features, Step(s, users, op).tables.features)
  {
    if op.ApproveSync? || op.AddFeature? {
      GrowthKeepsFeatureIds(s, users, op, Step(s, users, op).tables);
    } else {
      OthersKeepFeatureIds(s, users, op);
    }
  }

  lemma OthersKeepFeatureIds(s: Tables, users: set<Id>, op: Op)
    requires !op.RemoveFeature? && !op.ApproveSync? && !op.AddFeature?
    ensures Step(s, users, op).tables.features.byId == s.features.byId
  {
  }

  lemma GrowthKeepsFeatureIds(s: Tables, users: set<Id>, op: Op, s': Tables)
    requires Valid(s, users) && (op.ApproveSync? || op.AddFeature?) && s' == Step(s, users, op).tables
    ensures IdsKept(s.features, s'.features)
  {
    if op.ApproveSync? && op.requestId in s.requests {
      Features.ApprovalExtends(s.features, s.requests[op.requestId].appId, s.requests[op.requestId].features);
    }
  }

  /** A user that a non-silent call does not invalidate resolves to exactly the same permissions after it. */
  lemma InvalidationComplete(s: Tables, users: set<Id>, op: Op, userId: Id)
    requires Valid(s, users) && !Silent(op)
    requires userId !in Step(s, users, op).killed
    ensures Resolve(Step(s, users, op).tables, userId) == Resolve(s, userId)
  {
    var s' := Step(s, users, op).tables;
    forall a | (userId, a) in s.userApps ensures RowKept(s, s', userId, a) {
      UnaffectedRow(s, users, op, userId, a);
    }
    forall a | (userId, a) in s'.userApps ensures (userId, a) in s.userApps {
      NoNewAccess(s, users, op, userId, a);
    }
    SameResolution(s, s', userId);
  }

  ghost predicate RowKept(s: Tables, s': Tables, userId: Id, a: Id)
    requires (userId, a) in s.userApps
  {
    && a in s.apps && a in s'.apps && s'.apps[a].status == s.apps[a].status
    && (userId, a) in s'.userApps && s'.userApps[(userId, a)].isActive == s.userApps[(userId, a)].isActive
    && (s.userApps[(userId, a)].isActive ==>
        PermissionFor(s', s'.userApps[(userId, a)]) == PermissionFor(s, s.userApps[(userId, a)]))
  }

  lemma SameResolution(s: Tables, s': Tables, userId: Id)
    requires forall a :: (userId, a) in s.userApps ==> RowKept(s, s', userId, a)
    requires forall a :: (userId, a) in s'.userApps ==> (userId, a) in s.userApps
    ensures Resolve(s', userId) == Resolve(s, userId)
  {
  }

  lemma NoNewAccess(s: Tables, users: set<Id>, op: Op, userId: Id, a: Id)
    requires !Silent(op)
    requires (userId, a) in Step(s, users, op).tables.userApps
    ensures (userId, a) in s.userApps
  {
  }

  lemma ActiveHolder(s: Tables, userId: Id, a: Id)
    requires (userId, a) in s.userApps && s.userApps[(userId, a)].isActive && s.userApps[(userId, a)].roleId.Some?
    ensures userId in Holders(s, s.userApps[(userId, a)].roleId.value)
  {
  }

  /** A role changes only together with the invalidation of its holders. */
  lemma RoleRowKept(s: Tables, users: set<Id>, op: Op, r: Reply, userId: Id, roleId: Id)
    requires Valid(s, users) && !op.RemoveFeature? && r == Step(s, users, op)
    requires roleId in s.roles && userId in Holders(s, roleId) && userId !in r.killed
    ensures roleId in r.tables.roles && r.tables.roles[roleId] == s.roles[roleId]
  {
    if !EditsRoles(op) {
      OthersKeepRoles(s, users, op, r.tables);
    }
  }

  predicate EditsRoles(op: Op) { op.CreateRole? || op.UpdateRole? || op.DeleteRole? || op.SetRoleFeatures? }

  lemma OthersKeepRoles(s: Tables, users: set<Id>, op: Op, s': Tables)
    requires !EditsRoles(op) && !op.RemoveFeature? && s' == Step(s, users, op).tables
    ensures s'.roles == s.roles
  {
  }

  lemma AccessRowKept(s: Tables, users: set<Id>, op: Op, userId: Id, a: Id)
    requires !Silent(op) && (userId, a) in s.userApps
    requires userId !in Step(s, users, op).killed
    ensures var s' := Step(s, users, op).tables;
      && (userId, a) in s'.userApps && s'.userApps[(userId, a)].isActive == s.userApps[(userId, a)].isActive
      && (s.userApps[(userId, a)].isActive ==> s'.userApps[(userId, a)] == s.userApps[(userId, a)])
  {
  }

  lemma AppRowsKept(s: Tables, users: set<Id>, op: Op, a: Id)
    requires Valid(s, users) && !Silent(op) && a in s.apps
    ensures a in Step(s, users, op).tables.apps && Step(s, users, op).tables.apps[a].status == s.apps[a].status
  {
  }

  lemma UnaffectedRow(s: Tables, users: set<Id>, op: Op, userId: Id, a: Id)
    requires Valid(s, users) && !Silent(op)
    requires userId !in Step(s, users, op).killed
    requires (userId, a) in s.userApps
    ensures RowKept(s, Step(s, users, op).tables, userId, a)
  {
    var ua := s.userApps[(userId, a)];
    assert UserAppValid(s, a, ua);
    AppRowsKept(s, users, op, a);
    AccessRowKept(s, users, op, userId, a);
    if ua.isActive {
      StepKeepsFeatureIds(s, users, op);
      if ua.roleId.Some? {
        ActiveHolder(s, userId, a);
        RoleRowKept(s, users, op, Step(s, users, op), userId, ua.roleId.value);
      }
      SamePermission(s, Step(s, users, op).tables, a, ua);
    }
  }

  /** The silent calls do change what the user resolves to, and end no session. */
  lemma SilentCallsChangeResolution(s: Tables, users: set<Id>, op: Op, r: Reply, userId: Id)
    requires op.SuspendApp? || op.ReactivateApp? || (op.AssignUser? && op.userId == userId)
    requires r == Step(s, users, op) && r.result.Ok?
    requires op.AssignUser? || ResolveForApp(s, userId, op.appId).Some?
    ensures r.killed == {}
    ensures op.appId in Resolve(r.tables, userId) <==> !op.SuspendApp?
    ensures (op.ReactivateApp? || op.AssignUser?) ==> op.appId !in Resolve(s, userId)
    ensures op.SuspendApp? && s.apps[op.appId].status == Active ==> op.appId in Resolve(s, userId)
  {
  }

  lemma SuspensionHidesApp(s: Tables, users: set<Id>, appId: Id, s': Tables, userId: Id)
    requires appId in Resolve(s, userId) && s' == Step(s, users, SuspendApp(appId)).tables
    ensures appId !in Resolve(s', userId)
  {
  }

  // ---- Bulk and per-app resolution ----

  /** The two resolvers agree on every active app; a suspended app is visible to the per-app one only. */
  lemma ResolversAgree(s: Tables, users: set<Id>, userId: Id, appId: Id)
    requires Valid(s, users)
    ensures appId in Resolve(s, userId) <==> AppIsActive(s, appId) && ResolveForApp(s, userId, appId).Some?
    ensures appId in Resolve(s, userId) ==> ResolveForApp(s, userId, appId) == Some(Resolve(s, userId)[appId])
  {
  }

  /** Override order cannot matter when every overridden feature belongs to the app itself. */
  lemma OwnFeaturesDistinct(s: Tables, users: set<Id>, appId: Id, ovs: seq<FeatureOverride>)
    requires Valid(s, users)
    requires Insertable(s, OverrideIds(ovs))
    requires forall o :: o in ovs ==> o.featureId in s.features.byId && s.features.byId[o.featureId].0 == appId
    ensures Resolver.DistinctKeys(OverrideRows(s.features, ovs))
  {
    OverrideRowsAt(s.features, ovs);
    var rows := OverrideRows(s.features, ovs);
    forall i, j | 0 <= i < j < |rows| ensures rows[i].key != rows[j].key {
      var x, y := ovs[i].featureId, ovs[j].featureId;
      assert OverrideIds(ovs)[i] == x && OverrideIds(ovs)[j] == y;
      assert ovs[i] in ovs && ovs[j] in ovs;
      assert s.features.rows[s.features.byId[x]].id == x;
      assert s.features.rows[s.features.byId[y]].id == y;
    }
  }

  lemma {:induction false} OverrideRowsAt(t: Features.Table, ovs: seq<FeatureOverride>)
    requires forall o :: o in ovs ==> o.featureId in t.byId
    ensures |OverrideRows(t, ovs)| == |ovs|
    ensures forall i :: 0 <= i < |ovs| ==>
      OverrideRows(t, ovs)[i] == Resolver.Override(t.byId[ovs[i].featureId].1, ovs[i].granted)
  {
    if ovs == [] {
    } else {
      assert ovs == ovs[..|ovs| - 1] + [ovs[|ovs| - 1]];
      OverrideRowsAt(t, ovs[..|ovs| - 1]);
      assert ovs[|ovs| - 1] in ovs;
    }
  }

  // ---- Version stamps ----

  /** The role stands unchanged, and its features still have their keys. */
  ghost predicate RoleKept(s: Tables, s': Tables, roleId: Id) {
    && roleId in s.roles && roleId in s'.roles && s'.roles[roleId] == s.roles[roleId]
    && (forall id :: id in s.roles[roleId].features && id in s.features.byId ==>
          id in s'.features.byId && s'.features.byId[id] == s.features.byId[id])
  }

  /** The call deletes a feature that the role has. */
  predicate Takes(s: Tables, op: Op, roleId: Id) {
    && op.RemoveFeature? && op.featureId in s.features.byId
    && roleId in s.roles && op.featureId in s.roles[roleId].features
  }

  /**
   * What one call does to a role that survives it: the version never falls; at an equal version the role is either
   * unchanged or has lost a feature, and the latter exactly if the call deleted one of its features.
   */
  lemma RoleStep(s: Tables, users: set<Id>, op: Op, s': Tables, roleId: Id)
    requires Valid(s, users) && s' == Step(s, users, op).tables && roleId < s.nextId && roleId in s'.roles
    ensures roleId in s.roles && s.nextId <= s'.nextId && s.roles[roleId].version <= s'.roles[roleId].version
    ensures s'.roles[roleId].version == s.roles[roleId].version ==>
      if Takes(s, op, roleId) then |s'.roles[roleId].features| < |s.roles[roleId].features| else RoleKept(s, s', roleId)
  {
    StepIds(s, users, op, s');
    if op.RemoveFeature? {
      RoleRemovalStep(s, users, op.featureId, roleId);
    } else {
      StepKeepsFeatureIds(s, users, op);
      RoleRowStep(s, users, op, s', roleId);
    }
  }

  lemma RoleRowStep(s: Tables, users: set<Id>, op: Op, s': Tables, roleId: Id)
    requires Valid(s, users) && !op.RemoveFeature? && s' == Step(s, users, op).tables
    requires roleId < s.nextId && roleId in s'.roles
    ensures roleId in s.roles
    ensures s'.roles[roleId] == s.roles[roleId] || s'.roles[roleId].version == s.roles[roleId].version + 1
  {
    if !EditsRoles(op) {
      OthersKeepRoles(s, users, op, s');
    }
  }

  /** The fresh-id counter never goes back. */
  lemma StepIds(s: Tables, users: set<Id>, op: Op, s': Tables)
    requires s' == Step(s, users, op).tables
    ensures s.nextId <= s'.nextId
  {
  }

  lemma RoleRemovalStep(s: Tables, users: set<Id>, featureId: Id, roleId: Id)
    requires Valid(s, users) && roleId in s.roles
    ensures var s' := DropFeature(s, featureId).tables;
      && roleId in s'.roles && s'.roles[roleId].version == s.roles[roleId].version && s'.nextId == s.nextId
      && if Takes(s, RemoveFeature(featureId), roleId)
         then |s'.roles[roleId].features| < |s.roles[roleId].features|
         else RoleKept(s, s', roleId)
  {
    WithoutLength(s.roles[roleId].features, featureId);
  }

  lemma {:induction false} WithoutLength(ids: seq<Id>, id: Id)
    ensures |Without(ids, id)| <= |ids|
    ensures id in ids ==> |Without(ids, id)| < |ids|
    ensures id !in ids ==> Without(ids, id) == ids
  {
    if ids == [] {
    } else {
      assert ids == ids[..|ids| - 1] + [ids[|ids| - 1]];
      WithoutLength(ids[..|ids| - 1], id);
    }
  }

  /** A successful edit or feature change strictly raises the role's version. */
  lemma EditRaisesVersion(s: Tables, users: set<Id>, op: Op)
    requires op.UpdateRole? || op.SetRoleFeatures?
    requires Step(s, users, op).result.Ok?
    ensures op.roleId in s.roles && op.roleId in Step(s, users, op).tables.roles
    ensures Step(s, users, op).tables.roles[op.roleId].version == s.roles[op.roleId].version + 1
  {
  }

  ghost predicate KeptAtEqualVersion(s: Tables, s': Tables, roleId: Id) {
    && roleId in s.roles && roleId in s'.roles
    && (s'.roles[roleId].version == s.roles[roleId].version ==> RoleKept(s, s', roleId))
  }

  /**
   * If the stale flag is down for a snapshot taken at `s`, and the user still has the same role in the app, a role that
   * is unchanged at an unchanged version, then the role part of the snapshot - name, version and feature keys - is what
   * the role says now.
   */
  lemma NotStaleMeansRoleCurrent(s: Tables, s': Tables, users: set<Id>, userId: Id, appId: Id)
    requires Valid(s, users)
    requires appId in Resolve(s, userId) && ResolveForApp(s', userId, appId).Some?
    requires s'.userApps[(userId, appId)].roleId == s.userApps[(userId, appId)].roleId
    requires var role := s.userApps[(userId, appId)].roleId;
      role.Some? ==> KeptAtEqualVersion(s, s', role.value)
    requires !PermissionsStale(s', userId, appId, Some(Resolve(s, userId)[appId].roleVersion))
    ensures RoleOf(s', s'.userApps[(userId, appId)]) == RoleOf(s, s.userApps[(userId, appId)])
    ensures RoleKeys(s', RoleOf(s', s'.userApps[(userId, appId)])) ==
      RoleKeys(s, RoleOf(s, s.userApps[(userId, appId)]))
  {
    var ua := s.userApps[(userId, appId)];
    assert UserAppValid(s, appId, ua);
    if ua.roleId.Some? {
      assert FeaturesExist(s, s.roles[ua.roleId.value].features);
      SameKeys(s.features, s'.features, s.roles[ua.roleId.value].features);
    }
  }

  /** Deleting a feature is the exception: the role loses it, and its version says nothing. */
  lemma RemovedFeatureKeepsVersion(s: Tables, users: set<Id>, roleId: Id, featureId: Id)
    requires Valid(s, users)
    requires roleId in s.roles && featureId in s.roles[roleId].features
    ensures var r := Step(s, users, RemoveFeature(featureId));
      && r.result.Ok? && r.killed == {}
      && r.tables.roles[roleId].version == s.roles[roleId].version
      && featureId !in r.tables.roles[roleId].features
  {
    assert FeaturesExist(s, s.roles[roleId].features);
    WithoutMembers(s.roles[roleId].features, featureId);
  }

  // ---- Sync requests ----

  /** A request leaves the pending status at most once, and only a pending one is ever applied. */
  lemma SyncDecidedOnce(s: Tables, users: set<Id>, op: Op, r: Reply, id: Id)
    requires Valid(s, users) && r == Step(s, users, op)
    requires id in s.requests && s.requests[id].status != SyncPending
    ensures id in r.tables.requests && r.tables.requests[id] == s.requests[id]
    ensures op == ApproveSync(id) || op == RejectSync(id) ==> r == Reply(s, Err(Validation), {})
  {
  }
}
