/** What each administrative call leaves in the tables and in the permissions, and when it goes through. */
module AclEffects {
  import opened Basics
  import opened Acl
  import opened SilentCalls
  import AclProofs
  import Features

  // ---- The features of a role ----

  /** Only this role differs, in its features and its version. */
  ghost predicate OnlyRole(s: Tables, s': Tables, roleId: Id) {
    && roleId in s.roles && s' == s.(roles := s'.roles) && s'.roles.Keys == s.roles.Keys
    && (forall r :: r in s.roles && r != roleId ==> s'.roles[r] == s.roles[r])
  }

  /** Setting a role's features needs distinct, existing ones; then the role has these and no other. */
  lemma RoleHasExactly(s: Tables, users: set<Id>, roleId: Id, ids: seq<Id>, r: Reply)
    requires r == Step(s, users, SetRoleFeatures(roleId, ids))
    ensures r.result.Ok? <==> roleId in s.roles && DistinctIds(ids) && forall f :: f in ids ==> f in s.features.byId
    ensures if r.result.Err? then r.tables == s
      else
        && OnlyRole(s, r.tables, roleId)
        && (forall f :: f in r.tables.roles[roleId].features <==> f in ids)
        && |r.tables.roles[roleId].features| == |ids|
        && r.tables.roles[roleId] ==
           s.roles[roleId].(features := r.tables.roles[roleId].features, version := s.roles[roleId].version + 1)
  {
  }

  /** The user has an active access row on this role in this app. */
  predicate HoldsRole(s: Tables, userId: Id, appId: Id, roleId: Id) {
    (userId, appId) in s.userApps && s.userApps[(userId, appId)].isActive &&
    s.userApps[(userId, appId)].roleId == Some(roleId)
  }

  /** One of these features carries the key. */
  predicate Carried(s: Tables, ids: seq<Id>, key: string) { exists f :: f in ids && OnKey(s, f, key) }

  lemma RoleHasCarried(s: Tables, ua: UserApp, roleId: Id, ids: seq<Id>, key: string)
    requires ua.roleId == Some(roleId) && roleId in s.roles && forall f :: f in s.roles[roleId].features <==> f in ids
    ensures RoleHas(s, ua, key, {}) <==> Carried(s, ids, key)
  {
    if Carried(s, ids, key) {
      var f :| f in ids && OnKey(s, f, key);
      assert f in s.roles[roleId].features;
    }
  }

  lemma NoOverrides(s: Tables, ua: UserApp, key: string)
    requires ua.overrides == []
    ensures Entitled(s, ua, key, {}) <==> RoleHas(s, ua, key, {})
  {
  }

  /**
   * After the call an active holder is shown a key if the last override on it grants it; without one, exactly if one of
   * the role's new features carries it.
   */
  lemma HoldersListExactly(s: Tables, users: set<Id>, roleId: Id, ids: seq<Id>, r: Reply, userId: Id, appId: Id,
      key: string)
    requires r == Step(s, users, SetRoleFeatures(roleId, ids)) && r.result.Ok? && HoldsRole(s, userId, appId, roleId)
    ensures ResolveForApp(r.tables, userId, appId).Some?
    ensures var overrides := s.userApps[(userId, appId)].overrides;
      key in ResolveForApp(r.tables, userId, appId).value.features <==>
      GetOr(Decision(r.tables, overrides, key, {}), Carried(r.tables, ids, key))
    ensures s.userApps[(userId, appId)].overrides == [] ==>
      (key in ResolveForApp(r.tables, userId, appId).value.features <==> Carried(r.tables, ids, key))
  {
    RoleHasExactly(s, users, roleId, ids, r);
    var ua := s.userApps[(userId, appId)];
    ListsEntitled(r.tables, ua, key);
    RoleHasCarried(r.tables, ua, roleId, ids, key);
  }

  // ---- Reviews of a submitted manifest ----

  /** The request is closed with this status, and no other request differs. */
  ghost predicate Closed(s: Tables, s': Tables, requestId: Id, status: SyncStatus) {
    requestId in s.requests && s'.requests == s.requests[requestId := s.requests[requestId].(status := status)]
  }

  predicate IsPending(s: Tables, requestId: Id) {
    requestId in s.requests && s.requests[requestId].status == SyncPending
  }

  /** A review goes through exactly for a pending request. */
  lemma ReviewIff(s: Tables, users: set<Id>, op: Op, r: Reply)
    requires (op.ApproveSync? || op.RejectSync?) && r == Step(s, users, op)
    ensures r.result.Ok? <==> IsPending(s, op.requestId)
    ensures r.result.Err? ==> r.tables == s
  {
  }

  /** A rejection closes the request and applies nothing. */
  lemma RejectionAppliesNothing(s: Tables, users: set<Id>, requestId: Id, s': Tables)
    requires IsPending(s, requestId) && s' == Step(s, users, RejectSync(requestId)).tables
    ensures Closed(s, s', requestId, SyncRejected) && s' == s.(requests := s'.requests)
  {
  }

  lemma ApprovedTable(s: Tables, users: set<Id>, requestId: Id, s': Tables)
    requires IsPending(s, requestId) && s' == Step(s, users, ApproveSync(requestId)).tables
    ensures Closed(s, s', requestId, SyncApproved) && s' == s.(requests := s'.requests, features := s'.features)
    ensures s'.features == Features.UpsertAll(s.features, s.requests[requestId].appId, s.requests[requestId].features)
  {
  }

  /**
   * An approval closes the request; the app then has its old keys and the submitted ones, existing features keep their
   * ids, and nothing unsubmitted changes, in this app or another.
   */
  lemma ApprovalApplies(s: Tables, users: set<Id>, requestId: Id, s': Tables)
    requires Valid(s, users) && IsPending(s, requestId) && s' == Step(s, users, ApproveSync(requestId)).tables
    ensures Closed(s, s', requestId, SyncApproved) && s' == s.(requests := s'.requests, features := s'.features)
    ensures var submitted := Features.Submitted(s.requests[requestId].appId, s.requests[requestId].features);
      && s'.features.rows.Keys == s.features.rows.Keys + submitted
      && (forall ak :: ak in s.features.rows ==> s'.features.rows[ak].id == s.features.rows[ak].id)
      && (forall ak :: ak in s.features.rows && ak !in submitted ==> s'.features.rows[ak] == s.features.rows[ak])
  {
    var q := s.requests[requestId];
    ApprovedTable(s, users, requestId, s');
    Features.ApprovalKeys(s.features, q.appId, q.features);
    Features.ApprovalExtends(s.features, q.appId, q.features);
  }

  /** The row under a submitted key says what the last submission of it said. */
  ghost predicate Written(s: Tables, s': Tables, q: SyncRequest, i: nat)
    requires i < |q.features|
  {
    var ak := (q.appId, q.features[i].key);
    && ak in s'.features.rows
    && (Features.LastFor(q.features, i) ==> s'.features.rows[ak].displayName == q.features[i].displayName)
    && (Features.LastDescriptionFor(q.features, i) ==> s'.features.rows[ak].description == q.features[i].description)
    && ((forall f :: f in q.features && f.key == q.features[i].key ==> f.description.None?) ==>
          s'.features.rows[ak].description ==
          if ak in s.features.rows then s.features.rows[ak].description else None)
  }

  /** An approval writes the last display name and the last description of each key; an absent one is left alone. */
  lemma ApprovalWrites(s: Tables, users: set<Id>, requestId: Id, s': Tables, i: nat)
    requires IsPending(s, requestId) && s' == Step(s, users, ApproveSync(requestId)).tables
    requires i < |s.requests[requestId].features|
    ensures Written(s, s', s.requests[requestId], i)
  {
    var q := s.requests[requestId];
    ApprovedTable(s, users, requestId, s');
    Features.ApprovalKeys(s.features, q.appId, q.features);
    assert q.features[i] in q.features;
    if Features.LastFor(q.features, i) {
      Features.LastDisplayNameWins(s.features, q.appId, q.features, i);
    }
    if Features.LastDescriptionFor(q.features, i) {
      Features.LastDescriptionWins(s.features, q.appId, q.features, i);
    }
    if forall f :: f in q.features && f.key == q.features[i].key ==> f.description.None? {
      Features.AbsentDescriptionKept(s.features, q.appId, q.features, q.features[i].key);
    }
  }

  /** A submission needs an active app and a manifest; it waits under a fresh id, and applies nothing yet. */
  lemma SubmissionWaits(s: Tables, users: set<Id>, appId: Id, manifest: seq<Features.FeatureInput>, r: Reply)
    requires Valid(s, users) && r == Step(s, users, SubmitSync(appId, manifest))
    ensures r.result.Ok? <==> AppIsActive(s, appId) && manifest != []
    ensures if r.result.Err? then r.tables == s
      else
        && s.nextId !in s.requests && IsPending(r.tables, s.nextId)
        && r.tables.requests == s.requests[s.nextId := SyncRequest(appId, manifest, SyncPending)]
        && r.tables == s.(requests := r.tables.requests, nextId := r.tables.nextId)
  {
  }

  // ---- Access rows ----

  /** Only this access row differs. */
  ghost predicate OnlyAccess(s: Tables, s': Tables, userId: Id, appId: Id) {
    && s' == s.(userApps := s'.userApps)
    && (forall ua :: ua != (userId, appId) ==> (ua in s'.userApps <==> ua in s.userApps))
    && (forall ua :: ua != (userId, appId) && ua in s.userApps ==> s'.userApps[ua] == s.userApps[ua])
  }

  predicate HasAccess(s: Tables, userId: Id, appId: Id) {
    (userId, appId) in s.userApps && s.userApps[(userId, appId)].isActive
  }

  /** An assignment that goes through gives active access with this role, and no override yet. */
  lemma AssignmentGives(s: Tables, users: set<Id>, userId: Id, appId: Id, role: Option<Id>, r: Reply)
    requires r == Step(s, users, AssignUser(userId, appId, role))
    ensures r.result.Ok? <==> MayAssign(s, users, userId, appId, role)
    ensures if r.result.Err? then r.tables == s
      else
        && OnlyAccess(s, r.tables, userId, appId) && HasAccess(r.tables, userId, appId)
        && r.tables.userApps[(userId, appId)].roleId == role && r.tables.userApps[(userId, appId)].overrides == []
  {
  }

  /** A removal leaves no access row of the user in the app. */
  lemma RemovalTakes(s: Tables, users: set<Id>, userId: Id, appId: Id, r: Reply)
    requires r == Step(s, users, RemoveUser(userId, appId))
    ensures r.result.Ok? <==> (userId, appId) in s.userApps
    ensures if r.result.Err? then r.tables == s
      else
        && OnlyAccess(s, r.tables, userId, appId) && (userId, appId) !in r.tables.userApps
        && ResolveForApp(r.tables, userId, appId) == None && appId !in Resolve(r.tables, userId)
  {
  }

  /** What the caller asked for holds of the row; what was not mentioned is as it was. */
  ghost predicate AsAsked(ua: UserApp, ua': UserApp, change: RoleChange, isActive: Option<bool>) {
    && (change.SetRole? ==> ua'.roleId == Some(change.roleId))
    && (change.ClearRole? ==> ua'.roleId == None)
    && (change.KeepRole? ==> ua'.roleId == ua.roleId)
    && ua'.isActive == GetOr(isActive, ua.isActive)
    && ua'.overrides == ua.overrides
  }

  /** A change of access needs an existing row, and a role of the app if it names one. */
  lemma AccessChanges(s: Tables, users: set<Id>, userId: Id, appId: Id, change: RoleChange, isActive: Option<bool>,
      r: Reply)
    requires r == Step(s, users, UpdateUserApp(userId, appId, change, isActive))
    ensures r.result.Ok? <==>
      (userId, appId) in s.userApps && (change.SetRole? ==> RoleInApp(s, change.roleId, appId))
    ensures if r.result.Err? then r.tables == s
      else
        && OnlyAccess(s, r.tables, userId, appId) && (userId, appId) in r.tables.userApps
        && AsAsked(s.userApps[(userId, appId)], r.tables.userApps[(userId, appId)], change, isActive)
  {
  }

  /** Setting overrides replaces the earlier ones; each of distinct, existing features. */
  lemma OverridesReplace(s: Tables, users: set<Id>, userId: Id, appId: Id, ovs: seq<FeatureOverride>, r: Reply)
    requires r == Step(s, users, SetOverrides(userId, appId, ovs))
    ensures r.result.Ok? <==>
      && (userId, appId) in s.userApps
      && (forall i, j :: 0 <= i < j < |ovs| ==> ovs[i].featureId != ovs[j].featureId)
      && (forall o :: o in ovs ==> o.featureId in s.features.byId)
    ensures if r.result.Err? then r.tables == s
      else
        && OnlyAccess(s, r.tables, userId, appId) && (userId, appId) in r.tables.userApps
        && r.tables.userApps[(userId, appId)] == s.userApps[(userId, appId)].(overrides := ovs)
  {
    AclProofs.OverrideIdsMembers(ovs);
    assert forall i :: 0 <= i < |ovs| ==> OverrideIds(ovs)[i] == ovs[i].featureId;
    if (userId, appId) in s.userApps {
      if Insertable(s, OverrideIds(ovs)) {
        forall o | o in ovs ensures o.featureId in s.features.byId { assert o.featureId in OverrideIds(ovs); }
      }
    }
  }

  /** So after the call a key is shown if the last given override on it grants it; without one, if the role has it. */
  lemma OverridesDecide(s: Tables, users: set<Id>, userId: Id, appId: Id, ovs: seq<FeatureOverride>, r: Reply,
      key: string)
    requires r == Step(s, users, SetOverrides(userId, appId, ovs)) && r.result.Ok? && HasAccess(s, userId, appId)
    ensures ResolveForApp(r.tables, userId, appId).Some?
    ensures key in ResolveForApp(r.tables, userId, appId).value.features <==>
      GetOr(Decision(s, ovs, key, {}), RoleHas(s, s.userApps[(userId, appId)], key, {}))
  {
    OverridesReplace(s, users, userId, appId, ovs, r);
    var ua := s.userApps[(userId, appId)].(overrides := ovs);
    ListsEntitled(r.tables, ua, key);
    SameDecision(s, r.tables, ovs, key);
    SameRoleHas(s, r.tables, s.userApps[(userId, appId)], ua, key);
  }

  lemma {:induction false} SameDecision(s: Tables, s': Tables, ovs: seq<FeatureOverride>, key: string)
    requires s'.features == s.features
    ensures Decision(s', ovs, key, {}) == Decision(s, ovs, key, {})
  {
    if ovs == [] {
    } else {
      SameDecision(s, s', ovs[..|ovs| - 1], key);
    }
  }

  lemma SameRoleHas(s: Tables, s': Tables, ua: UserApp, ua': UserApp, key: string)
    requires s'.features == s.features && s'.roles == s.roles && ua'.roleId == ua.roleId
    ensures RoleHas(s', ua', key, {}) <==> RoleHas(s, ua, key, {})
  {
  }

  // ---- Roles ----

  /** A role's name is new in its app; the role starts at version one with no feature. */
  lemma RoleIsCreated(s: Tables, users: set<Id>, appId: Id, name: string, info: RoleInfo, r: Reply)
    requires Valid(s, users) && r == Step(s, users, CreateRole(appId, name, info))
    ensures r.result.Ok? <==>
      appId in s.apps && forall id :: id in s.roles && s.roles[id].appId == appId ==> s.roles[id].name != name
    ensures if r.result.Err? then r.tables == s
      else
        && s.nextId !in s.roles && r.tables == s.(roles := r.tables.roles, nextId := r.tables.nextId)
        && r.tables.roles == s.roles[s.nextId := Role(appId, name, info, 1, [])]
  {
  }

  /** An edit writes the given columns and leaves the features, the name and every other role. */
  lemma RoleIsEdited(s: Tables, users: set<Id>, roleId: Id, edit: RoleEdit, r: Reply)
    requires r == Step(s, users, UpdateRole(roleId, edit))
    ensures r.result.Ok? <==> roleId in s.roles
    ensures if r.result.Err? then r.tables == s
      else
        && OnlyRole(s, r.tables, roleId)
        && var old', new' := s.roles[roleId], r.tables.roles[roleId];
        && new'.features == old'.features && new'.name == old'.name && new'.appId == old'.appId
        && (edit.displayName.Some? ==> new'.info.displayName == edit.displayName.value)
        && (edit.displayName.None? ==> new'.info.displayName == old'.info.displayName)
        && (edit.description.Some? ==> new'.info.description == edit.description)
        && (edit.description.None? ==> new'.info.description == old'.info.description)
        && (edit.isDefault.Some? ==> new'.info.isDefault == edit.isDefault.value)
        && (edit.isDefault.None? ==> new'.info.isDefault == old'.info.isDefault)
  {
  }

  /** A deleted role is gone, and so is every mention of it; other roles and everybody's access stay. */
  lemma RoleIsDeleted(s: Tables, users: set<Id>, roleId: Id, r: Reply)
    requires r == Step(s, users, DeleteRole(roleId))
    ensures r.result.Ok? <==> roleId in s.roles
    ensures if r.result.Err? then r.tables == s
      else
        && r.tables == s.(roles := s.roles - {roleId}, userApps := r.tables.userApps)
        && r.tables.userApps.Keys == s.userApps.Keys
        && (forall ua :: ua in s.userApps ==>
              var before, after := s.userApps[ua], r.tables.userApps[ua];
              && after.isActive == before.isActive && after.overrides == before.overrides
              && after.roleId == if before.roleId == Some(roleId) then None else before.roleId)
  {
  }

  // ---- Apps and features ----

  /** An app's name is new; the app is active from the start. */
  lemma AppIsRegistered(s: Tables, users: set<Id>, name: string, r: Reply)
    requires Valid(s, users) && r == Step(s, users, RegisterApp(name))
    ensures r.result.Ok? <==> forall a :: a in s.apps ==> s.apps[a].name != name
    ensures if r.result.Err? then r.tables == s
      else
        && s.nextId !in s.apps && r.tables == s.(apps := r.tables.apps, nextId := r.tables.nextId)
        && r.tables.apps == s.apps[s.nextId := App(name, Active)]
  {
  }

  /** A status change needs an app in another status, and touches nothing but this status. */
  lemma StatusIsSet(s: Tables, users: set<Id>, op: Op, r: Reply)
    requires (op.SuspendApp? || op.ReactivateApp?) && r == Step(s, users, op)
    ensures var status := if op.SuspendApp? then Suspended else Active;
      && (r.result.Ok? <==> op.appId in s.apps && s.apps[op.appId].status != status)
      && (if r.result.Err? then r.tables == s
          else r.tables == s.(apps := s.apps[op.appId := App(s.apps[op.appId].name, status)]))
  {
  }

  /** A new feature's key is new in its app; the feature gets a fresh id, and no role or override names it yet. */
  lemma FeatureIsAdded(s: Tables, users: set<Id>, appId: Id, f: Features.FeatureInput, r: Reply)
    requires Valid(s, users) && r == Step(s, users, AddFeature(appId, f))
    ensures r.result.Ok? <==> appId in s.apps && (appId, f.key) !in s.features.rows
    ensures if r.result.Err? then r.tables == s
      else
        var id := s.features.nextId;
        && id !in s.features.byId && r.tables == s.(features := r.tables.features)
        && r.tables.features.rows ==
           s.features.rows[(appId, f.key) := Features.Feature(id, f.displayName, f.description)]
        && r.tables.features.byId == s.features.byId[id := (appId, f.key)]
        && (forall role :: role in s.roles ==> id !in s.roles[role].features)
  {
  }

  /** An edit writes the given texts of the one feature; keys, and so all permissions, stay. */
  lemma FeatureIsEdited(s: Tables, users: set<Id>, featureId: Id, displayName: Option<string>,
      description: Option<string>, r: Reply)
    requires Valid(s, users) && r == Step(s, users, UpdateFeature(featureId, displayName, description))
    ensures r.result.Ok? <==> featureId in s.features.byId
    ensures if r.result.Err? then r.tables == s
      else
        var ak := s.features.byId[featureId];
        && r.tables == s.(features := s.features.(rows := r.tables.features.rows))
        && r.tables.features.rows.Keys == s.features.rows.Keys
        && (forall other :: other in s.features.rows && other != ak ==>
              r.tables.features.rows[other] == s.features.rows[other])
        && r.tables.features.rows[ak].id == featureId
        && r.tables.features.rows[ak].displayName == GetOr(displayName, s.features.rows[ak].displayName)
        && r.tables.features.rows[ak].description ==
           if description.Some? then description else s.features.rows[ak].description
  {
  }

  /** A removed feature is gone from the table, from every role and from every override; nothing else is. */
  lemma FeatureIsRemoved(s: Tables, users: set<Id>, featureId: Id, r: Reply)
    requires r == Step(s, users, RemoveFeature(featureId))
    ensures r.result.Ok? <==> featureId in s.features.byId
    ensures if r.result.Err? then r.tables == s
      else
        && r.tables.features.byId == s.features.byId - {featureId}
        && r.tables.features.rows == s.features.rows - {s.features.byId[featureId]}
        && r.tables.roles.Keys == s.roles.Keys && r.tables.userApps.Keys == s.userApps.Keys
        && (forall role, f :: role in s.roles ==>
              (f in r.tables.roles[role].features <==> f in s.roles[role].features && f != featureId))
        && (forall ua, o :: ua in s.userApps ==>
              (o in r.tables.userApps[ua].overrides <==> o in s.userApps[ua].overrides && o.featureId != featureId))
  {
    if featureId in s.features.byId {
      forall role | role in s.roles
        ensures forall f :: f in r.tables.roles[role].features <==> f in s.roles[role].features && f != featureId
      {
        AclProofs.WithoutMembers(s.roles[role].features, featureId);
      }
      forall ua | ua in s.userApps
        ensures forall o :: o in r.tables.userApps[ua].overrides <==>
          o in s.userApps[ua].overrides && o.featureId != featureId
      {
        AclProofs.WithoutOverrideMembers(s.userApps[ua].overrides, featureId);
      }
    }
  }

  // ---- What a snapshot says of the role ----

  /** The version of the role of an access row; without a role there is none, and zero stands for it. */
  function VersionOf(s: Tables, ua: UserApp): nat {
    if ua.roleId.Some? && ua.roleId.value in s.roles then s.roles[ua.roleId.value].version else 0
  }

  /** The per-app resolver names the role and its version; without a role it says so. */
  lemma SnapshotNamesRole(s: Tables, userId: Id, appId: Id)
    ensures ResolveForApp(s, userId, appId).Some? <==> HasAccess(s, userId, appId)
    ensures HasAccess(s, userId, appId) ==>
      var p, ua := ResolveForApp(s, userId, appId).value, s.userApps[(userId, appId)];
      && p.roleVersion == VersionOf(s, ua)
      && (RoleOf(s, ua).Some? ==> p.role == RoleOf(s, ua).value.name)
      && (RoleOf(s, ua).None? ==> p.role == "none")
  {
  }

  /** The stale flag is up exactly for active access whose role has another version than the token carries. */
  lemma StaleFlagIff(s: Tables, userId: Id, appId: Id, jwtVersion: Option<nat>)
    ensures PermissionsStale(s, userId, appId, jwtVersion) <==>
      HasAccess(s, userId, appId) && jwtVersion.Some? && jwtVersion.value != VersionOf(s, s.userApps[(userId, appId)])
  {
    SnapshotNamesRole(s, userId, appId);
  }
}
