/** The access-control service, step by step over the store, each call proved equal to its step of the RBAC machine. */
module AclServices {
  import opened Basics
  import opened Storage
  import opened AuthServices
  import opened Acl
  import Features
  import Redis
  import Session
  import SessionInvariant

  lemma RevokeOneMore(t: Session.RefreshTable, done: set<Id>, u: Id)
    ensures Session.RevokeAllOf(Session.RevokeAllOf(t, done), {u}) == Session.RevokeAllOf(t, done + {u})
  {
  }

  lemma StampOneMore(m: Redis.Cache<Id, nat>, done: set<Id>, u: Id, now: nat)
    ensures Session.Stamp(Session.Stamp(m, done, now), {u}, now) == Session.Stamp(m, done + {u}, now)
  {
  }

  /** Ending sessions one user after the other ends them all. */
  lemma KillOneMore(s: Session.State, done: set<Id>, u: Id)
    ensures Session.Kill(Session.Kill(s, done), {u}) == Session.Kill(s, done + {u})
  {
    RevokeOneMore(s.refresh, done, u);
    StampOneMore(s.revokeBefore, done, u, s.now);
    assert s.userCache - done - {u} == s.userCache - (done + {u});
  }

  /** A call that changes nothing and ends no session. */
  lemma Refuses(s: Session.State, op: Op, e: Error)
    requires Step(s.acl, s.users.Keys, op) == Fail(s.acl, e)
    ensures Session.AdministerAcl(s, op) == Session.Reply(s, Session.Fail(e))
  {
    SessionInvariant.KillNobody(s);
  }

  /** A call that goes through: the new tables, and the end of these users' sessions. */
  lemma Administers(s: Session.State, op: Op, t: Tables, killed: set<Id>, s': Session.State)
    requires Step(s.acl, s.users.Keys, op) == Reply(t, Ok(()), killed)
    requires s' == Session.Kill(s.(acl := t), killed)
    ensures Session.AdministerAcl(s, op) == Session.Reply(s', Session.Done)
  {
  }

  /** A call that goes through and signs nobody out. */
  lemma AdministersQuietly(s: Session.State, op: Op, t: Tables)
    requires Step(s.acl, s.users.Keys, op) == Done(t)
    ensures Session.AdministerAcl(s, op) == Session.Reply(s.(acl := t), Session.Done)
  {
    SessionInvariant.KillNobody(s.(acl := t));
  }

  class AclService {
    const store: Store
    const tokens: TokenService

    constructor (store: Store, tokens: TokenService)
      requires tokens.store == store
      ensures this.store == store && this.tokens == tokens
    {
      this.store, this.tokens := store, tokens;
    }

    /** Every active holder of a role, one by one. */
    method InvalidateUsers(userIds: set<Id>)
      requires tokens.store == store
      modifies store`refresh, store`revokeBefore, store`userCache
      ensures store.St() == Session.Kill(old(store.St()), userIds)
    {
      ghost var s := store.St();
      ghost var done: set<Id> := {};
      var todo := userIds;
      SessionInvariant.KillNobody(s);
      while todo != {}
        invariant todo <= userIds && done == userIds - todo
        invariant store.St() == Session.Kill(s, done)
        decreases |todo|
      {
        var u :| u in todo;
        tokens.EndSessions(u);
        KillOneMore(s, done, u);
        todo, done := todo - {u}, done + {u};
      }
      assert done == userIds;
    }

    method InvalidateRoleUsers(roleId: Id)
      requires tokens.store == store
      modifies store`refresh, store`revokeBefore, store`userCache
      ensures store.St() == Session.Kill(old(store.St()), Holders(old(store.Rbac()), roleId))
    {
      var userIds := store.GetUserIdsByRole(roleId);
      InvalidateUsers(userIds);
    }

    method RegisterApp(name: string) returns (outcome: Session.Outcome)
      modifies store`apps, store`nextAclId
      ensures Session.Reply(store.St(), outcome) == Session.AdministerAcl(old(store.St()), Op.RegisterApp(name))
    {
      ghost var s, op := store.St(), Op.RegisterApp(name);
      if exists a :: a in store.apps && store.apps[a].name == name {
        Refuses(s, op, DatabaseError);
        return Session.Fail(DatabaseError);
      }
      store.apps := store.apps[store.nextAclId := App(name, Active)];
      store.nextAclId := store.nextAclId + 1;
      AdministersQuietly(s, op, store.Rbac());
      return Session.Done;
    }

    method SetAppStatus(appId: Id, status: AppStatus) returns (outcome: Session.Outcome)
      requires status.Suspended? || status.Active?
      modifies store`apps
      ensures Session.Reply(store.St(), outcome) ==
        Session.AdministerAcl(old(store.St()), if status.Suspended? then SuspendApp(appId) else ReactivateApp(appId))
    {
      ghost var s, op := store.St(), if status.Suspended? then SuspendApp(appId) else ReactivateApp(appId);
      if appId !in store.apps {
        Refuses(s, op, NotFound);
        return Session.Fail(NotFound);
      }
      if store.apps[appId].status == status {
        Refuses(s, op, Validation);
        return Session.Fail(Validation);
      }
      store.apps := store.apps[appId := store.apps[appId].(status := status)];
      AdministersQuietly(s, op, store.Rbac());
      return Session.Done;
    }

    method AddFeature(appId: Id, data: Features.FeatureInput) returns (outcome: Session.Outcome)
      modifies store`features
      ensures Session.Reply(store.St(), outcome) == Session.AdministerAcl(old(store.St()), Op.AddFeature(appId, data))
    {
      ghost var s, op := store.St(), Op.AddFeature(appId, data);
      if appId !in store.apps {
        Refuses(s, op, NotFound);
        return Session.Fail(NotFound);
      }
      if (appId, data.key) in store.features.rows {
        Refuses(s, op, DatabaseError);
        return Session.Fail(DatabaseError);
      }
      store.features := Features.Create(store.features, (appId, data.key), data);
      AdministersQuietly(s, op, store.Rbac());
      return Session.Done;
    }

    /** Only the given columns are written. */
    method UpdateFeature(featureId: Id, displayName: Option<string>, description: Option<string>)
      returns (outcome: Session.Outcome)
      modifies store`features
      ensures Session.Reply(store.St(), outcome) ==
        Session.AdministerAcl(old(store.St()), Op.UpdateFeature(featureId, displayName, description))
    {
      ghost var s, op := store.St(), Op.UpdateFeature(featureId, displayName, description);
      if featureId !in store.features.byId || store.features.byId[featureId] !in store.features.rows {
        Refuses(s, op, NotFound);
        return Session.Fail(NotFound);
      }
      var ak := store.features.byId[featureId];
      var current := store.features.rows[ak];
      var row := Features.Amend(current, GetOr(displayName, current.displayName), description);
      store.features := store.features.(rows := store.features.rows[ak := row]);
      AdministersQuietly(s, op, store.Rbac());
      return Session.Done;
    }

    method RemoveFeature(featureId: Id) returns (outcome: Session.Outcome)
      modifies store`features, store`roles, store`userApps
      ensures Session.Reply(store.St(), outcome) ==
        Session.AdministerAcl(old(store.St()), Op.RemoveFeature(featureId))
    {
      ghost var s, op := store.St(), Op.RemoveFeature(featureId);
      if featureId !in store.features.byId {
        Refuses(s, op, NotFound);
        return Session.Fail(NotFound);
      }
      store.DeleteFeatureRow(featureId);
      AdministersQuietly(s, op, store.Rbac());
      return Session.Done;
    }

    method SubmitFeatureSync(appId: Id, manifest: seq<Features.FeatureInput>) returns (outcome: Session.Outcome)
      modifies store`requests, store`nextAclId
      ensures Session.Reply(store.St(), outcome) ==
        Session.AdministerAcl(old(store.St()), SubmitSync(appId, manifest))
    {
      ghost var s, op := store.St(), SubmitSync(appId, manifest);
      if appId !in store.apps || store.apps[appId].status != Active {
        Refuses(s, op, AuthenticationError);
        return Session.Fail(AuthenticationError);
      }
      if |manifest| == 0 {
        Refuses(s, op, Validation);
        return Session.Fail(Validation);
      }
      store.requests := store.requests[store.nextAclId := SyncRequest(appId, manifest, SyncPending)];
      store.nextAclId := store.nextAclId + 1;
      AdministersQuietly(s, op, store.Rbac());
      return Session.Done;
    }

    /** Upsert every submitted feature, then close the request. */
    method ApproveSyncRequest(requestId: Id) returns (outcome: Session.Outcome)
      modifies store`features, store`requests
      ensures Session.Reply(store.St(), outcome) == Session.AdministerAcl(old(store.St()), ApproveSync(requestId))
    {
      ghost var s, op := store.St(), ApproveSync(requestId);
      if requestId !in store.requests {
        Refuses(s, op, NotFound);
        return Session.Fail(NotFound);
      }
      var request := store.requests[requestId];
      if request.status != SyncPending {
        Refuses(s, op, Validation);
        return Session.Fail(Validation);
      }
      store.features := Features.ApproveManifest(store.features, request.appId, request.features);
      store.requests := store.requests[requestId := request.(status := SyncApproved)];
      AdministersQuietly(s, op, store.Rbac());
      return Session.Done;
    }

    method RejectSyncRequest(requestId: Id) returns (outcome: Session.Outcome)
      modifies store`requests
      ensures Session.Reply(store.St(), outcome) == Session.AdministerAcl(old(store.St()), RejectSync(requestId))
    {
      ghost var s, op := store.St(), RejectSync(requestId);
      if requestId !in store.requests {
        Refuses(s, op, NotFound);
        return Session.Fail(NotFound);
      }
      var request := store.requests[requestId];
      if request.status != SyncPending {
        Refuses(s, op, Validation);
        return Session.Fail(Validation);
      }
      store.requests := store.requests[requestId := request.(status := SyncRejected)];
      AdministersQuietly(s, op, store.Rbac());
      return Session.Done;
    }

    method CreateRole(appId: Id, name: string, info: RoleInfo) returns (outcome: Session.Outcome)
      modifies store`roles, store`nextAclId
      ensures Session.Reply(store.St(), outcome) ==
        Session.AdministerAcl(old(store.St()), Op.CreateRole(appId, name, info))
    {
      ghost var s, op := store.St(), Op.CreateRole(appId, name, info);
      if appId !in store.apps {
        Refuses(s, op, NotFound);
        return Session.Fail(NotFound);
      }
      var taken := exists r :: r in store.roles && store.roles[r].appId == appId && store.roles[r].name == name;
      if taken {
        Refuses(s, op, DatabaseError);
        return Session.Fail(DatabaseError);
      }
      store.roles := store.roles[store.nextAclId := Role(appId, name, info, 1, [])];
      store.nextAclId := store.nextAclId + 1;
      AdministersQuietly(s, op, store.Rbac());
      return Session.Done;
    }

    method UpdateRole(roleId: Id, edit: RoleEdit) returns (outcome: Session.Outcome)
      requires tokens.store == store
      modifies store`roles, store`refresh, store`revokeBefore, store`userCache
      ensures Session.Reply(store.St(), outcome) ==
        Session.AdministerAcl(old(store.St()), Op.UpdateRole(roleId, edit))
    {
      ghost var s, op := store.St(), Op.UpdateRole(roleId, edit);
      if roleId !in store.roles {
        Refuses(s, op, NotFound);
        return Session.Fail(NotFound);
      }
      var role := store.roles[roleId];
      store.roles := store.roles[roleId := role.(info := EditedInfo(role.info, edit), version := role.version + 1)];
      InvalidateRoleUsers(roleId);
      Administers(s, op, store.Rbac(), Holders(s.acl, roleId), store.St());
      return Session.Done;
    }

    /** The holders are signed out first; deleting the role then clears it from their access rows. */
    method DeleteRole(roleId: Id) returns (outcome: Session.Outcome)
      requires tokens.store == store
      modifies store`roles, store`userApps, store`refresh, store`revokeBefore, store`userCache
      ensures Session.Reply(store.St(), outcome) == Session.AdministerAcl(old(store.St()), Op.DeleteRole(roleId))
    {
      ghost var s, op := store.St(), Op.DeleteRole(roleId);
      if roleId !in store.roles {
        Refuses(s, op, NotFound);
        return Session.Fail(NotFound);
      }
      InvalidateRoleUsers(roleId);
      store.roles := store.roles - {roleId};
      store.userApps := map ua | ua in store.userApps :: ClearedRole(store.userApps[ua], roleId);
      Administers(s, op, store.Rbac(), Holders(s.acl, roleId), store.St());
      return Session.Done;
    }

    method SetRoleFeatures(roleId: Id, featureIds: seq<Id>) returns (outcome: Session.Outcome)
      requires tokens.store == store
      modifies store`roles, store`refresh, store`revokeBefore, store`userCache
      ensures Session.Reply(store.St(), outcome) ==
        Session.AdministerAcl(old(store.St()), Op.SetRoleFeatures(roleId, featureIds))
    {
      ghost var s, op := store.St(), Op.SetRoleFeatures(roleId, featureIds);
      if roleId !in store.roles {
        Refuses(s, op, NotFound);
        return Session.Fail(NotFound);
      }
      var version := store.roles[roleId].version;
      var ok := store.SetRoleFeatureRows(roleId, featureIds);
      if !ok {
        Refuses(s, op, DatabaseError);
        return Session.Fail(DatabaseError);
      }
      store.roles := store.roles[roleId := store.roles[roleId].(version := version + 1)];
      InvalidateRoleUsers(roleId);
      Administers(s, op, store.Rbac(), Holders(s.acl, roleId), store.St());
      return Session.Done;
    }

    method AssignUserToApp(userId: Id, appId: Id, role: Option<Id>) returns (outcome: Session.Outcome)
      modifies store`userApps
      ensures Session.Reply(store.St(), outcome) ==
        Session.AdministerAcl(old(store.St()), AssignUser(userId, appId, role))
    {
      ghost var s, op := store.St(), AssignUser(userId, appId, role);
      if userId !in store.users || appId !in store.apps {
        Refuses(s, op, NotFound);
        return Session.Fail(NotFound);
      }
      if store.apps[appId].status != Active {
        Refuses(s, op, Validation);
        return Session.Fail(Validation);
      }
      if role.Some? && !RoleInApp(store.Rbac(), role.value, appId) {
        Refuses(s, op, Validation);
        return Session.Fail(Validation);
      }
      if (userId, appId) in store.userApps {
        Refuses(s, op, DatabaseError);
        return Session.Fail(DatabaseError);
      }
      store.userApps := store.userApps[(userId, appId) := UserApp(role, true, [])];
      AdministersQuietly(s, op, store.Rbac());
      return Session.Done;
    }

    method UpdateUserAppAccess(userId: Id, appId: Id, change: RoleChange, isActive: Option<bool>)
      returns (outcome: Session.Outcome)
      requires tokens.store == store
      modifies store`userApps, store`refresh, store`revokeBefore, store`userCache
      ensures Session.Reply(store.St(), outcome) ==
        Session.AdministerAcl(old(store.St()), UpdateUserApp(userId, appId, change, isActive))
    {
      ghost var s, op := store.St(), UpdateUserApp(userId, appId, change, isActive);
      if (userId, appId) !in store.userApps {
        Refuses(s, op, NotFound);
        return Session.Fail(NotFound);
      }
      if change.SetRole? && !RoleInApp(store.Rbac(), change.roleId, appId) {
        Refuses(s, op, Validation);
        return Session.Fail(Validation);
      }
      WriteAccess(userId, appId, change, isActive);
      tokens.EndSessions(userId);
      Administers(s, op, store.Rbac(), {userId}, store.St());
      return Session.Done;
    }

    /** The partial update of an access row: only the given columns are written. */
    method WriteAccess(userId: Id, appId: Id, change: RoleChange, isActive: Option<bool>)
      requires (userId, appId) in store.userApps
      modifies store`userApps
      ensures store.userApps ==
        old(store.userApps)[(userId, appId) := ChangedAccess(old(store.userApps)[(userId, appId)], change, isActive)]
    {
      var ua := store.userApps[(userId, appId)];
      if change.ClearRole? {
        ua := ua.(roleId := None);
      } else if change.SetRole? {
        ua := ua.(roleId := Some(change.roleId));
      }
      if isActive.Some? {
        ua := ua.(isActive := isActive.value);
      }
      store.userApps := store.userApps[(userId, appId) := ua];
    }

    method RemoveUserFromApp(userId: Id, appId: Id) returns (outcome: Session.Outcome)
      requires tokens.store == store
      modifies store`userApps, store`refresh, store`revokeBefore, store`userCache
      ensures Session.Reply(store.St(), outcome) == Session.AdministerAcl(old(store.St()), RemoveUser(userId, appId))
    {
      ghost var s, op := store.St(), RemoveUser(userId, appId);
      if (userId, appId) !in store.userApps {
        Refuses(s, op, NotFound);
        return Session.Fail(NotFound);
      }
      store.userApps := store.userApps - {(userId, appId)};
      tokens.EndSessions(userId);
      Administers(s, op, store.Rbac(), {userId}, store.St());
      return Session.Done;
    }

    method SetUserDirectFeatures(userId: Id, appId: Id, overrides: seq<FeatureOverride>)
      returns (outcome: Session.Outcome)
      requires tokens.store == store
      modifies store`userApps, store`refresh, store`revokeBefore, store`userCache
      ensures Session.Reply(store.St(), outcome) ==
        Session.AdministerAcl(old(store.St()), SetOverrides(userId, appId, overrides))
    {
      ghost var s, op := store.St(), SetOverrides(userId, appId, overrides);
      if (userId, appId) !in store.userApps {
        Refuses(s, op, NotFound);
        return Session.Fail(NotFound);
      }
      var ok := store.SetUserFeatureRows(userId, appId, overrides);
      if !ok {
        Refuses(s, op, DatabaseError);
        return Session.Fail(DatabaseError);
      }
      tokens.EndSessions(userId);
      Administers(s, op, store.Rbac(), {userId}, store.St());
      return Session.Done;
    }

    /** The snapshot of one app and whether the caller's token carries an older role version. */
    method GetUserPermissionsForApp(userId: Id, appId: Id, jwtVersion: Option<nat>)
      returns (permission: Option<AppPermission>, permissionsStale: bool)
      ensures permission == ResolveForApp(store.Rbac(), userId, appId)
      ensures permissionsStale == PermissionsStale(store.Rbac(), userId, appId, jwtVersion)
    {
      permission := store.ResolveUserPermissionsForApp(userId, appId);
      if permission.None? {
        return None, false;
      }
      permissionsStale := jwtVersion.Some? && jwtVersion.value != permission.value.roleVersion;
    }
  }
}
