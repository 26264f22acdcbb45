/**
 * The database tables and Redis keys behind the services, as fields that repository and cache methods update in place.
 * `St` is the value the session machine speaks about.
 */
module Storage {
  import opened Basics
  import opened Redis
  import opened Session
  import Acl
  import Features
  import OneShot
  import Passwords
  import Resolver

  class Store {
    const config: Config
    var now: nat
    var nextId: Id
    // user.repository
    var users: map<Id, User>
    var byEmail: map<string, Id>
    var history: map<Id, seq<Passwords.Row>>
    // token.repository
    var refresh: RefreshTable
    var emailTokens: OneShot.Table
    var resetTokens: OneShot.Table
    // Redis
    var blacklist: Cache<Id, string>
    var revokeBefore: Cache<Id, nat>
    var userCache: Cache<Id, UserResponse>
    // app.repository
    var apps: map<Id, Acl.App>
    var features: Features.Table
    var roles: map<Id, Acl.Role>
    var userApps: map<(Id, Id), Acl.UserApp>
    var requests: map<Id, Acl.SyncRequest>
    var nextAclId: Id
    // tokens signed with our key
    var issued: set<AccessToken>

    function Rbac(): Acl.Tables
      reads this
    {
      Acl.Tables(apps, features, roles, userApps, requests, nextAclId)
    }

    function St(): State
      reads this
    {
      State(now, nextId, users, byEmail, history, refresh, emailTokens, resetTokens,
            blacklist, revokeBefore, userCache, Rbac(), issued)
    }

    constructor (config: Config)
      ensures this.config == config && St() == Init
    {
      this.config := config;
      now, nextId, users, byEmail, history := 0, 0, map[], map[], map[];
      refresh, emailTokens, resetTokens := map[], map[], map[];
      blacklist, revokeBefore, userCache, issued := map[], map[], map[], {};
      apps, features, roles := map[], Features.Table(map[], map[], 0), map[];
      userApps, requests, nextAclId := map[], map[], 0;
    }

    method Wait(elapsed: nat)
      modifies this`now
      ensures St() == old(St()).(now := old(now) + elapsed)
    {
      now := now + elapsed;
    }

    // ---- Users ----

    method FindByEmail(email: string) returns (found: Option<Id>)
      ensures found == Session.FindByEmail(St(), email)
    {
      if email in byEmail && byEmail[email] in users {
        return Some(byEmail[email]);
      }
      return None;
    }

    method CreateUser(u: User) returns (id: Id)
      modifies this`users, this`byEmail, this`nextId
      ensures id == old(nextId) && St() == AddUser(old(St()), u)
    {
      id := nextId;
      users, byEmail, nextId := users[id := u], byEmail[u.email := id], nextId + 1;
    }

    method UpdateUserRow(id: Id, u: User)
      modifies this`users
      ensures St() == PutUser(old(St()), id, u)
    {
      users := users[id := u];
    }

    method IncrementFailedLoginAttempts(id: Id) returns (attempts: nat)
      requires id in users
      modifies this`users
      ensures St() == PutUser(old(St()), id, old(users)[id].(failedLoginAttempts := attempts))
      ensures attempts == old(users)[id].failedLoginAttempts + 1
    {
      attempts := users[id].failedLoginAttempts + 1;
      users := users[id := users[id].(failedLoginAttempts := attempts)];
    }

    method LockAccount(id: Id, until: nat)
      requires id in users
      modifies this`users
      ensures St() == PutUser(old(St()), id, old(users)[id].(lockedUntil := Some(until), failedLoginAttempts := 0))
    {
      users := users[id := users[id].(lockedUntil := Some(until), failedLoginAttempts := 0)];
    }

    method ResetLoginAttempts(id: Id)
      requires id in users
      modifies this`users
      ensures St() == PutUser(old(St()), id, LoginReset(old(users)[id], now))
    {
      users := users[id := users[id].(failedLoginAttempts := 0, lockedUntil := None, lastLoginAt := Some(now))];
    }

    method MarkEmailVerified(id: Id)
      requires id in users
      modifies this`users
      ensures St() == PutUser(old(St()), id, MarkVerified(old(users)[id]))
    {
      users := users[id := users[id].(isVerified := true, isActive := true)];
    }

    method UpdatePassword(id: Id, hash: Passwords.Hash)
      requires id in users
      modifies this`users
      ensures St() == PutUser(old(St()), id, old(users)[id].(passwordHash := hash))
    {
      users := users[id := users[id].(passwordHash := hash)];
    }

    /** A new salted hash. */
    method HashPassword(password: string) returns (hash: Passwords.Hash)
      modifies this`nextId
      ensures hash == Passwords.Bcrypt(password, old(nextId))
      ensures St() == old(St()).(nextId := old(nextId) + 1)
    {
      hash := Passwords.Bcrypt(password, nextId);
      nextId := nextId + 1;
    }

    method AddPasswordHistory(id: Id, hash: Passwords.Hash)
      modifies this`history
      ensures St() == RecordPassword(config, old(St()), id, hash)
    {
      var rows := if id in history then history[id] else [];
      history := history[id := Passwords.AddHistory(rows, hash, now, config.historyLimit)];
    }

    method CascadeHistory(id: Id)
      modifies this`history
      ensures St() == old(St()).(history := old(history) - {id})
    {
      history := history - {id};
    }

    method CascadeTokens(id: Id)
      modifies this`refresh, this`emailTokens, this`resetTokens
      ensures St() == old(St()).(
        refresh := RowsWithout(old(refresh), id),
        emailTokens := OneShot.ForgetUser(old(emailTokens), id),
        resetTokens := OneShot.ForgetUser(old(resetTokens), id))
    {
      refresh := RowsWithout(refresh, id);
      emailTokens, resetTokens := OneShot.ForgetUser(emailTokens, id), OneShot.ForgetUser(resetTokens, id);
    }

    method CascadeAccess(id: Id)
      modifies this`userApps
      ensures St() == old(St()).(acl := Acl.ForgetUser(old(Rbac()), id))
    {
      userApps := Acl.ForgetUser(Rbac(), id).userApps;
    }

    /** The schema's cascades: every row that refers to the user goes with it. */
    method CascadeUser(id: Id)
      modifies this`history, this`refresh, this`emailTokens, this`resetTokens, this`userApps
      ensures St() == Cascaded(old(St()), id)
    {
      CascadeHistory(id);
      CascadeTokens(id);
      CascadeAccess(id);
    }

    method DeleteUserRow(id: Id)
      requires id in users
      modifies this`users, this`byEmail, this`history, this`refresh, this`emailTokens, this`resetTokens, this`userApps
      ensures St() == Erase(old(St()), id).(userCache := old(userCache))
    {
      users, byEmail := users - {id}, byEmail - {users[id].email};
      CascadeUser(id);
    }

    /** The row and, by the schema's cascade, every role feature and override row that refers to it. */
    method DeleteFeatureRow(featureId: Id)
      requires featureId in features.byId
      modifies this`features, this`roles, this`userApps
      ensures Rbac() == Acl.DropFeature(old(Rbac()), featureId).tables
    {
      features := Features.Remove(features, featureId);
      roles := map r | r in roles :: roles[r].(features := Acl.Without(roles[r].features, featureId));
      userApps := map ua | ua in userApps ::
        userApps[ua].(overrides := Acl.WithoutOverride(userApps[ua].overrides, featureId));
    }

    // ---- Tokens ----

    /** A fresh uuid. */
    method DrawId() returns (id: Id)
      modifies this`nextId
      ensures id == old(nextId) && St() == old(St()).(nextId := old(nextId) + 1)
    {
      id := nextId;
      nextId := nextId + 1;
    }

    method SignAccessToken(tok: AccessToken)
      modifies this`issued
      ensures St() == old(St()).(issued := old(issued) + {tok})
    {
      issued := issued + {tok};
    }

    method CreateRefreshToken(jwt: RefreshJwt)
      modifies this`refresh
      ensures St() ==
        old(St()).(refresh := old(refresh)[Sha256(jwt) := RefreshRow(jwt.userId, now + REFRESH_ROW_MS, false)])
    {
      refresh := refresh[Sha256(jwt) := RefreshRow(jwt.userId, now + REFRESH_ROW_MS, false)];
    }

    method RevokeRefreshToken(h: Digest<RefreshJwt>)
      requires h in refresh
      modifies this`refresh
      ensures St() == old(St()).(refresh := RevokeRow(old(refresh), h))
    {
      refresh := refresh[h := refresh[h].(isRevoked := true)];
    }

    method RevokeAllUserRefreshTokens(userId: Id)
      modifies this`refresh
      ensures St() == old(St()).(refresh := RevokeAllOf(old(refresh), {userId}))
    {
      refresh := map h | h in refresh ::
        if refresh[h].userId == userId && !refresh[h].isRevoked then refresh[h].(isRevoked := true) else refresh[h];
    }

    method CreateEmailVerificationToken(userId: Id) returns (raw: Id)
      modifies this`emailTokens, this`nextId
      ensures raw == old(nextId) && St() == MailVerification(old(St()), userId)
    {
      raw := nextId;
      nextId := nextId + 1;
      emailTokens := OneShot.InvalidateAll(emailTokens, userId);
      emailTokens := emailTokens[Sha256(raw) := OneShot.Row(userId, now + EMAIL_VERIFICATION_MS, false)];
    }

    method CreatePasswordResetToken(userId: Id) returns (raw: Id)
      modifies this`resetTokens, this`nextId
      ensures raw == old(nextId) && St() == MailReset(old(St()), userId)
    {
      raw := nextId;
      nextId := nextId + 1;
      resetTokens := OneShot.InvalidateAll(resetTokens, userId);
      resetTokens := resetTokens[Sha256(raw) := OneShot.Row(userId, now + PASSWORD_RESET_MS, false)];
    }

    method MarkEmailVerificationTokenUsed(raw: Id)
      requires Sha256(raw) in emailTokens
      modifies this`emailTokens
      ensures St() == old(St()).(emailTokens := OneShot.Spend(old(emailTokens), raw))
    {
      emailTokens := emailTokens[Sha256(raw) := emailTokens[Sha256(raw)].(isUsed := true)];
    }

    method MarkPasswordResetTokenUsed(raw: Id)
      requires Sha256(raw) in resetTokens
      modifies this`resetTokens
      ensures St() == old(St()).(resetTokens := OneShot.Spend(old(resetTokens), raw))
    {
      resetTokens := resetTokens[Sha256(raw) := resetTokens[Sha256(raw)].(isUsed := true)];
    }

    method InvalidateAllEmailVerificationTokens(userId: Id)
      modifies this`emailTokens
      ensures St() == old(St()).(emailTokens := OneShot.InvalidateAll(old(emailTokens), userId))
    {
      emailTokens := OneShot.InvalidateAll(emailTokens, userId);
    }

    // ---- Redis keys ----

    method SetUser(id: Id, r: UserResponse)
      modifies this`userCache
      ensures St() == CacheUser(old(St()), id, r)
    {
      userCache := SetEx(userCache, id, r, USER_CACHE_TTL, now);
    }

    method GetUser(id: Id) returns (cached: Option<UserResponse>)
      ensures cached == Get(userCache, id, now)
    {
      cached := if Live(userCache, id, now) then Some(userCache[id].value) else None;
    }

    method InvalidateUser(id: Id)
      modifies this`userCache
      ensures St() == Uncache(old(St()), id)
    {
      userCache := userCache - {id};
    }

    method SetBlacklistKey(jti: Id, ttlSeconds: nat)
      modifies this`blacklist
      ensures St() == old(St()).(blacklist := SetEx(old(blacklist), jti, "1", ttlSeconds, now))
    {
      blacklist := SetEx(blacklist, jti, "1", ttlSeconds, now);
    }

    method SetUserRevocationTime(userId: Id, seconds: nat)
      modifies this`revokeBefore
      ensures St() == old(St()).(revokeBefore := SetEx(old(revokeBefore), userId, seconds, REVOKE_BEFORE_TTL, now))
    {
      revokeBefore := SetEx(revokeBefore, userId, seconds, REVOKE_BEFORE_TTL, now);
    }

    // ---- Permission resolution ----

    /** The query's rows: the user's active access to active apps. */
    function ActiveApps(userId: Id): set<Id>
      reads this
    {
      set a | a in apps && apps[a].status == Acl.Active && (userId, a) in userApps && userApps[(userId, a)].isActive
    }

    /** The loop over the user's apps that fills the record a token embeds. */
    method ResolveUserPermissions(userId: Id) returns (result: map<Id, Acl.AppPermission>)
      ensures result == Acl.Resolve(Rbac(), userId)
    {
      result := map[];
      var todo := ActiveApps(userId);
      while todo != {}
        invariant todo <= ActiveApps(userId)
        invariant result.Keys == ActiveApps(userId) - todo
        invariant forall a :: a in result ==> result[a] == Acl.PermissionFor(Rbac(), userApps[(userId, a)])
        decreases |todo|
      {
        var a :| a in todo;
        var ua := userApps[(userId, a)];
        var role := Acl.RoleOf(Rbac(), ua);
        var baseFeatures := Acl.RoleKeys(Rbac(), role);
        var directFeatures := Acl.OverrideRows(features, ua.overrides);
        var grants := Resolver.FromList(baseFeatures);
        for i := 0 to |directFeatures|
          invariant grants == Resolver.Apply(Resolver.FromList(baseFeatures), directFeatures[..i])
        {
          assert directFeatures[..i + 1][..i] == directFeatures[..i];
          if directFeatures[i].granted {
            grants := Resolver.Add(grants, directFeatures[i].key);
          } else {
            grants := Resolver.Delete(grants, directFeatures[i].key);
          }
        }
        assert directFeatures[..|directFeatures|] == directFeatures;
        var permission := Acl.AppPermission(
          if role.Some? then role.value.name else "none",
          if role.Some? then role.value.version else 0,
          grants);
        assert permission == Acl.PermissionFor(Rbac(), ua);
        result := result[a := permission];
        todo := todo - {a};
      }
    }

    /** The same computation for one app, whatever its status. */
    method ResolveUserPermissionsForApp(userId: Id, appId: Id) returns (p: Option<Acl.AppPermission>)
      ensures p == Acl.ResolveForApp(Rbac(), userId, appId)
    {
      if (userId, appId) !in userApps || !userApps[(userId, appId)].isActive {
        return None;
      }
      var ua := userApps[(userId, appId)];
      var role := Acl.RoleOf(Rbac(), ua);
      var baseFeatures := Acl.RoleKeys(Rbac(), role);
      var directFeatures := Acl.OverrideRows(features, ua.overrides);
      var grants := Resolver.FromList(baseFeatures);
      for i := 0 to |directFeatures|
        invariant grants == Resolver.Apply(Resolver.FromList(baseFeatures), directFeatures[..i])
      {
        assert directFeatures[..i + 1][..i] == directFeatures[..i];
        if directFeatures[i].granted {
          grants := Resolver.Add(grants, directFeatures[i].key);
        } else {
          grants := Resolver.Delete(grants, directFeatures[i].key);
        }
      }
      assert directFeatures[..|directFeatures|] == directFeatures;
      return Some(Acl.AppPermission(
        if role.Some? then role.value.name else "none",
        if role.Some? then role.value.version else 0,
        grants));
    }

    // ---- Role features and overrides: delete, then insert, in one transaction ----

    /** A duplicate or unknown id rolls the transaction back. */
    method SetRoleFeatureRows(roleId: Id, featureIds: seq<Id>) returns (ok: bool)
      requires roleId in roles
      modifies this`roles
      ensures ok <==> Acl.Insertable(old(Rbac()), featureIds)
      ensures roles == if ok then old(roles)[roleId := old(roles)[roleId].(features := featureIds)] else old(roles)
    {
      var saved := roles;
      roles := saved[roleId := saved[roleId].(features := [])];
      for i := 0 to |featureIds|
        invariant roles == saved[roleId := saved[roleId].(features := featureIds[..i])]
        invariant Acl.Insertable(old(Rbac()), featureIds[..i])
      {
        var id := featureIds[i];
        assert featureIds[..i + 1] == featureIds[..i] + [id];
        if id in roles[roleId].features || id !in features.byId {
          roles := saved;
          NotInsertable(old(Rbac()), featureIds, i);
          return false;
        }
        roles := roles[roleId := roles[roleId].(features := roles[roleId].features + [id])];
      }
      assert featureIds[..|featureIds|] == featureIds;
      return true;
    }

    method SetUserFeatureRows(userId: Id, appId: Id, overrides: seq<Acl.FeatureOverride>) returns (ok: bool)
      requires (userId, appId) in userApps
      modifies this`userApps
      ensures ok <==> Acl.Insertable(old(Rbac()), Acl.OverrideIds(overrides))
      ensures userApps ==
        if ok then old(userApps)[(userId, appId) := old(userApps)[(userId, appId)].(overrides := overrides)]
        else old(userApps)
    {
      var saved := userApps;
      var key := (userId, appId);
      ghost var ids := Acl.OverrideIds(overrides);
      userApps := saved[key := saved[key].(overrides := [])];
      for i := 0 to |overrides|
        invariant userApps == saved[key := saved[key].(overrides := overrides[..i])]
        invariant Acl.Insertable(old(Rbac()), ids[..i])
      {
        var o := overrides[i];
        assert overrides[..i + 1] == overrides[..i] + [o] && ids[..i + 1] == ids[..i] + [o.featureId];
        OverrideIdsPrefix(overrides, i);
        if o.featureId in Acl.OverrideIds(userApps[key].overrides) || o.featureId !in features.byId {
          userApps := saved;
          NotInsertable(old(Rbac()), ids, i);
          return false;
        }
        userApps := userApps[key := userApps[key].(overrides := userApps[key].overrides + [o])];
      }
      assert overrides[..|overrides|] == overrides && ids[..|overrides|] == ids;
      return true;
    }

    /** The users holding a role through an active access row. */
    method GetUserIdsByRole(roleId: Id) returns (userIds: set<Id>)
      ensures userIds == Acl.Holders(Rbac(), roleId)
    {
      userIds := set ua | ua in userApps && userApps[ua].roleId == Some(roleId) && userApps[ua].isActive :: ua.0;
    }
  }

  lemma NotInsertable(t: Acl.Tables, ids: seq<Id>, i: nat)
    requires i < |ids| && (ids[i] in ids[..i] || ids[i] !in t.features.byId)
    ensures !Acl.Insertable(t, ids)
  {
  }

  lemma OverrideIdsPrefix(ovs: seq<Acl.FeatureOverride>, i: nat)
    requires i <= |ovs|
    ensures Acl.OverrideIds(ovs[..i]) == Acl.OverrideIds(ovs)[..i]
  {
  }
}
