/** Apps, roles, per-user access and overrides: the RBAC tables and what each administrative call does to them. */
module Acl {
  import opened Basics
  import Features
  import Resolver

  datatype AppStatus = Pending | Active | Suspended

  datatype App = App(name: string, status: AppStatus)

  /** A role row together with its RoleFeature rows, in insertion order. */
  datatype Role = Role(appId: Id, name: string, info: RoleInfo, version: nat, features: seq<Id>)

  datatype RoleInfo = RoleInfo(displayName: string, description: Option<string>, isDefault: bool)

  /** The columns an edit writes; an absent one is left as it is. */
  datatype RoleEdit = RoleEdit(displayName: Option<string>, description: Option<string>, isDefault: Option<bool>)

  datatype FeatureOverride = FeatureOverride(featureId: Id, granted: bool)

  /** A UserApp row together with its UserFeature rows, in insertion order. */
  datatype UserApp = UserApp(roleId: Option<Id>, isActive: bool, overrides: seq<FeatureOverride>)

  datatype SyncStatus = SyncPending | SyncApproved | SyncRejected

  datatype SyncRequest = SyncRequest(appId: Id, features: seq<Features.FeatureInput>, status: SyncStatus)

  datatype Tables = Tables(
    apps: map<Id, App>,
    features: Features.Table,
    roles: map<Id, Role>,
    userApps: map<(Id, Id), UserApp>,   // keyed by (userId, appId)
    requests: map<Id, SyncRequest>,
    nextId: Id)

  const Empty: Tables := Tables(map[], Features.Table(map[], map[], 0), map[], map[], map[], 0)

  /** The snapshot of one app that a JWT carries. */
  datatype AppPermission = AppPermission(role: string, roleVersion: nat, features: seq<string>)

  // ---- Permission resolution ----

  /** The join with Feature: rows whose feature is gone have been cascaded away. */
  function KeysOf(t: Features.Table, ids: seq<Id>): seq<string> {
    if ids == [] then []
    else KeysOf(t, ids[..|ids| - 1]) + (var id := ids[|ids| - 1]; if id in t.byId then [t.byId[id].1] else [])
  }

  function OverrideRows(t: Features.Table, ovs: seq<FeatureOverride>): seq<Resolver.Override> {
    if ovs == [] then []
    else
      var o := ovs[|ovs| - 1];
      OverrideRows(t, ovs[..|ovs| - 1]) +
      (if o.featureId in t.byId then [Resolver.Override(t.byId[o.featureId].1, o.granted)] else [])
  }

  function RoleOf(s: Tables, ua: UserApp): Option<Role> {
    if ua.roleId.Some? && ua.roleId.value in s.roles then Some(s.roles[ua.roleId.value]) else None
  }

  function RoleKeys(s: Tables, role: Option<Role>): seq<string> {
    if role.Some? then KeysOf(s.features, role.value.features) else []
  }

  function PermissionFor(s: Tables, ua: UserApp): AppPermission {
    var role := RoleOf(s, ua);
    AppPermission(
      if role.Some? then role.value.name else "none",
      if role.Some? then role.value.version else 0,
      Resolver.Features(RoleKeys(s, role), OverrideRows(s.features, ua.overrides)))
  }

  predicate AppIsActive(s: Tables, appId: Id) {
    appId in s.apps && s.apps[appId].status == Active
  }

  /** The bulk resolver: what a new access token embeds. */
  function Resolve(s: Tables, userId: Id): map<Id, AppPermission> {
    map a | a in s.apps && s.apps[a].status == Active && (userId, a) in s.userApps && s.userApps[(userId, a)].isActive
      :: PermissionFor(s, s.userApps[(userId, a)])
  }

  /** The per-app resolver: it does not look at the app's status. */
  function ResolveForApp(s: Tables, userId: Id, appId: Id): Option<AppPermission> {
    if (userId, appId) in s.userApps && s.userApps[(userId, appId)].isActive
    then Some(PermissionFor(s, s.userApps[(userId, appId)]))
    else None
  }

  /** The stale flag of the internal verify endpoint, given the role version the JWT carries. */
  function PermissionsStale(s: Tables, userId: Id, appId: Id, jwtVersion: Option<nat>): bool {
    var p := ResolveForApp(s, userId, appId);
    p.Some? && jwtVersion.Some? && jwtVersion.value != p.value.roleVersion
  }

  // ---- Administrative calls ----

  datatype RoleChange = KeepRole | ClearRole | SetRole(roleId: Id)

  datatype Op =
    | RegisterApp(name: string)
    | SuspendApp(appId: Id)
    | ReactivateApp(appId: Id)
    | AddFeature(appId: Id, input: Features.FeatureInput)
    | UpdateFeature(featureId: Id, displayName: Option<string>, description: Option<string>)
    | RemoveFeature(featureId: Id)
    | SubmitSync(appId: Id, manifest: seq<Features.FeatureInput>)
    | ApproveSync(requestId: Id)
    | RejectSync(requestId: Id)
    | CreateRole(appId: Id, name: string, info: RoleInfo)
    | UpdateRole(roleId: Id, edit: RoleEdit)
    | DeleteRole(roleId: Id)
    | SetRoleFeatures(roleId: Id, featureIds: seq<Id>)
    | AssignUser(userId: Id, appId: Id, role: Option<Id>)
    | UpdateUserApp(userId: Id, appId: Id, change: RoleChange, isActive: Option<bool>)
    | RemoveUser(userId: Id, appId: Id)
    | SetOverrides(userId: Id, appId: Id, overrides: seq<FeatureOverride>)

  /** The new tables, the outcome, and the users whose sessions the call invalidates. */
  datatype Reply = Reply(tables: Tables, result: Result<()>, killed: set<Id>)

  function Fail(s: Tables, e: Error): Reply { Reply(s, Err(e), {}) }

  function Done(s: Tables): Reply { Reply(s, Ok(()), {}) }

  /** Users with an active UserApp row on this role. */
  function Holders(s: Tables, roleId: Id): set<Id> {
    set ua | ua in s.userApps && s.userApps[ua].roleId == Some(roleId) && s.userApps[ua].isActive :: ua.0
  }

  predicate DistinctIds(ids: seq<Id>) {
    forall i, j :: 0 <= i < j < |ids| ==> ids[i] != ids[j]
  }

  /** createMany fails on a duplicate primary key or a missing foreign key; the transaction rolls back. */
  predicate Insertable(s: Tables, ids: seq<Id>) {
    DistinctIds(ids) && forall id :: id in ids ==> id in s.features.byId
  }

  function OverrideIds(ovs: seq<FeatureOverride>): seq<Id> {
    seq(|ovs|, i requires 0 <= i < |ovs| => ovs[i].featureId)
  }

  function Register(s: Tables, name: string): Reply {
    if exists a :: a in s.apps && s.apps[a].name == name then Fail(s, DatabaseError)
    else Done(s.(apps := s.apps[s.nextId := App(name, Active)], nextId := s.nextId + 1))
  }

  function SetStatus(s: Tables, appId: Id, status: AppStatus): Reply {
    if appId !in s.apps then Fail(s, NotFound)
    else if s.apps[appId].status == status then Fail(s, Validation)
    else Done(s.(apps := s.apps[appId := s.apps[appId].(status := status)]))
  }

  function NewFeature(s: Tables, appId: Id, f: Features.FeatureInput): Reply {
    if appId !in s.apps then Fail(s, NotFound)
    else if (appId, f.key) in s.features.rows then Fail(s, DatabaseError)
    else Done(s.(features := Features.Create(s.features, (appId, f.key), f)))
  }

  function EditFeature(s: Tables, featureId: Id, displayName: Option<string>, description: Option<string>): Reply {
    if featureId !in s.features.byId || s.features.byId[featureId] !in s.features.rows then Fail(s, NotFound)
    else
      var ak := s.features.byId[featureId];
      var current := s.features.rows[ak];
      var row := Features.Amend(current, GetOr(displayName, current.displayName), description);
      Done(s.(features := s.features.(rows := s.features.rows[ak := row])))
  }

  function Without(ids: seq<Id>, id: Id): seq<Id> {
    if ids == [] then []
    else Without(ids[..|ids| - 1], id) + (if ids[|ids| - 1] == id then [] else [ids[|ids| - 1]])
  }

  function WithoutOverride(ovs: seq<FeatureOverride>, id: Id): seq<FeatureOverride> {
    if ovs == [] then []
    else WithoutOverride(ovs[..|ovs| - 1], id) + (if ovs[|ovs| - 1].featureId == id then [] else [ovs[|ovs| - 1]])
  }

  /** Deleting a feature cascades to the RoleFeature and UserFeature rows; no version is bumped, no session ends. */
  function DropFeature(s: Tables, id: Id): Reply {
    if id !in s.features.byId then Fail(s, NotFound)
    else Done(s.(
      features := Features.Remove(s.features, id),
      roles := map r | r in s.roles :: s.roles[r].(features := Without(s.roles[r].features, id)),
      userApps := map ua | ua in s.userApps ::
        s.userApps[ua].(overrides := WithoutOverride(s.userApps[ua].overrides, id))))
  }

  function Submit(s: Tables, appId: Id, manifest: seq<Features.FeatureInput>): Reply {
    if !AppIsActive(s, appId) then Fail(s, AuthenticationError)
    else if manifest == [] then Fail(s, Validation)
    else Done(s.(requests := s.requests[s.nextId := SyncRequest(appId, manifest, SyncPending)], nextId := s.nextId + 1))
  }

  function Review(s: Tables, requestId: Id, approve: bool): Reply {
    if requestId !in s.requests then Fail(s, NotFound)
    else if s.requests[requestId].status != SyncPending then Fail(s, Validation)
    else
      var r := s.requests[requestId];
      var closed := s.requests[requestId := r.(status := if approve then SyncApproved else SyncRejected)];
      Done(s.(requests := closed,
              features := if approve then Features.UpsertAll(s.features, r.appId, r.features) else s.features))
  }

  function NewRole(s: Tables, appId: Id, name: string, info: RoleInfo): Reply {
    if appId !in s.apps then Fail(s, NotFound)
    else if exists r :: r in s.roles && s.roles[r].appId == appId && s.roles[r].name == name then Fail(s, DatabaseError)
    else Done(s.(roles := s.roles[s.nextId := Role(appId, name, info, 1, [])], nextId := s.nextId + 1))
  }

  /** Editing a role bumps its version and ends the sessions of every active holder. */
  function EditedInfo(info: RoleInfo, edit: RoleEdit): RoleInfo {
    RoleInfo(
      GetOr(edit.displayName, info.displayName),
      if edit.description.Some? then edit.description else info.description,
      GetOr(edit.isDefault, info.isDefault))
  }

  function EditRole(s: Tables, roleId: Id, edit: RoleEdit): Reply {
    if roleId !in s.roles then Fail(s, NotFound)
    else
      var role := s.roles[roleId];
      var edited := role.(info := EditedInfo(role.info, edit), version := role.version + 1);
      Reply(s.(roles := s.roles[roleId := edited]), Ok(()), Holders(s, roleId))
  }

  function ClearedRole(ua: UserApp, roleId: Id): UserApp {
    if ua.roleId == Some(roleId) then ua.(roleId := None) else ua
  }

  function DropRole(s: Tables, roleId: Id): Reply {
    if roleId !in s.roles then Fail(s, NotFound)
    else Reply(s.(roles := s.roles - {roleId},
                  userApps := map ua | ua in s.userApps :: ClearedRole(s.userApps[ua], roleId)),
               Ok(()), Holders(s, roleId))
  }

  function ReplaceRoleFeatures(s: Tables, roleId: Id, ids: seq<Id>): Reply {
    if roleId !in s.roles then Fail(s, NotFound)
    else if !Insertable(s, ids) then Fail(s, DatabaseError)
    else
      var role := s.roles[roleId];
      var edited := role.(features := ids, version := role.version + 1);
      Reply(s.(roles := s.roles[roleId := edited]), Ok(()), Holders(s, roleId))
  }

  predicate RoleInApp(s: Tables, roleId: Id, appId: Id) {
    roleId in s.roles && s.roles[roleId].appId == appId
  }

  function Assign(s: Tables, users: set<Id>, userId: Id, appId: Id, role: Option<Id>): Reply {
    if userId !in users || appId !in s.apps then Fail(s, NotFound)
    else if s.apps[appId].status != Active then Fail(s, Validation)
    else if role.Some? && !RoleInApp(s, role.value, appId) then Fail(s, Validation)
    else if (userId, appId) in s.userApps then Fail(s, DatabaseError)
    else Done(s.(userApps := s.userApps[(userId, appId) := UserApp(role, true, [])]))
  }

  /** An absent role or status is left as it is; an explicit null clears the role. */
  function ChangedAccess(ua: UserApp, role: RoleChange, isActive: Option<bool>): UserApp {
    var newRole := match role case KeepRole => ua.roleId case ClearRole => None case SetRole(r) => Some(r);
    UserApp(newRole, if isActive.Some? then isActive.value else ua.isActive, ua.overrides)
  }

  function ChangeAccess(s: Tables, userId: Id, appId: Id, role: RoleChange, isActive: Option<bool>): Reply {
    if (userId, appId) !in s.userApps then Fail(s, NotFound)
    else if role.SetRole? && !RoleInApp(s, role.roleId, appId) then Fail(s, Validation)
    else
      var ua := s.userApps[(userId, appId)];
      Reply(s.(userApps := s.userApps[(userId, appId) := ChangedAccess(ua, role, isActive)]), Ok(()), {userId})
  }

  function Revoke(s: Tables, userId: Id, appId: Id): Reply {
    if (userId, appId) !in s.userApps then Fail(s, NotFound)
    else Reply(s.(userApps := s.userApps - {(userId, appId)}), Ok(()), {userId})
  }

  function ReplaceOverrides(s: Tables, userId: Id, appId: Id, ovs: seq<FeatureOverride>): Reply {
    if (userId, appId) !in s.userApps then Fail(s, NotFound)
    else if !Insertable(s, OverrideIds(ovs)) then Fail(s, DatabaseError)
    else
      var ua := s.userApps[(userId, appId)];
      Reply(s.(userApps := s.userApps[(userId, appId) := ua.(overrides := ovs)]), Ok(()), {userId})
  }

  function Step(s: Tables, users: set<Id>, op: Op): Reply {
    match op
    case RegisterApp(name) => Register(s, name)
    case SuspendApp(a) => SetStatus(s, a, Suspended)
    case ReactivateApp(a) => SetStatus(s, a, Active)
    case AddFeature(a, f) => NewFeature(s, a, f)
    case UpdateFeature(id, displayName, description) => EditFeature(s, id, displayName, description)
    case RemoveFeature(id) => DropFeature(s, id)
    case SubmitSync(a, manifest) => Submit(s, a, manifest)
    case ApproveSync(id) => Review(s, id, true)
    case RejectSync(id) => Review(s, id, false)
    case CreateRole(a, name, info) => NewRole(s, a, name, info)
    case UpdateRole(r, edit) => EditRole(s, r, edit)
    case DeleteRole(r) => DropRole(s, r)
    case SetRoleFeatures(r, ids) => ReplaceRoleFeatures(s, r, ids)
    case AssignUser(u, a, role) => Assign(s, users, u, a, role)
    case UpdateUserApp(u, a, role, isActive) => ChangeAccess(s, u, a, role, isActive)
    case RemoveUser(u, a) => Revoke(s, u, a)
    case SetOverrides(u, a, ovs) => ReplaceOverrides(s, u, a, ovs)
  }

  /** Deleting a user cascades to the user's UserApp rows and their overrides. */
  function ForgetUser(s: Tables, userId: Id): Tables {
    s.(userApps := map ua | ua in s.userApps && ua.0 != userId :: s.userApps[ua])
  }

  // ---- Integrity ----

  ghost predicate FeaturesExist(s: Tables, ids: seq<Id>) {
    forall id :: id in ids ==> id in s.features.byId
  }

  /** Foreign keys, fresh ids, and: a UserApp's role belongs to the UserApp's app. */
  ghost predicate Valid(s: Tables, users: set<Id>) {
    && Features.Valid(s.features)
    && (forall a :: a in s.apps ==> a < s.nextId)
    && (forall r :: r in s.roles ==> r < s.nextId && FeaturesExist(s, s.roles[r].features))
    && (forall q :: q in s.requests ==> q < s.nextId)
    && (forall ua :: ua in s.userApps ==> ua.0 in users && ua.1 in s.apps && UserAppValid(s, ua.1, s.userApps[ua]))
  }

  ghost predicate UserAppValid(s: Tables, appId: Id, ua: UserApp) {
    && (ua.roleId.Some? ==> RoleInApp(s, ua.roleId.value, appId))
    && FeaturesExist(s, OverrideIds(ua.overrides))
  }
}
