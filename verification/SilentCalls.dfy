/** The calls that sign nobody out: exactly when each of them changes what a user resolves to. */
module SilentCalls {
  import opened Basics
  import opened Acl
  import opened AclProofs
  import Features
  import Resolver

  // ---- When a silent call changes what a user resolves to ----

  /** The guards of a successful assignment. */
  predicate MayAssign(s: Tables, users: set<Id>, userId: Id, appId: Id, role: Option<Id>) {
    && userId in users && AppIsActive(s, appId)
    && (role.Some? ==> RoleInApp(s, role.value, appId))
    && (userId, appId) !in s.userApps
  }

  /** The user resolves to something else. */
  ghost predicate Changed(s: Tables, s': Tables, userId: Id) { Resolve(s', userId) != Resolve(s, userId) }

  lemma Unchanged(s: Tables, userId: Id)
    ensures !Changed(s, s, userId)
  {
  }

  function WithStatus(s: Tables, appId: Id, status: AppStatus): Tables
    requires appId in s.apps
  {
    s.(apps := s.apps[appId := s.apps[appId].(status := status)])
  }

  lemma StatusCases(s: Tables, users: set<Id>, op: Op, s': Tables)
    requires (op.SuspendApp? || op.ReactivateApp?) && s' == Step(s, users, op).tables
    ensures var status := if op.SuspendApp? then Suspended else Active;
      s' == if op.appId in s.apps && s.apps[op.appId].status != status then WithStatus(s, op.appId, status) else s
  {
  }

  lemma HiddenApp(s: Tables, appId: Id, userId: Id)
    requires appId in Resolve(s, userId)
    ensures Changed(s, WithStatus(s, appId, Suspended), userId)
  {
    assert appId !in Resolve(WithStatus(s, appId, Suspended), userId);
  }

  lemma ShownApp(s: Tables, appId: Id, userId: Id)
    requires appId in s.apps && s.apps[appId].status != Active && ResolveForApp(s, userId, appId).Some?
    ensures Changed(s, WithStatus(s, appId, Active), userId)
  {
    assert appId in Resolve(WithStatus(s, appId, Active), userId) && appId !in Resolve(s, userId);
  }

  /** A suspension changes the resolution exactly of the users who resolve the app. */
  lemma SuspensionChangesIff(s: Tables, users: set<Id>, appId: Id, s': Tables, userId: Id)
    requires s' == Step(s, users, SuspendApp(appId)).tables
    ensures Changed(s, s', userId) <==> appId in Resolve(s, userId)
  {
    StatusCases(s, users, SuspendApp(appId), s');
    Unchanged(s, userId);
    if appId in Resolve(s, userId) {
      HiddenApp(s, appId, userId);
    } else if appId in s.apps {
      SameElsewhere(s, userId, appId, Suspended);
    }
  }

  /** A reactivation changes it exactly for active access to an app that is not active. */
  lemma ReactivationChangesIff(s: Tables, users: set<Id>, appId: Id, s': Tables, userId: Id)
    requires s' == Step(s, users, ReactivateApp(appId)).tables
    ensures Changed(s, s', userId) <==>
      appId in s.apps && s.apps[appId].status != Active && ResolveForApp(s, userId, appId).Some?
  {
    StatusCases(s, users, ReactivateApp(appId), s');
    Unchanged(s, userId);
    if appId in s.apps && s.apps[appId].status != Active {
      if ResolveForApp(s, userId, appId).Some? {
        ShownApp(s, appId, userId);
      } else {
        SameElsewhere(s, userId, appId, Active);
      }
    }
  }

  function WithAccess(s: Tables, userId: Id, appId: Id, role: Option<Id>): Tables {
    s.(userApps := s.userApps[(userId, appId) := UserApp(role, true, [])])
  }

  lemma AssignmentCases(s: Tables, users: set<Id>, target: Id, appId: Id, role: Option<Id>, s': Tables)
    requires s' == Step(s, users, AssignUser(target, appId, role)).tables
    ensures s' == if MayAssign(s, users, target, appId, role) then WithAccess(s, target, appId, role) else s
  {
  }

  lemma NewAccessResolves(s: Tables, userId: Id, appId: Id, role: Option<Id>)
    requires AppIsActive(s, appId) && (userId, appId) !in s.userApps
    ensures Changed(s, WithAccess(s, userId, appId, role), userId)
  {
    assert appId in Resolve(WithAccess(s, userId, appId, role), userId) && appId !in Resolve(s, userId);
  }

  /** An assignment changes it exactly when it goes through and is the user's own. */
  lemma AssignmentChangesIff(s: Tables, users: set<Id>, target: Id, appId: Id, role: Option<Id>, s': Tables, userId: Id)
    requires s' == Step(s, users, AssignUser(target, appId, role)).tables
    ensures Changed(s, s', userId) <==> target == userId && MayAssign(s, users, target, appId, role)
  {
    AssignmentCases(s, users, target, appId, role, s');
    Unchanged(s, userId);
    if MayAssign(s, users, target, appId, role) {
      if target == userId {
        NewAccessResolves(s, userId, appId, role);
      } else {
        SameAccess(s, WithAccess(s, target, appId, role), userId);
      }
    }
  }

  /** Deleting a user changes it exactly for that user, if there was anything to resolve. */
  lemma DeletionChangesIff(s: Tables, deleted: Id, userId: Id)
    ensures Changed(s, ForgetUser(s, deleted), userId) <==> deleted == userId && Resolve(s, userId) != map[]
  {
    if deleted == userId {
      assert Resolve(ForgetUser(s, deleted), userId) == map[];
    } else {
      SameAccess(s, ForgetUser(s, deleted), userId);
    }
  }

  /** Changing the status of an app that is resolved neither before nor after changes nothing. */
  lemma SameElsewhere(s: Tables, userId: Id, appId: Id, status: AppStatus)
    requires appId in s.apps && (status == Active ==> ResolveForApp(s, userId, appId).None?)
    requires appId !in Resolve(s, userId)
    ensures !Changed(s, WithStatus(s, appId, status), userId)
  {
    var s' := WithStatus(s, appId, status);
    forall a ensures a in Resolve(s', userId) <==> a in Resolve(s, userId) {
    }
    forall a | a in Resolve(s, userId) ensures Resolve(s', userId)[a] == Resolve(s, userId)[a] {
      SameTables(s, s', s.userApps[(userId, a)]);
    }
  }

  lemma SameTables(s: Tables, s': Tables, ua: UserApp)
    requires s'.roles == s.roles && s'.features == s.features
    ensures PermissionFor(s', ua) == PermissionFor(s, ua)
  {
  }

  /** A user resolves alike in tables that differ only in other users' access. */
  lemma SameAccess(s: Tables, s': Tables, userId: Id)
    requires s' == s.(userApps := s'.userApps)
    requires forall a :: (userId, a) in s.userApps <==> (userId, a) in s'.userApps
    requires forall a :: (userId, a) in s.userApps ==> s'.userApps[(userId, a)] == s.userApps[(userId, a)]
    ensures !Changed(s, s', userId)
  {
    forall a | a in Resolve(s, userId) ensures Resolve(s', userId)[a] == Resolve(s, userId)[a] {
      SameTables(s, s', s.userApps[(userId, a)]);
    }
  }

  // ---- Feature removal ----

  /** The access row names the feature, through its role or through an override. */
  predicate Uses(s: Tables, ua: UserApp, featureId: Id) {
    || (RoleOf(s, ua).Some? && featureId in RoleOf(s, ua).value.features)
    || featureId in OverrideIds(ua.overrides)
  }

  /** A feature is in use for a user if some resolved access row names it. */
  predicate InUse(s: Tables, userId: Id, featureId: Id) {
    exists a :: a in Resolve(s, userId) && Uses(s, s.userApps[(userId, a)], featureId)
  }

  lemma {:induction false} WithoutAbsent(ids: seq<Id>, id: Id)
    requires id !in ids
    ensures Without(ids, id) == ids
  {
    if ids == [] {
    } else {
      assert ids == ids[..|ids| - 1] + [ids[|ids| - 1]];
      WithoutAbsent(ids[..|ids| - 1], id);
    }
  }

  lemma {:induction false} WithoutOverrideAbsent(ovs: seq<FeatureOverride>, id: Id)
    requires id !in OverrideIds(ovs)
    ensures WithoutOverride(ovs, id) == ovs
  {
    if ovs == [] {
    } else {
      var init, last := ovs[..|ovs| - 1], ovs[|ovs| - 1];
      assert ovs == init + [last] && OverrideIds(ovs)[|ovs| - 1] == last.featureId;
      assert OverrideIds(init) == OverrideIds(ovs)[..|ovs| - 1];
      WithoutOverrideAbsent(init, id);
    }
  }

  /** What is left of an access row when a feature goes. */
  function RowWithout(ua: UserApp, featureId: Id): UserApp {
    ua.(overrides := WithoutOverride(ua.overrides, featureId))
  }

  /** An access row that does not name the removed feature keeps its permission to the letter. */
  lemma UnusedRemovalKeepsRow(s: Tables, users: set<Id>, featureId: Id, appId: Id, ua: UserApp)
    requires Valid(s, users) && featureId in s.features.byId && UserAppValid(s, appId, ua) && !Uses(s, ua, featureId)
    ensures PermissionFor(DropFeature(s, featureId).tables, RowWithout(ua, featureId)) == PermissionFor(s, ua)
  {
    var s' := DropFeature(s, featureId).tables;
    WithoutOverrideAbsent(ua.overrides, featureId);
    OverrideIdsMembers(ua.overrides);
    SameOverrideRows(s.features, s'.features, ua.overrides);
    if ua.roleId.Some? {
      var ids := s.roles[ua.roleId.value].features;
      WithoutAbsent(ids, featureId);
      assert FeaturesExist(s, ids);
      SameKeys(s.features, s'.features, ids);
    }
  }

  /** The two maps have the same keys, and different values exactly on these. */
  ghost predicate DifferOn<K, V>(m: map<K, V>, m': map<K, V>, d: set<K>) {
    m.Keys == m'.Keys && d <= m.Keys && forall k :: k in m ==> (m'[k] != m[k] <==> k in d)
  }

  lemma DifferIff<K, V>(m: map<K, V>, m': map<K, V>, d: set<K>)
    requires DifferOn(m, m', d)
    ensures m' != m <==> d != {}
  {
  }

  lemma RemovedRow(s: Tables, featureId: Id, userId: Id, a: Id)
    requires featureId in s.features.byId && a in Resolve(s, userId)
    ensures var s' := DropFeature(s, featureId).tables;
      && a in Resolve(s', userId)
      && Resolve(s', userId)[a] == PermissionFor(s', RowWithout(s.userApps[(userId, a)], featureId))
  {
  }

  lemma RemovalKeepsApps(s: Tables, featureId: Id, userId: Id)
    requires featureId in s.features.byId
    ensures Resolve(DropFeature(s, featureId).tables, userId).Keys == Resolve(s, userId).Keys
  {
  }

  lemma UnusedRemovalOnRow(s: Tables, users: set<Id>, featureId: Id, userId: Id, a: Id)
    requires Valid(s, users) && featureId in s.features.byId
    requires a in Resolve(s, userId) && !Uses(s, s.userApps[(userId, a)], featureId)
    ensures var s' := DropFeature(s, featureId).tables;
      a in Resolve(s', userId) && Resolve(s', userId)[a] == Resolve(s, userId)[a]
  {
    RemovedRow(s, featureId, userId, a);
    UnusedRemovalKeepsRow(s, users, featureId, a, s.userApps[(userId, a)]);
  }

  lemma UnusedRemovalDiffers(s: Tables, users: set<Id>, featureId: Id, userId: Id)
    requires Valid(s, users) && featureId in s.features.byId && !InUse(s, userId, featureId)
    ensures DifferOn(Resolve(s, userId), Resolve(DropFeature(s, featureId).tables, userId), {})
  {
    RemovalKeepsApps(s, featureId, userId);
    forall a | a in Resolve(s, userId)
      ensures Resolve(DropFeature(s, featureId).tables, userId)[a] == Resolve(s, userId)[a]
    {
      UnusedRemovalOnRow(s, users, featureId, userId, a);
    }
  }

  lemma RemovalIsDrop(s: Tables, users: set<Id>, featureId: Id, s': Tables)
    requires s' == Step(s, users, RemoveFeature(featureId)).tables
    ensures s' == DropFeature(s, featureId).tables
    ensures featureId !in s.features.byId ==> s' == s
  {
  }

  /** Removing a feature that is not in use for a user changes nothing for that user. */
  lemma UnusedRemovalKeepsResolution(s: Tables, users: set<Id>, featureId: Id, s': Tables, userId: Id)
    requires Valid(s, users) && !InUse(s, userId, featureId)
    requires s' == Step(s, users, RemoveFeature(featureId)).tables
    ensures !Changed(s, s', userId)
  {
    RemovalIsDrop(s, users, featureId, s');
    if featureId in s.features.byId {
      UnusedRemovalDiffers(s, users, featureId, userId);
      DifferIff(Resolve(s, userId), Resolve(s', userId), {});
    }
  }

  // ---- What it means for a key to be granted, row by row ----

  predicate KeyIs(t: Features.Table, featureId: Id, key: string) {
    featureId in t.byId && t.byId[featureId].1 == key
  }

  predicate OnKey(s: Tables, featureId: Id, key: string) { KeyIs(s.features, featureId, key) }

  /** What the last override row on this key says, rows of skipped features ignored. */
  function Decision(s: Tables, ovs: seq<FeatureOverride>, key: string, skip: set<Id>): Option<bool> {
    if ovs == [] then None
    else
      var last := ovs[|ovs| - 1];
      if OnKey(s, last.featureId, key) && last.featureId !in skip then Some(last.granted)
      else Decision(s, ovs[..|ovs| - 1], key, skip)
  }

  predicate RoleHas(s: Tables, ua: UserApp, key: string, skip: set<Id>) {
    RoleOf(s, ua).Some? && exists id :: id in RoleOf(s, ua).value.features && id !in skip && OnKey(s, id, key)
  }

  /** The last override on the key decides; without one the role does. */
  predicate Entitled(s: Tables, ua: UserApp, key: string, skip: set<Id>) {
    GetOr(Decision(s, ua.overrides, key, skip), RoleHas(s, ua, key, skip))
  }

  lemma {:induction false} KeysOfMembers(s: Tables, ids: seq<Id>, key: string)
    ensures key in KeysOf(s.features, ids) <==> exists id :: id in ids && OnKey(s, id, key)
  {
    if ids == [] {
    } else {
      var init, last := ids[..|ids| - 1], ids[|ids| - 1];
      assert ids == init + [last];
      KeysOfMembers(s, init, key);
      assert last in ids && forall id :: id in ids ==> id in init || id == last;
      if last in s.features.byId {
        assert KeysOf(s.features, ids) == KeysOf(s.features, init) + [s.features.byId[last].1];
        assert OnKey(s, last, s.features.byId[last].1);
      } else {
        assert KeysOf(s.features, ids) == KeysOf(s.features, init) + [];
      }
      forall id | id in init ensures id in ids {
      }
    }
  }

  lemma {:induction false} ApplyDecides(s: Tables, base: seq<string>, ovs: seq<FeatureOverride>, key: string)
    ensures key in Resolver.Apply(base, OverrideRows(s.features, ovs)) <==>
      GetOr(Decision(s, ovs, key, {}), key in base)
  {
    if ovs == [] {
    } else {
      var init, last := ovs[..|ovs| - 1], ovs[|ovs| - 1];
      var rows := OverrideRows(s.features, init);
      ApplyDecides(s, base, init, key);
      if last.featureId in s.features.byId {
        var row := Resolver.Override(s.features.byId[last.featureId].1, last.granted);
        assert (rows + [row])[..|rows|] == rows;
        Resolver.DeleteElements(Resolver.Apply(base, rows), row.key);
      } else {
        assert rows + [] == rows;
      }
    }
  }

  /** A permission lists exactly the keys the rows entitle to. */
  lemma ListsEntitled(s: Tables, ua: UserApp, key: string)
    ensures key in PermissionFor(s, ua).features <==> Entitled(s, ua, key, {})
  {
    var base := RoleKeys(s, RoleOf(s, ua));
    Resolver.FromListElements(base);
    ApplyDecides(s, Resolver.FromList(base), ua.overrides, key);
    if RoleOf(s, ua).Some? {
      KeysOfMembers(s, RoleOf(s, ua).value.features, key);
    }
  }

  /**
   * Both resolvers, told by the rows alone: the bulk one lists active access to active apps, the other any active
   * access.
   */
  lemma ResolversMean(s: Tables, userId: Id, appId: Id, key: string)
    ensures var active := (userId, appId) in s.userApps && s.userApps[(userId, appId)].isActive;
      && (ResolveForApp(s, userId, appId).Some? <==> active)
      && (appId in Resolve(s, userId) <==> active && AppIsActive(s, appId))
      && (active ==>
            (key in ResolveForApp(s, userId, appId).value.features <==>
             Entitled(s, s.userApps[(userId, appId)], key, {})))
      && (appId in Resolve(s, userId) ==>
            (key in Resolve(s, userId)[appId].features <==> Entitled(s, s.userApps[(userId, appId)], key, {})))
  {
    if (userId, appId) in s.userApps {
      ListsEntitled(s, s.userApps[(userId, appId)], key);
    }
  }

  // ---- What removing a feature does to one access row ----

  lemma {:induction false} DecisionWithout(s: Tables, ovs: seq<FeatureOverride>, featureId: Id, key: string)
    requires featureId in s.features.byId
    ensures Decision(DropFeature(s, featureId).tables, WithoutOverride(ovs, featureId), key, {}) ==
      Decision(s, ovs, key, {featureId})
  {
    if ovs == [] {
    } else {
      var init, last := ovs[..|ovs| - 1], ovs[|ovs| - 1];
      DecisionWithout(s, init, featureId, key);
      var kept := WithoutOverride(init, featureId);
      if last.featureId == featureId {
        assert kept + [] == kept;
      } else {
        assert (kept + [last])[..|kept|] == kept;
      }
    }
  }

  lemma RoleHasWithout(s: Tables, ua: UserApp, featureId: Id, key: string)
    requires featureId in s.features.byId
    ensures RoleHas(DropFeature(s, featureId).tables, RowWithout(ua, featureId), key, {}) <==>
      RoleHas(s, ua, key, {featureId})
  {
    var s' := DropFeature(s, featureId).tables;
    if RoleOf(s, ua).Some? {
      WithoutMembers(RoleOf(s, ua).value.features, featureId);
      assert forall id :: OnKey(s', id, key) <==> OnKey(s, id, key) && id != featureId;
    }
  }

  /** After the removal the row entitles to a key exactly if it did so before with the feature's own rows ignored. */
  lemma EntitledWithout(s: Tables, ua: UserApp, featureId: Id, key: string)
    requires featureId in s.features.byId
    ensures Entitled(DropFeature(s, featureId).tables, RowWithout(ua, featureId), key, {}) <==>
      Entitled(s, ua, key, {featureId})
  {
    DecisionWithout(s, ua.overrides, featureId, key);
    RoleHasWithout(s, ua, featureId, key);
  }

  lemma {:induction false} SkipOtherKey(s: Tables, ovs: seq<FeatureOverride>, featureId: Id, key: string)
    requires !OnKey(s, featureId, key)
    ensures Decision(s, ovs, key, {featureId}) == Decision(s, ovs, key, {})
  {
    if ovs == [] {
    } else {
      SkipOtherKey(s, ovs[..|ovs| - 1], featureId, key);
    }
  }

  /** One key of a row, before and after the removal. */
  lemma RemovalOnKey(s: Tables, ua: UserApp, featureId: Id, key: string)
    requires featureId in s.features.byId
    ensures key in PermissionFor(s, ua).features <==> Entitled(s, ua, key, {})
    ensures key in PermissionFor(DropFeature(s, featureId).tables, RowWithout(ua, featureId)).features <==>
      Entitled(s, ua, key, {featureId})
    ensures !OnKey(s, featureId, key) ==> (Entitled(s, ua, key, {featureId}) <==> Entitled(s, ua, key, {}))
  {
    ListsEntitled(s, ua, key);
    ListsEntitled(DropFeature(s, featureId).tables, RowWithout(ua, featureId), key);
    EntitledWithout(s, ua, featureId, key);
    if !OnKey(s, featureId, key) {
      SkipOtherKey(s, ua.overrides, featureId, key);
    }
  }

  lemma DifferAtOne(before: seq<string>, after: seq<string>, own: string)
    requires forall key :: key != own ==> (key in before <==> key in after)
    ensures Resolver.Elements(after) != Resolver.Elements(before) <==> (own in before) != (own in after)
  {
    assert own in before <==> own in Resolver.Elements(before);
    assert own in after <==> own in Resolver.Elements(after);
  }

  /**
   * Removing a feature changes the keys a row grants exactly if its own key stands or falls with the feature's rows.
   */
  lemma RemovalChangesKeysIff(s: Tables, ua: UserApp, featureId: Id)
    requires featureId in s.features.byId
    ensures var key := s.features.byId[featureId].1;
      var after := PermissionFor(DropFeature(s, featureId).tables, RowWithout(ua, featureId));
      Resolver.Elements(after.features) != Resolver.Elements(PermissionFor(s, ua).features) <==>
      Entitled(s, ua, key, {}) != Entitled(s, ua, key, {featureId})
  {
    var before := PermissionFor(s, ua).features;
    var after := PermissionFor(DropFeature(s, featureId).tables, RowWithout(ua, featureId)).features;
    var own := s.features.byId[featureId].1;
    forall key | key != own ensures key in before <==> key in after {
      RemovalOnKey(s, ua, featureId, key);
    }
    RemovalOnKey(s, ua, featureId, own);
    DifferAtOne(before, after, own);
  }

  // ---- A feature that alone carries its key ----

  /** No other feature named by the row has this feature's key: always so when the rows name features of one app. */
  predicate AloneOnKey(s: Tables, ua: UserApp, featureId: Id)
    requires featureId in s.features.byId
  {
    var key := s.features.byId[featureId].1;
    && (forall o :: o in ua.overrides && OnKey(s, o.featureId, key) ==> o.featureId == featureId)
    && (RoleOf(s, ua).Some? ==>
          forall id :: id in RoleOf(s, ua).value.features && OnKey(s, id, key) ==> id == featureId)
  }

  /** The feature's row is gone, every other one stands. */
  ghost predicate Gone(t: Features.Table, t': Features.Table, featureId: Id) {
    featureId in t.byId && t'.byId == t.byId - {featureId}
  }

  function Overridden(t: Features.Table, base: seq<string>, ovs: seq<FeatureOverride>): seq<string> {
    Resolver.Apply(base, OverrideRows(t, ovs))
  }

  function KeyOf(t: Features.Table, id: Id): seq<string> { if id in t.byId then [t.byId[id].1] else [] }

  lemma KeysSnoc(t: Features.Table, ids: seq<Id>, id: Id)
    ensures KeysOf(t, ids + [id]) == KeysOf(t, ids) + KeyOf(t, id)
  {
    assert (ids + [id])[..|ids|] == ids;
  }

  lemma OverriddenSnoc(t: Features.Table, base: seq<string>, ovs: seq<FeatureOverride>, o: FeatureOverride)
    ensures Overridden(t, base, ovs + [o]) ==
      if o.featureId in t.byId
      then Resolver.ApplyOne(Overridden(t, base, ovs), Resolver.Override(t.byId[o.featureId].1, o.granted))
      else Overridden(t, base, ovs)
  {
    var rows := OverrideRows(t, ovs);
    assert (ovs + [o])[..|ovs|] == ovs;
    if o.featureId in t.byId {
      assert (rows + [Resolver.Override(t.byId[o.featureId].1, o.granted)])[..|rows|] == rows;
    } else {
      assert rows + [] == rows;
    }
  }

  lemma WithoutSnoc(ids: seq<Id>, last: Id, id: Id)
    ensures Without(ids + [last], id) == if last == id then Without(ids, id) else Without(ids, id) + [last]
  {
    assert (ids + [last])[..|ids|] == ids;
  }

  lemma WithoutOverrideSnoc(ovs: seq<FeatureOverride>, o: FeatureOverride, id: Id)
    ensures WithoutOverride(ovs + [o], id) ==
      if o.featureId == id then WithoutOverride(ovs, id) else WithoutOverride(ovs, id) + [o]
  {
    assert (ovs + [o])[..|ovs|] == ovs;
  }

  lemma KeyWithout(t: Features.Table, t': Features.Table, id: Id, featureId: Id, own: string)
    requires Gone(t, t', featureId) && KeyIs(t, featureId, own) && (KeyIs(t, id, own) ==> id == featureId)
    ensures Resolver.Delete(KeyOf(t, id), own) == if id == featureId then [] else KeyOf(t', id)
  {
    if id in t.byId {
      assert [t.byId[id].1][1..] == [];
    }
  }

  lemma {:induction false} KeysWithout(t: Features.Table, t': Features.Table, ids: seq<Id>, featureId: Id, own: string)
    requires Gone(t, t', featureId) && KeyIs(t, featureId, own)
    requires forall id :: id in ids && KeyIs(t, id, own) ==> id == featureId
    ensures KeysOf(t', Without(ids, featureId)) == Resolver.Delete(KeysOf(t, ids), own)
  {
    if ids == [] {
    } else {
      var init, last := ids[..|ids| - 1], ids[|ids| - 1];
      assert ids == init + [last] && last in ids;
      KeysWithout(t, t', init, featureId, own);
      KeysSnoc(t, init, last);
      WithoutSnoc(init, last, featureId);
      KeysSnoc(t', Without(init, featureId), last);
      Resolver.DeleteAppend(KeysOf(t, init), KeyOf(t, last), own);
      KeyWithout(t, t', last, featureId, own);
    }
  }

  lemma DeleteApplied(xs: seq<string>, o: Resolver.Override, own: string)
    ensures Resolver.Delete(Resolver.ApplyOne(xs, o), own) ==
      if o.key == own then Resolver.Delete(xs, own) else Resolver.ApplyOne(Resolver.Delete(xs, own), o)
  {
    if o.granted {
      Resolver.DeleteAdd(xs, own, o.key);
    } else {
      Resolver.DeleteCommutes(xs, o.key, own);
      Resolver.DeleteElements(xs, own);
      Resolver.DeleteAbsent(Resolver.Delete(xs, own), own);
    }
  }

  lemma {:induction false} OverridesWithout(t: Features.Table, t': Features.Table, base: seq<string>,
      ovs: seq<FeatureOverride>, featureId: Id, own: string)
    requires Gone(t, t', featureId) && KeyIs(t, featureId, own)
    requires forall o :: o in ovs && KeyIs(t, o.featureId, own) ==> o.featureId == featureId
    ensures Overridden(t', Resolver.Delete(base, own), WithoutOverride(ovs, featureId)) ==
      Resolver.Delete(Overridden(t, base, ovs), own)
  {
    if ovs == [] {
    } else {
      var init, last := ovs[..|ovs| - 1], ovs[|ovs| - 1];
      assert ovs == init + [last] && last in ovs;
      OverridesWithout(t, t', base, init, featureId, own);
      OverriddenSnoc(t, base, init, last);
      WithoutOverrideSnoc(init, last, featureId);
      OverriddenSnoc(t', Resolver.Delete(base, own), WithoutOverride(init, featureId), last);
      if last.featureId in t.byId {
        DeleteApplied(Overridden(t, base, init), Resolver.Override(t.byId[last.featureId].1, last.granted), own);
      }
    }
  }

  /**
   * Then the removal deletes exactly its key from the row's list, and changes the permission exactly if the key was
   * listed.
   */
  lemma RemovalDeletesKey(s: Tables, ua: UserApp, featureId: Id)
    requires featureId in s.features.byId && AloneOnKey(s, ua, featureId)
    ensures var key := s.features.byId[featureId].1;
      var before := PermissionFor(s, ua);
      var after := PermissionFor(DropFeature(s, featureId).tables, RowWithout(ua, featureId));
      && after.features == Resolver.Delete(before.features, key)
      && (after != before <==> key in before.features)
  {
    var s', ua', key := DropFeature(s, featureId).tables, RowWithout(ua, featureId), s.features.byId[featureId].1;
    var ids := if RoleOf(s, ua).Some? then RoleOf(s, ua).value.features else [];
    KeysWithout(s.features, s'.features, ids, featureId, key);
    Resolver.FromListDelete(KeysOf(s.features, ids), key);
    OverridesWithout(s.features, s'.features, Resolver.FromList(KeysOf(s.features, ids)), ua.overrides, featureId, key);
    Resolver.DeleteAbsent(PermissionFor(s, ua).features, key);
    if RoleOf(s, ua).Some? {
      assert RoleKeys(s', RoleOf(s', ua')) == KeysOf(s'.features, Without(ids, featureId));
    }
  }

  /** A row that names only features of its own app carries each key once, since keys are unique in an app. */
  lemma OwnFeaturesAlone(s: Tables, users: set<Id>, appId: Id, ua: UserApp, featureId: Id)
    requires Valid(s, users) && Uses(s, ua, featureId)
    requires forall id :: Uses(s, ua, id) ==> id in s.features.byId && s.features.byId[id].0 == appId
    ensures AloneOnKey(s, ua, featureId)
  {
    OverrideIdsMembers(ua.overrides);
    var own := s.features.byId[featureId];
    forall id | Uses(s, ua, id) && OnKey(s, id, own.1) ensures id == featureId {
      assert s.features.byId[id] == own;
    }
    forall o | o in ua.overrides && OnKey(s, o.featureId, own.1) ensures o.featureId == featureId {
      assert Uses(s, ua, o.featureId);
    }
  }

  /** Every resolved row of the user that names the feature has its key from this feature alone. */
  predicate AloneWhereUsed(s: Tables, userId: Id, featureId: Id) {
    forall a :: a in Resolve(s, userId) && Uses(s, s.userApps[(userId, a)], featureId) ==>
      featureId in s.features.byId && AloneOnKey(s, s.userApps[(userId, a)], featureId)
  }

  /** The resolved row names the feature and lists its key. */
  predicate GrantedIn(s: Tables, userId: Id, a: Id, featureId: Id) {
    && a in Resolve(s, userId) && featureId in s.features.byId
    && Uses(s, s.userApps[(userId, a)], featureId)
    && s.features.byId[featureId].1 in Resolve(s, userId)[a].features
  }

  /** The user's apps in which it grants its key. */
  function GrantedWhere(s: Tables, userId: Id, featureId: Id): set<Id> {
    set a | a in Resolve(s, userId) && GrantedIn(s, userId, a, featureId)
  }

  predicate GrantedBy(s: Tables, userId: Id, featureId: Id) { GrantedWhere(s, userId, featureId) != {} }

  lemma RemovalOnRow(s: Tables, users: set<Id>, featureId: Id, userId: Id, a: Id)
    requires Valid(s, users) && AloneWhereUsed(s, userId, featureId)
    requires featureId in s.features.byId && a in Resolve(s, userId)
    ensures var s' := DropFeature(s, featureId).tables;
      && a in Resolve(s', userId)
      && (Resolve(s', userId)[a] != Resolve(s, userId)[a] <==> GrantedIn(s, userId, a, featureId))
  {
    RemovedRow(s, featureId, userId, a);
    if Uses(s, s.userApps[(userId, a)], featureId) {
      RemovalDeletesKey(s, s.userApps[(userId, a)], featureId);
    } else {
      UnusedRemovalKeepsRow(s, users, featureId, a, s.userApps[(userId, a)]);
    }
  }

  lemma RemovalDiffers(s: Tables, users: set<Id>, featureId: Id, userId: Id)
    requires Valid(s, users) && featureId in s.features.byId && AloneWhereUsed(s, userId, featureId)
    ensures DifferOn(
      Resolve(s, userId), Resolve(DropFeature(s, featureId).tables, userId), GrantedWhere(s, userId, featureId))
  {
    RemovalKeepsApps(s, featureId, userId);
    forall a | a in Resolve(s, userId)
      ensures Resolve(DropFeature(s, featureId).tables, userId)[a] != Resolve(s, userId)[a] <==>
        a in GrantedWhere(s, userId, featureId)
    {
      RemovalOnRow(s, users, featureId, userId, a);
    }
  }

  /** Removing a feature that alone carries its key changes the resolution exactly of the users it grants the key to. */
  lemma RemovalChangesIff(s: Tables, users: set<Id>, featureId: Id, s': Tables, userId: Id)
    requires Valid(s, users) && AloneWhereUsed(s, userId, featureId)
    requires s' == Step(s, users, RemoveFeature(featureId)).tables
    ensures Changed(s, s', userId) <==> GrantedBy(s, userId, featureId)
  {
    RemovalIsDrop(s, users, featureId, s');
    if featureId in s.features.byId {
      RemovalDiffers(s, users, featureId, userId);
      DifferIff(Resolve(s, userId), Resolve(s', userId), GrantedWhere(s, userId, featureId));
    }
  }
}
