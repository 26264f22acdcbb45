/** OAuth apps over whole runs: the secret that works, the redirect URIs that count, and whose email a token carries. */
module OAuthEffects {
  import opened Basics
  import opened OAuth
  import opened OAuthTraces
  import opened Plans
  import Session
  import SessionInvariant

  // ---- Single calls ----

  /** Only this app differs. */
  ghost predicate OnlyApp(w: World, w': World, id: Id) {
    && id in w.apps && w'.apps.Keys == w.apps.Keys && w' == w.(apps := w'.apps, nextId := w'.nextId)
    && (forall a :: a in w.apps && a != id ==> w'.apps[a] == w.apps[a])
  }

  /** The client is known under this id and shows this secret. */
  predicate Authenticates(w: World, appId: Id, clientId: Id, secret: Id) {
    AppByClient(w, clientId) == Some(appId) && appId in w.apps && w.apps[appId].secretHash == Sha256(secret)
  }

  /**
   * Creating an app needs an organization below its plan's limit; the handed-out client id and secret are the stored
   * ones, and no other secret is.
   */
  lemma CreationHandsOut(w: World, org: Id, name: string, uris: seq<string>, scopes: seq<string>, r: Reply)
    requires Valid(w) && r == CreateApp(w, org, name, uris, scopes)
    ensures r.outcome.AppCreated? <==> org in w.plans && |AppsOf(w, org)| < MaxOAuthApps(w.plans[org])
    ensures if !r.outcome.AppCreated? then r.outcome.Fail? && r.world == w
      else
        var id := r.outcome.appId;
        && id !in w.apps && r.world.apps.Keys == w.apps.Keys + {id}
        && (forall a :: a in w.apps ==> r.world.apps[a] == w.apps[a])
        && (forall secret :: Authenticates(r.world, id, r.outcome.clientId, secret) <==> secret == r.outcome.rawSecret)
        && r.world.apps[id].organizationId == org && r.world.apps[id].redirectUris == uris
        && r.world.apps[id].scopes == scopes && r.world.apps[id].name == name && r.world.apps[id].isActive
        && r.world.codes == w.codes && r.world.session == w.session
  {
  }

  /** An organization may touch exactly its own apps. */
  predicate Owns(w: World, org: Id, id: Id) { id in w.apps && w.apps[id].organizationId == org }

  /** A regeneration stores the secret it hands out, and nothing else. */
  lemma RegenerationHandsOut(w: World, id: Id, org: Id, r: Reply)
    requires Valid(w) && r == RegenerateSecret(w, id, org)
    ensures r.outcome.NewSecret? <==> Owns(w, org, id)
    ensures if !r.outcome.NewSecret? then r.outcome.Fail? && r.world == w
      else
        && OnlyApp(w, r.world, id) && r.world.apps[id].secretHash == Sha256(r.outcome.rawSecret)
        && r.world.apps[id] == w.apps[id].(secretHash := r.world.apps[id].secretHash)
        && r.outcome.rawSecret >= w.nextId
  {
  }

  /** An edit writes what was given and leaves the rest, the client id and the secret included. */
  lemma EditWrites(w: World, id: Id, org: Id, name: Option<string>, uris: Option<seq<string>>,
      scopes: Option<seq<string>>, r: Reply)
    requires r == UpdateApp(w, id, org, name, uris, scopes)
    ensures r.outcome == Done <==> Owns(w, org, id)
    ensures if r.outcome != Done then r.outcome.Fail? && r.world == w
      else
        && OnlyApp(w, r.world, id) && r.world.nextId == w.nextId
        && var app, app' := w.apps[id], r.world.apps[id];
        && (name.Some? ==> app'.name == name.value) && (name.None? ==> app'.name == app.name)
        && (uris.Some? ==> app'.redirectUris == uris.value) && (uris.None? ==> app'.redirectUris == app.redirectUris)
        && (scopes.Some? ==> app'.scopes == scopes.value) && (scopes.None? ==> app'.scopes == app.scopes)
        && SameClient(app, app') && app'.secretHash == app.secretHash
  {
  }

  /** A deletion leaves neither the app nor its client id nor its codes, and everything else. */
  lemma DeletionTakes(w: World, id: Id, org: Id, r: Reply)
    requires Valid(w) && r == DeleteApp(w, id, org)
    ensures r.outcome == Done <==> Owns(w, org, id)
    ensures if r.outcome != Done then r.outcome.Fail? && r.world == w
      else
        && r.world.apps == w.apps - {id} && AppByClient(r.world, w.apps[id].clientId) == None
        && (forall k :: k in r.world.codes <==> k in w.codes && w.codes[k].appId != id)
        && (forall k :: k in r.world.codes ==> r.world.codes[k] == w.codes[k])
  {
  }

  // ---- The secret that works ----

  /** The secret this call hands out for the app. */
  function SecretFrom(op: Op, outcome: Outcome, appId: Id): Option<Id> {
    if op.DoRegenerateSecret? && op.appId == appId && outcome.NewSecret? then Some(outcome.rawSecret) else None
  }

  /** The secret last handed out for the app in this run. */
  ghost function LastSecret(c: Session.Config, w: World, ops: seq<Op>, appId: Id): Option<Id> {
    if ops == [] then None
    else
      var init, op := ops[..|ops| - 1], ops[|ops| - 1];
      var given := SecretFrom(op, Step(c, Run(c, w, init), op).outcome, appId);
      if given.Some? then given else LastSecret(c, w, init, appId)
  }

  /** The redirect URIs this call registers for the app. */
  function UrisFrom(op: Op, outcome: Outcome, appId: Id): Option<seq<string>> {
    if op.DoUpdateApp? && op.appId == appId && outcome == Done then op.redirectUris else None
  }

  ghost function LastUris(c: Session.Config, w: World, ops: seq<Op>, appId: Id): Option<seq<string>> {
    if ops == [] then None
    else
      var init, op := ops[..|ops| - 1], ops[|ops| - 1];
      var given := UrisFrom(op, Step(c, Run(c, w, init), op).outcome, appId);
      if given.Some? then given else LastUris(c, w, init, appId)
  }

  /** The app keeps client and organization; secret and redirect URIs are the given ones, or the old. */
  ghost predicate Follows(app: App, app': App, secret: Option<Id>, uris: Option<seq<string>>) {
    && SameClient(app, app')
    && app'.secretHash == (if secret.Some? then Sha256(secret.value) else app.secretHash)
    && app'.redirectUris == GetOr(uris, app.redirectUris)
  }

  lemma StepFollows(c: Session.Config, w: World, op: Op, r: Reply, appId: Id)
    requires Valid(w) && r == Step(c, w, op) && appId in w.apps && appId in r.world.apps
    ensures Follows(w.apps[appId], r.world.apps[appId],
      SecretFrom(op, r.outcome, appId), UrisFrom(op, r.outcome, appId))
  {
    if op.DoCreateApp? || op.DoDeleteApp? {
      AppCallFollows(c, w, op, r, appId);
    } else if op.DoUpdateApp? || op.DoRegenerateSecret? {
      EditCallFollows(c, w, op, r, appId);
    } else {
      OtherCallKeepsApps(c, w, op, r);
    }
  }

  lemma AppCallFollows(c: Session.Config, w: World, op: Op, r: Reply, appId: Id)
    requires Valid(w) && (op.DoCreateApp? || op.DoDeleteApp?) && r == Step(c, w, op)
    requires appId in w.apps && appId in r.world.apps
    ensures r.world.apps[appId] == w.apps[appId]
  {
    if op.DoCreateApp? {
      CreationHandsOut(w, op.org, op.newName, op.uris, op.newScopes, r);
    } else {
      DeletionTakes(w, op.appId, op.org, r);
    }
  }

  lemma EditCallFollows(c: Session.Config, w: World, op: Op, r: Reply, appId: Id)
    requires Valid(w) && (op.DoUpdateApp? || op.DoRegenerateSecret?) && r == Step(c, w, op)
    requires appId in w.apps && appId in r.world.apps
    ensures Follows(w.apps[appId], r.world.apps[appId],
      SecretFrom(op, r.outcome, appId), UrisFrom(op, r.outcome, appId))
  {
    if op.DoUpdateApp? {
      EditWrites(w, op.appId, op.org, op.name, op.redirectUris, op.scopes, r);
    } else {
      RegenerationHandsOut(w, op.appId, op.org, r);
    }
  }

  lemma OtherCallKeepsApps(c: Session.Config, w: World, op: Op, r: Reply)
    requires op.SetPlan? || op.SessionCall? || op.DoAuthorize? || op.DoExchange?
    requires r == Step(c, w, op)
    ensures r.world.apps == w.apps
  {
  }

  lemma FollowsTwice(a: App, b: App, d: App, secret: Option<Id>, uris: Option<seq<string>>, more: Option<Id>,
      moreUris: Option<seq<string>>)
    requires Follows(a, b, secret, uris) && Follows(b, d, more, moreUris)
    ensures Follows(a, d, if more.Some? then more else secret, if moreUris.Some? then moreUris else uris)
  {
  }

  lemma {:induction false} RunNames(c: Session.Config, w: World, ops: seq<Op>)
    ensures w.nextId <= Run(c, w, ops).nextId
  {
    if ops == [] {
    } else {
      RunNames(c, w, ops[..|ops| - 1]);
      StepMoves(c, Run(c, w, ops[..|ops| - 1]), ops[|ops| - 1], Run(c, w, ops));
    }
  }

  lemma StillThere(c: Session.Config, w: World, op: Op, w': World, appId: Id)
    requires Valid(w) && w' == Step(c, w, op).world && appId < w.nextId && appId in w'.apps
    ensures appId in w.apps
  {
    StepMoves(c, w, op, w');
  }

  /** Through any run an app has the secret last handed out and the redirect URIs last registered for it. */
  lemma {:induction false} AppIsLastGiven(c: Session.Config, w: World, ops: seq<Op>, appId: Id)
    requires Valid(w) && appId in w.apps && appId in Run(c, w, ops).apps
    ensures Follows(w.apps[appId], Run(c, w, ops).apps[appId],
      LastSecret(c, w, ops, appId), LastUris(c, w, ops, appId))
  {
    if ops == [] {
    } else {
      var init, op := ops[..|ops| - 1], ops[|ops| - 1];
      var mid := Run(c, w, init);
      RunValid(c, w, init);
      RunNames(c, w, init);
      StillThere(c, mid, op, Run(c, w, ops), appId);
      AppIsLastGiven(c, w, init, appId);
      StepFollows(c, mid, op, Step(c, mid, op), appId);
      FollowsTwice(w.apps[appId], mid.apps[appId], Run(c, w, ops).apps[appId],
        LastSecret(c, w, init, appId), LastUris(c, w, init, appId),
        SecretFrom(op, Step(c, mid, op).outcome, appId), UrisFrom(op, Step(c, mid, op).outcome, appId));
    }
  }

  /**
   * After an app was created, through any calls: a client authenticates as that app if and only if the app stands and
   * the secret shown is the one last handed out for it.
   */
  lemma SecretWorksIff(c: Session.Config, w: World, org: Id, name: string, uris: seq<string>, scopes: seq<string>,
      r: Reply, ops: seq<Op>, secret: Id)
    requires Valid(w) && r == CreateApp(w, org, name, uris, scopes) && r.outcome.AppCreated?
    ensures var id, end := r.outcome.appId, Run(c, r.world, ops);
      Authenticates(end, id, r.outcome.clientId, secret) <==>
      id in end.apps && secret == GetOr(LastSecret(c, r.world, ops, id), r.outcome.rawSecret)
  {
    var id, end := r.outcome.appId, Run(c, r.world, ops);
    CreationHandsOut(w, org, name, uris, scopes, r);
    CreateValid(w, org, name, uris, scopes);
    assert Authenticates(r.world, id, r.outcome.clientId, r.outcome.rawSecret);
    RunValid(c, r.world, ops);
    if id in end.apps {
      AppIsLastGiven(c, r.world, ops, id);
    }
  }

  /** And a redirect URI is accepted for it exactly if it is among those last registered. */
  lemma UriCountsIff(c: Session.Config, w: World, org: Id, name: string, uris: seq<string>, scopes: seq<string>,
      r: Reply, ops: seq<Op>, q: AuthorizeParams)
    requires Valid(w) && r == CreateApp(w, org, name, uris, scopes) && r.outcome.AppCreated?
    requires q.clientId == r.outcome.clientId && r.outcome.appId in Run(c, r.world, ops).apps
    ensures var id, end := r.outcome.appId, Run(c, r.world, ops);
      Authorize(end, q).outcome.Code? <==>
      && q.responseType == "code" && q.codeChallengeMethod == "S256"
      && q.redirectUri in GetOr(LastUris(c, r.world, ops, id), uris)
      && CredentialsOk(end.session, q.email, q.password)
  {
    var id, end := r.outcome.appId, Run(c, r.world, ops);
    CreationHandsOut(w, org, name, uris, scopes, r);
    CreateValid(w, org, name, uris, scopes);
    assert Authenticates(r.world, id, r.outcome.clientId, r.outcome.rawSecret);
    RunValid(c, r.world, ops);
    AppIsLastGiven(c, r.world, ops, id);
    AuthorizeIff(end, q);
  }

  // ---- The email in the token ----

  lemma SessionOnly(c: Session.Config, w: World, op: Op, w': World)
    requires w' == Step(c, w, op).world
    ensures w'.session == if op.SessionCall? then Session.Step(c, w.session, op.call).state else w.session
  {
  }

  lemma StepSession(c: Session.Config, w: World, op: Op, w': World)
    requires SessionInvariant.Valid(c, w.session) && w' == Step(c, w, op).world
    ensures SessionInvariant.Valid(c, w'.session)
  {
    SessionOnly(c, w, op, w');
    if op.SessionCall? {
      SessionInvariant.StepValid(c, w.session, op.call, w'.session);
    }
  }

  lemma {:induction false} SessionValid(c: Session.Config, ops: seq<Op>)
    requires Session.ValidConfig(c)
    ensures SessionInvariant.Valid(c, Run(c, Init, ops).session)
  {
    if ops == [] {
      SessionInvariant.InitValid(c);
    } else {
      SessionValid(c, ops[..|ops| - 1]);
      StepSession(c, Run(c, Init, ops[..|ops| - 1]), ops[|ops| - 1], Run(c, Init, ops));
    }
  }

  /** The user was named before now, and has this email as long as there is a row. */
  ghost predicate EmailIs(s: Session.State, u: Id, email: string) {
    u < s.nextId && (u in s.users ==> s.users[u].email == email)
  }

  lemma StepEmail(c: Session.Config, w: World, op: Op, w': World, u: Id, email: string)
    requires SessionInvariant.Valid(c, w.session) && EmailIs(w.session, u, email) && w' == Step(c, w, op).world
    ensures EmailIs(w'.session, u, email)
  {
    SessionOnly(c, w, op, w');
    if op.SessionCall? {
      Session.StepMoves(c, w.session, op.call, w'.session);
    }
  }

  lemma {:induction false} RunEmail(c: Session.Config, ops: seq<Op>, i: nat, u: Id, email: string)
    requires Session.ValidConfig(c) && i <= |ops| && EmailIs(Run(c, Init, ops[..i]).session, u, email)
    ensures EmailIs(Run(c, Init, ops).session, u, email)
    decreases |ops|
  {
    if i == |ops| {
      assert ops[..i] == ops;
    } else {
      var init, op := ops[..|ops| - 1], ops[|ops| - 1];
      assert init[..i] == ops[..i];
      RunEmail(c, init, i, u, email);
      SessionValid(c, init);
      StepEmail(c, Run(c, Init, init), op, Run(c, Init, ops), u, email);
    }
  }

  /** The email in a token response is the one the user gave with the authorization request it goes back to. */
  lemma EmailTraced(c: Session.Config, ops: seq<Op>, j: nat) returns (i: nat)
    requires Session.ValidConfig(c) && Redeems(c, ops, j)
    ensures i < j && ops[i].DoAuthorize? && Matches(c, ops, i, j)
    ensures Exchange(Run(c, Init, ops[..j]), ops[j].redemption).outcome.access.email == ops[i].request.email
  {
    i := EveryTokenTraced(c, ops, j);
    var before, q := Run(c, Init, ops[..i]), ops[i].request;
    SessionValid(c, ops[..i]);
    assert ops[..j][..i] == ops[..i];
    RunEmail(c, ops[..j], i, Session.FindByEmail(before.session, q.email).value, q.email);
  }
}
