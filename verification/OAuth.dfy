/** OAuth apps and the authorization-code flow with PKCE, next to the session machine that owns the users. */
module OAuth {
  import opened Basics
  import opened Redis
  import opened Plans
  import opened Scopes
  import Session
  import Passwords

  const CODE_TTL_MS: nat := 120 * 1000
  const ACCESS_TTL: nat := 3600
  const REFRESH_TTL: nat := 30 * 24 * 3600

  datatype App = App(
    organizationId: Id, name: string, clientId: Id, secretHash: Digest<Id>,
    redirectUris: seq<string>, scopes: seq<string>, isActive: bool)

  /** A code challenge is any text the client sends; the base64url SHA-256 of a verifier is one such text. */
  datatype Challenge = S256(verifier: string) | Other(text: string)

  datatype AuthCode = AuthCode(
    appId: Id, userId: Id, challenge: Challenge, redirectUri: string, scopes: seq<string>, expiresAt: nat, isUsed: bool)

  datatype World = World(
    session: Session.State,
    plans: map<Id, Plan>,         // by organization
    apps: map<Id, App>,
    byClient: map<Id, Id>,        // the unique index on clientId
    codes: map<Id, AuthCode>,     // by the random code
    nextId: Id)

  const Init: World := World(Session.Init, map[], map[], map[], map[], 0)

  datatype AuthorizeParams = AuthorizeParams(
    clientId: Id, redirectUri: string, responseType: string, scope: string,
    codeChallenge: Challenge, codeChallengeMethod: string, email: string, password: string)

  datatype ExchangeParams = ExchangeParams(
    clientId: Id, clientSecret: Id, code: Id, redirectUri: string, codeVerifier: string)

  /** The claims of the two tokens of a token response; times are in seconds. */
  datatype AccessClaims = AccessClaims(sub: Id, email: string, orgId: Id, appId: Id, scope: string, exp: nat)

  datatype RefreshClaims = RefreshClaims(sub: Id, appId: Id, jti: Id, exp: nat)

  datatype Outcome =
    | Done
    | AppCreated(appId: Id, clientId: Id, rawSecret: Id)
    | NewSecret(rawSecret: Id)
    | Code(code: Id)
    | Token(access: AccessClaims, refresh: RefreshClaims, expiresIn: nat, scope: string)
    | Fail(error: Error)

  datatype Reply = Reply(world: World, outcome: Outcome)

  // ---- What any call can do to apps and codes ----

  ghost predicate SameClient(app: App, app': App) {
    app'.clientId == app.clientId && app'.organizationId == app.organizationId && app'.isActive == app.isActive
  }

  /**
   * An app keeps its client id and organization and stays active; a new secret is freshly drawn; new apps have fresh
   * ids.
   */
  ghost predicate AppsMove(m: map<Id, App>, m': map<Id, App>, n: Id) {
    && (forall a :: a in m && a in m' ==> SameClient(m[a], m'[a]))
    && (forall a :: a in m && a in m' ==> m'[a].secretHash == m[a].secretHash || m'[a].secretHash.preimage >= n)
    && (forall a :: a in m' && a !in m ==> a >= n && m'[a].secretHash.preimage >= n)
  }

  /** A code's row changes only from unused to used; new codes are freshly drawn. */
  ghost predicate CodesMove(m: map<Id, AuthCode>, m': map<Id, AuthCode>, n: Id) {
    && (forall k :: k in m && k in m' ==> m'[k].(isUsed := m[k].isUsed) == m[k] && (m[k].isUsed ==> m'[k].isUsed))
    && (forall k :: k in m' && k !in m ==> k >= n)
  }

  ghost predicate Moves(w: World, w': World) {
    && w.nextId <= w'.nextId && w.session.now <= w'.session.now
    && (AppIdsBelow(w.apps, w.nextId) ==> AppsMove(w.apps, w'.apps, w.nextId))
    && (CodesBelow(w.codes, w.nextId) ==> CodesMove(w.codes, w'.codes, w.nextId))
  }

  ghost predicate AppIdsBelow(apps: map<Id, App>, n: Id) {
    forall a :: a in apps ==> a < n && apps[a].clientId < n && apps[a].secretHash.preimage < n
  }

  ghost predicate CodesBelow(codes: map<Id, AuthCode>, n: Id) { forall k :: k in codes ==> k < n }

  // ---- App management ----

  function AppsOf(w: World, org: Id): set<Id> { set a | a in w.apps && w.apps[a].organizationId == org }

  function CreateApp(w: World, org: Id, name: string, redirectUris: seq<string>, scopes: seq<string>): Reply {
    if org !in w.plans then Reply(w, Fail(NotFound))
    else if |AppsOf(w, org)| >= MaxOAuthApps(w.plans[org]) then Reply(w, Fail(Validation))
    else
      var id, clientId, secret := w.nextId, w.nextId + 1, w.nextId + 2;
      var app := App(org, name, clientId, Sha256(secret), redirectUris, scopes, true);
      Reply(w.(apps := w.apps[id := app], byClient := w.byClient[clientId := id], nextId := w.nextId + 3),
            AppCreated(id, clientId, secret))
  }

  /** The check in front of every change of an app. */
  function OwnedApp(w: World, id: Id, org: Id): Result<App> {
    if id !in w.apps then Err(NotFound)
    else if w.apps[id].organizationId != org then Err(AuthorizationError)
    else Ok(w.apps[id])
  }

  function UpdateApp(w: World, id: Id, org: Id, name: Option<string>, redirectUris: Option<seq<string>>,
      scopes: Option<seq<string>>): Reply
  {
    var own := OwnedApp(w, id, org);
    if own.Err? then Reply(w, Fail(own.error))
    else
      var app := own.value;
      var app' := app.(
        name := GetOr(name, app.name),
        redirectUris := GetOr(redirectUris, app.redirectUris),
        scopes := GetOr(scopes, app.scopes));
      Reply(w.(apps := w.apps[id := app']), Done)
  }

  function RegenerateSecret(w: World, id: Id, org: Id): Reply {
    var own := OwnedApp(w, id, org);
    if own.Err? then Reply(w, Fail(own.error))
    else
      var app := own.value.(secretHash := Sha256(w.nextId));
      Reply(w.(apps := w.apps[id := app], nextId := w.nextId + 1), NewSecret(w.nextId))
  }

  /** Deleting an app cascades to its authorization codes. */
  function DeleteApp(w: World, id: Id, org: Id): Reply {
    var own := OwnedApp(w, id, org);
    if own.Err? then Reply(w, Fail(own.error))
    else
      Reply(w.(apps := w.apps - {id},
               byClient := w.byClient - {own.value.clientId},
               codes := map k | k in w.codes && w.codes[k].appId != id :: w.codes[k]), Done)
  }

  // ---- Authorization request ----

  function AppByClient(w: World, clientId: Id): Option<Id> {
    if clientId in w.byClient && w.byClient[clientId] in w.apps && w.apps[w.byClient[clientId]].isActive
    then Some(w.byClient[clientId]) else None
  }

  predicate CredentialsOk(s: Session.State, email: string, password: string) {
    var found := Session.FindByEmail(s, email);
    found.Some? && s.users[found.value].isActive && Passwords.Compare(password, s.users[found.value].passwordHash)
  }

  function Authorize(w: World, p: AuthorizeParams): Reply {
    if p.responseType != "code" then Reply(w, Fail(Validation))
    else if p.codeChallengeMethod != "S256" then Reply(w, Fail(Validation))
    else
      var app := AppByClient(w, p.clientId);
      if app.None? then Reply(w, Fail(AuthenticationError))
      else if p.redirectUri !in w.apps[app.value].redirectUris then Reply(w, Fail(Validation))
      else if !CredentialsOk(w.session, p.email, p.password) then Reply(w, Fail(AuthenticationError))
      else
        var userId := Session.FindByEmail(w.session, p.email).value;
        var row := AuthCode(
          app.value, userId, p.codeChallenge, p.redirectUri, Words(p.scope), w.session.now + CODE_TTL_MS, false);
        Reply(w.(codes := w.codes[w.nextId := row], nextId := w.nextId + 1), Code(w.nextId))
  }

  // ---- Token request ----

  function Redeem(w: World, code: Id): World
    requires code in w.codes
  {
    w.(codes := w.codes[code := w.codes[code].(isUsed := true)])
  }

  /** The checks on the code's row, in order; every one fails with the same error class. */
  predicate RowOk(w: World, row: AuthCode, appId: Id, redirectUri: string, codeVerifier: string) {
    && !row.isUsed
    && w.session.now <= row.expiresAt
    && row.appId == appId
    && row.redirectUri == redirectUri
    && S256(codeVerifier) == row.challenge
  }

  /** The two tokens, the refresh token under a fresh id. */
  function TokensFor(w: World, appId: Id, row: AuthCode): Outcome
    requires appId in w.apps && row.userId in w.session.users
  {
    var now, scope := Sec(w.session.now), Join(row.scopes);
    var access := AccessClaims(
      row.userId, w.session.users[row.userId].email, w.apps[appId].organizationId, appId, scope, now + ACCESS_TTL);
    Token(access, RefreshClaims(row.userId, appId, w.nextId, now + REFRESH_TTL), ACCESS_TTL, scope)
  }

  /** The code is marked used before the user is looked up, and stays so when the user is gone. */
  function Exchange(w: World, p: ExchangeParams): Reply {
    var app := AppByClient(w, p.clientId);
    if app.None? then Reply(w, Fail(AuthenticationError))
    else if Sha256(p.clientSecret) != w.apps[app.value].secretHash then Reply(w, Fail(AuthenticationError))
    else if p.code !in w.codes then Reply(w, Fail(AuthenticationError))
    else if !RowOk(w, w.codes[p.code], app.value, p.redirectUri, p.codeVerifier) then
      Reply(w, Fail(AuthenticationError))
    else
      var row := w.codes[p.code];
      if row.userId !in w.session.users then Reply(Redeem(w, p.code), Fail(AuthenticationError))
      else Reply(Redeem(w, p.code).(nextId := w.nextId + 1), TokensFor(w, app.value, row))
  }

  // ---- Runs ----

  datatype Op =
    | SetPlan(org: Id, plan: Plan)
    | SessionCall(call: Session.Op)      // anything that happens to the users, and the passage of time
    | DoCreateApp(org: Id, newName: string, uris: seq<string>, newScopes: seq<string>)
    | DoUpdateApp(
        appId: Id, org: Id, name: Option<string>, redirectUris: Option<seq<string>>, scopes: Option<seq<string>>)
    | DoRegenerateSecret(appId: Id, org: Id)
    | DoDeleteApp(appId: Id, org: Id)
    | DoAuthorize(request: AuthorizeParams)
    | DoExchange(redemption: ExchangeParams)

  function Step(c: Session.Config, w: World, op: Op): Reply {
    match op
    case SetPlan(org, plan) => Reply(w.(plans := w.plans[org := plan]), Done)
    case SessionCall(call) => Reply(w.(session := Session.Step(c, w.session, call).state), Done)
    case DoCreateApp(org, name, uris, scopes) => CreateApp(w, org, name, uris, scopes)
    case DoUpdateApp(id, org, name, uris, scopes) => UpdateApp(w, id, org, name, uris, scopes)
    case DoRegenerateSecret(id, org) => RegenerateSecret(w, id, org)
    case DoDeleteApp(id, org) => DeleteApp(w, id, org)
    case DoAuthorize(p) => Authorize(w, p)
    case DoExchange(p) => Exchange(w, p)
  }

  lemma CreateMoves(w: World, org: Id, name: string, uris: seq<string>, scopes: seq<string>, w': World)
    requires w' == CreateApp(w, org, name, uris, scopes).world
    ensures Moves(w, w')
  {
  }

  lemma UpdateMoves(w: World, id: Id, org: Id, name: Option<string>, uris: Option<seq<string>>,
      scopes: Option<seq<string>>, w': World)
    requires w' == UpdateApp(w, id, org, name, uris, scopes).world
    ensures Moves(w, w')
  {
  }

  lemma RegenerateMoves(w: World, id: Id, org: Id, w': World)
    requires w' == RegenerateSecret(w, id, org).world
    ensures Moves(w, w')
  {
  }

  lemma DeleteMoves(w: World, id: Id, org: Id, w': World)
    requires w' == DeleteApp(w, id, org).world
    ensures Moves(w, w')
  {
  }

  lemma AuthorizeMoves(w: World, p: AuthorizeParams, w': World)
    requires w' == Authorize(w, p).world
    ensures Moves(w, w')
  {
  }

  lemma ExchangeMoves(w: World, p: ExchangeParams, w': World)
    requires w' == Exchange(w, p).world
    ensures Moves(w, w')
  {
  }

  lemma StepMoves(c: Session.Config, w: World, op: Op, w': World)
    requires w' == Step(c, w, op).world
    ensures Moves(w, w')
  {
    match op
    case SetPlan(_, _) =>
    case SessionCall(call) => Session.StepMoves(c, w.session, call, w'.session);
    case DoCreateApp(org, name, uris, scopes) => CreateMoves(w, org, name, uris, scopes, w');
    case DoUpdateApp(id, org, name, uris, scopes) => UpdateMoves(w, id, org, name, uris, scopes, w');
    case DoRegenerateSecret(id, org) => RegenerateMoves(w, id, org, w');
    case DoDeleteApp(id, org) => DeleteMoves(w, id, org, w');
    case DoAuthorize(p) => AuthorizeMoves(w, p, w');
    case DoExchange(p) => ExchangeMoves(w, p, w');
  }

  function Run(c: Session.Config, w: World, ops: seq<Op>): World {
    if ops == [] then w else Step(c, Run(c, w, ops[..|ops| - 1]), ops[|ops| - 1]).world
  }

  // ---- Invariant ----

  /** Ids are fresh, the client index is exact, and every code belongs to an existing app. */
  ghost predicate Valid(w: World) {
    && AppIdsBelow(w.apps, w.nextId) && CodesBelow(w.codes, w.nextId)
    && (forall a :: a in w.apps ==> w.apps[a].clientId in w.byClient && w.byClient[w.apps[a].clientId] == a)
    && (forall k :: k in w.byClient ==> w.byClient[k] in w.apps && w.apps[w.byClient[k]].clientId == k)
    && (forall k :: k in w.codes ==> w.codes[k].appId in w.apps)
  }

  lemma CreateValid(w: World, org: Id, name: string, uris: seq<string>, scopes: seq<string>)
    requires Valid(w)
    ensures Valid(CreateApp(w, org, name, uris, scopes).world)
  {
  }

  lemma UpdateValid(w: World, id: Id, org: Id, name: Option<string>, uris: Option<seq<string>>,
      scopes: Option<seq<string>>)
    requires Valid(w)
    ensures Valid(UpdateApp(w, id, org, name, uris, scopes).world)
  {
  }

  lemma RegenerateValid(w: World, id: Id, org: Id)
    requires Valid(w)
    ensures Valid(RegenerateSecret(w, id, org).world)
  {
  }

  lemma DeleteValid(w: World, id: Id, org: Id)
    requires Valid(w)
    ensures Valid(DeleteApp(w, id, org).world)
  {
  }

  lemma AuthorizeValid(w: World, p: AuthorizeParams)
    requires Valid(w)
    ensures Valid(Authorize(w, p).world)
  {
  }

  lemma ExchangeValid(w: World, p: ExchangeParams)
    requires Valid(w)
    ensures Valid(Exchange(w, p).world)
  {
  }

  /** The invariant survives every call. */
  lemma StepValid(c: Session.Config, w: World, op: Op, w': World)
    requires Valid(w) && w' == Step(c, w, op).world
    ensures Valid(w')
  {
    match op
    case SetPlan(_, _) =>
    case SessionCall(_) =>
    case DoCreateApp(org, name, uris, scopes) => CreateValid(w, org, name, uris, scopes);
    case DoUpdateApp(id, org, name, uris, scopes) => UpdateValid(w, id, org, name, uris, scopes);
    case DoRegenerateSecret(id, org) => RegenerateValid(w, id, org);
    case DoDeleteApp(id, org) => DeleteValid(w, id, org);
    case DoAuthorize(p) => AuthorizeValid(w, p);
    case DoExchange(p) => ExchangeValid(w, p);
  }

  lemma {:induction false} RunValid(c: Session.Config, w: World, ops: seq<Op>)
    requires Valid(w)
    ensures Valid(Run(c, w, ops))
  {
    if ops == [] {
    } else {
      RunValid(c, w, ops[..|ops| - 1]);
      StepValid(c, Run(c, w, ops[..|ops| - 1]), ops[|ops| - 1], Run(c, w, ops));
    }
  }

  // ---- When the two requests succeed ----

  /** What an authorization request must satisfy to get a code. */
  ghost predicate MayAuthorize(w: World, p: AuthorizeParams) {
    && p.responseType == "code" && p.codeChallengeMethod == "S256"
    && AppByClient(w, p.clientId).Some?
    && p.redirectUri in w.apps[AppByClient(w, p.clientId).value].redirectUris
    && CredentialsOk(w.session, p.email, p.password)
  }

  /**
   * A code is issued exactly then, fresh, and carries the request's client, user, redirect URI, challenge and scopes.
   */
  lemma AuthorizeIff(w: World, p: AuthorizeParams)
    requires Valid(w)
    ensures Authorize(w, p).outcome.Code? <==> MayAuthorize(w, p)
    ensures Authorize(w, p).outcome.Code? ==>
      var code := Authorize(w, p).outcome.code;
      code !in w.codes && code in Authorize(w, p).world.codes &&
      Carries(w, p, Authorize(w, p).world.codes[code])
  {
  }

  ghost predicate Carries(w: World, p: AuthorizeParams, row: AuthCode) {
    && MayAuthorize(w, p)
    && row.appId == AppByClient(w, p.clientId).value
    && row.userId == Session.FindByEmail(w.session, p.email).value
    && row.redirectUri == p.redirectUri && row.challenge == p.codeChallenge && row.scopes == Words(p.scope)
    && row.expiresAt == w.session.now + CODE_TTL_MS
  }

  /** Client, secret, code, redirect URI and verifier all check out. */
  predicate PastChecks(w: World, p: ExchangeParams) {
    && AppByClient(w, p.clientId).Some?
    && w.apps[AppByClient(w, p.clientId).value].secretHash == Sha256(p.clientSecret)
    && p.code in w.codes
    && RowOk(w, w.codes[p.code], AppByClient(w, p.clientId).value, p.redirectUri, p.codeVerifier)
  }

  /** An exchange past the checks spends the code, and issues tokens exactly if the user still exists. */
  lemma ExchangeCases(w: World, p: ExchangeParams, r: Reply)
    requires r == Exchange(w, p)
    ensures r.outcome.Token? <==> PastChecks(w, p) && w.codes[p.code].userId in w.session.users
    ensures r.world.codes == if PastChecks(w, p) then Redeem(w, p.code).codes else w.codes
    ensures r.world.apps == w.apps && r.world.session == w.session
  {
  }
}
