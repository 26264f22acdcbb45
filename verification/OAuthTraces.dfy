/** Safety of the authorization-code flow over whole runs. */
module OAuthTraces {
  import opened Basics
  import opened Redis
  import opened Scopes
  import opened OAuth
  import Session

  // ---- Where a code comes from ----

  /** Step `i` of the run was a successful authorization request that issued this code. */
  ghost predicate IssuedAt(c: Session.Config, ops: seq<Op>, i: nat, code: Id) {
    && i < |ops| && ops[i].DoAuthorize?
    && Authorize(Run(c, Init, ops[..i]), ops[i].request).outcome == Code(code)
  }

  /** The row is as issued at that step, and its app is still the one the request named. */
  ghost predicate Faithful(c: Session.Config, ops: seq<Op>, i: nat, row: AuthCode, apps: map<Id, App>)
    requires i < |ops| && ops[i].DoAuthorize?
  {
    && Carries(Run(c, Init, ops[..i]), ops[i].request, row)
    && row.appId in apps && apps[row.appId].clientId == ops[i].request.clientId
  }

  lemma InitValid()
    ensures Valid(Init)
  {
  }

  lemma OthersAddNoCode(c: Session.Config, w: World, op: Op, w': World)
    requires !op.DoAuthorize? && w' == Step(c, w, op).world
    ensures w'.codes.Keys <= w.codes.Keys
  {
  }

  lemma AuthorizeAddsOne(w: World, p: AuthorizeParams, code: Id)
    requires Valid(w) && code !in w.codes && code in Authorize(w, p).world.codes
    ensures Authorize(w, p).outcome == Code(code)
    ensures var row := Authorize(w, p).world.codes[code];
      Carries(w, p, row) && row.appId in w.apps && w.apps[row.appId].clientId == p.clientId
    ensures Authorize(w, p).world.apps == w.apps
  {
  }

  /** The code stood in the table before the last call. */
  lemma OriginKept(c: Session.Config, ops: seq<Op>, init: seq<Op>, op: Op, w: World, w': World, code: Id, i: nat)
    requires ops == init + [op] && w == Run(c, Init, init) && w' == Step(c, w, op).world && Valid(w)
    requires code in w.codes && code in w'.codes
    requires IssuedAt(c, init, i, code) && Faithful(c, init, i, w.codes[code], w.apps)
    ensures IssuedAt(c, ops, i, code) && Faithful(c, ops, i, w'.codes[code], w'.apps)
  {
    assert init[..i] == ops[..i];
    StepValid(c, w, op, w');
    StepMoves(c, w, op, w');
    KeptRow(w, w', code);
  }

  /** The last call issued the code. */
  lemma IssuedLast(c: Session.Config, ops: seq<Op>, init: seq<Op>, op: Op, w: World, w': World, code: Id)
    requires ops == init + [op] && w == Run(c, Init, init) && w' == Step(c, w, op).world && Valid(w)
    requires code !in w.codes && code in w'.codes
    ensures IssuedAt(c, ops, |init|, code) && Faithful(c, ops, |init|, w'.codes[code], w'.apps)
  {
    assert ops[..|init|] == init;
    if op.DoAuthorize? {
      AuthorizeAddsOne(w, op.request, code);
    } else {
      OthersAddNoCode(c, w, op, w');
    }
  }

  lemma Reachable(c: Session.Config, ops: seq<Op>)
    ensures Valid(Run(c, Init, ops))
  {
    InitValid();
    RunValid(c, Init, ops);
  }

  /** A stored code was issued by one earlier request, and its row still says what that request said. */
  lemma {:induction false} CodeOrigin(c: Session.Config, ops: seq<Op>, code: Id) returns (i: nat)
    requires code in Run(c, Init, ops).codes
    ensures IssuedAt(c, ops, i, code)
    ensures Faithful(c, ops, i, Run(c, Init, ops).codes[code], Run(c, Init, ops).apps)
  {
    var init, op := ops[..|ops| - 1], ops[|ops| - 1];
    assert ops == init + [op];
    Reachable(c, init);
    if code in Run(c, Init, init).codes {
      i := CodeOrigin(c, init, code);
      OriginKept(c, ops, init, op, Run(c, Init, init), Run(c, Init, ops), code, i);
    } else {
      i := |init|;
      IssuedLast(c, ops, init, op, Run(c, Init, init), Run(c, Init, ops), code);
    }
  }

  lemma KeptRow(w: World, w': World, code: Id)
    requires Valid(w) && Valid(w') && Moves(w, w') && code in w.codes && code in w'.codes
    ensures var row, row' := w.codes[code], w'.codes[code];
      && row'.(isUsed := row.isUsed) == row
      && row'.appId in w.apps && row'.appId in w'.apps && w'.apps[row'.appId].clientId == w.apps[row.appId].clientId
  {
  }

  // ---- Every token goes back to one authorization request ----

  ghost predicate Redeems(c: Session.Config, ops: seq<Op>, j: nat) {
    j < |ops| && ops[j].DoExchange? && Exchange(Run(c, Init, ops[..j]), ops[j].redemption).outcome.Token?
  }

  /**
   * The token issued at step `j` goes back to the authorization request at step `i`: same client, a redirect URI that
   * was registered when the code was issued and is presented again, the verifier behind the request's challenge, the
   * user whose correct password was given while active, the same scopes, and at most two minutes in between.
   */
  ghost predicate Matches(c: Session.Config, ops: seq<Op>, i: nat, j: nat)
    requires i < |ops| && j < |ops| && ops[i].DoAuthorize? && ops[j].DoExchange?
  {
    var before, after := Run(c, Init, ops[..i]), Run(c, Init, ops[..j]);
    var q, p := ops[i].request, ops[j].redemption;
    IssuedAt(c, ops, i, p.code) && Agree(before, q, after, p, Exchange(after, p).outcome)
  }

  /** The access token names its user's email, and the organization of its app. */
  ghost predicate ClaimsOk(w: World, token: Outcome)
    requires token.Token?
  {
    && token.access.sub in w.session.users && token.access.email == w.session.users[token.access.sub].email
    && token.access.appId in w.apps && token.access.orgId == w.apps[token.access.appId].organizationId
  }

  /** The access token lives an hour, as the response says; the refresh token thirty days. */
  ghost predicate LivesAsPromised(now: nat, token: Outcome)
    requires token.Token?
  {
    && token.access.exp == now + 3600 && token.expiresIn == token.access.exp - now
    && token.refresh.exp == now + 30 * 24 * 3600
  }

  /** Request and token response agree. */
  ghost predicate Agree(before: World, q: AuthorizeParams, after: World, p: ExchangeParams, token: Outcome) {
    && MayAuthorize(before, q)
    && q.clientId == p.clientId && AppByClient(before, q.clientId) == AppByClient(after, p.clientId)
    && q.redirectUri == p.redirectUri
    && p.redirectUri in before.apps[AppByClient(before, q.clientId).value].redirectUris
    && q.codeChallenge == S256(p.codeVerifier)
    && token.Token? && token.access.sub == Session.FindByEmail(before.session, q.email).value
    && token.access.appId == AppByClient(before, q.clientId).value
    && token.refresh.sub == token.access.sub && token.refresh.appId == token.access.appId
    && token.scope == Join(Words(q.scope)) && Words(token.scope) == Words(q.scope)
    && ClaimsOk(after, token) && LivesAsPromised(Sec(after.session.now), token)
    && after.session.now <= before.session.now + 120 * 1000
  }

  lemma TokenMatchesRow(w: World, p: ExchangeParams, token: Outcome)
    requires Valid(w) && token == Exchange(w, p).outcome && token.Token?
    ensures p.code in w.codes
    ensures var row := w.codes[p.code];
      && AppByClient(w, p.clientId) == Some(row.appId) && w.apps[row.appId].clientId == p.clientId
      && row.redirectUri == p.redirectUri && row.challenge == S256(p.codeVerifier) && w.session.now <= row.expiresAt
      && token.access.sub == row.userId && token.access.appId == row.appId && token.scope == Join(row.scopes)
      && token.refresh.sub == row.userId && token.refresh.appId == row.appId && token.refresh.jti == w.nextId
      && ClaimsOk(w, token) && LivesAsPromised(Sec(w.session.now), token)
  {
  }

  lemma RowsAgree(before: World, q: AuthorizeParams, after: World, p: ExchangeParams, token: Outcome)
    requires Valid(after) && token == Exchange(after, p).outcome && token.Token? && p.code in after.codes
    requires Carries(before, q, after.codes[p.code])
    requires after.codes[p.code].appId in after.apps && after.apps[after.codes[p.code].appId].clientId == q.clientId
    ensures Agree(before, q, after, p, token)
  {
    TokenMatchesRow(after, p, token);
    NormalisedScope(q.scope);
  }

  lemma EveryTokenTraced(c: Session.Config, ops: seq<Op>, j: nat) returns (i: nat)
    requires Redeems(c, ops, j)
    ensures i < j && ops[i].DoAuthorize? && Matches(c, ops, i, j)
  {
    var prefix, p := ops[..j], ops[j].redemption;
    var w := Run(c, Init, prefix);
    Reachable(c, prefix);
    TokenMatchesRow(w, p, Exchange(w, p).outcome);
    i := CodeOrigin(c, prefix, p.code);
    assert prefix[..i] == ops[..i];
    RowsAgree(Run(c, Init, ops[..i]), ops[i].request, w, p, Exchange(w, p).outcome);
  }

  // ---- A code is redeemed at most once ----

  ghost predicate Spent(w: World, code: Id) {
    code < w.nextId && (code in w.codes ==> w.codes[code].isUsed)
  }

  lemma StepKeepsSpent(c: Session.Config, w: World, op: Op, w': World, code: Id)
    requires Valid(w) && Spent(w, code) && w' == Step(c, w, op).world
    ensures Valid(w') && Spent(w', code)
  {
    StepValid(c, w, op, w');
    StepMoves(c, w, op, w');
  }

  lemma {:induction false} SpentForever(c: Session.Config, w: World, ops: seq<Op>, code: Id)
    requires Valid(w) && Spent(w, code)
    ensures Valid(Run(c, w, ops)) && Spent(Run(c, w, ops), code)
  {
    if ops == [] {
    } else {
      SpentForever(c, w, ops[..|ops| - 1], code);
      StepKeepsSpent(c, Run(c, w, ops[..|ops| - 1]), ops[|ops| - 1], Run(c, w, ops), code);
    }
  }

  lemma SpentIsRefused(w: World, p: ExchangeParams)
    requires Spent(w, p.code)
    ensures Exchange(w, p) == Reply(w, Fail(AuthenticationError))
  {
  }

  /** Once the row's checks pass the code is spent for good, even if its user turns out to be gone. */
  lemma ExchangeSpends(c: Session.Config, w: World, p: ExchangeParams, ops: seq<Op>, again: ExchangeParams)
    requires Valid(w) && Exchange(w, p).world != w && again.code == p.code
    ensures Exchange(Run(c, Exchange(w, p).world, ops), again).outcome == Fail(AuthenticationError)
  {
    ExchangeValid(w, p);
    SpentForever(c, Exchange(w, p).world, ops, p.code);
    SpentIsRefused(Run(c, Exchange(w, p).world, ops), again);
  }

  lemma RedeemingSpends(w: World, p: ExchangeParams)
    requires Valid(w) && Exchange(w, p).outcome.Token?
    ensures !Spent(w, p.code) && Spent(Exchange(w, p).world, p.code)
  {
  }

  ghost predicate SpentIn(w: World, code: Id) { Valid(w) && Spent(w, code) }

  lemma ExchangeStep(c: Session.Config, w: World, op: Op, w': World)
    requires Valid(w) && op.DoExchange? && Exchange(w, op.redemption).outcome.Token? && w' == Step(c, w, op).world
    ensures SpentIn(w', op.redemption.code) && w.nextId < w'.nextId
  {
    ExchangeValid(w, op.redemption);
    RedeemingSpends(w, op.redemption);
  }

  lemma OtherStep(c: Session.Config, w: World, op: Op, w': World, code: Id, n: Id)
    requires SpentIn(w, code) && n < w.nextId && w' == Step(c, w, op).world
    ensures SpentIn(w', code) && n < w'.nextId
  {
    StepKeepsSpent(c, w, op, w', code);
    StepMoves(c, w, op, w');
  }

  /** After a redemption the code is spent and the ids drawn so far are used up. */
  lemma {:induction false} RedeemedIsSpent(c: Session.Config, ops: seq<Op>, j: nat)
    requires Redeems(c, ops, j)
    ensures SpentIn(Run(c, Init, ops), ops[j].redemption.code)
    ensures Run(c, Init, ops[..j]).nextId < Run(c, Init, ops).nextId
  {
    var init, op := ops[..|ops| - 1], ops[|ops| - 1];
    if j == |ops| - 1 {
      Reachable(c, init);
      ExchangeStep(c, Run(c, Init, init), op, Run(c, Init, ops));
    } else {
      assert init[..j] == ops[..j];
      RedeemedIsSpent(c, init, j);
      OtherStep(c, Run(c, Init, init), op, Run(c, Init, ops), ops[j].redemption.code, Run(c, Init, ops[..j]).nextId);
    }
  }

  function RefreshJti(c: Session.Config, ops: seq<Op>, j: nat): Id
    requires Redeems(c, ops, j)
  {
    Exchange(Run(c, Init, ops[..j]), ops[j].redemption).outcome.refresh.jti
  }

  lemma JtiIsDrawn(c: Session.Config, ops: seq<Op>, j: nat)
    requires Redeems(c, ops, j)
    ensures RefreshJti(c, ops, j) == Run(c, Init, ops[..j]).nextId
  {
    Reachable(c, ops[..j]);
    var w, p := Run(c, Init, ops[..j]), ops[j].redemption;
    TokenMatchesRow(w, p, Exchange(w, p).outcome);
  }

  /** Two different token responses never come from the same code, nor carry the same refresh token id. */
  lemma RedeemedOnce(c: Session.Config, ops: seq<Op>, j1: nat, j2: nat)
    requires j1 < j2 && Redeems(c, ops, j1) && Redeems(c, ops, j2)
    ensures ops[j1].redemption.code != ops[j2].redemption.code
    ensures RefreshJti(c, ops, j1) < RefreshJti(c, ops, j2)
  {
    assert ops[..j2][..j1] == ops[..j1];
    RedeemedIsSpent(c, ops[..j2], j1);
    RedeemingSpends(Run(c, Init, ops[..j2]), ops[j2].redemption);
    JtiIsDrawn(c, ops, j1);
    JtiIsDrawn(c, ops, j2);
  }

  /** The map from token responses to authorization requests is injective. */
  lemma TracedInjectively(c: Session.Config, ops: seq<Op>, j1: nat, j2: nat, i: nat)
    requires j1 < j2 && Redeems(c, ops, j1) && Redeems(c, ops, j2)
    requires i < j1 && ops[i].DoAuthorize?
    ensures !(Matches(c, ops, i, j1) && Matches(c, ops, i, j2))
  {
    RedeemedOnce(c, ops, j1, j2);
  }

  // ---- Secrets and deletions ----

  /** A secret drawn before now that is no longer the app's. */
  ghost predicate Retired(w: World, appId: Id, secret: Id) {
    && secret < w.nextId && appId < w.nextId
    && (appId in w.apps ==> w.apps[appId].secretHash != Sha256(secret))
  }

  lemma MoveKeepsRetired(w: World, w': World, appId: Id, secret: Id)
    requires Valid(w) && Retired(w, appId, secret) && Moves(w, w')
    ensures Retired(w', appId, secret)
  {
  }

  lemma {:induction false} RetiredForever(c: Session.Config, w: World, ops: seq<Op>, appId: Id, secret: Id)
    requires Valid(w) && Retired(w, appId, secret)
    ensures Retired(Run(c, w, ops), appId, secret)
  {
    if ops == [] {
    } else {
      var init := ops[..|ops| - 1];
      RetiredForever(c, w, init, appId, secret);
      RunValid(c, w, init);
      StepMoves(c, Run(c, w, init), ops[|ops| - 1], Run(c, w, ops));
      MoveKeepsRetired(Run(c, w, init), Run(c, w, ops), appId, secret);
    }
  }

  /** After a regeneration no earlier secret of the app ever redeems a code again. */
  lemma RotatedSecretNeverWorks(c: Session.Config, w: World, id: Id, org: Id, ops: seq<Op>, p: ExchangeParams)
    requires Valid(w) && RegenerateSecret(w, id, org).outcome.NewSecret?
    requires p.clientSecret < w.nextId
    requires AppByClient(Run(c, RegenerateSecret(w, id, org).world, ops), p.clientId) == Some(id)
    ensures Exchange(Run(c, RegenerateSecret(w, id, org).world, ops), p).outcome == Fail(AuthenticationError)
  {
    RegenerateValid(w, id, org);
    RetiredForever(c, RegenerateSecret(w, id, org).world, ops, id, p.clientSecret);
  }

  /** Deleting an app kills every code issued to it, for good. */
  lemma DeletionKillsCodes(c: Session.Config, w: World, id: Id, org: Id, ops: seq<Op>, p: ExchangeParams)
    requires Valid(w) && DeleteApp(w, id, org).outcome.Done?
    requires p.code in w.codes && w.codes[p.code].appId == id
    ensures Exchange(Run(c, DeleteApp(w, id, org).world, ops), p).outcome == Fail(AuthenticationError)
  {
    DeleteValid(w, id, org);
    SpentForever(c, DeleteApp(w, id, org).world, ops, p.code);
    SpentIsRefused(Run(c, DeleteApp(w, id, org).world, ops), p);
  }

  // ---- When a code can be redeemed ----

  /** The call presents the code and gets past every check. */
  predicate Uses(w: World, op: Op, code: Id) {
    op.DoExchange? && op.redemption.code == code && PastChecks(w, op.redemption)
  }

  /** No call of this run has used the code. */
  ghost predicate Unused(c: Session.Config, w: World, ops: seq<Op>, code: Id) {
    ops == [] || (Unused(c, w, ops[..|ops| - 1], code) && !Uses(Run(c, w, ops[..|ops| - 1]), ops[|ops| - 1], code))
  }

  /** As long as the code's app exists its row stands, marked used or not; afterwards neither ever comes back. */
  ghost predicate CodeStands(row: AuthCode, app: App, w: World, code: Id, used: bool) {
    && row.appId < w.nextId && code < w.nextId
    && (if row.appId in w.apps then
          && SameClient(app, w.apps[row.appId])
          && code in w.codes && w.codes[code] == row.(isUsed := row.isUsed || used)
        else code !in w.codes)
  }

  lemma DeletionOnCode(w: World, id: Id, org: Id, row: AuthCode, app: App, code: Id, used: bool)
    requires CodeStands(row, app, w, code, used)
    ensures CodeStands(row, app, DeleteApp(w, id, org).world, code, used)
  {
  }

  lemma ExchangeOnCode(w: World, p: ExchangeParams, r: Reply, row: AuthCode, app: App, code: Id, used: bool)
    requires CodeStands(row, app, w, code, used) && Valid(w) && r == Exchange(w, p)
    ensures CodeStands(row, app, r.world, code, used || (p.code == code && PastChecks(w, p)))
  {
    ExchangeCases(w, p, r);
  }

  ghost predicate RowsKept(w: World, w': World) {
    && w.apps.Keys <= w'.apps.Keys && w.codes.Keys <= w'.codes.Keys
    && (forall k :: k in w.codes ==> w'.codes[k] == w.codes[k])
  }

  lemma AuthorizeKeepsRows(w: World, p: AuthorizeParams, w': World)
    requires Valid(w) && w' == Authorize(w, p).world
    ensures RowsKept(w, w')
  {
  }

  lemma EditKeepsRows(c: Session.Config, w: World, op: Op, w': World)
    requires (op.DoUpdateApp? || op.DoRegenerateSecret?) && w' == Step(c, w, op).world
    ensures RowsKept(w, w')
  {
  }

  /** Only a deletion removes apps and codes, and only an exchange changes a code. */
  lemma OthersKeepRows(c: Session.Config, w: World, op: Op, w': World)
    requires Valid(w) && !op.DoDeleteApp? && !op.DoExchange? && w' == Step(c, w, op).world
    ensures RowsKept(w, w')
  {
    if op.DoAuthorize? {
      AuthorizeKeepsRows(w, op.request, w');
    } else if op.DoUpdateApp? || op.DoRegenerateSecret? {
      EditKeepsRows(c, w, op, w');
    }
  }

  lemma OtherOnCode(c: Session.Config, w: World, op: Op, w': World, row: AuthCode, app: App, code: Id, used: bool)
    requires CodeStands(row, app, w, code, used) && Valid(w)
    requires !op.DoDeleteApp? && !op.DoExchange? && w' == Step(c, w, op).world
    ensures CodeStands(row, app, w', code, used)
  {
    StepMoves(c, w, op, w');
    OthersKeepRows(c, w, op, w');
  }

  lemma StepOnCode(c: Session.Config, w: World, op: Op, w': World, row: AuthCode, app: App, code: Id, used: bool)
    requires CodeStands(row, app, w, code, used) && Valid(w) && w' == Step(c, w, op).world
    ensures CodeStands(row, app, w', code, used || Uses(w, op, code))
  {
    if op.DoDeleteApp? {
      DeletionOnCode(w, op.appId, op.org, row, app, code, used);
    } else if op.DoExchange? {
      ExchangeOnCode(w, op.redemption, Exchange(w, op.redemption), row, app, code, used);
    } else {
      OtherOnCode(c, w, op, w', row, app, code, used);
    }
  }

  lemma {:induction false} RunOnCode(c: Session.Config, w: World, ops: seq<Op>, row: AuthCode, app: App, code: Id)
    requires Valid(w) && CodeStands(row, app, w, code, false)
    ensures Valid(Run(c, w, ops)) && CodeStands(row, app, Run(c, w, ops), code, !Unused(c, w, ops, code))
  {
    if ops == [] {
    } else {
      var init, op := ops[..|ops| - 1], ops[|ops| - 1];
      RunOnCode(c, w, init, row, app, code);
      StepOnCode(c, Run(c, w, init), op, Run(c, w, ops), row, app, code, !Unused(c, w, init, code));
      StepValid(c, Run(c, w, init), op, Run(c, w, ops));
    }
  }

  /** The request, repeated in time at the same app under its present secret, for a user who still exists. */
  ghost predicate Renews(before: World, q: AuthorizeParams, after: World, p: ExchangeParams)
    requires MayAuthorize(before, q)
  {
    var appId, userId := AppByClient(before, q.clientId).value, Session.FindByEmail(before.session, q.email).value;
    && p.clientId == q.clientId && p.redirectUri == q.redirectUri && S256(p.codeVerifier) == q.codeChallenge
    && after.session.now <= before.session.now + 120 * 1000
    && appId in after.apps && after.apps[appId].secretHash == Sha256(p.clientSecret)
    && userId in after.session.users
  }

  lemma StandingCodeRedeems(before: World, q: AuthorizeParams, row: AuthCode, app: App, after: World,
      p: ExchangeParams, used: bool)
    requires Valid(after) && CodeStands(row, app, after, p.code, used) && !row.isUsed
    requires Carries(before, q, row) && app.clientId == q.clientId && app.isActive
    ensures Exchange(after, p).outcome.Token? <==> Renews(before, q, after, p) && !used
  {
    ExchangeCases(after, p, Exchange(after, p));
  }

  lemma AuthorizedCodeStands(w: World, q: AuthorizeParams, w': World, code: Id)
    requires Valid(w) && w' == Authorize(w, q).world && Authorize(w, q).outcome == Code(code)
    ensures MayAuthorize(w, q) && Valid(w') && code in w'.codes && !w'.codes[code].isUsed
    ensures Carries(w, q, w'.codes[code])
    ensures var appId := AppByClient(w, q.clientId).value;
      && w.apps[appId].clientId == q.clientId && w.apps[appId].isActive
      && CodeStands(w'.codes[code], w.apps[appId], w', code, false)
  {
    AuthorizeValid(w, q);
  }

  /**
   * From any valid state: once a code has been issued to a request, an exchange that presents it, after any further
   * calls, gets tokens if and only if it repeats the request's client and redirect URI with the verifier behind the
   * challenge, within two minutes, while the app stands and under its present secret, for a user who still exists, and
   * no exchange has used the code before.
   */
  lemma RedeemableIff(c: Session.Config, w: World, q: AuthorizeParams, w': World, ops: seq<Op>, p: ExchangeParams)
    requires Valid(w) && w' == Authorize(w, q).world && Authorize(w, q).outcome == Code(p.code)
    ensures MayAuthorize(w, q)
    ensures Exchange(Run(c, w', ops), p).outcome.Token? <==>
      Renews(w, q, Run(c, w', ops), p) && Unused(c, w', ops, p.code)
  {
    AuthorizedCodeStands(w, q, w', p.code);
    var row, app := w'.codes[p.code], w.apps[AppByClient(w, q.clientId).value];
    RunOnCode(c, w', ops, row, app, p.code);
    StandingCodeRedeems(w, q, row, app, Run(c, w', ops), p, !Unused(c, w', ops, p.code));
  }
}
