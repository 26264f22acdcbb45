/** The OAuth service, step by step over its tables and the users of the session store. */
module OAuthServices {
  import opened Basics
  import opened Redis
  import opened OAuth
  import opened Plans
  import opened Scopes
  import opened Storage
  import Passwords
  import Session

  class OAuthService {
    const store: Store             // users and the clock
    var plans: map<Id, Plan>
    var apps: map<Id, App>
    var byClient: map<Id, Id>
    var codes: map<Id, AuthCode>
    var nextId: Id

    function St(): World
      reads this, store
    {
      World(store.St(), plans, apps, byClient, codes, nextId)
    }

    constructor (store: Store)
      ensures this.store == store
      ensures St() == World(store.St(), map[], map[], map[], map[], 0)
    {
      this.store := store;
      plans, apps, byClient, codes, nextId := map[], map[], map[], map[], 0;
    }

    method SetPlan(org: Id, plan: Plan)
      modifies this`plans
      ensures St() == old(St()).(plans := old(plans)[org := plan])
    {
      plans := plans[org := plan];
    }

    method FindAppByClientId(clientId: Id) returns (found: Option<Id>)
      ensures found == AppByClient(St(), clientId)
    {
      if clientId in byClient && byClient[clientId] in apps && apps[byClient[clientId]].isActive {
        return Some(byClient[clientId]);
      }
      return None;
    }

    method CreateApp(org: Id, name: string, redirectUris: seq<string>, scopes: seq<string>) returns (outcome: Outcome)
      modifies this
      ensures Reply(St(), outcome) == OAuth.CreateApp(old(St()), org, name, redirectUris, scopes)
    {
      if org !in plans {
        return Fail(NotFound);
      }
      var count := |AppsOf(St(), org)|;
      if count >= MaxOAuthApps(plans[org]) {
        return Fail(Validation);
      }
      var id, clientId, secret := nextId, nextId + 1, nextId + 2;
      nextId := nextId + 3;
      apps := apps[id := App(org, name, clientId, Sha256(secret), redirectUris, scopes, true)];
      byClient := byClient[clientId := id];
      return AppCreated(id, clientId, secret);
    }

    method UpdateApp(
        id: Id, org: Id, name: Option<string>, redirectUris: Option<seq<string>>, scopes: Option<seq<string>>)
      returns (outcome: Outcome)
      modifies this`apps
      ensures Reply(St(), outcome) == OAuth.UpdateApp(old(St()), id, org, name, redirectUris, scopes)
    {
      if id !in apps {
        return Fail(NotFound);
      }
      if apps[id].organizationId != org {
        return Fail(AuthorizationError);
      }
      var app := apps[id];
      apps := apps[id := app.(
        name := GetOr(name, app.name),
        redirectUris := GetOr(redirectUris, app.redirectUris),
        scopes := GetOr(scopes, app.scopes))];
      return Done;
    }

    method RegenerateSecret(id: Id, org: Id) returns (outcome: Outcome)
      modifies this`apps, this`nextId
      ensures Reply(St(), outcome) == OAuth.RegenerateSecret(old(St()), id, org)
    {
      if id !in apps {
        return Fail(NotFound);
      }
      if apps[id].organizationId != org {
        return Fail(AuthorizationError);
      }
      var raw := nextId;
      nextId := nextId + 1;
      apps := apps[id := apps[id].(secretHash := Sha256(raw))];
      return NewSecret(raw);
    }

    method DeleteApp(id: Id, org: Id) returns (outcome: Outcome)
      modifies this`apps, this`byClient, this`codes
      ensures Reply(St(), outcome) == OAuth.DeleteApp(old(St()), id, org)
    {
      if id !in apps {
        return Fail(NotFound);
      }
      if apps[id].organizationId != org {
        return Fail(AuthorizationError);
      }
      byClient := byClient - {apps[id].clientId};
      apps := apps - {id};
      codes := map k | k in codes && codes[k].appId != id :: codes[k];
      return Done;
    }

    method VerifyCredentials(email: string, password: string) returns (userId: Option<Id>)
      ensures userId.Some? <==> CredentialsOk(store.St(), email, password)
      ensures userId.Some? ==> userId == Session.FindByEmail(store.St(), email)
    {
      var found := store.FindByEmail(email);
      if found.None? || !store.users[found.value].isActive {
        return None;
      }
      if !Passwords.Compare(password, store.users[found.value].passwordHash) {
        return None;
      }
      return found;
    }

    method Authorize(p: AuthorizeParams) returns (outcome: Outcome)
      modifies this`codes, this`nextId
      ensures Reply(St(), outcome) == OAuth.Authorize(old(St()), p)
    {
      if p.responseType != "code" {
        return Fail(Validation);
      }
      if p.codeChallengeMethod != "S256" {
        return Fail(Validation);
      }
      var app := FindAppByClientId(p.clientId);
      if app.None? {
        return Fail(AuthenticationError);
      }
      if p.redirectUri !in apps[app.value].redirectUris {
        return Fail(Validation);
      }
      var userId := VerifyCredentials(p.email, p.password);
      if userId.None? {
        return Fail(AuthenticationError);
      }
      var code := nextId;
      nextId := nextId + 1;
      codes := codes[code := AuthCode(
        app.value, userId.value, p.codeChallenge, p.redirectUri, Words(p.scope), store.now + CODE_TTL_MS, false)];
      return Code(code);
    }

    /** The checks on the code's row, one after the other. */
    method CheckCode(code: Id, appId: Id, redirectUri: string, codeVerifier: string) returns (ok: bool)
      ensures ok <==> code in codes && RowOk(St(), codes[code], appId, redirectUri, codeVerifier)
    {
      if code !in codes {
        return false;
      }
      var row := codes[code];
      if row.isUsed {
        return false;
      }
      if row.expiresAt < store.now {
        return false;
      }
      if row.appId != appId {
        return false;
      }
      if row.redirectUri != redirectUri {
        return false;
      }
      var expectedChallenge := S256(codeVerifier);
      return expectedChallenge == row.challenge;
    }

    method ExchangeCode(p: ExchangeParams) returns (outcome: Outcome)
      modifies this`codes, this`nextId
      ensures Reply(St(), outcome) == Exchange(old(St()), p)
    {
      var app := FindAppByClientId(p.clientId);
      if app.None? {
        return Fail(AuthenticationError);
      }
      if Sha256(p.clientSecret) != apps[app.value].secretHash {
        return Fail(AuthenticationError);
      }
      var ok := CheckCode(p.code, app.value, p.redirectUri, p.codeVerifier);
      if !ok {
        return Fail(AuthenticationError);
      }
      var row := codes[p.code];
      codes := codes[p.code := row.(isUsed := true)];
      if row.userId !in store.users {
        return Fail(AuthenticationError);
      }
      var user, now, scope := store.users[row.userId], Sec(store.now), Join(row.scopes);
      var access := AccessClaims(
        row.userId, user.email, apps[app.value].organizationId, app.value, scope, now + ACCESS_TTL);
      var jti := nextId;
      nextId := nextId + 1;
      return Token(access, RefreshClaims(row.userId, app.value, jti, now + REFRESH_TTL), ACCESS_TTL, scope);
    }
  }
}
