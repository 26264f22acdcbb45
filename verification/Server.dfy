/**
 * The services wired together over one store: what every run of the machines says holds of every run of the methods.
 */
module Server {
  import opened Session
  import opened SessionInvariant
  import opened SessionSafety
  import opened Snapshots
  import opened Storage
  import opened AuthServices
  import opened AclServices
  import opened OAuthServices
  import Acl
  import OAuth

  /** What is known of every reachable store. */
  ghost predicate Sound(c: Config, s: State) { Valid(c, s) && RbacValid(s) }

  lemma StepSound(c: Config, s: State, op: Op, s': State)
    requires Sound(c, s) && s' == Step(c, s, op).state
    ensures Sound(c, s')
  {
    StepValid(c, s, op, s');
    StepRbac(c, s, op, s');
  }

  /** What a call that ends sessions promises: it ends those of exactly the users it affects. */
  ghost predicate EndsWhatItShould(s: State, op: Op, outcome: Outcome, s': State) {
    EndsSessions(op) && !outcome.Fail? ==> EndsExactly(s, s', Affected(s, op))
  }

  lemma StepEnds(c: Config, s: State, op: Op, r: Reply)
    requires Valid(c, s) && r == Step(c, s, op)
    ensures EndsWhatItShould(s, op, r.outcome, r.state)
  {
    if EndsSessions(op) && !r.outcome.Fail? {
      SessionKillComplete(c, s, op, r);
    }
  }

  predicate SignsInOrOut(op: Op) {
    op.DoRegister? || op.DoOrgRegister? || op.DoLogin? || op.DoRefresh? || op.DoLogout? || op.DoLogoutAll?
  }

  predicate AsksForMail(op: Op) { op.DoResend? || op.DoForgot? }

  predicate SetsPassword(op: Op) { op.DoReset? || op.DoChangePassword? }

  class Server {
    const store: Store
    const tokens: TokenService
    const auth: AuthService
    const acl: AclService
    const oauth: OAuthService

    ghost predicate Wired() {
      && tokens.store == store && auth.store == store && auth.tokens == tokens
      && acl.store == store && acl.tokens == tokens && oauth.store == store
    }

    ghost predicate Valid()
      reads store, oauth
    {
      Wired() && Sound(store.config, store.St()) && OAuth.Valid(oauth.St())
    }

    constructor (config: Config)
      requires ValidConfig(config)
      ensures Valid() && fresh(store) && fresh(oauth) && store.config == config
      ensures store.St() == Init && oauth.St() == OAuth.Init
    {
      var st := new Store(config);
      var tk := new TokenService(st);
      store, tokens := st, tk;
      auth := new AuthService(st, tk);
      acl := new AclService(st, tk);
      oauth := new OAuthService(st);
      new;
      InitValid(config);
    }

    method HandleSession(op: Op) returns (outcome: Outcome)
      requires Wired() && SignsInOrOut(op)
      modifies store
      ensures Reply(store.St(), outcome) == Step(store.config, old(store.St()), op)
    {
      match op
      case DoRegister(email, pw) => outcome := auth.Register(email, pw);
      case DoOrgRegister(user) => outcome := auth.OrgRegisterUser(user);
      case DoLogin(email, pw) => outcome := auth.Login(email, pw);
      case DoRefresh(jwt) => outcome := auth.RefreshTokens(jwt);
      case DoLogout(tok, jwt) => outcome := auth.Logout(tok, jwt);
      case DoLogoutAll(tok) => outcome := auth.LogoutAll(tok);
    }

    method HandleMail(op: Op) returns (outcome: Outcome)
      requires Wired() && AsksForMail(op)
      modifies store
      ensures Reply(store.St(), outcome) == Step(store.config, old(store.St()), op)
    {
      match op
      case DoResend(email) => outcome := auth.ResendVerificationEmail(email);
      case DoForgot(email) => outcome := auth.ForgotPassword(email);
    }

    method HandlePassword(op: Op) returns (outcome: Outcome)
      requires Wired() && SetsPassword(op)
      modifies store
      ensures Reply(store.St(), outcome) == Step(store.config, old(store.St()), op)
    {
      match op
      case DoReset(raw, pw) => outcome := auth.ResetPassword(raw, pw);
      case DoChangePassword(id, current, pw) => outcome := auth.ChangePassword(id, current, pw);
    }

    method HandleAccount(op: Op) returns (outcome: Outcome)
      requires Wired() && !op.Tick? && !op.DoAcl? && !SignsInOrOut(op) && !AsksForMail(op)
      requires !SetsPassword(op) && !op.DoVerifyEmail? && !op.DoUpdateUser?
      modifies store
      ensures Reply(store.St(), outcome) == Step(store.config, old(store.St()), op)
    {
      match op
      case DoUpdateMe(id, data) => outcome := auth.UpdateMe(id, data);
      case DoGetMe(id) => outcome := auth.GetMe(id);
      case DoSuspend(id, admin) => outcome := auth.SuspendUser(id, admin);
      case DoActivate(id) => outcome := auth.ActivateUser(id);
      case DoForceActivate(id, admin, pw) => outcome := auth.ForceActivateUser(id, admin, pw);
      case DoDelete(id, admin) => outcome := auth.DeleteUser(id, admin);
    }

    method HandleAcl(op: Acl.Op) returns (outcome: Outcome)
      requires Wired()
      modifies store
      ensures Reply(store.St(), outcome) == AdministerAcl(old(store.St()), op)
    {
      match op
      case RegisterApp(name) => outcome := acl.RegisterApp(name);
      case SuspendApp(a) => outcome := acl.SetAppStatus(a, Acl.Suspended);
      case ReactivateApp(a) => outcome := acl.SetAppStatus(a, Acl.Active);
      case AddFeature(a, input) => outcome := acl.AddFeature(a, input);
      case UpdateFeature(f, displayName, description) => outcome := acl.UpdateFeature(f, displayName, description);
      case RemoveFeature(f) => outcome := acl.RemoveFeature(f);
      case SubmitSync(a, manifest) => outcome := acl.SubmitFeatureSync(a, manifest);
      case ApproveSync(q) => outcome := acl.ApproveSyncRequest(q);
      case RejectSync(q) => outcome := acl.RejectSyncRequest(q);
      case CreateRole(a, name, info) => outcome := acl.CreateRole(a, name, info);
      case UpdateRole(r, edit) => outcome := acl.UpdateRole(r, edit);
      case DeleteRole(r) => outcome := acl.DeleteRole(r);
      case SetRoleFeatures(r, ids) => outcome := acl.SetRoleFeatures(r, ids);
      case AssignUser(u, a, role) => outcome := acl.AssignUserToApp(u, a, role);
      case UpdateUserApp(u, a, change, active) => outcome := acl.UpdateUserAppAccess(u, a, change, active);
      case RemoveUser(u, a) => outcome := acl.RemoveUserFromApp(u, a);
      case SetOverrides(u, a, overrides) => outcome := acl.SetUserDirectFeatures(u, a, overrides);
    }

    method Dispatch(op: Op) returns (outcome: Outcome)
      requires Wired()
      modifies store
      ensures Reply(store.St(), outcome) == Step(store.config, old(store.St()), op)
    {
      if op.Tick? {
        store.Wait(op.elapsed);
        outcome := Done;
      } else if op.DoAcl? {
        outcome := HandleAcl(op.acl);
      } else if SignsInOrOut(op) {
        outcome := HandleSession(op);
      } else if AsksForMail(op) {
        outcome := HandleMail(op);
      } else if SetsPassword(op) {
        outcome := HandlePassword(op);
      } else if op.DoVerifyEmail? {
        outcome := auth.VerifyEmail(op.raw);
      } else if op.DoUpdateUser? {
        outcome := auth.UpdateUser(op.userId, op.adminId, op.role, op.isActive, op.data);
      } else {
        outcome := HandleAccount(op);
      }
    }

    /** Every call is a step of the session machine, keeps the store sound, and ends exactly the sessions it should. */
    method Handle(op: Op) returns (outcome: Outcome)
      requires Wired() && Sound(store.config, store.St())
      modifies store
      ensures Reply(store.St(), outcome) == Step(store.config, old(store.St()), op)
      ensures Sound(store.config, store.St())
      ensures EndsWhatItShould(old(store.St()), op, outcome, store.St())
    {
      ghost var s := store.St();
      outcome := Dispatch(op);
      StepSound(store.config, s, op, store.St());
      StepEnds(store.config, s, op, Reply(store.St(), outcome));
    }

    /** Serving calls one after the other is a run of the session machine. */
    method Serve(ops: seq<Op>)
      requires Wired() && Sound(store.config, store.St())
      modifies store
      ensures store.St() == Run(store.config, old(store.St()), ops) && Sound(store.config, store.St())
    {
      ghost var s := store.St();
      for i := 0 to |ops|
        invariant store.St() == Run(store.config, s, ops[..i]) && Sound(store.config, store.St())
      {
        RunSnoc(store.config, s, ops[..i], ops[i]);
        assert ops[..i + 1] == ops[..i] + [ops[i]];
        var outcome := Handle(ops[i]);
      }
      assert ops[..|ops|] == ops;
    }

    method HandleApps(op: OAuth.Op) returns (outcome: OAuth.Outcome)
      requires Wired() && !op.SessionCall? && !op.DoAuthorize? && !op.DoExchange?
      modifies oauth
      ensures OAuth.Reply(oauth.St(), outcome) == OAuth.Step(store.config, old(oauth.St()), op)
    {
      match op
      case SetPlan(org, plan) => oauth.SetPlan(org, plan); outcome := OAuth.Done;
      case DoCreateApp(org, name, uris, scopes) => outcome := oauth.CreateApp(org, name, uris, scopes);
      case DoUpdateApp(id, org, name, uris, scopes) => outcome := oauth.UpdateApp(id, org, name, uris, scopes);
      case DoRegenerateSecret(id, org) => outcome := oauth.RegenerateSecret(id, org);
      case DoDeleteApp(id, org) => outcome := oauth.DeleteApp(id, org);
    }

    method DispatchOAuth(op: OAuth.Op) returns (outcome: OAuth.Outcome)
      requires Wired() && Sound(store.config, store.St())
      modifies store, oauth
      ensures OAuth.Reply(oauth.St(), outcome) == OAuth.Step(store.config, old(oauth.St()), op)
      ensures Sound(store.config, store.St())
    {
      if op.SessionCall? {
        var reply := Handle(op.call);
        outcome := OAuth.Done;
      } else if op.DoAuthorize? {
        outcome := oauth.Authorize(op.request);
      } else if op.DoExchange? {
        outcome := oauth.ExchangeCode(op.redemption);
      } else {
        outcome := HandleApps(op);
      }
    }

    /** The OAuth calls, and the session calls next to them, are steps of the OAuth machine. */
    method HandleOAuth(op: OAuth.Op) returns (outcome: OAuth.Outcome)
      requires Valid()
      modifies store, oauth
      ensures OAuth.Reply(oauth.St(), outcome) == OAuth.Step(store.config, old(oauth.St()), op) && Valid()
    {
      ghost var w := oauth.St();
      outcome := DispatchOAuth(op);
      OAuth.StepValid(store.config, w, op, oauth.St());
    }
  }
}
