/** How long an access token may live before revocation stops being permanent: an exact bound. */
module RevocationLimits {
  import opened Basics
  import opened Redis
  import opened Session
  import opened SessionInvariant
  import Acl
  import Passwords
  import SessionSafety

  /** A token rejected in a reachable state stays rejected in every state reachable from there. */
  ghost predicate RejectionIsFinal(c: Config, ops: seq<Op>, more: seq<Op>, tok: AccessToken) {
    var s := Run(c, Init, ops);
    tok in s.issued && !Accepts(s, tok) ==> !Accepts(Run(c, s, more), tok)
  }

  lemma SuspendStamps(s: State, id: Id)
    requires id in s.users
    ensures var s' := SuspendUser(s, id, id + 1).state;
      && s'.now == s.now && s'.issued == s.issued && s'.blacklist == s.blacklist
      && id in s'.revokeBefore
      && s'.revokeBefore[id] == Entry(Sec(s.now), s.now + REVOKE_BEFORE_TTL * MS_PER_SECOND)
  {
  }

  function Later(s: State, ms: nat): State { s.(now := s.now + ms) }

  /**
   * A second after a token was signed an administrator suspends its user, and the token is rejected.
   * Thirty days later the key is gone; a token that lives longer than that is accepted again.
   */
  lemma LongTokenComesBack(c: Config, s: State, tok: AccessToken)
    requires !SessionSafety.TtlCovered(c)
    requires JustSigned(c, s, tok)
    ensures var s2 := SuspendUser(Later(s, MS_PER_SECOND), tok.userId, tok.userId + 1).state;
      && tok in s2.issued && !Accepts(s2, tok)
      && Accepts(Later(s2, REVOKE_BEFORE_TTL * MS_PER_SECOND), tok)
  {
    SuspendStamps(Later(s, MS_PER_SECOND), tok.userId);
  }

  /** A user registered in full mode by an organization that allows both. */
  function SampleUser(): OrgUser { OrgUser(DEFAULT_ORG, BOTH, EMAIL, Some(PASSWORD), None, map[]) }

  const EMAIL: string := "a@b.c"
  const PASSWORD: string := "Passw0rd!"

  lemma SampleIsStrong()
    ensures Passwords.Strong(PASSWORD)
  {
    assert 'P' in PASSWORD && 'a' in PASSWORD && '0' in PASSWORD && '!' in PASSWORD;
    assert '!' in Passwords.SPECIAL_CHARS;
  }

  /** Accepted, and signed this very second for a user that still exists. */
  ghost predicate JustSigned(c: Config, s: State, tok: AccessToken) {
    && Accepts(s, tok) && tok.userId in s.users
    && tok.iat == Sec(s.now) && tok.exp == tok.iat + c.accessTtl
  }

  /** An open account, known by this email and password. */
  ghost predicate CanLogIn(s: State, email: string, password: string) {
    && FindByEmail(s, email).Some?
    && (var u := s.users[FindByEmail(s, email).value];
        u.isVerified && u.isActive && u.lockedUntil.None? && Passwords.Compare(password, u.passwordHash))
  }

  /** No access token is rejected by a key. */
  predicate NothingRevoked(s: State) { s.blacklist == map[] && s.revokeBefore == map[] }

  lemma SampleRegisters(s: State)
    requires EMAIL !in s.byEmail
    ensures OrgRegister(s, SampleUser()).state ==
      AddUser(s, NewUser(EMAIL, Passwords.Bcrypt(PASSWORD, s.nextId), DEFAULT_ORG, true, map[], s.now))
    ensures CanLogIn(OrgRegister(s, SampleUser()).state, EMAIL, PASSWORD)
  {
    SampleIsStrong();
  }

  lemma SampleStep(c: Config, op: Op, s: State)
    requires op == DoOrgRegister(SampleUser()) && s == Step(c, Init, op).state
    ensures CanLogIn(s, EMAIL, PASSWORD) && NothingRevoked(s)
  {
    SampleRegisters(Init);
  }

  lemma CanLogInIssues(c: Config, s: State, email: string, password: string)
    requires CanLogIn(s, email, password)
    ensures var id := FindByEmail(s, email).value;
      Login(c, s, email, password) ==
      IssueTokens(c, PutUser(s, id, LoginReset(s.users[id], s.now)), id, IdentityOf(s.users[id]))
  {
  }

  lemma IssuedIsAccepted(c: Config, s: State, id: Id, who: Identity) returns (tok: AccessToken)
    requires c.accessTtl > 0 && NothingRevoked(s) && id in s.users
    ensures var s' := IssueTokens(c, s, id, who).state;
      JustSigned(c, s', tok) && s'.acl == s.acl && s'.users == s.users
    ensures tok.userId == id && tok.appPermissions == Acl.Resolve(s.acl, id)
  {
    var jwt;
    tok, jwt := IssueShape(c, s, id, who, Acl.Resolve(s.acl, id));
  }

  lemma SampleLogin(c: Config, s: State, email: string, password: string) returns (tok: AccessToken)
    requires c.accessTtl > 0 && NothingRevoked(s) && CanLogIn(s, email, password)
    ensures var s' := Login(c, s, email, password).state;
      JustSigned(c, s', tok) && s'.acl == s.acl && s'.users.Keys == s.users.Keys
    ensures tok.userId == FindByEmail(s, email).value && tok.appPermissions == Acl.Resolve(s.acl, tok.userId)
  {
    var id := FindByEmail(s, email).value;
    CanLogInIssues(c, s, email, password);
    tok := IssuedIsAccepted(c, PutUser(s, id, LoginReset(s.users[id], s.now)), id, IdentityOf(s.users[id]));
  }

  lemma LoginSigns(c: Config, s: State, op: Op, s': State) returns (tok: AccessToken)
    requires c.accessTtl > 0 && NothingRevoked(s) && CanLogIn(s, EMAIL, PASSWORD)
    requires op == DoLogin(EMAIL, PASSWORD) && s' == Step(c, s, op).state
    ensures JustSigned(c, s', tok)
  {
    tok := SampleLogin(c, s, EMAIL, PASSWORD);
  }

  lemma SomeRunSigns(c: Config) returns (ops: seq<Op>, tok: AccessToken)
    requires c.accessTtl > 0
    ensures JustSigned(c, Run(c, Init, ops), tok)
  {
    var register, login := DoOrgRegister(SampleUser()), DoLogin(EMAIL, PASSWORD);
    RunOne(c, Init, register);
    SampleStep(c, register, Run(c, Init, [register]));
    ops := [register] + [login];
    RunSnoc(c, Init, [register], login);
    tok := LoginSigns(c, Run(c, Init, [register]), login, Run(c, Init, ops));
  }

  /** Three steps, of which the third makes an issued and rejected token acceptable, refute finality. */
  lemma Refuted(c: Config, ops: seq<Op>, a: Op, b: Op, d: Op, tok: AccessToken)
    requires var s2 := Step(c, Step(c, Run(c, Init, ops), a).state, b).state;
      tok in s2.issued && !Accepts(s2, tok) && Accepts(Step(c, s2, d).state, tok)
    ensures !RejectionIsFinal(c, ops + [a] + [b], [d], tok)
  {
    RunSnoc(c, Init, ops, a);
    RunSnoc(c, Init, ops + [a], b);
    RunOne(c, Run(c, Init, ops + [a] + [b]), d);
  }

  lemma TickStep(c: Config, s: State, ms: nat)
    ensures Step(c, s, Tick(ms)).state == Later(s, ms)
  {
  }

  lemma SuspendStep(c: Config, s: State, id: Id, adminId: Id)
    ensures Step(c, s, DoSuspend(id, adminId)).state == SuspendUser(s, id, adminId).state
  {
  }

  lemma ComesBack(c: Config, ops: seq<Op>, tok: AccessToken) returns (before: seq<Op>, after: seq<Op>)
    requires !SessionSafety.TtlCovered(c) && JustSigned(c, Run(c, Init, ops), tok)
    ensures !RejectionIsFinal(c, before, after, tok)
  {
    var s := Run(c, Init, ops);
    var tick, suspend := Tick(MS_PER_SECOND), DoSuspend(tok.userId, tok.userId + 1);
    var wait := Tick(REVOKE_BEFORE_TTL * MS_PER_SECOND);
    TickStep(c, s, MS_PER_SECOND);
    SuspendStep(c, Later(s, MS_PER_SECOND), tok.userId, tok.userId + 1);
    var s2 := SuspendUser(Later(s, MS_PER_SECOND), tok.userId, tok.userId + 1).state;
    TickStep(c, s2, REVOKE_BEFORE_TTL * MS_PER_SECOND);
    LongTokenComesBack(c, s, tok);
    Refuted(c, ops, tick, suspend, wait, tok);
    before, after := ops + [tick] + [suspend], [wait];
  }

  /** Revocation is permanent in every run exactly when no access token outlives the thirty-day key by over a second. */
  lemma PermanenceIff(c: Config)
    requires ValidConfig(c)
    ensures SessionSafety.TtlCovered(c) <==> forall ops, more, tok :: RejectionIsFinal(c, ops, more, tok)
  {
    if SessionSafety.TtlCovered(c) {
      forall ops, more, tok ensures RejectionIsFinal(c, ops, more, tok) {
        CoveredIsFinal(c, ops, more, tok);
      }
    } else {
      var ops, tok := SomeRunSigns(c);
      var before, after := ComesBack(c, ops, tok);
    }
  }

  lemma CoveredIsFinal(c: Config, ops: seq<Op>, more: seq<Op>, tok: AccessToken)
    requires ValidConfig(c) && SessionSafety.TtlCovered(c)
    ensures RejectionIsFinal(c, ops, more, tok)
  {
    var s := Run(c, Init, ops);
    InitValid(c);
    RunValid(c, Init, ops);
    if tok in s.issued && !Accepts(s, tok) {
      SessionSafety.RevocationIsPermanent(c, s, tok, more);
    }
  }
}
