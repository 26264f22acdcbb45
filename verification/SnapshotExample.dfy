/** A run in which an accepted token does list a feature, and stays current while silent calls happen elsewhere. */
module SnapshotExample {
  import opened Basics
  import opened Session
  import opened SessionInvariant
  import opened SessionSafety
  import opened Snapshots
  import opened RevocationLimits
  import Acl
  import Features

  const READ: Features.FeatureInput := Features.FeatureInput("read", "Read", None)

  /** An app with one feature, a role that has it, a user with that role. */
  const SETUP: seq<Acl.Op> := [
    Acl.RegisterApp("shop"), Acl.AddFeature(0, READ), Acl.CreateRole(0, "clerk", Acl.RoleInfo("Clerk", None, false)),
    Acl.SetRoleFeatures(1, [0]), Acl.AssignUser(0, 0, Some(1)), Acl.RegisterApp("other")]

  function Tables(n: nat): Acl.Tables
    requires n <= |SETUP|
  {
    if n == 0 then Acl.Empty else Acl.Step(Tables(n - 1), {0}, SETUP[n - 1]).tables
  }

  /** The call goes through and signs nobody out. */
  predicate Quiet(i: nat)
    requires i < |SETUP|
  {
    Acl.Step(Tables(i), {0}, SETUP[i]).result.Ok? && Acl.Step(Tables(i), {0}, SETUP[i]).killed == {}
  }

  const TABLE: Features.Table := Features.Create(Acl.Empty.features, (0, "read"), READ)
  const CLERK: Acl.Role := Acl.Role(0, "clerk", Acl.RoleInfo("Clerk", None, false), 1, [])
  const SHOP: Acl.Tables := Acl.Empty.(apps := map[0 := Acl.App("shop", Acl.Active)], features := TABLE, nextId := 1)
  const STAFFED: Acl.Tables := SHOP.(roles := map[1 := CLERK.(features := [0], version := 2)], nextId := 2)
  const CLERK_ACCESS: Acl.UserApp := Acl.UserApp(Some(1), true, [])

  const READY: Acl.Tables := STAFFED.(
    userApps := map[(0, 0) := CLERK_ACCESS],
    apps := SHOP.apps[2 := Acl.App("other", Acl.Active)],
    nextId := 3)

  lemma SetupShop()
    ensures Quiet(0) && Quiet(1) && Tables(2) == SHOP
  {
    assert Tables(1) == Acl.Empty.(apps := map[0 := Acl.App("shop", Acl.Active)], nextId := 1);
  }

  lemma SetupRole()
    ensures Quiet(2) && Quiet(3) && Tables(4) == STAFFED
  {
    SetupShop();
    assert Tables(3) == SHOP.(roles := map[1 := CLERK], nextId := 2);
  }

  lemma SetupAccess()
    ensures Quiet(4) && Tables(5) == STAFFED.(userApps := map[(0, 0) := CLERK_ACCESS])
  {
    SetupRole();
  }

  lemma SetupOther()
    ensures Quiet(5) && Tables(6) == READY
  {
    SetupAccess();
  }

  lemma ClerkReads()
    ensures Acl.PermissionFor(READY, CLERK_ACCESS) == Acl.AppPermission("clerk", 2, ["read"])
  {
    assert [0][..0] == [];
    assert Acl.KeysOf(TABLE, [0]) == ["read"];
    assert ["read"][..0] == [];
  }

  lemma ReadyResolves()
    ensures Acl.Resolve(READY, 0) == map[0 := Acl.AppPermission("clerk", 2, ["read"])]
    ensures 2 in READY.apps && 2 !in Acl.Resolve(READY, 0)
  {
    ClerkReads();
    assert Acl.Resolve(READY, 0).Keys == {0};
  }

  lemma AllQuiet(i: nat)
    requires i < |SETUP|
    ensures Quiet(i)
  {
    if i < 2 {
      SetupShop();
    } else if i < 4 {
      SetupRole();
    } else if i == 4 {
      SetupAccess();
    } else {
      SetupOther();
    }
  }

  function SetupOps(n: nat): seq<Op>
    requires n <= |SETUP|
  {
    if n == 0 then [] else SetupOps(n - 1) + [DoAcl(SETUP[n - 1])]
  }

  lemma Administered(s: State, op: Acl.Op)
    requires Acl.Step(s.acl, s.users.Keys, op).killed == {}
    ensures AdministerAcl(s, op).state == s.(acl := Acl.Step(s.acl, s.users.Keys, op).tables)
  {
    KillNobody(s.(acl := Acl.Step(s.acl, s.users.Keys, op).tables));
  }

  lemma AclStep(c: Config, s: State, op: Acl.Op, s': State)
    requires Acl.Step(s.acl, s.users.Keys, op).killed == {} && s' == Step(c, s, DoAcl(op)).state
    ensures s' == s.(acl := Acl.Step(s.acl, s.users.Keys, op).tables)
  {
    AclIsAdminister(c, s, op, s');
    Administered(s, op);
  }

  lemma {:induction false} SetupRun(c: Config, s: State, n: nat)
    requires n <= |SETUP| && s.users.Keys == {0} && s.acl == Acl.Empty
    ensures Run(c, s, SetupOps(n)) == s.(acl := Tables(n))
  {
    if n == 0 {
    } else {
      SetupRun(c, s, n - 1);
      AllQuiet(n - 1);
      RunSnoc(c, s, SetupOps(n - 1), DoAcl(SETUP[n - 1]));
      AclStep(c, s.(acl := Tables(n - 1)), SETUP[n - 1], Run(c, s, SetupOps(n)));
    }
  }

  /** The state in which the user logs in: one verified user, no token, the tables set up. */
  ghost predicate ReadyToLogIn(s: State) {
    && s.users.Keys == {0} && FindByEmail(s, EMAIL) == Some(0) && s.acl == Tables(6)
    && NothingRevoked(s) && CanLogIn(s, EMAIL, PASSWORD) && s.issued == {} && s.refresh == map[]
  }

  /** The one verified user, and nothing else yet. */
  ghost predicate JustRegistered(s: State) {
    && s.users.Keys == {0} && FindByEmail(s, EMAIL) == Some(0) && s.acl == Acl.Empty
    && NothingRevoked(s) && CanLogIn(s, EMAIL, PASSWORD) && s.issued == {} && s.refresh == map[]
  }

  lemma Registers(c: Config, op: Op, s: State)
    requires op == DoOrgRegister(SampleUser()) && s == Step(c, Init, op).state
    ensures JustRegistered(s)
  {
    SampleRegisters(Init);
  }

  lemma SetUp(c: Config) returns (before: seq<Op>)
    ensures ReadyToLogIn(Run(c, Init, before))
  {
    var register := DoOrgRegister(SampleUser());
    RunOne(c, Init, register);
    Registers(c, register, Run(c, Init, [register]));
    SetupRun(c, Run(c, Init, [register]), 6);
    before := [register] + SetupOps(6);
    RunAppend(c, Init, [register], SetupOps(6));
  }

  lemma LogsInWithRead(c: Config, s: State) returns (tok: AccessToken)
    requires ReadyToLogIn(s) && c.accessTtl > 0
    ensures var s' := Login(c, s, EMAIL, PASSWORD).state;
      Accepts(s', tok) && s'.acl == Tables(6) && tok !in s.issued
    ensures tok.userId == 0 && tok.appPermissions == map[0 := Acl.AppPermission("clerk", 2, ["read"])]
  {
    SetupOther();
    ReadyResolves();
    tok := SampleLogin(c, s, EMAIL, PASSWORD);
  }

  const SUSPEND_OTHER: Op := DoAcl(Acl.SuspendApp(2))

  lemma OtherUnsettlesNobody(s: State)
    requires s.acl == Tables(6)
    ensures !Unsettles(s, SUSPEND_OTHER, 0)
  {
    SetupOther();
    ReadyResolves();
  }

  lemma SettledOnce(c: Config, s: State, op: Op, u: Id)
    requires !Unsettles(s, op, u)
    ensures Settled(c, s, [op], u)
  {
    assert [op][..0] == [];
  }

  lemma LoginStep(c: Config, s: State, tok: AccessToken, op: Op, s': State)
    requires ReadyToLogIn(s) && op == DoLogin(EMAIL, PASSWORD) && s' == Step(c, s, op).state
    requires tok in Login(c, s, EMAIL, PASSWORD).state.issued && tok !in s.issued
    ensures Signs(c, s, s', tok) && s' == Login(c, s, EMAIL, PASSWORD).state
  {
    StepSigns(c, s, op, s', tok);
  }

  /**
   * Some run signs a token that lists a feature; after a silent call elsewhere it is still accepted and still current.
   */
  lemma TokenListsRead(c: Config) returns (ops: seq<Op>, g: Signing, tok: AccessToken)
    requires c.accessTtl > 0
    ensures SignedBy(c, ops, g, tok) && g.after == [SUSPEND_OTHER] && SettledSince(c, g, tok.userId)
    ensures Accepts(Run(c, Init, ops), tok) && tok.appPermissions == map[0 := Acl.AppPermission("clerk", 2, ["read"])]
  {
    var before := SetUp(c);
    var login := DoLogin(EMAIL, PASSWORD);
    var s := Run(c, Init, before);
    var s' := Step(c, s, login).state;
    tok := LogsInWithRead(c, s);
    LoginStep(c, s, tok, login, s');
    g := Signing(before, login, [SUSPEND_OTHER]);
    ops := before + [login] + [SUSPEND_OTHER];
    OtherUnsettlesNobody(s');
    SettledOnce(c, s', SUSPEND_OTHER, 0);
    RunThrough(c, Init, before, login, [SUSPEND_OTHER]);
    RunOne(c, s', SUSPEND_OTHER);
    SilentCallsKeepVerdicts(c, s', SUSPEND_OTHER, Run(c, s', [SUSPEND_OTHER]), tok);
  }
}
