/** The read-through user cache against the user table. */
module UserCache {
  import opened Basics
  import opened Redis
  import opened Session
  import opened SessionInvariant
  import Acl

  /** The same read without a cache. */
  function ReadUser(s: State, id: Id): Outcome {
    if id in s.users then Profile(ToUserResponse(id, s.users[id])) else Fail(NotFound)
  }

  /** What a reader of either can tell apart: nothing but the last login time. */
  ghost predicate SameAnswer(a: Outcome, b: Outcome) {
    a == b || (a.Profile? && b.Profile? && SameButLogin(a.user, b.user))
  }

  lemma CoherentRead(c: Config, s: State, id: Id)
    requires CacheCoherent(s.users, s.userCache)
    ensures SameAnswer(GetMe(s, id).outcome, ReadUser(s, id))
  {
  }

  /**
   * In every run, a cached read answers as an uncached one up to the last login time, and a deleted user is not found.
   */
  lemma GetMeRefinesRead(c: Config, ops: seq<Op>, id: Id)
    requires ValidConfig(c)
    ensures SameAnswer(GetMe(Run(c, Init, ops), id).outcome, ReadUser(Run(c, Init, ops), id))
    ensures GetMe(Run(c, Init, ops), id).outcome == Fail(NotFound) <==> id !in Run(c, Init, ops).users
  {
    InitValid(c);
    RunValid(c, Init, ops);
    CoherentRead(c, Run(c, Init, ops), id);
  }

  // ---- When the cached copy is exact ----

  /** A login time never lies after another one, or after now. */
  predicate AtMost(a: Option<nat>, b: Option<nat>) { a.Some? ==> b.Some? && a.value <= b.value }

  ghost predicate LoginTimesPast(users: map<Id, User>, now: nat) {
    forall u :: u in users ==> AtMost(users[u].lastLoginAt, Some(now))
  }

  /** The call reads the user past the cache and stores the copy. */
  predicate Writes(s: State, op: Op, id: Id) {
    op == DoGetMe(id) && !Live(s.userCache, id, s.now) && id in s.users
  }

  /** A successful login of the user, at a later millisecond than the login time in the stored copy. */
  predicate Outdates(c: Config, s: State, op: Op, id: Id) {
    && op.DoLogin? && FindByEmail(s, op.email) == Some(id) && Login(c, s, op.email, op.password).outcome.Tokens?
    && CopyIsEarlier(s, id)
  }

  predicate CopyIsEarlier(s: State, id: Id) {
    && id in s.userCache
    && (s.userCache[id].value.lastLoginAt.Some? ==> s.userCache[id].value.lastLoginAt.value < s.now)
  }

  /** Since the copy was last written, such a login has happened. */
  ghost predicate OutdatedSince(c: Config, ops: seq<Op>, id: Id) {
    ops != [] &&
    (var init, op := ops[..|ops| - 1], ops[|ops| - 1];
     var s := Run(c, Init, init);
     !Writes(s, op, id) && (OutdatedSince(c, init, id) || Outdates(c, s, op, id)))
  }

  /** The copy's login time is not after the stored one, and differs from it exactly if the copy is out of date. */
  ghost predicate Dated(s: State, id: Id, outdated: bool) {
    id in s.userCache && id in s.users ==>
      var copied, stored := s.userCache[id].value.lastLoginAt, s.users[id].lastLoginAt;
      (outdated <==> copied != stored) && AtMost(copied, stored)
  }

  lemma RefreshKeepsCopies(c: Config, s: State, jwt: RefreshJwt, r: Reply)
    requires r == RefreshTokens(c, s, jwt)
    ensures r.state.userCache == s.userCache
  {
    RefreshOutcomes(c, s, jwt, r);
    if RefreshIssued(c, s, jwt, r) {
      IssueAdds(c, Spent(s, jwt), jwt.userId, IdentityOf(s.users[jwt.userId]), r.state);
    }
  }

  /** The login leaves the cache alone and, if it goes through, sets its user's login time to now. */
  ghost predicate LoginTimes(s: State, s': State, u: Option<Id>, through: bool) {
    && s'.userCache == s.userCache && s'.now == s.now && s'.users.Keys == s.users.Keys
    && (forall v :: v in s.users ==>
          s'.users[v].lastLoginAt == if through && u == Some(v) then Some(s.now) else s.users[v].lastLoginAt)
  }

  lemma IssuedLoginTimes(c: Config, s: State, id: Id, r: Reply)
    requires LoginIssued(c, s, id, r)
    ensures LoginTimes(s, r.state, Some(id), true) && r.outcome.Tokens?
  {
    var s1 := PutUser(s, id, LoginReset(s.users[id], s.now));
    IssueAdds(c, s1, id, IdentityOf(s.users[id]), r.state);
    var tok, jwt := IssueShape(c, s1, id, IdentityOf(s.users[id]), Acl.Resolve(s1.acl, id));
  }

  lemma CountedLoginTimes(c: Config, s: State, id: Id, r: Reply)
    requires LoginCounted(c, s, id, r)
    ensures LoginTimes(s, r.state, Some(id), false)
  {
  }

  lemma LoginOnTimes(c: Config, s: State, email: string, password: string, r: Reply)
    requires r == Login(c, s, email, password)
    ensures LoginTimes(s, r.state, FindByEmail(s, email), r.outcome.Tokens?)
  {
    LoginCases(c, s, email, password, r);
    if r.outcome.Fail? && r.state == s {
    } else if r.outcome.Fail? {
      CountedLoginTimes(c, s, FindByEmail(s, email).value, r);
    } else {
      IssuedLoginTimes(c, s, FindByEmail(s, email).value, r);
    }
  }

  lemma LoginDated(s: State, s': State, u: Option<Id>, through: bool, id: Id, outdated: bool)
    requires LoginTimesPast(s.users, s.now) && Dated(s, id, outdated) && LoginTimes(s, s', u, through)
    ensures LoginTimesPast(s'.users, s'.now)
    ensures Dated(s', id, outdated || (through && u == Some(id) && CopyIsEarlier(s, id)))
  {
  }

  lemma LoginStepDated(c: Config, s: State, op: Op, r: Reply, id: Id, outdated: bool)
    requires op.DoLogin? && r == Login(c, s, op.email, op.password)
    requires LoginTimesPast(s.users, s.now) && Dated(s, id, outdated)
    ensures LoginTimesPast(r.state.users, r.state.now)
    ensures Dated(r.state, id, outdated || Outdates(c, s, op, id))
  {
    LoginOnTimes(c, s, op.email, op.password, r);
    LoginDated(s, r.state, FindByEmail(s, op.email), r.outcome.Tokens?, id, outdated);
  }

  /** A read of the profile answers from the cache, fails, or stores a copy of the row. */
  lemma ReadCases(s: State, who: Id, r: Reply)
    requires r == GetMe(s, who)
    ensures r.state == if Writes(s, DoGetMe(who), who) then CacheUser(s, who, ToUserResponse(who, s.users[who])) else s
  {
  }

  lemma ReadDated(s: State, who: Id, s': State, id: Id, outdated: bool)
    requires LoginTimesPast(s.users, s.now) && Dated(s, id, outdated)
    requires s' == if Writes(s, DoGetMe(who), who) then CacheUser(s, who, ToUserResponse(who, s.users[who])) else s
    ensures LoginTimesPast(s'.users, s'.now)
    ensures Dated(s', id, if Writes(s, DoGetMe(who), id) then false else outdated)
  {
  }

  lemma ReadStepDated(s: State, who: Id, r: Reply, id: Id, outdated: bool)
    requires LoginTimesPast(s.users, s.now) && Dated(s, id, outdated) && r == GetMe(s, who)
    ensures LoginTimesPast(r.state.users, r.state.now)
    ensures Dated(r.state, id, !Writes(s, DoGetMe(who), id) && outdated)
  {
    ReadCases(s, who, r);
    ReadDated(s, who, r.state, id, outdated);
  }

  /** A call that neither logs in nor writes the cache. */
  lemma KeptDated(s: State, s': State, id: Id, outdated: bool)
    requires UserIdsBelow(s.users, s.nextId) && CacheCoherent(s.users, s.userCache)
    requires LoginTimesPast(s.users, s.now) && Dated(s, id, outdated)
    requires s.now <= s'.now && LoginTimesKept(s.users, s'.users) && CopiesKept(s.userCache, s'.userCache)
    ensures LoginTimesPast(s'.users, s'.now) && Dated(s', id, outdated)
  {
  }

  lemma OtherDated(c: Config, s: State, op: Op, s': State, id: Id, outdated: bool)
    requires Valid(c, s) && LoginTimesPast(s.users, s.now) && Dated(s, id, outdated)
    requires s' == Step(c, s, op).state && !op.DoLogin? && !op.DoGetMe?
    ensures LoginTimesPast(s'.users, s'.now) && Dated(s', id, outdated)
  {
    StepMoves(c, s, op, s');
    StepKeepsLoginTimes(c, s, op, s');
    if op.DoRefresh? {
      RefreshKeepsCopies(c, s, op.jwt, Step(c, s, op));
    } else {
      StepKeepsCopies(c, s, op, s');
    }
    KeptDated(s, s', id, outdated);
  }

  lemma StepDated(c: Config, s: State, op: Op, s': State, id: Id, outdated: bool)
    requires Valid(c, s) && LoginTimesPast(s.users, s.now) && Dated(s, id, outdated) && s' == Step(c, s, op).state
    ensures LoginTimesPast(s'.users, s'.now)
    ensures Dated(s', id, !Writes(s, op, id) && (outdated || Outdates(c, s, op, id)))
  {
    if op.DoLogin? {
      LoginStepDated(c, s, op, Step(c, s, op), id, outdated);
    } else if op.DoGetMe? {
      ReadStepDated(s, op.userId, Step(c, s, op), id, outdated);
    } else {
      OtherDated(c, s, op, s', id, outdated);
    }
  }

  lemma {:induction false} RunDated(c: Config, ops: seq<Op>, id: Id)
    requires ValidConfig(c)
    ensures LoginTimesPast(Run(c, Init, ops).users, Run(c, Init, ops).now)
    ensures Dated(Run(c, Init, ops), id, OutdatedSince(c, ops, id))
  {
    if ops == [] {
    } else {
      var init, op := ops[..|ops| - 1], ops[|ops| - 1];
      RunDated(c, init, id);
      InitValid(c);
      RunValid(c, Init, init);
      StepDated(c, Run(c, Init, init), op, Run(c, Init, ops), id, OutdatedSince(c, init, id));
    }
  }

  lemma ExactWhenDated(c: Config, s: State, id: Id, outdated: bool)
    requires CacheCoherent(s.users, s.userCache) && Dated(s, id, outdated)
    ensures GetMe(s, id).outcome == ReadUser(s, id) <==> (Live(s.userCache, id, s.now) ==> !outdated)
  {
  }

  /**
   * In every run, a read of the profile is exact if and only if nothing live is cached, or no login of the user at a
   * later millisecond than the copy's login time has succeeded since the copy was written.
   */
  lemma GetMeExactIff(c: Config, ops: seq<Op>, id: Id)
    requires ValidConfig(c)
    ensures var s := Run(c, Init, ops);
      GetMe(s, id).outcome == ReadUser(s, id) <==> (Live(s.userCache, id, s.now) ==> !OutdatedSince(c, ops, id))
  {
    InitValid(c);
    RunValid(c, Init, ops);
    RunDated(c, ops, id);
    ExactWhenDated(c, Run(c, Init, ops), id, OutdatedSince(c, ops, id));
  }

  /**
   * A login does not drop the cached copy: right after it, the user's profile shows the login before, until the copy
   * expires.
   */
  lemma LoginLeavesStaleCopy(c: Config, s: State, email: string, password: string, r: Reply, id: Id)
    requires Valid(c, s) && r == Login(c, s, email, password) && r.outcome.Tokens? && FindByEmail(s, email) == Some(id)
    requires Live(s.userCache, id, s.now) && s.userCache[id].value.lastLoginAt != Some(s.now)
    ensures GetMe(r.state, id).outcome == Profile(s.userCache[id].value)
    ensures GetMe(r.state, id).outcome != ReadUser(r.state, id)
  {
    LoginOnTimes(c, s, email, password, r);
  }

  /** A read past the cache stores what it answers, for exactly five minutes. */
  lemma ReadCachesFiveMinutes(c: Config, s: State, id: Id, r: Reply, elapsed: nat)
    requires id in s.users && !Live(s.userCache, id, s.now) && r == GetMe(s, id)
    ensures r.outcome == ReadUser(s, id)
    ensures Live(r.state.userCache, id, s.now + elapsed) <==> elapsed < 5 * 60 * 1000
    ensures elapsed < 5 * 60 * 1000 ==>
      GetMe(r.state.(now := s.now + elapsed), id).outcome == ReadUser(s, id)
  {
  }

  /** An uncached read shows the row, column by column, and never the password hash, the counter or the lock. */
  lemma ReadShowsRow(s: State, id: Id)
    requires id in s.users
    ensures ReadUser(s, id).Profile?
    ensures var shown, u := ReadUser(s, id).user, s.users[id];
      && shown.id == id && shown.email == u.email && shown.role == u.role
      && shown.isVerified == u.isVerified && shown.isActive == u.isActive
      && shown.organizationId == u.organizationId && shown.profile == u.profile
      && shown.lastLoginAt == u.lastLoginAt && shown.createdAt == u.createdAt
  {
  }
}
