/** Which passwords a user may set again, told by the passwords the user has set. */
module Reuse {
  import opened Basics
  import opened Session
  import opened SessionInvariant
  import opened Credentials
  import OneShot
  import opened Passwords
  import Claims
  import PasswordRuns

  // ---- Histories over single calls ----

  /** Every history belongs to a user. */
  ghost predicate HistoriesOwned(s: State) { s.history.Keys <= s.users.Keys }

  predicate TouchesHistory(op: Op) {
    op.DoRegister? || op.DoReset? || op.DoChangePassword? || op.DoDelete?
  }

  lemma OthersKeepHistories(c: Config, s: State, op: Op, s': State)
    requires !TouchesHistory(op) && s' == Step(c, s, op).state
    ensures s'.history == s.history && s.users.Keys <= s'.users.Keys
  {
    if op.DoLogin? {
      LoginMoves(c, s, op.email, op.password, Step(c, s, op));
    } else if op.DoRefresh? {
      RefreshMoves(c, s, op.jwt, Step(c, s, op));
    } else if op.DoUpdateUser? {
      UpdateUserCases(s, op.userId, op.adminId, op.role, op.isActive, op.data, Step(c, s, op));
    }
  }

  /** The password was recorded for this user alone. */
  ghost predicate Recorded(c: Config, s: State, s': State, u: Id, password: string) {
    && u in s.users && s'.users.Keys == s.users.Keys
    && (exists salt: Id :: s'.history ==
          s.history[u := AddHistory(HistoryOf(s, u), Bcrypt(password, salt), s.now, c.historyLimit)])
  }

  lemma SettingRecords(c: Config, s: State, u: Id, password: string, r: Reply)
    requires u in s.users && r == SetPassword(c, s, u, password)
    ensures if r.outcome.Fail? then r.state == s else Recorded(c, s, r.state, u, password)
  {
    if !r.outcome.Fail? {
      assert r.state.history ==
        s.history[u := AddHistory(HistoryOf(s, u), Bcrypt(password, s.nextId), s.now, c.historyLimit)];
    }
  }

  lemma ChangeRecords(c: Config, s: State, op: Op, r: Reply)
    requires op.DoChangePassword? && r == Step(c, s, op)
    ensures if r.outcome.Fail? then r.state == s else Recorded(c, s, r.state, op.userId, op.password)
  {
    ChangeSets(c, s, op.userId, op.current, op.password, r);
    ChangeCases(c, s, op.userId, op.current, op.password, r);
    if op.userId in s.users && !r.outcome.Fail? {
      SettingRecords(c, s, op.userId, op.password, r);
    }
  }

  lemma SpentRecords(c: Config, s: State, t: OneShot.Table, u: Id, password: string, r: Reply)
    requires u in s.users && r == SetPassword(c, s.(resetTokens := t), u, password)
    ensures if r.outcome.Fail? then r.state.history == s.history && r.state.users == s.users
      else Recorded(c, s, r.state, u, password)
  {
    SettingRecords(c, s.(resetTokens := t), u, password, r);
  }

  lemma ResetPasses(c: Config, s: State, op: Op, r: Reply)
    requires op.DoReset? && r == Step(c, s, op) && !r.outcome.Fail?
    ensures ResetOwner(s, op.raw).Some? && ResetOwner(s, op.raw).value in s.users
    ensures r == SetPassword(c, s.(resetTokens := OneShot.Spend(s.resetTokens, op.raw)),
      ResetOwner(s, op.raw).value, op.password)
  {
  }

  lemma RefusedResetKeeps(c: Config, s: State, op: Op, r: Reply)
    requires op.DoReset? && r == Step(c, s, op) && r.outcome.Fail?
    ensures r.state.history == s.history && r.state.users == s.users
  {
    ResetCases(c, s, op.raw, op.password, r);
    var checked := OneShot.Check(s.resetTokens, op.raw, s.now);
    var s1 := s.(resetTokens := OneShot.Spend(s.resetTokens, op.raw));
    if r.state != s && r.state != s1 {
      PasswordIsSet(c, s1, checked.value, op.password, r);
    }
  }

  lemma ResetRecords(c: Config, s: State, op: Op, r: Reply)
    requires op.DoReset? && r == Step(c, s, op)
    ensures if r.outcome.Fail? then r.state.history == s.history && r.state.users == s.users
      else ResetOwner(s, op.raw).Some? && Recorded(c, s, r.state, ResetOwner(s, op.raw).value, op.password)
  {
    if r.outcome.Fail? {
      RefusedResetKeeps(c, s, op, r);
    } else {
      ResetPasses(c, s, op, r);
      var t := OneShot.Spend(s.resetTokens, op.raw);
      SpentRecords(c, s, t, ResetOwner(s, op.raw).value, op.password, r);
    }
  }

  lemma EnlistedHistory(c: Config, s: State, u: User, s': State)
    requires u.lastLoginAt.None? && s' == MailVerification(Enlist(c, s, u), s.nextId) && s.nextId !in s.history
    requires c.historyLimit >= 1
    ensures s'.history == s.history[s.nextId := [Row(u.passwordHash, s.now)]]
    ensures s'.users.Keys == s.users.Keys + {s.nextId}
  {
    assert AddHistory([], u.passwordHash, s.now, c.historyLimit) == [Row(u.passwordHash, s.now)];
  }

  /** The users so far keep their histories. */
  ghost predicate HistoriesKept(s: State, s': State) {
    HistoriesOwned(s') && forall v :: v in s.users && v in s'.users ==> HistoryOf(s', v) == HistoryOf(s, v)
  }

  lemma OneAdded(s: State, s': State, id: Id, row: Row, password: string)
    requires HistoriesOwned(s) && id !in s.users && AnswersTo(row.hash, password)
    requires s'.history == s.history[id := [row]] && s'.users.Keys == s.users.Keys + {id}
    ensures HistoriesKept(s, s') && Holds(HistoryOf(s', id), [password])
  {
  }

  lemma EnlistedRecords(c: Config, s: State, email: string, password: string, s': State)
    requires Valid(c, s) && HistoriesOwned(s)
    requires s' == MailVerification(Enlist(c, s,
      NewUser(email, Bcrypt(password, s.nextId), DEFAULT_ORG, false, map[], s.now)), s.nextId)
    ensures HistoriesKept(s, s') && Holds(HistoryOf(s', s.nextId), [password])
  {
    var u := NewUser(email, Bcrypt(password, s.nextId), DEFAULT_ORG, false, map[], s.now);
    EnlistedHistory(c, s, u, s');
    OneAdded(s, s', s.nextId, Row(u.passwordHash, s.now), password);
  }

  lemma RegisterRecords(c: Config, s: State, email: string, password: string, r: Reply)
    requires Valid(c, s) && HistoriesOwned(s) && r == Register(c, s, email, password)
    ensures HistoriesKept(s, r.state)
    ensures r.outcome.Created? ==> Holds(HistoryOf(r.state, r.outcome.id), [password])
  {
    RegisterCases(c, s, email, password, r);
    if !r.outcome.Fail? {
      EnlistedRecords(c, s, email, password, r.state);
    }
  }

  lemma DeletionRecords(c: Config, s: State, op: Op, s': State)
    requires op.DoDelete? && HistoriesOwned(s) && s' == Step(c, s, op).state
    ensures HistoriesKept(s, s')
  {
  }

  lemma SameHistories(s: State, s': State)
    requires HistoriesOwned(s) && s'.history == s.history && s.users.Keys <= s'.users.Keys
    ensures HistoriesKept(s, s')
  {
  }

  /** Only a reset or a change touches the history of a user who is there before and after. */
  lemma HistoriesStand(c: Config, s: State, op: Op, r: Reply)
    requires Valid(c, s) && HistoriesOwned(s) && r == Step(c, s, op)
    requires !op.DoChangePassword? && !op.DoReset?
    ensures HistoriesKept(s, r.state)
  {
    if op.DoRegister? {
      RegisterRecords(c, s, op.email, op.password, r);
    } else if op.DoDelete? {
      DeletionRecords(c, s, op, r.state);
    } else {
      OthersKeepHistories(c, s, op, r.state);
      SameHistories(s, r.state);
    }
  }

  lemma StepOwned(c: Config, s: State, op: Op, s': State)
    requires Valid(c, s) && HistoriesOwned(s) && s' == Step(c, s, op).state
    ensures HistoriesOwned(s')
  {
    if op.DoChangePassword? {
      ChangeRecords(c, s, op, Step(c, s, op));
    } else if op.DoReset? {
      ResetRecords(c, s, op, Step(c, s, op));
    } else {
      HistoriesStand(c, s, op, Step(c, s, op));
    }
  }

  lemma {:induction false} RunOwned(c: Config, s: State, ops: seq<Op>)
    requires Valid(c, s) && HistoriesOwned(s)
    ensures Valid(c, Run(c, s, ops)) && HistoriesOwned(Run(c, s, ops))
  {
    if ops == [] {
    } else {
      RunOwned(c, s, ops[..|ops| - 1]);
      StepOwned(c, Run(c, s, ops[..|ops| - 1]), ops[|ops| - 1], Run(c, s, ops));
      RunValid(c, s, ops);
    }
  }

  // ---- A history holds the first passwords ever set ----

  /** The rows are hashes of exactly these passwords, in this order. */
  ghost predicate Holds(rows: seq<Row>, passwords: seq<string>) {
    |rows| == |passwords| && forall i :: 0 <= i < |rows| ==> AnswersTo(rows[i].hash, passwords[i])
  }

  lemma HoldsOneMore(rows: seq<Row>, passwords: seq<string>, limit: nat, hash: Hash, now: nat, password: string)
    requires Holds(rows, Prefix(passwords, limit)) && AnswersTo(hash, password)
    ensures Holds(AddHistory(rows, hash, now, limit), Prefix(passwords + [password], limit))
  {
  }

  lemma RecordedHolds(c: Config, s: State, s': State, u: Id, passwords: seq<string>, password: string)
    requires Recorded(c, s, s', u, password) && Holds(HistoryOf(s, u), Prefix(passwords, c.historyLimit))
    ensures Holds(HistoryOf(s', u), Prefix(passwords + [password], c.historyLimit))
  {
    var salt: Id :| s'.history ==
      s.history[u := AddHistory(HistoryOf(s, u), Bcrypt(password, salt), s.now, c.historyLimit)];
    HoldsOneMore(HistoryOf(s, u), passwords, c.historyLimit, Bcrypt(password, salt), s.now, password);
  }

  /** What a call adds to the passwords a user has set. */
  ghost function Given(c: Config, s: State, op: Op, u: Id): seq<string> {
    var given := NewPassword(s, op, Succeeds(c, s, op), u);
    if given.Some? then [given.value] else []
  }

  /** This call adds to the user's history what it sets as the user's password. */
  ghost predicate HoldsMore(c: Config, s: State, s': State, op: Op, u: Id, passwords: seq<string>) {
    Holds(HistoryOf(s', u), Prefix(passwords + Given(c, s, op, u), c.historyLimit))
  }

  lemma OthersGiveNothing(c: Config, s: State, op: Op, u: Id)
    requires !op.DoChangePassword? && !op.DoReset?
    ensures Given(c, s, op, u) == []
  {
  }

  lemma NothingMore(c: Config, s: State, s': State, op: Op, u: Id, passwords: seq<string>)
    requires Holds(HistoryOf(s, u), Prefix(passwords, c.historyLimit)) && HistoryOf(s', u) == HistoryOf(s, u)
    requires Given(c, s, op, u) == []
    ensures HoldsMore(c, s, s', op, u, passwords)
  {
    assert passwords + [] == passwords;
  }

  lemma ChangeHolds(c: Config, s: State, op: Op, r: Reply, u: Id, passwords: seq<string>)
    requires op.DoChangePassword? && r == Step(c, s, op)
    requires Holds(HistoryOf(s, u), Prefix(passwords, c.historyLimit))
    ensures HoldsMore(c, s, r.state, op, u, passwords)
  {
    ChangeRecords(c, s, op, r);
    if Given(c, s, op, u) == [] {
      NothingMore(c, s, r.state, op, u, passwords);
    } else {
      RecordedHolds(c, s, r.state, u, passwords, op.password);
    }
  }

  lemma ResetHolds(c: Config, s: State, op: Op, r: Reply, u: Id, passwords: seq<string>)
    requires op.DoReset? && r == Step(c, s, op)
    requires Holds(HistoryOf(s, u), Prefix(passwords, c.historyLimit))
    ensures HoldsMore(c, s, r.state, op, u, passwords)
  {
    ResetRecords(c, s, op, r);
    if Given(c, s, op, u) == [] {
      NothingMore(c, s, r.state, op, u, passwords);
    } else {
      RecordedHolds(c, s, r.state, u, passwords, op.password);
    }
  }

  lemma StepHolds(c: Config, s: State, op: Op, s': State, u: Id, passwords: seq<string>)
    requires Valid(c, s) && HistoriesOwned(s) && s' == Step(c, s, op).state && u in s.users && u in s'.users
    requires Holds(HistoryOf(s, u), Prefix(passwords, c.historyLimit))
    ensures HoldsMore(c, s, s', op, u, passwords)
  {
    if op.DoChangePassword? {
      ChangeHolds(c, s, op, Step(c, s, op), u, passwords);
    } else if op.DoReset? {
      ResetHolds(c, s, op, Step(c, s, op), u, passwords);
    } else {
      HistoriesStand(c, s, op, Step(c, s, op));
      OthersGiveNothing(c, s, op, u);
      NothingMore(c, s, s', op, u, passwords);
    }
  }

  /** All passwords a user has had who registered with the first one. */
  ghost function AllPasswords(c: Config, s: State, ops: seq<Op>, u: Id, first: string): seq<string> {
    [first] + PasswordsSet(c, s, ops, u)
  }

  lemma {:induction false} HistoryHoldsFirst(c: Config, s: State, ops: seq<Op>, u: Id, first: string)
    requires Valid(c, s) && HistoriesOwned(s) && u in s.users && u in Run(c, s, ops).users
    requires Holds(HistoryOf(s, u), [first])
    ensures Holds(HistoryOf(Run(c, s, ops), u), Prefix(AllPasswords(c, s, ops, u, first), c.historyLimit))
  {
    if ops == [] {
    } else {
      var init, op := ops[..|ops| - 1], ops[|ops| - 1];
      RunOwned(c, s, init);
      RunIds(c, s, init);
      Claims.StillThere(c, Run(c, s, init), op, Run(c, s, ops), u);
      HistoryHoldsFirst(c, s, init, u, first);
      StepHolds(c, Run(c, s, init), op, Run(c, s, ops), u, AllPasswords(c, s, init, u, first));
      assert AllPasswords(c, s, ops, u, first) ==
        AllPasswords(c, s, init, u, first) + Given(c, Run(c, s, init), op, u);
    }
  }

  lemma HeldMatches(rows: seq<Row>, passwords: seq<string>, password: string)
    requires Holds(rows, passwords)
    ensures (forall r :: r in rows ==> !Compare(password, r.hash)) <==> password !in passwords
  {
    if password in passwords {
      var i :| 0 <= i < |passwords| && passwords[i] == password;
      assert rows[i] in rows;
    }
  }

  lemma ChangeIff(c: Config, s: State, u: Id, current: string, password: string, r: Reply)
    requires u in s.users && r == ChangePassword(c, s, u, current, password)
    ensures r.outcome == Done <==>
      && Compare(current, s.users[u].passwordHash) && Strong(password)
      && SetPassword(c, s, u, password).outcome.Done?
  {
  }

  /** What is known of a user whose passwords so far are these, oldest first. */
  ghost predicate Remembers(c: Config, s: State, u: Id, passwords: seq<string>) {
    && u in s.users && passwords != [] && AnswersTo(s.users[u].passwordHash, passwords[|passwords| - 1])
    && Holds(HistoryOf(s, u), Prefix(passwords, c.historyLimit))
  }

  lemma RememberedChangeIff(c: Config, s: State, u: Id, passwords: seq<string>, current: string, password: string,
      r: Reply)
    requires Valid(c, s) && Remembers(c, s, u, passwords) && r == ChangePassword(c, s, u, current, password)
    ensures r.outcome == Done <==>
      current == passwords[|passwords| - 1] && Strong(password) && password !in Prefix(passwords, c.historyLimit)
  {
    HeldMatches(HistoryOf(s, u), Prefix(passwords, c.historyLimit), password);
    PasswordRuns.AcceptedIff(c, s, u, password);
    ChangeIff(c, s, u, current, password, r);
  }

  lemma RunRemembers(c: Config, s: State, ops: seq<Op>, u: Id, first: string)
    requires Valid(c, s) && HistoriesOwned(s) && u in s.users && u in Run(c, s, ops).users
    requires Holds(HistoryOf(s, u), [first]) && AnswersTo(s.users[u].passwordHash, first)
    ensures Remembers(c, Run(c, s, ops), u, AllPasswords(c, s, ops, u, first))
  {
    StandingIsLastSet(c, s, ops, u);
    HistoryHoldsFirst(c, s, ops, u, first);
  }

  lemma RegisteredRemembers(c: Config, s: State, email: string, first: string, r: Reply)
    requires Valid(c, s) && HistoriesOwned(s) && r == Register(c, s, email, first) && r.outcome.Created?
    ensures Valid(c, r.state) && HistoriesOwned(r.state) && r.outcome.id in r.state.users
    ensures Holds(HistoryOf(r.state, r.outcome.id), [first])
    ensures AnswersTo(r.state.users[r.outcome.id].passwordHash, first)
  {
    RegisterAdds(c, s, email, first, r);
    RegisterRecords(c, s, email, first, r);
    RegisterValid(c, s, email, first);
  }

  /**
   * From registration on, through any calls: a change of password goes through if and only if the current password is
   * the one last set, the new one is strong, and it is none of the first ones ever set, as many as the limit says.
   */
  lemma ChangeWorksIff(c: Config, s: State, email: string, first: string, r: Reply, ops: seq<Op>,
      current: string, password: string, change: Reply)
    requires Valid(c, s) && HistoriesOwned(s) && r == Register(c, s, email, first) && r.outcome.Created?
    requires r.outcome.id in Run(c, r.state, ops).users
    requires change == ChangePassword(c, Run(c, r.state, ops), r.outcome.id, current, password)
    ensures var all := AllPasswords(c, r.state, ops, r.outcome.id, first);
      change.outcome == Done <==>
      current == all[|all| - 1] && Strong(password) && password !in Prefix(all, c.historyLimit)
  {
    RegisteredRemembers(c, s, email, first, r);
    RunRemembers(c, r.state, ops, r.outcome.id, first);
    RunOwned(c, r.state, ops);
    RememberedChangeIff(c, Run(c, r.state, ops), r.outcome.id,
      AllPasswords(c, r.state, ops, r.outcome.id, first), current, password, change);
  }
}
