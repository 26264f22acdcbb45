/** How many passwords can be guessed: the attempt counter and the lock over whole runs. */
module Lockout {
  import opened Basics
  import opened Session
  import opened SessionInvariant
  import Passwords

  /** A login attempt on this user whose password is compared and found wrong. */
  predicate WrongGuess(s: State, email: string, password: string, u: Id) {
    && FindByEmail(s, email) == Some(u)
    && !(s.users[u].isVerified && !s.users[u].isActive)
    && !Locked(s.users[u], s.now)
    && !Passwords.Compare(password, s.users[u].passwordHash)
  }

  predicate GuessesWrong(s: State, op: Op, u: Id) {
    op.DoLogin? && WrongGuess(s, op.email, op.password, u)
  }

  /** The two calls that clear the counter and the lock. */
  ghost predicate Clears(c: Config, s: State, op: Op, u: Id) {
    || (op.DoLogin? && FindByEmail(s, op.email) == Some(u) && Login(c, s, op.email, op.password).outcome.Tokens?)
    || (op.DoForceActivate? && op.userId == u && !ForceActivate(s, op.userId, op.adminId, op.password).outcome.Fail?)
  }

  ghost predicate NeverCleared(c: Config, s: State, ops: seq<Op>, u: Id) {
    ops == [] ||
    (NeverCleared(c, s, ops[..|ops| - 1], u) && !Clears(c, Run(c, s, ops[..|ops| - 1]), ops[|ops| - 1], u))
  }

  ghost function WrongGuesses(c: Config, s: State, ops: seq<Op>, u: Id): nat {
    if ops == [] then 0
    else
      var init := ops[..|ops| - 1];
      WrongGuesses(c, s, init, u) + if GuessesWrong(Run(c, s, init), ops[|ops| - 1], u) then 1 else 0
  }

  // ---- No login while locked ----

  /** While the lock holds, every login attempt on the account fails whatever the password, and changes nothing. */
  lemma NoLoginWhileLocked(c: Config, s: State, email: string, password: string, u: Id)
    requires FindByEmail(s, email) == Some(u) && Locked(s.users[u], s.now)
    ensures Login(c, s, email, password).state == s
    ensures Login(c, s, email, password).outcome ==
      Fail(if s.users[u].isVerified && !s.users[u].isActive then AuthenticationError
           else AccountLocked(s.users[u].lockedUntil.value))
  {
  }

  lemma WrongGuessIsCounted(c: Config, s: State, email: string, password: string, r: Reply, u: Id)
    requires WrongGuess(s, email, password, u) && r == Login(c, s, email, password)
    ensures LoginCounted(c, s, u, r)
    ensures r.outcome == Fail(
      if s.users[u].failedLoginAttempts + 1 < c.maxAttempts then AuthenticationError
      else AccountLocked(s.now + c.lockMs))
  {
  }

  /** Equal but for the attempt counter and the lock. */
  ghost predicate SameButLock(u: User, u': User) {
    u' == u.(failedLoginAttempts := u'.failedLoginAttempts, lockedUntil := u'.lockedUntil)
  }

  /** Nothing but this user's row differs. */
  ghost predicate OnlyRow(s: State, s': State, u: Id) {
    && s' == s.(users := s'.users) && s'.users.Keys == s.users.Keys
    && (forall v :: v in s.users && v != u ==> s'.users[v] == s.users[v])
  }

  /**
   * Below the limit a wrong guess raises the counter by one and leaves the lock as it was; the guess that reaches the
   * limit resets the counter to zero and locks the account for the configured time from now, and says so. Nothing else
   * changes, in the row or anywhere.
   */
  lemma WrongGuessCounts(c: Config, s: State, email: string, password: string, r: Reply, u: Id)
    requires WrongGuess(s, email, password, u) && r == Login(c, s, email, password)
    ensures u in r.state.users && SameButLock(s.users[u], r.state.users[u]) && OnlyRow(s, r.state, u)
    ensures s.users[u].failedLoginAttempts + 1 < c.maxAttempts ==>
      && r.state.users[u].failedLoginAttempts == s.users[u].failedLoginAttempts + 1
      && r.state.users[u].lockedUntil == s.users[u].lockedUntil
      && r.outcome == Fail(AuthenticationError)
    ensures s.users[u].failedLoginAttempts + 1 >= c.maxAttempts ==>
      && r.state.users[u].failedLoginAttempts == 0
      && r.state.users[u].lockedUntil == Some(s.now + c.lockMs)
      && r.outcome == Fail(AccountLocked(s.now + c.lockMs))
  {
    WrongGuessIsCounted(c, s, email, password, r, u);
  }

  /** A successful login clears counter and lock and writes the login time; nothing else changes in any row. */
  lemma LoginClears(c: Config, s: State, email: string, password: string, r: Reply)
    requires r == Login(c, s, email, password) && r.outcome.Tokens?
    ensures FindByEmail(s, email).Some? && r.state.users.Keys == s.users.Keys
    ensures var u := FindByEmail(s, email).value;
      && r.state.users[u].failedLoginAttempts == 0 && r.state.users[u].lockedUntil == None
      && r.state.users[u].lastLoginAt == Some(s.now)
      && SameButLock(s.users[u], r.state.users[u].(lastLoginAt := s.users[u].lastLoginAt))
      && (forall v :: v in s.users && v != u ==> r.state.users[v] == s.users[v])
  {
  }

  /** Any other failing attempt leaves every user row alone. */
  lemma OtherFailuresKeepRows(c: Config, s: State, email: string, password: string, r: Reply)
    requires r == Login(c, s, email, password) && !r.outcome.Tokens?
    requires FindByEmail(s, email).Some? ==> !WrongGuess(s, email, password, FindByEmail(s, email).value)
    ensures r.state == s
  {
  }

  lemma IssuedKeepsOthers(c: Config, s: State, id: Id, r: Reply, u: Id)
    requires LoginIssued(c, s, id, r) && u in s.users && u != id
    ensures u in r.state.users && r.state.users[u] == s.users[u]
  {
    IssueAdds(c, PutUser(s, id, LoginReset(s.users[id], s.now)), id, IdentityOf(s.users[id]), r.state);
  }

  lemma LoginKeepsOthers(c: Config, s: State, email: string, password: string, r: Reply, u: Id)
    requires u in s.users && FindByEmail(s, email) != Some(u) && r == Login(c, s, email, password)
    ensures u in r.state.users && r.state.users[u] == s.users[u]
  {
    LoginCases(c, s, email, password, r);
    if FindByEmail(s, email).Some? && LoginIssued(c, s, FindByEmail(s, email).value, r) {
      IssuedKeepsOthers(c, s, FindByEmail(s, email).value, r, u);
    }
  }

  lemma ForceKeepsOthers(s: State, id: Id, adminId: Id, password: string, u: Id)
    requires u in s.users && (u != id || ForceActivate(s, id, adminId, password).outcome.Fail?)
    ensures u in ForceActivate(s, id, adminId, password).state.users
    ensures ForceActivate(s, id, adminId, password).state.users[u] == s.users[u]
  {
  }

  // ---- The bound ----

  /** Wrong guesses allowed in a window: one round of attempts, and one more for every whole lock duration. */
  function Allowance(c: Config, window: nat): nat
    requires c.lockMs >= 1
    decreases window
  {
    c.maxAttempts + if window < c.lockMs then 0 else Allowance(c, window - c.lockMs)
  }

  lemma {:induction false} AllowanceGrows(c: Config, w: nat, w': nat)
    requires c.lockMs >= 1 && w <= w'
    ensures Allowance(c, w) <= Allowance(c, w')
    decreases w
  {
    if w >= c.lockMs {
      AllowanceGrows(c, w - c.lockMs, w' - c.lockMs);
    }
  }

  lemma MulMonotone(m: nat, n: nat, d: nat)
    requires m <= n
    ensures m * d <= n * d
  {
  }

  lemma MulApart(n: int, d: nat)
    requires n != 0
    ensures n * d >= d || n * d + d <= 0
  {
    if n > 0 {
      MulMonotone(1, n, d);
    } else {
      MulMonotone(1, -n, d);
      assert -n * d == -(n * d);
    }
  }

  lemma DivStep(w: nat, d: nat)
    requires 1 <= d <= w
    ensures (w - d) / d == w / d - 1
  {
    var p, q := (w - d) / d, w / d - 1;
    assert p * d <= w - d < p * d + d;
    assert (q + 1) * d <= w < (q + 1) * d + d && (q + 1) * d == q * d + d;
    assert (p - q) * d == p * d - q * d;
    if p - q != 0 {
      MulApart(p - q, d);
    }
  }

  lemma MulStep(m: nat, n: nat)
    ensures m * (n + 1) == m + m * n
  {
  }

  /** In closed form: maxAttempts * (T / lockMs + 1). */
  lemma {:induction false} AllowanceClosed(c: Config, window: nat)
    requires c.lockMs >= 1
    ensures Allowance(c, window) == c.maxAttempts * (window / c.lockMs + 1)
    decreases window
  {
    if window >= c.lockMs {
      AllowanceClosed(c, window - c.lockMs);
      DivStep(window, c.lockMs);
      MulStep(c.maxAttempts, window / c.lockMs);
    } else {
      assert window / c.lockMs == 0;
    }
  }

  /**
   * The accounting after `g` wrong guesses since `t0`, `paid` of which ended in a lock: what was paid fits the window
   * up to the start of the last lock, and the attempts counted since were made after it ended.
   */
  ghost predicate Accounted(c: Config, u: User, now: nat, t0: nat, g: nat, paid: nat)
    requires c.lockMs >= 1
  {
    && t0 <= now
    && g <= paid + u.failedLoginAttempts
    && (paid > 0 ==> u.lockedUntil.Some? && t0 + c.lockMs <= u.lockedUntil.value <= now + c.lockMs)
    && (paid > 0 ==> paid <= Allowance(c, u.lockedUntil.value - c.lockMs - t0))
    && (paid > 0 && u.failedLoginAttempts > 0 ==> u.lockedUntil.value <= now)
  }

  lemma AccountedFits(c: Config, u: User, now: nat, t0: nat, g: nat, paid: nat)
    requires ValidConfig(c) && u.failedLoginAttempts < c.maxAttempts && Accounted(c, u, now, t0, g, paid)
    ensures g <= Allowance(c, now - t0)
  {
    if paid > 0 {
      var end := u.lockedUntil.value;
      AllowanceGrows(c, (if u.failedLoginAttempts > 0 then end else end - c.lockMs) - t0, now - t0);
    }
  }

  lemma CountKeepsAccount(c: Config, u: User, now: nat, t0: nat, g: nat, paid: nat) returns (paid': nat)
    requires ValidConfig(c) && u.failedLoginAttempts < c.maxAttempts && !Locked(u, now)
    requires Accounted(c, u, now, t0, g, paid)
    ensures Accounted(c, CountFailure(c, u, now), now, t0, g + 1, paid')
  {
    paid' := paid;
    if u.failedLoginAttempts + 1 >= c.maxAttempts {
      paid' := paid + c.maxAttempts;
      if paid > 0 {
        AllowanceGrows(c, u.lockedUntil.value - t0, now - t0);
      }
    }
  }

  /** At most as many guesses as the window from `t0` to `now` allows. */
  ghost predicate Fits(c: Config, t0: nat, now: nat, g: nat)
    requires c.lockMs >= 1
  {
    t0 <= now && g <= Allowance(c, now - t0)
  }

  /** The total fits the window so far, and while the user exists the account adds up. */
  ghost predicate Bounded(c: Config, s: State, u: Id, t0: nat, g: nat, paid: nat)
    requires c.lockMs >= 1
  {
    && u < s.nextId && Fits(c, t0, s.now, g)
    && (u in s.users ==> Accounted(c, s.users[u], s.now, t0, g, paid))
  }

  /** What one step may do to the row of a user whose counter it does not clear. */
  ghost predicate RowStep(c: Config, s: State, s': State, u: Id, guessed: bool) {
    && s.now <= s'.now && s.nextId <= s'.nextId
    && (guessed ==> u in s.users && !Locked(s.users[u], s.now) && s'.now == s.now)
    && (u in s'.users && u < s.nextId ==> u in s.users)
    && (u in s'.users && u in s.users ==>
          if guessed then s'.users[u] == CountFailure(c, s.users[u], s.now) else LockKept(s.users[u], s'.users[u]))
  }

  lemma OtherCallOnRow(c: Config, s: State, op: Op, s': State, u: Id)
    requires UserIdsBelow(s.users, s.nextId) && !op.DoLogin? && !op.DoForceActivate? && s' == Step(c, s, op).state
    ensures RowStep(c, s, s', u, false)
  {
    StepMoves(c, s, op, s');
    StepKeepsLocks(c, s, op, s');
  }

  lemma ForceOnRow(c: Config, s: State, id: Id, adminId: Id, password: string, u: Id)
    requires u == id ==> ForceActivate(s, id, adminId, password).outcome.Fail?
    ensures RowStep(c, s, ForceActivate(s, id, adminId, password).state, u, false)
  {
    if u in s.users {
      ForceKeepsOthers(s, id, adminId, password, u);
    }
  }

  lemma GuessOnRow(c: Config, s: State, email: string, password: string, r: Reply, u: Id)
    requires UserIdsBelow(s.users, s.nextId) && r == Login(c, s, email, password)
    requires FindByEmail(s, email) == Some(u) ==> !r.outcome.Tokens?
    ensures RowStep(c, s, r.state, u, WrongGuess(s, email, password, u))
  {
    LoginMoves(c, s, email, password, r);
    if u in s.users {
      LoginOnRow(c, s, email, password, r, u);
    }
  }

  lemma StepOnRow(c: Config, s: State, op: Op, s': State, u: Id)
    requires UserIdsBelow(s.users, s.nextId) && !Clears(c, s, op, u) && s' == Step(c, s, op).state
    ensures RowStep(c, s, s', u, GuessesWrong(s, op, u))
  {
    if op.DoLogin? {
      GuessOnRow(c, s, op.email, op.password, Step(c, s, op), u);
    } else if op.DoForceActivate? {
      ForceOnRow(c, s, op.userId, op.adminId, op.password, u);
    } else {
      OtherCallOnRow(c, s, op, s', u);
    }
  }

  lemma LoginOnRow(c: Config, s: State, email: string, password: string, r: Reply, u: Id)
    requires u in s.users && r == Login(c, s, email, password)
    requires FindByEmail(s, email) == Some(u) ==> !r.outcome.Tokens?
    ensures u in r.state.users
    ensures r.state.users[u] ==
      if WrongGuess(s, email, password, u) then CountFailure(c, s.users[u], s.now) else s.users[u]
  {
    if FindByEmail(s, email) != Some(u) {
      LoginKeepsOthers(c, s, email, password, r, u);
    } else if WrongGuess(s, email, password, u) {
      WrongGuessIsCounted(c, s, email, password, r, u);
    } else {
      OtherFailuresKeepRows(c, s, email, password, r);
    }
  }

  lemma StepBounded(c: Config, s: State, s': State, u: Id, guessed: bool, t0: nat, g: nat, paid: nat)
    returns (paid': nat)
    requires ValidConfig(c) && AttemptsBelowLimit(c, s.users)
    requires RowStep(c, s, s', u, guessed) && Bounded(c, s, u, t0, g, paid)
    ensures Bounded(c, s', u, t0, g + if guessed then 1 else 0, paid')
  {
    paid' := paid;
    if guessed {
      paid' := CountKeepsAccount(c, s.users[u], s.now, t0, g, paid);
      AccountedFits(c, CountFailure(c, s.users[u], s.now), s.now, t0, g + 1, paid');
    } else {
      AllowanceGrows(c, s.now - t0, s'.now - t0);
    }
  }

  /**
   * From any reachable state on, as long as nobody logs in to the account and no administrator force-activates it,
   * at most Allowance(T) wrong passwords are compared within T milliseconds.
   */
  lemma {:induction false} LockoutBound(c: Config, s: State, ops: seq<Op>, u: Id) returns (paid: nat)
    requires Valid(c, s) && u in s.users && NeverCleared(c, s, ops, u)
    ensures Bounded(c, Run(c, s, ops), u, s.now, WrongGuesses(c, s, ops, u), paid)
    ensures Fits(c, s.now, Run(c, s, ops).now, WrongGuesses(c, s, ops, u))
  {
    if ops == [] {
      paid := 0;
    } else {
      var init := ops[..|ops| - 1];
      paid := LockoutBound(c, s, init, u);
      RunValid(c, s, init);
      var mid, op := Run(c, s, init), ops[|ops| - 1];
      StepOnRow(c, mid, op, Run(c, s, ops), u);
      paid := StepBounded(
        c, mid, Run(c, s, ops), u, GuessesWrong(mid, op, u), s.now, WrongGuesses(c, s, init, u), paid);
    }
  }

  /** In every run each counter is below the limit at every step boundary. */
  lemma AttemptsStayBelow(c: Config, ops: seq<Op>, u: Id)
    requires ValidConfig(c) && u in Run(c, Init, ops).users
    ensures Run(c, Init, ops).users[u].failedLoginAttempts < c.maxAttempts
  {
    InitValid(c);
    RunValid(c, Init, ops);
  }

  // ---- The bound is reached ----

  /** An open account, and a password that is not its own. */
  ghost predicate Target(s: State, u: Id, email: string, wrong: string) {
    && FindByEmail(s, email) == Some(u) && (s.users[u].isVerified ==> s.users[u].isActive)
    && !Passwords.Compare(wrong, s.users[u].passwordHash)
  }

  /** The run so far cleared nothing, made `g` wrong guesses and ended in `s'`. */
  ghost predicate Guessed(c: Config, s: State, ops: seq<Op>, u: Id, g: nat, s': State) {
    NeverCleared(c, s, ops, u) && WrongGuesses(c, s, ops, u) == g && Run(c, s, ops) == s'
  }

  lemma GuessedSnoc(c: Config, s: State, ops: seq<Op>, u: Id, g: nat, mid: State, op: Op)
    requires Guessed(c, s, ops, u, g, mid) && !Clears(c, mid, op, u)
    ensures Guessed(c, s, ops + [op], u, g + if GuessesWrong(mid, op, u) then 1 else 0, Step(c, mid, op).state)
  {
    assert (ops + [op])[..|ops|] == ops;
  }

  /** The state after one more wrong guess. */
  function AfterGuess(c: Config, s: State, u: Id): State
    requires u in s.users
  {
    PutUser(s, u, CountFailure(c, s.users[u], s.now))
  }

  lemma GuessEffect(c: Config, s: State, u: Id, email: string, wrong: string)
    requires Target(s, u, email, wrong) && !Locked(s.users[u], s.now)
    ensures !Clears(c, s, DoLogin(email, wrong), u) && GuessesWrong(s, DoLogin(email, wrong), u)
    ensures Step(c, s, DoLogin(email, wrong)).state == AfterGuess(c, s, u)
  {
    WrongGuessIsCounted(c, s, email, wrong, Login(c, s, email, wrong), u);
  }

  lemma TargetStays(c: Config, s: State, u: Id, email: string, wrong: string)
    requires Target(s, u, email, wrong)
    ensures Target(AfterGuess(c, s, u), u, email, wrong)
  {
  }

  lemma GuessOnce(c: Config, s: State, ops: seq<Op>, u: Id, g: nat, mid: State, email: string, wrong: string)
    requires Guessed(c, s, ops, u, g, mid) && Target(mid, u, email, wrong) && !Locked(mid.users[u], mid.now)
    ensures Guessed(c, s, ops + [DoLogin(email, wrong)], u, g + 1, AfterGuess(c, mid, u))
  {
    GuessEffect(c, mid, u, email, wrong);
    GuessedSnoc(c, s, ops, u, g, mid, DoLogin(email, wrong));
  }

  lemma WaitOnce(c: Config, s: State, ops: seq<Op>, u: Id, g: nat, mid: State, ms: nat)
    requires Guessed(c, s, ops, u, g, mid)
    ensures Guessed(c, s, ops + [Tick(ms)], u, g, mid.(now := mid.now + ms))
  {
    GuessedSnoc(c, s, ops, u, g, mid, Tick(ms));
  }

  ghost predicate Counter(s: State, u: Id, attempts: nat) {
    u in s.users && s.users[u].failedLoginAttempts == attempts && !Locked(s.users[u], s.now)
  }

  ghost predicate JustLocked(c: Config, s: State, u: Id) {
    u in s.users && s.users[u].failedLoginAttempts == 0 && s.users[u].lockedUntil == Some(s.now + c.lockMs)
  }

  lemma GuessCounts(c: Config, s: State, u: Id, attempts: nat)
    requires Counter(s, u, attempts) && attempts < c.maxAttempts
    ensures AfterGuess(c, s, u).now == s.now
    ensures if attempts + 1 ==
      c.maxAttempts then JustLocked(c, AfterGuess(c, s, u), u) else Counter(AfterGuess(c, s, u), u, attempts + 1)
  {
  }

  /** `left` more guesses in a row lock the account. */
  lemma {:induction false} Round(c: Config, s: State, ops: seq<Op>, u: Id, g: nat, mid: State,
      email: string, wrong: string, left: nat)
    returns (ops': seq<Op>, s': State)
    requires Guessed(c, s, ops, u, g, mid) && Target(mid, u, email, wrong)
    requires 1 <= left <= c.maxAttempts && Counter(mid, u, c.maxAttempts - left)
    ensures Guessed(c, s, ops', u, g + left, s') && Target(s', u, email, wrong)
    ensures s'.now == mid.now && JustLocked(c, s', u)
    decreases left
  {
    GuessOnce(c, s, ops, u, g, mid, email, wrong);
    TargetStays(c, mid, u, email, wrong);
    GuessCounts(c, mid, u, c.maxAttempts - left);
    ops', s' := ops + [DoLogin(email, wrong)], AfterGuess(c, mid, u);
    if left > 1 {
      ops', s' := Round(c, s, ops', u, g + 1, s', email, wrong, left - 1);
    }
  }

  lemma LockEnds(c: Config, s: State, u: Id, email: string, wrong: string)
    requires JustLocked(c, s, u) && Target(s, u, email, wrong)
    ensures Counter(s.(now := s.now + c.lockMs), u, 0) && Target(s.(now := s.now + c.lockMs), u, email, wrong)
  {
  }

  /** `n` lock durations. */
  function Locks(c: Config, n: nat): nat { if n == 0 then 0 else Locks(c, n - 1) + c.lockMs }

  lemma AllowanceOfLocks(c: Config, n: nat)
    requires c.lockMs >= 1
    ensures Allowance(c, Locks(c, n)) == c.maxAttempts + if n == 0 then 0 else Allowance(c, Locks(c, n - 1))
  {
  }

  /** After `n` locks have passed since `s` the whole allowance is used up and the account is locked again. */
  ghost predicate UsedUp(c: Config, s: State, ops: seq<Op>, u: Id, n: nat, s': State)
    requires c.lockMs >= 1
  {
    && Guessed(c, s, ops, u, Allowance(c, Locks(c, n)), s')
    && s'.now == s.now + Locks(c, n) && JustLocked(c, s', u)
  }

  lemma FirstRound(c: Config, s: State, u: Id, email: string, wrong: string) returns (ops: seq<Op>, s': State)
    requires ValidConfig(c) && Target(s, u, email, wrong) && Counter(s, u, 0)
    ensures UsedUp(c, s, ops, u, 0, s') && Target(s', u, email, wrong)
  {
    AllowanceOfLocks(c, 0);
    ops, s' := Round(c, s, [], u, 0, s, email, wrong, c.maxAttempts);
  }

  lemma NextRound(c: Config, s: State, ops: seq<Op>, u: Id, n: nat, mid: State, email: string, wrong: string)
    returns (ops': seq<Op>, s': State)
    requires ValidConfig(c) && UsedUp(c, s, ops, u, n, mid) && Target(mid, u, email, wrong)
    ensures UsedUp(c, s, ops', u, n + 1, s') && Target(s', u, email, wrong)
  {
    var g := Allowance(c, Locks(c, n));
    AllowanceOfLocks(c, n + 1);
    WaitOnce(c, s, ops, u, g, mid, c.lockMs);
    LockEnds(c, mid, u, email, wrong);
    ops', s' := Round(c, s, ops + [Tick(c.lockMs)], u, g, mid.(now := mid.now + c.lockMs), email, wrong, c.maxAttempts);
  }

  /**
   * Guessing a full round at once, and again whenever a lock ends, makes exactly as many guesses as the bound allows.
   */
  lemma {:induction false} BoundReached(c: Config, s: State, u: Id, email: string, wrong: string, n: nat)
    returns (ops: seq<Op>, s': State)
    requires ValidConfig(c) && Target(s, u, email, wrong) && Counter(s, u, 0)
    ensures UsedUp(c, s, ops, u, n, s') && Target(s', u, email, wrong)
  {
    if n == 0 {
      ops, s' := FirstRound(c, s, u, email, wrong);
    } else {
      ops, s' := BoundReached(c, s, u, email, wrong, n - 1);
      ops, s' := NextRound(c, s, ops, u, n - 1, s', email, wrong);
    }
  }
}
