/** Email-verification and password-reset tokens over whole runs. */
module OneShotRuns {
  import opened Basics
  import opened Session
  import opened SessionInvariant
  import opened OneShot
  import Passwords

  /** The two kinds of one-shot token share every property below. */
  datatype Kind = Verification | PasswordReset

  function TableOf(s: State, kind: Kind): Table {
    if kind.Verification? then s.emailTokens else s.resetTokens
  }

  /** Presenting this raw token now would be accepted. */
  predicate Works(s: State, kind: Kind, raw: Id) {
    Check(TableOf(s, kind), raw, s.now).Ok?
  }

  /** Drawn before now, and used or deleted. */
  predicate Finished(s: State, kind: Kind, raw: Id) {
    raw < s.nextId && Dead(TableOf(s, kind), raw)
  }

  lemma MoveKeepsFinished(s: State, s': State, kind: Kind, raw: Id)
    requires RawsBelow(s.emailTokens, s.nextId) && RawsBelow(s.resetTokens, s.nextId)
    requires Finished(s, kind, raw) && Moves(s, s')
    ensures Finished(s', kind, raw)
  {
  }

  /** A used or deleted token never works again. */
  lemma {:induction false} FinishedForever(c: Config, s: State, ops: seq<Op>, kind: Kind, raw: Id)
    requires Valid(c, s) && Finished(s, kind, raw)
    ensures Finished(Run(c, s, ops), kind, raw) && !Works(Run(c, s, ops), kind, raw)
  {
    if ops == [] {
    } else {
      var init := ops[..|ops| - 1];
      FinishedForever(c, s, init, kind, raw);
      RunValid(c, s, init);
      StepMoves(c, Run(c, s, init), ops[|ops| - 1], Run(c, s, ops));
      MoveKeepsFinished(Run(c, s, init), Run(c, s, ops), kind, raw);
    }
  }

  /** The call that presents a token of this kind; the password only matters for a reset. */
  function Present(kind: Kind, raw: Id, password: string): Op {
    if kind.Verification? then DoVerifyEmail(raw) else DoReset(raw, password)
  }

  /** A presented token counts as consumed when its row was found good, even if the call then fails. */
  predicate Consumes(s: State, kind: Kind, raw: Id, password: string) {
    Works(s, kind, raw) && (kind.PasswordReset? ==> Passwords.Strong(password))
  }

  lemma VerifyFinishes(c: Config, s: State, raw: Id, s': State)
    requires Works(s, Verification, raw) && s' == Step(c, s, DoVerifyEmail(raw)).state
    ensures s'.emailTokens == Spend(s.emailTokens, raw)
  {
  }

  lemma ResetFinishes(c: Config, s: State, raw: Id, password: string, s': State)
    requires Consumes(s, PasswordReset, raw, password) && s' == Step(c, s, DoReset(raw, password)).state
    ensures s'.resetTokens == Spend(s.resetTokens, raw)
  {
  }

  lemma ConsumeFinishes(c: Config, s: State, kind: Kind, raw: Id, password: string, s': State)
    requires RawsBelow(s.emailTokens, s.nextId) && RawsBelow(s.resetTokens, s.nextId)
    requires Consumes(s, kind, raw, password) && s' == Step(c, s, Present(kind, raw, password)).state
    ensures Finished(s', kind, raw)
  {
    StepMoves(c, s, Present(kind, raw, password), s');
    if kind.Verification? {
      VerifyFinishes(c, s, raw, s');
    } else {
      ResetFinishes(c, s, raw, password, s');
    }
  }

  /** A token is consumed at most once, and never later than the expiry it was issued with. */
  lemma ConsumedOnce(c: Config, s: State, kind: Kind, raw: Id, password: string, s': State, ops: seq<Op>)
    requires Valid(c, s) && Consumes(s, kind, raw, password) && s' == Step(c, s, Present(kind, raw, password)).state
    ensures s.now <= TableOf(s, kind)[Sha256(raw)].expiresAt
    ensures !Works(Run(c, s', ops), kind, raw)
  {
    ConsumeFinishes(c, s, kind, raw, password, s');
    StepValid(c, s, Present(kind, raw, password), s');
    FinishedForever(c, s', ops, kind, raw);
  }

  // ---- Expiry is fixed at issue ----

  /** The row is finished, or still carries this owner and expiry. */
  ghost predicate Fixed(s: State, kind: Kind, raw: Id, userId: Id, expiresAt: nat) {
    && raw < s.nextId
    && (Sha256(raw) in TableOf(s, kind) ==>
        TableOf(s, kind)[Sha256(raw)].userId == userId && TableOf(s, kind)[Sha256(raw)].expiresAt == expiresAt)
  }

  lemma MoveKeepsFixed(s: State, s': State, kind: Kind, raw: Id, userId: Id, expiresAt: nat)
    requires RawsBelow(s.emailTokens, s.nextId) && RawsBelow(s.resetTokens, s.nextId)
    requires Fixed(s, kind, raw, userId, expiresAt) && Moves(s, s')
    ensures Fixed(s', kind, raw, userId, expiresAt)
  {
  }

  lemma {:induction false} FixedForever(c: Config, s: State, ops: seq<Op>, kind: Kind, raw: Id,
      userId: Id, expiresAt: nat)
    requires Valid(c, s) && Fixed(s, kind, raw, userId, expiresAt)
    ensures Fixed(Run(c, s, ops), kind, raw, userId, expiresAt)
  {
    if ops == [] {
    } else {
      var init := ops[..|ops| - 1];
      FixedForever(c, s, init, kind, raw, userId, expiresAt);
      RunValid(c, s, init);
      StepMoves(c, Run(c, s, init), ops[|ops| - 1], Run(c, s, ops));
      MoveKeepsFixed(Run(c, s, init), Run(c, s, ops), kind, raw, userId, expiresAt);
    }
  }

  /** If the raw token works now, it does so for this user, and the deadline has not passed. */
  ghost predicate WorksOnlyFor(s: State, kind: Kind, raw: Id, userId: Id, deadline: nat) {
    Works(s, kind, raw) ==> s.now <= deadline && Check(TableOf(s, kind), raw, s.now) == Ok(userId)
  }

  lemma FixedMeans(s: State, kind: Kind, raw: Id, userId: Id, expiresAt: nat)
    requires Fixed(s, kind, raw, userId, expiresAt)
    ensures WorksOnlyFor(s, kind, raw, userId, expiresAt)
  {
  }

  // ---- Issue ----

  function IssuingOp(kind: Kind, email: string): Op {
    if kind.Verification? then DoResend(email) else DoForgot(email)
  }

  function Lifetime(kind: Kind): nat {
    if kind.Verification? then 24 * 60 * 60 * 1000 else 60 * 60 * 1000
  }

  /** The call mailed a new token of this kind to this user. */
  ghost predicate Mails(s: State, kind: Kind, userId: Id, r: Reply) {
    && r.outcome.Mailed? && r.outcome.raw == s.nextId && r.state.nextId == s.nextId + 1
    && TableOf(r.state, kind) == Create(TableOf(s, kind), userId, s.nextId, s.now + Lifetime(kind))
  }

  lemma IssueShapes(c: Config, s: State, kind: Kind, email: string, r: Reply)
    requires r == Step(c, s, IssuingOp(kind, email)) && r.outcome.Mailed?
    ensures FindByEmail(s, email).Some? && Mails(s, kind, FindByEmail(s, email).value, r)
  {
    if kind.Verification? {
      assert r == ResendVerification(s, email);
    } else {
      assert r == ForgotPassword(s, email);
    }
  }

  lemma MailedIsFixed(s: State, kind: Kind, userId: Id, r: Reply)
    requires Mails(s, kind, userId, r)
    ensures Fixed(r.state, kind, r.outcome.raw, userId, s.now + Lifetime(kind))
  {
  }

  /** The mailed token, if it ever works later, works for the user it was mailed to and within its lifetime. */
  lemma WorksWithinLifetime(c: Config, s: State, kind: Kind, email: string, r: Reply, ops: seq<Op>)
    requires Valid(c, s) && r == Step(c, s, IssuingOp(kind, email)) && r.outcome.Mailed?
    ensures FindByEmail(s, email).Some?
    ensures WorksOnlyFor(Run(c, r.state, ops), kind, r.outcome.raw, FindByEmail(s, email).value, s.now + Lifetime(kind))
  {
    IssueShapes(c, s, kind, email, r);
    MailedIsFixed(s, kind, FindByEmail(s, email).value, r);
    StepValid(c, s, IssuingOp(kind, email), r.state);
    FixedForever(c, r.state, ops, kind, r.outcome.raw, FindByEmail(s, email).value, s.now + Lifetime(kind));
    FixedMeans(Run(c, r.state, ops), kind, r.outcome.raw, FindByEmail(s, email).value, s.now + Lifetime(kind));
  }

  lemma RegisterMails(c: Config, s: State, email: string, password: string, r: Reply)
    requires r == Register(c, s, email, password) && r.outcome.Created?
    ensures r.outcome.mailed.Some?
    ensures Fixed(r.state, Verification, r.outcome.mailed.value, r.outcome.id, s.now + EMAIL_VERIFICATION_MS)
  {
  }

  /** The same for the token mailed at registration. */
  lemma RegistrationTokenWithinLifetime(c: Config, s: State, email: string, password: string, r: Reply, ops: seq<Op>)
    requires Valid(c, s) && r == Register(c, s, email, password) && r.outcome.Created?
    ensures r.outcome.mailed.Some?
    ensures WorksOnlyFor(
      Run(c, r.state, ops), Verification, r.outcome.mailed.value, r.outcome.id, s.now + EMAIL_VERIFICATION_MS)
  {
    RegisterMails(c, s, email, password, r);
    RegisterValid(c, s, email, password);
    var raw, deadline := r.outcome.mailed.value, s.now + EMAIL_VERIFICATION_MS;
    FixedForever(c, r.state, ops, Verification, raw, r.outcome.id, deadline);
    FixedMeans(Run(c, r.state, ops), Verification, raw, r.outcome.id, deadline);
  }

  lemma MailingFinishes(s: State, kind: Kind, userId: Id, r: Reply, older: Id)
    requires Mails(s, kind, userId, r) && RawsBelow(TableOf(s, kind), s.nextId)
    requires Sha256(older) in TableOf(s, kind) && TableOf(s, kind)[Sha256(older)].userId == userId
    ensures Finished(r.state, kind, older)
  {
  }

  /** Mailing a new token supersedes the user's earlier ones of that kind: none of them ever works again. */
  lemma SupersededNeverWorks(c: Config, s: State, kind: Kind, email: string, r: Reply, older: Id, ops: seq<Op>)
    requires Valid(c, s) && r == Step(c, s, IssuingOp(kind, email)) && r.outcome.Mailed?
    requires Sha256(older) in TableOf(s, kind) && TableOf(s, kind)[Sha256(older)].userId == FindByEmail(s, email).value
    ensures !Works(Run(c, r.state, ops), kind, older)
  {
    IssueShapes(c, s, kind, email, r);
    MailingFinishes(s, kind, FindByEmail(s, email).value, r, older);
    StepValid(c, s, IssuingOp(kind, email), r.state);
    FinishedForever(c, r.state, ops, kind, older);
  }

  /** At every step boundary of every run a user has at most one unused token of each kind. */
  lemma AtMostOneUnusedEach(c: Config, ops: seq<Op>, kind: Kind, userId: Id, h1: Digest<Id>, h2: Digest<Id>)
    requires ValidConfig(c)
    requires Unused(TableOf(Run(c, Init, ops), kind), h1, userId)
    requires Unused(TableOf(Run(c, Init, ops), kind), h2, userId)
    ensures h1 == h2
  {
    InitValid(c);
    RunValid(c, Init, ops);
  }
}
