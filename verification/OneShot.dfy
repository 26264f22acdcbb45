/** Email-verification and password-reset tokens: one table shape, used twice. */
module OneShot {
  import opened Basics

  /** Rows are found by the hash of the raw token. */
  datatype Row = Row(userId: Id, expiresAt: nat, isUsed: bool)

  type Table = map<Digest<Id>, Row>

  predicate Unused(t: Table, h: Digest<Id>, userId: Id) {
    h in t && t[h].userId == userId && !t[h].isUsed
  }

  function InvalidateAll(t: Table, userId: Id): Table {
    map h | h in t :: if t[h].userId == userId then t[h].(isUsed := true) else t[h]
  }

  /** Issuing a token first retires every earlier one of the same user. */
  function Create(t: Table, userId: Id, raw: Id, expiresAt: nat): Table {
    InvalidateAll(t, userId)[Sha256(raw) := Row(userId, expiresAt, false)]
  }

  function Check(t: Table, raw: Id, now: nat): Result<Id> {
    var h := Sha256(raw);
    if h !in t || t[h].isUsed then Err(AuthenticationError)
    else if t[h].expiresAt < now then Err(AuthenticationError)
    else Ok(t[h].userId)
  }

  function Spend(t: Table, raw: Id): Table {
    var h := Sha256(raw);
    if h in t then t[h := t[h].(isUsed := true)] else t
  }

  function ForgetUser(t: Table, userId: Id): Table {
    map h | h in t && t[h].userId != userId :: t[h]
  }

  // ---- Properties of the table ----

  ghost predicate AtMostOneUnused(t: Table) {
    forall h, h', u :: Unused(t, h, u) && Unused(t, h', u) ==> h == h'
  }

  /** A token that was drawn before and can never be accepted again. */
  predicate Dead(t: Table, raw: Id) {
    Sha256(raw) !in t || t[Sha256(raw)].isUsed
  }

  /** Rows only move from unused to used, are deleted, or are added under a raw token not below `bound`. */
  ghost predicate Ages(t: Table, t': Table, bound: Id) {
    && (forall h :: h in t && h in t' ==>
          t'[h].userId == t[h].userId && t'[h].expiresAt == t[h].expiresAt && (t[h].isUsed ==> t'[h].isUsed))
    && (forall h :: h in t' && h !in t ==> h.preimage >= bound)
  }

  lemma CreateKeepsOne(t: Table, userId: Id, raw: Id, expiresAt: nat)
    requires AtMostOneUnused(t) && Sha256(raw) !in t
    ensures AtMostOneUnused(Create(t, userId, raw, expiresAt))
    ensures Ages(t, Create(t, userId, raw, expiresAt), raw)
    ensures forall other :: other != raw && Sha256(other) in t && t[Sha256(other)].userId == userId ==>
      Dead(Create(t, userId, raw, expiresAt), other)
  {
    var t' := Create(t, userId, raw, expiresAt);
    forall h, h', u | Unused(t', h, u) && Unused(t', h', u) ensures h == h' {
      if u != userId {
        assert Unused(t, h, u) && Unused(t, h', u);
      }
    }
  }

  lemma ShrinkingKeepsOne(t: Table, t': Table)
    requires AtMostOneUnused(t)
    requires forall h, u :: Unused(t', h, u) ==> Unused(t, h, u)
    ensures AtMostOneUnused(t')
  {
  }
}
