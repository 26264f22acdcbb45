/** Password hashes, strength, and the per-user history that is meant to stop reuse. */
module Passwords {
  import opened Basics

  /**
   * A bcrypt hash: comparison looks at the password, the salt makes every hash distinct. The hash of a random token
   * that nobody was given matches no password.
   */
  datatype Hash = Bcrypt(password: string, salt: Id) | Unusable(salt: Id)

  predicate Compare(password: string, hash: Hash) { hash.Bcrypt? && hash.password == password }

  const MIN_LENGTH: nat := 8
  const MAX_LENGTH: nat := 128
  const SPECIAL_CHARS: string := "@$!%*?&"

  predicate Strong(password: string) {
    && MIN_LENGTH <= |password| <= MAX_LENGTH
    && (exists c :: c in password && 'A' <= c <= 'Z')
    && (exists c :: c in password && 'a' <= c <= 'z')
    && (exists c :: c in password && '0' <= c <= '9')
    && (exists c :: c in password && c in SPECIAL_CHARS)
  }

  /** A PasswordHistory row; a user's rows are kept in creation order. */
  datatype Row = Row(hash: Hash, createdAt: nat)

  ghost predicate InCreationOrder(rows: seq<Row>) {
    forall i, j :: 0 <= i < j < |rows| ==> rows[i].createdAt < rows[j].createdAt
  }

  function Prefix<T>(xs: seq<T>, n: nat): seq<T> { if |xs| <= n then xs else xs[..n] }

  function Suffix<T>(xs: seq<T>, n: nat): seq<T> { if |xs| <= n then xs else xs[|xs| - n..] }

  /** Insert, then delete every row past the first `limit` in ascending creation order. */
  function AddHistory(rows: seq<Row>, hash: Hash, now: nat, limit: nat): seq<Row> {
    Prefix(rows + [Row(hash, now)], limit)
  }

  /** The newest `limit` rows first. */
  function NewestFirst(rows: seq<Row>, limit: nat): seq<Hash> {
    seq(|Suffix(rows, limit)|, i requires 0 <= i < |Suffix(rows, limit)| => rows[|rows| - 1 - i].hash)
  }

  predicate Reused(rows: seq<Row>, password: string, limit: nat) {
    exists h :: h in NewestFirst(rows, limit) && Compare(password, h)
  }

  /** The check made before a password change: compare with every retained hash in turn. */
  method EnforceHistory(rows: seq<Row>, password: string, limit: nat) returns (accepted: bool)
    ensures accepted <==> !Reused(rows, password, limit)
  {
    var history := NewestFirst(rows, limit);
    for i := 0 to |history|
      invariant forall j :: 0 <= j < i ==> !Compare(password, history[j])
    {
      if Compare(password, history[i]) {
        return false;
      }
    }
    return true;
  }

  lemma PrefixStep<T>(all: seq<T>, limit: nat, i: nat)
    requires i < |all|
    ensures Prefix(all[..i + 1], limit) == Prefix(all[..i], limit) + if i < limit then [all[i]] else []
  {
  }

  function From(a: nat, b: nat): seq<nat>
    requires a <= b
  {
    seq(b - a, i requires 0 <= i < b - a => a + i)
  }

  lemma FromMember(a: nat, b: nat, i: nat)
    requires a <= b && i < b
    ensures i in From(a, b) <==> i >= a
  {
    if i >= a {
      assert From(a, b)[i - a] == i;
    }
  }

  /**
   * Inserts the new row and deletes, by id, the rows found past the limit, as the transaction does; a row's id is its
   * place in the table, where rows stand in creation order.
   */
  method StoreHistory(rows: seq<Row>, hash: Hash, now: nat, limit: nat) returns (kept: seq<Row>)
    ensures kept == AddHistory(rows, hash, now, limit)
    ensures InCreationOrder(rows) && (forall r :: r in rows ==> r.createdAt < now) ==> InCreationOrder(kept)
  {
    var all := rows + [Row(hash, now)];
    kept := all;
    if |all| > limit {
      var excess := From(limit, |all|);
      kept := [];
      for id := 0 to |all|
        invariant kept == Prefix(all[..id], limit)
      {
        PrefixStep(all, limit, id);
        FromMember(limit, |all|, id);
        if id !in excess {
          kept := kept + [all[id]];
        }
      }
      assert all[..|all|] == all;
    }
  }

  // ---- What a run of additions retains ----

  /** All additions of one user, oldest first, under a fixed limit. */
  function Retained(added: seq<Row>, limit: nat): seq<Row> {
    if added == [] then []
    else
      var last := added[|added| - 1];
      AddHistory(Retained(added[..|added| - 1], limit), last.hash, last.createdAt, limit)
  }

  /** The history holds the first `limit` hashes ever added: once full it never changes again. */
  lemma {:induction false} RetainsOldest(added: seq<Row>, limit: nat)
    ensures Retained(added, limit) == Prefix(added, limit)
    ensures |Retained(added, limit)| <= limit
  {
    if added == [] {
    } else {
      var init, last := added[..|added| - 1], added[|added| - 1];
      RetainsOldest(init, limit);
      assert added == init + [last];
      assert Row(last.hash, last.createdAt) == last;
    }
  }

  /** The documented intent: the last `limit` hashes. */
  function Documented(added: seq<Row>, limit: nat): seq<Row> { Suffix(added, limit) }

  /** The code meets the documented intent exactly as long as no more than `limit` passwords were ever set. */
  lemma DocumentedIff(added: seq<Row>, limit: nat)
    requires limit >= 1 && InCreationOrder(added)
    ensures Retained(added, limit) == Documented(added, limit) <==> |added| <= limit
  {
    RetainsOldest(added, limit);
    if |added| > limit {
      assert Documented(added, limit)[0] == added[|added| - limit];
      assert Prefix(added, limit)[0] == added[0];
      assert added[0].createdAt < added[|added| - limit].createdAt;
    }
  }

  /** So a password set after the history filled up, and not among the first, is accepted again at once. */
  lemma LatePasswordReusable(added: seq<Row>, limit: nat, password: string)
    requires forall i :: 0 <= i < |added| && i < limit ==> !Compare(password, added[i].hash)
    ensures !Reused(Retained(added, limit), password, limit)
  {
    RetainsOldest(added, limit);
    var rows := Retained(added, limit);
    forall h | h in NewestFirst(rows, limit) ensures !Compare(password, h) {
      var i :| 0 <= i < |NewestFirst(rows, limit)| && NewestFirst(rows, limit)[i] == h;
      assert h == rows[|rows| - 1 - i].hash;
      assert rows[|rows| - 1 - i] == added[|rows| - 1 - i];
    }
  }

  /** An accepted password matches none of the retained hashes. */
  lemma AcceptedIsFresh(added: seq<Row>, limit: nat, password: string)
    requires !Reused(Retained(added, limit), password, limit)
    ensures forall r :: r in Retained(added, limit) ==> !Compare(password, r.hash)
  {
    RetainsOldest(added, limit);
    var rows := Retained(added, limit);
    forall r | r in rows ensures !Compare(password, r.hash) {
      var i :| 0 <= i < |rows| && rows[i] == r;
      assert NewestFirst(rows, limit)[|rows| - 1 - i] == r.hash;
    }
  }
}
