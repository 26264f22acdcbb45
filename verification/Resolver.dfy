/** How a user's feature list is computed: role features first, then per-user overrides, row by row. */
module Resolver {
  /** One UserFeature row joined to its feature's key. */
  datatype Override = Override(key: string, granted: bool)

  // A JavaScript Set keeps insertion order: it is a sequence without duplicates.

  ghost predicate NoDuplicates(xs: seq<string>) {
    forall i, j :: 0 <= i < j < |xs| ==> xs[i] != xs[j]
  }

  function Elements(xs: seq<string>): set<string> {
    set x | x in xs
  }

  function Add(xs: seq<string>, k: string): seq<string> {
    if k in xs then xs else xs + [k]
  }

  function Delete(xs: seq<string>, k: string): seq<string> {
    if xs == [] then []
    else if xs[0] == k then Delete(xs[1..], k)
    else [xs[0]] + Delete(xs[1..], k)
  }

  function FromList(ks: seq<string>): seq<string> {
    if ks == [] then [] else Add(FromList(ks[..|ks| - 1]), ks[|ks| - 1])
  }

  function ApplyOne(xs: seq<string>, o: Override): seq<string> {
    if o.granted then Add(xs, o.key) else Delete(xs, o.key)
  }

  function Apply(base: seq<string>, ovs: seq<Override>): seq<string> {
    if ovs == [] then base else ApplyOne(Apply(base, ovs[..|ovs| - 1]), ovs[|ovs| - 1])
  }

  /** The feature list of one user in one app. */
  function Features(base: seq<string>, ovs: seq<Override>): seq<string> {
    Apply(FromList(base), ovs)
  }

  // ---- What the loop over the override rows means ----

  lemma {:induction false} DeleteElements(xs: seq<string>, k: string)
    ensures forall x :: x in Delete(xs, k) <==> x in xs && x != k
    ensures NoDuplicates(xs) ==> NoDuplicates(Delete(xs, k))
  {
    if xs == [] {
    } else {
      DeleteElements(xs[1..], k);
      assert xs == [xs[0]] + xs[1..];
      if NoDuplicates(xs) {
        assert NoDuplicates(xs[1..]);
        assert xs[0] !in xs[1..];
      }
    }
  }

  /** Deleting a key commutes with adding another, and undoes adding the same. */
  lemma {:induction false} DeleteAdd(xs: seq<string>, k: string, x: string)
    ensures Delete(Add(xs, x), k) == if x == k then Delete(xs, k) else Add(Delete(xs, k), x)
  {
    DeleteElements(xs, k);
    if x !in xs {
      DeleteAppend(xs, [x], k);
      assert [x][1..] == [];
    } else if x == k {
    } else {
    }
  }

  lemma {:induction false} DeleteAppend(xs: seq<string>, ys: seq<string>, k: string)
    ensures Delete(xs + ys, k) == Delete(xs, k) + Delete(ys, k)
  {
    if xs == [] {
      assert xs + ys == ys;
    } else {
      assert (xs + ys)[1..] == xs[1..] + ys;
      DeleteAppend(xs[1..], ys, k);
    }
  }

  lemma {:induction false} DeleteCommutes(xs: seq<string>, j: string, k: string)
    ensures Delete(Delete(xs, j), k) == Delete(Delete(xs, k), j)
  {
    if xs == [] {
    } else {
      DeleteCommutes(xs[1..], j, k);
      if xs[0] != j && xs[0] != k {
        assert ([xs[0]] + Delete(xs[1..], j))[1..] == Delete(xs[1..], j);
        assert ([xs[0]] + Delete(xs[1..], k))[1..] == Delete(xs[1..], k);
      } else if xs[0] == j && xs[0] != k {
        assert ([xs[0]] + Delete(xs[1..], k))[1..] == Delete(xs[1..], k);
      } else if xs[0] == k && xs[0] != j {
        assert ([xs[0]] + Delete(xs[1..], j))[1..] == Delete(xs[1..], j);
      }
    }
  }

  lemma FromListSnoc(ks: seq<string>, k: string)
    ensures FromList(ks + [k]) == Add(FromList(ks), k)
  {
    assert (ks + [k])[..|ks|] == ks;
  }

  /** A key may be deleted before or after the list is made a set. */
  lemma {:induction false} FromListDelete(ks: seq<string>, k: string)
    ensures FromList(Delete(ks, k)) == Delete(FromList(ks), k)
  {
    if ks == [] {
    } else {
      var init, last := ks[..|ks| - 1], ks[|ks| - 1];
      assert ks == init + [last] && [last][1..] == [];
      FromListDelete(init, k);
      DeleteAppend(init, [last], k);
      DeleteAdd(FromList(init), k, last);
      if last == k {
        assert Delete(init, k) + [] == Delete(init, k);
      } else {
        FromListSnoc(Delete(init, k), last);
      }
    }
  }

  /** Deleting an absent key is deleting nothing. */
  lemma {:induction false} DeleteAbsent(xs: seq<string>, k: string)
    ensures k !in xs <==> Delete(xs, k) == xs
  {
    DeleteElements(xs, k);
    if k !in xs && xs != [] {
      DeleteAbsent(xs[1..], k);
    }
  }

  lemma {:induction false} FromListElements(ks: seq<string>)
    ensures forall x :: x in FromList(ks) <==> x in ks
    ensures NoDuplicates(FromList(ks))
  {
    if ks == [] {
    } else {
      var init := ks[..|ks| - 1];
      FromListElements(init);
      assert ks == init + [ks[|ks| - 1]];
    }
  }

  /** Row i decides key k: it is the last row on k. */
  predicate Decides(ovs: seq<Override>, i: nat, k: string)
    requires i < |ovs|
  {
    ovs[i].key == k && forall j :: i < j < |ovs| ==> ovs[j].key != k
  }

  predicate Mentions(ovs: seq<Override>, k: string) {
    exists i :: 0 <= i < |ovs| && ovs[i].key == k
  }

  /** A key is granted iff the last override on it grants it, or no override is on it and the role has it. */
  lemma {:induction false} LastOverrideWins(base: seq<string>, ovs: seq<Override>, k: string)
    ensures k in Features(base, ovs) <==>
      ((exists i :: 0 <= i < |ovs| && Decides(ovs, i, k) && ovs[i].granted) || (!Mentions(ovs, k) && k in base))
    ensures NoDuplicates(Features(base, ovs))
    decreases |ovs|
  {
    if ovs == [] {
      FromListElements(base);
    } else {
      var n := |ovs| - 1;
      var init := ovs[..n];
      var before := Features(base, init);
      LastOverrideWins(base, init, k);
      DeleteElements(before, ovs[n].key);
      if ovs[n].key == k {
        assert Decides(ovs, n, k);
      } else {
        assert Mentions(ovs, k) <==> Mentions(init, k) by {
          if Mentions(ovs, k) {
            var i :| 0 <= i < |ovs| && ovs[i].key == k;
            assert init[i].key == k;
          }
        }
        forall i | 0 <= i < n
          ensures Decides(init, i, k) <==> Decides(ovs, i, k)
        {
          if Decides(init, i, k) {
            forall j | i < j < |ovs| ensures ovs[j].key != k {
              if j < n { assert init[j].key != k; }
            }
          }
          if Decides(ovs, i, k) {
            forall j | i < j < n ensures init[j].key != k {
              assert ovs[j].key != k;
            }
          }
        }
      }
    }
  }

  // ---- Independence of the row order ----

  predicate DistinctKeys(ovs: seq<Override>) {
    forall i, j :: 0 <= i < j < |ovs| ==> ovs[i].key != ovs[j].key
  }

  /** No key is both granted and revoked. */
  predicate Consistent(ovs: seq<Override>) {
    forall i, j :: 0 <= i < |ovs| && 0 <= j < |ovs| && ovs[i].key == ovs[j].key ==> ovs[i].granted == ovs[j].granted
  }

  function Granted(ovs: seq<Override>): set<string> {
    set i | 0 <= i < |ovs| && ovs[i].granted :: ovs[i].key
  }

  function Revoked(ovs: seq<Override>): set<string> {
    set i | 0 <= i < |ovs| && !ovs[i].granted :: ovs[i].key
  }

  lemma {:induction false} LastRowExists(ovs: seq<Override>, k: string) returns (i: nat)
    requires Mentions(ovs, k)
    ensures i < |ovs| && Decides(ovs, i, k)
  {
    var n := |ovs| - 1;
    if ovs[n].key == k {
      i := n;
    } else {
      var m :| 0 <= m < |ovs| && ovs[m].key == k;
      assert ovs[..n][m].key == k;
      i := LastRowExists(ovs[..n], k);
      forall j | i < j < |ovs| ensures ovs[j].key != k {
        if j < n { assert ovs[..n][j].key != k; }
      }
    }
  }

  /** When no key is both granted and revoked, the loop computes (role + grants) - revokes. */
  lemma SetFormula(base: seq<string>, ovs: seq<Override>)
    requires Consistent(ovs)
    ensures Elements(Features(base, ovs)) == (Elements(base) + Granted(ovs)) - Revoked(ovs)
  {
    forall k
      ensures k in Features(base, ovs) <==> (k in base || k in Granted(ovs)) && k !in Revoked(ovs)
    {
      LastOverrideWins(base, ovs, k);
      if Mentions(ovs, k) {
        var i := LastRowExists(ovs, k);
        assert k in Granted(ovs) <==> ovs[i].granted;
        assert k in Revoked(ovs) <==> !ovs[i].granted;
        if exists m :: 0 <= m < |ovs| && Decides(ovs, m, k) && ovs[m].granted {
          var m :| 0 <= m < |ovs| && Decides(ovs, m, k) && ovs[m].granted;
        }
      }
    }
  }

  lemma DistinctIsConsistent(ovs: seq<Override>)
    requires DistinctKeys(ovs)
    ensures Consistent(ovs)
  {
  }

  ghost predicate Permutation(a: seq<Override>, b: seq<Override>) {
    multiset(a) == multiset(b)
  }

  lemma PermutationRows(a: seq<Override>, b: seq<Override>)
    requires Permutation(a, b)
    ensures Granted(a) == Granted(b) && Revoked(a) == Revoked(b)
    ensures Consistent(a) ==> Consistent(b)
  {
    assert forall o :: o in a <==> o in multiset(a);
    assert forall o :: o in b <==> o in multiset(b);
    forall o: Override ensures o in a <==> o in b {}
    SameGrants(a, b);
    SameGrants(b, a);
    if Consistent(a) {
      forall i, j | 0 <= i < |b| && 0 <= j < |b| && b[i].key == b[j].key
        ensures b[i].granted == b[j].granted
      {
        assert b[i] in a && b[j] in a;
        var i', j' :| 0 <= i' < |a| && 0 <= j' < |a| && a[i'] == b[i] && a[j'] == b[j];
      }
    }
  }

  lemma SameGrants(a: seq<Override>, b: seq<Override>)
    requires forall o :: o in a ==> o in b
    ensures Granted(a) <= Granted(b) && Revoked(a) <= Revoked(b)
  {
    forall k | k in Granted(a) ensures k in Granted(b) {
      var i :| 0 <= i < |a| && a[i].granted && a[i].key == k;
      assert a[i] in b;
    }
    forall k | k in Revoked(a) ensures k in Revoked(b) {
      var i :| 0 <= i < |a| && !a[i].granted && a[i].key == k;
      assert a[i] in b;
    }
  }

  function MoveToEnd(ovs: seq<Override>, i: nat): seq<Override>
    requires i < |ovs|
  {
    ovs[..i] + ovs[i + 1..] + [ovs[i]]
  }

  /** A row moved to the end decides its key. */
  lemma MovedRowDecides(base: seq<string>, ovs: seq<Override>, i: nat)
    requires i < |ovs|
    ensures Permutation(ovs, MoveToEnd(ovs, i))
    ensures ovs[i].key in Features(base, MoveToEnd(ovs, i)) <==> ovs[i].granted
  {
    var moved := MoveToEnd(ovs, i);
    assert ovs == ovs[..i] + [ovs[i]] + ovs[i + 1..];
    var k := ovs[i].key;
    assert Decides(moved, |moved| - 1, k);
    LastOverrideWins(base, moved, k);
    assert Mentions(moved, k);
    forall m | 0 <= m < |moved| && Decides(moved, m, k) ensures m == |moved| - 1 {}
  }

  /** The result is the same for every order of the rows exactly when no key is both granted and revoked. */
  lemma OrderIrrelevantIff(base: seq<string>, ovs: seq<Override>)
    ensures Consistent(ovs) <==>
      (forall other :: Permutation(ovs, other) ==> Elements(Features(base, other)) == Elements(Features(base, ovs)))
  {
    if Consistent(ovs) {
      forall other | Permutation(ovs, other)
        ensures Elements(Features(base, other)) == Elements(Features(base, ovs))
      {
        PermutationRows(ovs, other);
        SetFormula(base, ovs);
        SetFormula(base, other);
      }
    } else {
      var i, j :| 0 <= i < |ovs| && 0 <= j < |ovs| && ovs[i].key == ovs[j].key && ovs[i].granted != ovs[j].granted;
      MovedRowDecides(base, ovs, i);
      MovedRowDecides(base, ovs, j);
      var k := ovs[i].key;
      assert k in Elements(Features(base, MoveToEnd(ovs, i))) <==> ovs[i].granted;
      assert k in Elements(Features(base, MoveToEnd(ovs, j))) <==> ovs[j].granted;
    }
  }
}
