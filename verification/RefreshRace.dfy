/**
 * Refreshes as they interleave: a call reads the row of the old token, spends it, and stores the new row, each step by
 * itself. What overlapping refreshes and a revoke-all in the middle do to the number of a user's sessions.
 */
module RefreshRace {
  import opened Basics

  /**
   * One user's unrevoked refresh rows; the calls that have read a good row and not spent it yet, each with that row;
   * and the calls that have spent their row and not stored the new one.
   */
  datatype World = World(live: set<Id>, claims: map<Id, Id>, inFlight: set<Id>, nextId: Id)

  datatype Event =
    | Login                     // stores a row
    | Find(call: Id, row: Id)   // a refresh reads a row that is still good
    | Commit(call: Id)          // and spends it, whether or not somebody else did so meanwhile
    | Issue(call: Id)           // and stores its successor
    | Abandon(call: Id)         // or finds its user inactive
    | Revoke(row: Id)           // logout of one session
    | RevokeAll                 // logout everywhere, password change, suspension, role change

  function Step(w: World, e: Event): World {
    match e
    case Login => w.(live := w.live + {w.nextId}, nextId := w.nextId + 1)
    case Find(k, row) =>
      if row in w.live && k !in w.claims && k !in w.inFlight then w.(claims := w.claims[k := row]) else w
    case Commit(k) =>
      if k in w.claims
      then w.(live := w.live - {w.claims[k]}, claims := w.claims - {k}, inFlight := w.inFlight + {k}) else w
    case Issue(k) =>
      if k in w.inFlight
      then w.(live := w.live + {w.nextId}, inFlight := w.inFlight - {k}, nextId := w.nextId + 1) else w
    case Abandon(k) => w.(inFlight := w.inFlight - {k})
    case Revoke(row) => w.(live := w.live - {row})
    case RevokeAll => w.(live := {})
  }

  function Run(w: World, es: seq<Event>): World {
    if es == [] then w else Step(Run(w, es[..|es| - 1]), es[|es| - 1])
  }

  // ---- Conservation ----

  predicate Claimed(w: World, row: Id) { exists k :: k in w.claims && w.claims[k] == row }

  function Unclaimed(w: World): set<Id> { set row | row in w.live && !Claimed(w, row) }

  /**
   * The sessions there are or can still be without another read: the calls on their way, and the rows nobody has read.
   */
  function Sessions(w: World): nat { |Unclaimed(w)| + |w.claims| + |w.inFlight| }

  /** The read of a row that another call has read and not spent yet. */
  predicate Overlaps(w: World, e: Event) {
    e.Find? && e.row in w.live && e.call !in w.claims && e.call !in w.inFlight && Claimed(w, e.row)
  }

  /** Fresh ids are fresh, and a call is in one place only. */
  ghost predicate Sound(w: World) {
    && (forall row :: row in w.live ==> row < w.nextId)
    && (forall k :: k in w.claims ==> w.claims[k] < w.nextId && k !in w.inFlight)
  }

  lemma StepSound(w: World, e: Event)
    requires Sound(w)
    ensures Sound(Step(w, e))
  {
  }

  lemma SubsetSize<T>(a: set<T>, b: set<T>)
    requires a <= b
    ensures |a| <= |b|
  {
    assert b == a + (b - a);
  }

  lemma LoginAdds(w: World)
    requires Sound(w)
    ensures Sessions(Step(w, Login)) == Sessions(w) + 1
  {
    assert Unclaimed(Step(w, Login)) == Unclaimed(w) + {w.nextId};
  }

  lemma FindKeeps(w: World, k: Id, row: Id)
    ensures Sessions(Step(w, Find(k, row))) == Sessions(w) + if Overlaps(w, Find(k, row)) then 1 else 0
  {
    var w' := Step(w, Find(k, row));
    if row in w.live && k !in w.claims && k !in w.inFlight {
      assert w'.claims.Keys == w.claims.Keys + {k} && |w'.claims| == |w'.claims.Keys|;
      ReadClaims(w, k, row);
      assert Unclaimed(w') == Unclaimed(w) - {row};
    }
  }

  lemma ReadClaims(w: World, k: Id, row: Id)
    requires k !in w.claims
    ensures forall r :: Claimed(w.(claims := w.claims[k := row]), r) <==> r == row || Claimed(w, r)
  {
    var w' := w.(claims := w.claims[k := row]);
    assert k in w'.claims && w'.claims[k] == row;
    forall r ensures Claimed(w', r) <==> r == row || Claimed(w, r) {
      if Claimed(w, r) {
        var j :| j in w.claims && w.claims[j] == r;
        assert j in w'.claims && w'.claims[j] == r;
      }
    }
  }

  lemma CommitKeeps(w: World, k: Id)
    requires Sound(w)
    ensures Sessions(Step(w, Commit(k))) == Sessions(w)
  {
    var w' := Step(w, Commit(k));
    if k in w.claims {
      assert w'.claims.Keys == w.claims.Keys - {k} && |w'.claims| == |w'.claims.Keys|;
      forall r | r in w'.live ensures Claimed(w', r) <==> Claimed(w, r) {
        if Claimed(w, r) {
          var j :| j in w.claims && w.claims[j] == r;
          assert j in w'.claims && w'.claims[j] == r;
        }
      }
      assert Claimed(w, w.claims[k]);
      assert Unclaimed(w') == Unclaimed(w);
    }
  }

  lemma IssueKeeps(w: World, k: Id)
    requires Sound(w)
    ensures Sessions(Step(w, Issue(k))) == Sessions(w)
  {
    if k in w.inFlight {
      assert Unclaimed(Step(w, Issue(k))) == Unclaimed(w) + {w.nextId};
    }
  }

  lemma EndingsKeep(w: World, e: Event)
    requires e.Abandon? || e.Revoke? || e.RevokeAll?
    ensures Sessions(Step(w, e)) <= Sessions(w)
  {
    SubsetSize(Unclaimed(Step(w, e)), Unclaimed(w));
    SubsetSize(Step(w, e).inFlight, w.inFlight);
  }

  ghost function Logins(es: seq<Event>): nat {
    if es == [] then 0 else Logins(es[..|es| - 1]) + if es[|es| - 1].Login? then 1 else 0
  }

  ghost function OverlapsIn(w: World, es: seq<Event>): nat {
    if es == [] then 0
    else OverlapsIn(w, es[..|es| - 1]) + if Overlaps(Run(w, es[..|es| - 1]), es[|es| - 1]) then 1 else 0
  }

  lemma StepConserves(w: World, e: Event)
    requires Sound(w)
    ensures Sessions(Step(w, e)) <= Sessions(w) + (if e.Login? then 1 else 0) + (if Overlaps(w, e) then 1 else 0)
  {
    match e
    case Login => LoginAdds(w);
    case Find(k, row) => FindKeeps(w, k, row);
    case Commit(k) => CommitKeeps(w, k);
    case Issue(k) => IssueKeeps(w, k);
    case Abandon(_) => EndingsKeep(w, e);
    case Revoke(_) => EndingsKeep(w, e);
    case RevokeAll => EndingsKeep(w, e);
  }

  lemma {:induction false} RunSound(w: World, es: seq<Event>)
    requires Sound(w)
    ensures Sound(Run(w, es))
  {
    if es == [] {
    } else {
      RunSound(w, es[..|es| - 1]);
      StepSound(Run(w, es[..|es| - 1]), es[|es| - 1]);
    }
  }

  lemma {:induction false} FewerValues(m: map<Id, Id>)
    ensures |m.Values| <= |m|
    decreases |m|
  {
    if m == map[] {
      assert m.Values == {};
    } else {
      var k :| k in m;
      var rest := m - {k};
      assert rest.Keys == m.Keys - {k} && |rest| == |rest.Keys| && |m| == |m.Keys|;
      FewerValues(rest);
      forall v | v in m.Values ensures v in rest.Values + {m[k]} {
        var j :| j in m && m[j] == v;
        if j != k {
          assert j in rest && rest[j] == v;
        }
      }
      SubsetSize(m.Values, rest.Values + {m[k]});
    }
  }

  lemma LiveIsCounted(w: World)
    ensures |w.live| <= Sessions(w)
  {
    assert w.live <= Unclaimed(w) + w.claims.Values;
    SubsetSize(w.live, Unclaimed(w) + w.claims.Values);
    FewerValues(w.claims);
  }

  /**
   * In every interleaving the sessions number at most those at the start, the logins since, and the reads of a row that
   * another refresh had read and not spent yet: refreshes that do not overlap on a row never multiply sessions.
   */
  lemma {:induction false} SessionsBounded(w: World, es: seq<Event>)
    requires Sound(w)
    ensures |Run(w, es).live| <= Sessions(Run(w, es)) <= Sessions(w) + Logins(es) + OverlapsIn(w, es)
  {
    LiveIsCounted(Run(w, es));
    if es == [] {
    } else {
      SessionsBounded(w, es[..|es| - 1]);
      RunSound(w, es[..|es| - 1]);
      StepConserves(Run(w, es[..|es| - 1]), es[|es| - 1]);
    }
  }

  // ---- The overlaps do multiply ----

  ghost predicate Quiescent(w: World) { Sound(w) && w.claims == map[] && w.inFlight == {} }

  predicate NoLogin(es: seq<Event>) { forall i :: 0 <= i < |es| ==> !es[i].Login? }

  lemma RunSnoc(w: World, es: seq<Event>, e: Event)
    ensures Run(w, es + [e]) == Step(Run(w, es), e)
  {
  }

  /** Two overlapping refreshes of one row. */
  function Twice(row: Id): seq<Event> {
    [] + [Find(0, row)] + [Find(1, row)] + [Commit(0)] + [Commit(1)] + [Issue(0)] + [Issue(1)]
  }

  lemma TwiceReads(w: World, row: Id, w': World)
    requires Quiescent(w) && row in w.live && w' == Step(Step(w, Find(0, row)), Find(1, row))
    ensures w' == w.(claims := map[0 := row, 1 := row])
  {
  }

  lemma TwiceSpends(w: World, row: Id, w': World)
    requires w.claims == map[0 := row, 1 := row] && w.inFlight == {}
    requires w' == Step(Step(w, Commit(0)), Commit(1))
    ensures w' == World(w.live - {row}, map[], {0, 1}, w.nextId)
  {
    assert w.live - {row} - {row} == w.live - {row};
  }

  lemma TwiceStores(w: World, w': World)
    requires w.claims == map[] && w.inFlight == {0, 1} && w' == Step(Step(w, Issue(0)), Issue(1))
    ensures w' == World(w.live + {w.nextId, w.nextId + 1}, map[], {}, w.nextId + 2)
  {
    assert w.live + {w.nextId} + {w.nextId + 1} == w.live + {w.nextId, w.nextId + 1};
  }

  lemma RunTwo(w: World, es: seq<Event>, a: Event, b: Event)
    ensures Run(w, es + [a] + [b]) == Step(Step(Run(w, es), a), b)
  {
    RunSnoc(w, es, a);
    RunSnoc(w, es + [a], b);
  }

  lemma {:induction false} RunAppend(w: World, es: seq<Event>, more: seq<Event>)
    ensures Run(w, es + more) == Run(Run(w, es), more)
  {
    if more == [] {
      assert es + more == es;
    } else {
      RunAppend(w, es, more[..|more| - 1]);
      assert (es + more)[..|es + more| - 1] == es + more[..|more| - 1];
    }
  }

  /** The old row is gone, and two new ones stand in its place. */
  function Doubled(w: World, row: Id): World {
    World(w.live - {row} + {w.nextId, w.nextId + 1}, map[], {}, w.nextId + 2)
  }

  lemma TwiceRuns(w: World, row: Id)
    requires Quiescent(w) && row in w.live
    ensures Run(w, Twice(row)) == Doubled(w, row)
  {
    var found: seq<Event> := [] + [Find(0, row)] + [Find(1, row)];
    var spends := found + [Commit(0)] + [Commit(1)];
    RunTwo(w, [], Find(0, row), Find(1, row));
    TwiceReads(w, row, Run(w, found));
    RunTwo(w, found, Commit(0), Commit(1));
    TwiceSpends(Run(w, found), row, Run(w, spends));
    RunTwo(w, spends, Issue(0), Issue(1));
    TwiceStores(Run(w, spends), Run(w, Twice(row)));
  }

  lemma DoubledAddsOne(w: World, row: Id)
    requires Quiescent(w) && row in w.live
    ensures Quiescent(Doubled(w, row)) && |Doubled(w, row).live| == |w.live| + 1
  {
    assert w.live - {row} !! {w.nextId, w.nextId + 1};
    assert |{w.nextId, w.nextId + 1}| == 2;
  }

  lemma TwiceHasNoLogin(row: Id)
    ensures NoLogin(Twice(row))
  {
  }

  lemma NoLoginAppend(a: seq<Event>, b: seq<Event>)
    requires NoLogin(a) && NoLogin(b)
    ensures NoLogin(a + b)
  {
  }

  lemma SomeMember<T>(s: set<T>) returns (x: T)
    requires |s| > 0
    ensures x in s
  {
    x :| x in s;
  }

  /** From a single session, overlapping refreshes reach any number of sessions without a login. */
  lemma {:induction false} OverlapsMultiply(w: World, n: nat) returns (es: seq<Event>)
    requires Quiescent(w) && w.live != {}
    ensures NoLogin(es) && Quiescent(Run(w, es)) && |Run(w, es).live| == |w.live| + n
  {
    if n == 0 {
      es := [];
    } else {
      var init := OverlapsMultiply(w, n - 1);
      var row := SomeMember(Run(w, init).live);
      TwiceRuns(Run(w, init), row);
      DoubledAddsOne(Run(w, init), row);
      RunAppend(w, init, Twice(row));
      TwiceHasNoLogin(row);
      NoLoginAppend(init, Twice(row));
      es := init + Twice(row);
    }
  }

  // ---- A revoke-all in the middle ----

  /** After the revoke-all no session comes back without a login. */
  ghost predicate EndsForGood(w: World) {
    forall es :: NoLogin(es) ==> Run(Step(w, RevokeAll), es).live == {}
  }

  ghost predicate Over(w: World) { w.live == {} && w.claims == map[] && w.inFlight == {} }

  lemma {:induction false} OverForGood(w: World, es: seq<Event>)
    requires Over(w) && NoLogin(es)
    ensures Over(Run(w, es))
  {
    if es == [] {
    } else {
      OverForGood(w, es[..|es| - 1]);
      assert !es[|es| - 1].Login?;
    }
  }

  lemma ClaimReturns(w: World, call: Id)
    requires call in w.claims
    ensures var es := [] + [Commit(call)] + [Issue(call)];
      NoLogin(es) && w.nextId in Run(Step(w, RevokeAll), es).live
  {
    RunSnoc(Step(w, RevokeAll), [], Commit(call));
    RunSnoc(Step(w, RevokeAll), [] + [Commit(call)], Issue(call));
  }

  lemma InFlightReturns(w: World, call: Id)
    requires call in w.inFlight
    ensures var es := [] + [Issue(call)];
      NoLogin(es) && w.nextId in Run(Step(w, RevokeAll), es).live
  {
    RunSnoc(Step(w, RevokeAll), [], Issue(call));
  }

  /**
   * A revoke-all ends every session for good if and only if no refresh is past its read at that moment; one that is
   * stores a live row after the revocation.
   */
  lemma EndsForGoodIff(w: World)
    ensures EndsForGood(w) <==> w.claims == map[] && w.inFlight == {}
  {
    if w.claims != map[] {
      var call :| call in w.claims;
      ClaimReturns(w, call);
    } else if w.inFlight != {} {
      var call :| call in w.inFlight;
      InFlightReturns(w, call);
    } else {
      forall es | NoLogin(es) ensures Run(Step(w, RevokeAll), es).live == {} {
        OverForGood(Step(w, RevokeAll), es);
      }
    }
  }
}
