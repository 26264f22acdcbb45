/**
 * Concurrent consumption of one token, with the read of its row and the write that spends it as separate steps. Refresh
 * tokens, one-shot tokens and authorization codes are all consumed this way.
 */
module ConsumeRace {
  import opened Basics
  import opened Redis

  /** A refresh token is a JWT with an expiry of its own, in seconds; the other tokens are only rows. */
  datatype Token = Token(signedUntil: Option<nat>, expiresAt: nat)

  predicate InTime(tok: Token, now: nat) {
    (tok.signedUntil.Some? ==> Sec(now) < tok.signedUntil.value) && now <= tok.expiresAt
  }

  /** The one row with the token's hash; once deleted it is never created again. */
  datatype Row = Absent | Present(isSpent: bool)

  datatype Event =
    | Find(call: Id, now: nat)     // a call verifies the token, reads the row and checks it
    | Commit(call: Id)             // a call that passed the check spends the row
    | SpendElsewhere               // logout, revoke-all, a newer token of the same kind
    | Remove                       // cascade or clean-up

  /** `passed` holds the calls between their check and their commit, `consumed` those that returned the token. */
  datatype World = World(row: Row, passed: set<Id>, consumed: set<Id>)

  const Fresh: World := World(Present(false), {}, {})

  predicate Good(row: Row) { row.Present? && !row.isSpent }

  function Spent(row: Row): Row {
    if row.Present? then Present(true) else row
  }

  function Step(tok: Token, w: World, e: Event): World {
    match e
    case Find(k, now) => if InTime(tok, now) && Good(w.row) then w.(passed := w.passed + {k}) else w
    case Commit(k) =>
      if k !in w.passed then w
      else if w.row.Absent? then w.(passed := w.passed - {k})
      else World(Spent(w.row), w.passed - {k}, w.consumed + {k})
    case SpendElsewhere => w.(row := Spent(w.row))
    case Remove => w.(row := Absent)
  }

  function Run(tok: Token, w: World, es: seq<Event>): World {
    if es == [] then w else Step(tok, Run(tok, w, es[..|es| - 1]), es[|es| - 1])
  }

  /** The event takes the row away from later readers. */
  predicate Takes(w: World, e: Event) {
    e.SpendElsewhere? || e.Remove? || (e.Commit? && e.call in w.passed)
  }

  /** Nothing has taken the row away yet in this trace. */
  ghost predicate Untaken(tok: Token, es: seq<Event>) {
    es == [] || (Untaken(tok, es[..|es| - 1]) && !Takes(Run(tok, Fresh, es[..|es| - 1]), es[|es| - 1]))
  }

  /** The row is good exactly until it is first taken away. */
  lemma {:induction false} GoodIffUntaken(tok: Token, es: seq<Event>)
    ensures Good(Run(tok, Fresh, es).row) <==> Untaken(tok, es)
  {
    if es == [] {
    } else {
      GoodIffUntaken(tok, es[..|es| - 1]);
    }
  }

  /**
   * A call's check passes if and only if the token's own signature has not expired, nothing took the row away before
   * the read, and the row had not expired.
   */
  lemma FindPassesIff(tok: Token, es: seq<Event>, call: Id, now: nat)
    requires call !in Run(tok, Fresh, es).passed
    ensures call in Step(tok, Run(tok, Fresh, es), Find(call, now)).passed <==>
      (tok.signedUntil.Some? ==> Sec(now) < tok.signedUntil.value) && now <= tok.expiresAt && Untaken(tok, es)
  {
    GoodIffUntaken(tok, es);
  }

  lemma {:induction false} UntakenPrefix(tok: Token, es: seq<Event>, more: seq<Event>)
    requires Untaken(tok, es + more)
    ensures Untaken(tok, es)
  {
    if more == [] {
      assert es + more == es;
    } else {
      assert (es + more)[..|es + more| - 1] == es + more[..|more| - 1];
      UntakenPrefix(tok, es, more[..|more| - 1]);
    }
  }

  /** The read at position `i` was made by this call, in time, before the row was taken away. */
  ghost predicate ReadsInTime(tok: Token, es: seq<Event>, call: Id, i: nat) {
    i < |es| && es[i].Find? && es[i].call == call && InTime(tok, es[i].now) && Untaken(tok, es[..i])
  }

  /** Every call that passed or consumed read the row in time and before it was first taken away. */
  lemma {:induction false} SuccessReadBeforeFirstSpend(tok: Token, es: seq<Event>, call: Id) returns (i: nat)
    requires call in Run(tok, Fresh, es).passed + Run(tok, Fresh, es).consumed
    ensures ReadsInTime(tok, es, call, i)
  {
    var init := es[..|es| - 1];
    var w := Run(tok, Fresh, init);
    if call in w.passed + w.consumed {
      i := SuccessReadBeforeFirstSpend(tok, init, call);
      assert es[..i] == init[..i];
    } else {
      i := |es| - 1;
      GoodIffUntaken(tok, init);
    }
  }

  lemma {:induction false} ConsumedMeansTaken(tok: Token, es: seq<Event>)
    requires Run(tok, Fresh, es).consumed != {}
    ensures !Untaken(tok, es)
  {
    var init := es[..|es| - 1];
    if Run(tok, Fresh, init).consumed != {} {
      ConsumedMeansTaken(tok, init);
    }
  }

  /** No read after a consumption is in time. */
  lemma InTimeMeansBefore(tok: Token, es: seq<Event>, more: seq<Event>, call: Id, i: nat)
    requires Run(tok, Fresh, es).consumed != {}
    requires ReadsInTime(tok, es + more, call, i)
    ensures i < |es| && es[i].Find? && es[i].call == call
  {
    if i >= |es| {
      assert (es + more)[..i] == es + more[..i - |es|];
      UntakenPrefix(tok, es, more[..i - |es|]);
      ConsumedMeansTaken(tok, es);
    }
  }

  /** Calls that do not overlap are single-use: once one has consumed the token, no call that reads later ever does. */
  lemma NonOverlappingSingleUse(tok: Token, es: seq<Event>, more: seq<Event>, first: Id, second: Id)
    requires first in Run(tok, Fresh, es).consumed
    requires forall i :: 0 <= i < |es| && es[i].Find? ==> es[i].call != second
    ensures second !in Run(tok, Fresh, es + more).consumed
  {
    if second in Run(tok, Fresh, es + more).consumed {
      var i := SuccessReadBeforeFirstSpend(tok, es + more, second);
      InTimeMeansBefore(tok, es, more, second, i);
    }
  }

  /** A spent or deleted row never becomes good again, whatever the interleaving. */
  lemma {:induction false} TakenForever(tok: Token, es: seq<Event>, more: seq<Event>)
    requires !Good(Run(tok, Fresh, es).row)
    ensures !Good(Run(tok, Fresh, es + more).row)
  {
    GoodIffUntaken(tok, es);
    GoodIffUntaken(tok, es + more);
    if Untaken(tok, es + more) {
      UntakenPrefix(tok, es, more);
    }
  }

  lemma RunSnoc(tok: Token, w: World, es: seq<Event>, e: Event)
    ensures Run(tok, w, es + [e]) == Step(tok, Run(tok, w, es), e)
  {
  }

  /** The first `n` calls read the row one after the other. */
  function Finds(n: nat, now: nat): seq<Event> { if n == 0 then [] else Finds(n - 1, now) + [Find(n - 1, now)] }

  function Commits(n: nat): seq<Event> { if n == 0 then [] else Commits(n - 1) + [Commit(n - 1)] }

  function First(n: nat): (calls: set<Id>)
    ensures forall i: Id :: i in calls <==> i < n
  {
    if n == 0 then {} else First(n - 1) + {n - 1}
  }

  lemma {:induction false} AllPass(tok: Token, n: nat, now: nat)
    requires InTime(tok, now)
    ensures Run(tok, Fresh, Finds(n, now)) == World(Present(false), First(n), {})
  {
    if n == 0 {
    } else {
      AllPass(tok, n - 1, now);
      RunSnoc(tok, Fresh, Finds(n - 1, now), Find(n - 1, now));
    }
  }

  lemma {:induction false} AllCommit(tok: Token, w: World, n: nat)
    requires w.row.Present? && First(n) <= w.passed
    ensures var w' := Run(tok, w, Commits(n));
      w'.row.Present? && w'.passed == w.passed - First(n) && w'.consumed == w.consumed + First(n)
  {
    if n == 0 {
    } else {
      AllCommit(tok, w, n - 1);
      RunSnoc(tok, w, Commits(n - 1), Commit(n - 1));
    }
  }

  lemma {:induction false} RunAppend(tok: Token, w: World, es: seq<Event>, more: seq<Event>)
    ensures Run(tok, w, es + more) == Run(tok, Run(tok, w, es), more)
  {
    if more == [] {
      assert es + more == es;
    } else {
      RunAppend(tok, w, es, more[..|more| - 1]);
      assert (es + more)[..|es + more| - 1] == es + more[..|more| - 1];
    }
  }

  /** Overlapping calls are not: any number of calls that all read before one commits all consume the token. */
  lemma OverlappingAllConsume(tok: Token, n: nat, now: nat)
    requires InTime(tok, now)
    ensures Run(tok, Fresh, Finds(n, now) + Commits(n)).consumed == First(n)
  {
    AllPass(tok, n, now);
    RunAppend(tok, Fresh, Finds(n, now), Commits(n));
    AllCommit(tok, World(Present(false), First(n), {}), n);
  }
}
