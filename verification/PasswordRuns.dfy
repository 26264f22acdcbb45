/** Password histories over whole runs. */
module PasswordRuns {
  import opened Basics
  import opened Session
  import opened SessionInvariant
  import Passwords

  /** A user of both states was there all along, with a history that was only extended. */
  lemma MoveExtends(c: Config, s: State, s': State, id: Id)
    requires UserIdsBelow(s.users, s.nextId) && HistoryBounded(c, s.history)
    requires Moves(s, s') && HistoryExtends(c, s, s') && id < s.nextId && id in s'.users
    ensures id in s.users && HistoryOf(s, id) <= HistoryOf(s', id)
  {
  }

  lemma PrefixTransitive<T>(a: seq<T>, b: seq<T>, c: seq<T>)
    requires a <= b && b <= c
    ensures a <= c
  {
  }

  lemma WithinLimit(c: Config, s: State, id: Id)
    requires Valid(c, s)
    ensures |HistoryOf(s, id)| <= c.historyLimit
  {
  }

  lemma StepGrows(c: Config, s: State, op: Op, s': State, id: Id)
    requires Valid(c, s) && s' == Step(c, s, op).state && id < s.nextId && id in s'.users
    ensures id in s.users && HistoryOf(s, id) <= HistoryOf(s', id)
  {
    StepMoves(c, s, op, s');
    MoveExtends(c, s, s', id);
  }

  /** A user's history only ever grows at its end, up to the limit: no retained hash is ever dropped. */
  lemma {:induction false} HistoryOnlyGrows(c: Config, s: State, ops: seq<Op>, id: Id)
    requires Valid(c, s) && id in s.users && id in Run(c, s, ops).users
    ensures HistoryOf(s, id) <= HistoryOf(Run(c, s, ops), id)
    ensures |HistoryOf(Run(c, s, ops), id)| <= c.historyLimit
  {
    if ops == [] {
    } else {
      var init := ops[..|ops| - 1];
      RunValid(c, s, init);
      RunIds(c, s, init);
      StepGrows(c, Run(c, s, init), ops[|ops| - 1], Run(c, s, ops), id);
      HistoryOnlyGrows(c, s, init, id);
      PrefixTransitive(HistoryOf(s, id), HistoryOf(Run(c, s, init), id), HistoryOf(Run(c, s, ops), id));
    }
    RunValid(c, s, ops);
    WithinLimit(c, Run(c, s, ops), id);
  }

  /** Once full, the history never changes again, whatever passwords the user sets. */
  lemma FrozenOnceFull(c: Config, s: State, ops: seq<Op>, id: Id)
    requires Valid(c, s) && id in s.users && |HistoryOf(s, id)| == c.historyLimit
    requires id in Run(c, s, ops).users
    ensures HistoryOf(Run(c, s, ops), id) == HistoryOf(s, id)
  {
    HistoryOnlyGrows(c, s, ops, id);
  }

  /** A new password is stored if and only if it matches none of the user's retained hashes. */
  lemma AcceptedIff(c: Config, s: State, id: Id, password: string)
    requires Valid(c, s) && id in s.users
    ensures SetPassword(c, s, id, password).outcome.Done? <==>
      forall r :: r in HistoryOf(s, id) ==> !Passwords.Compare(password, r.hash)
  {
    var rows := HistoryOf(s, id);
    assert |rows| <= c.historyLimit;
    var shown := Passwords.NewestFirst(rows, c.historyLimit);
    assert forall i :: 0 <= i < |rows| ==> shown[i] == rows[|rows| - 1 - i].hash;
    forall r | r in rows ensures r.hash in shown {
      var i :| 0 <= i < |rows| && rows[i] == r;
      assert shown[|rows| - 1 - i] == r.hash;
    }
  }
}
