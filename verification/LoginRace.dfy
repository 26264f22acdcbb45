/**
 * The lockout bound with overlapping logins: a login reads the account and its lock, compares the password, counts the
 * failure, and locks the account, each step by itself.
 */
module LoginRace {
  import opened Basics
  import opened Session
  import opened Lockout

  /**
   * One account under wrong passwords; the calls that have read it unlocked and not counted their failure yet, and
   * those whose count reached the limit and that have not locked the account yet. `guesses` counts the passwords
   * compared.
   */
  datatype World = World(
    now: nat, attempts: nat, lockedUntil: Option<nat>, reading: set<Id>, locking: set<Id>, guesses: nat)

  datatype Event =
    | Tick(elapsed: nat)
    | Read(call: Id)     // past the lock check; the password is compared
    | Count(call: Id)    // increment the counter
    | Lock(call: Id)     // set the lock and reset the counter

  predicate IsLocked(w: World) { w.lockedUntil.Some? && w.lockedUntil.value > w.now }

  function Step(c: Config, w: World, e: Event): World {
    match e
    case Tick(d) => w.(now := w.now + d)
    case Read(k) =>
      if !IsLocked(w) && k !in w.reading && k !in w.locking
      then w.(reading := w.reading + {k}, guesses := w.guesses + 1) else w
    case Count(k) =>
      if k !in w.reading then w
      else if w.attempts + 1 >= c.maxAttempts
      then w.(attempts := w.attempts + 1, reading := w.reading - {k}, locking := w.locking + {k})
      else w.(attempts := w.attempts + 1, reading := w.reading - {k})
    case Lock(k) =>
      if k in w.locking
      then w.(attempts := 0, lockedUntil := Some(w.now + c.lockMs), locking := w.locking - {k}) else w
  }

  function Run(c: Config, w: World, es: seq<Event>): World {
    if es == [] then w else Step(c, Run(c, w, es[..|es| - 1]), es[|es| - 1])
  }

  function InFlight(w: World): nat { |w.reading| + |w.locking| }

  /** At no point of the run are more than `k` logins in flight. */
  ghost predicate Disciplined(c: Config, w: World, es: seq<Event>, k: nat) {
    InFlight(Run(c, w, es)) <= k && (es == [] || Disciplined(c, w, es[..|es| - 1], k))
  }

  /**
   * A round of guesses when `k` logins may be in flight: the limit, and what can be past the check when it is reached.
   */
  function Widened(c: Config, k: nat): Config
    requires k >= 1
  {
    c.(maxAttempts := c.maxAttempts + k - 1)
  }

  /**
   * The accounting after `g` guesses since `t0`, `paid` of which are covered by locks and `counted` of which have been
   * counted since: the rest are in flight, and none is uncovered while a lock holds.
   */
  ghost predicate Accounted(c: Config, k: nat, w: World, t0: nat, g: nat, paid: nat, counted: nat)
    requires k >= 1 && c.lockMs >= 1
  {
    && t0 <= w.now && g <= paid + counted + InFlight(w) && InFlight(w) <= k
    && counted <= w.attempts && counted < c.maxAttempts
    && (IsLocked(w) ==> g <= paid)
    && (paid > 0 ==> PaidFor(c, k, w, t0, paid))
  }

  ghost predicate PaidFor(c: Config, k: nat, w: World, t0: nat, paid: nat)
    requires k >= 1 && c.lockMs >= 1
  {
    && w.lockedUntil.Some? && t0 + c.lockMs <= w.lockedUntil.value <= w.now + c.lockMs
    && paid <= Allowance(Widened(c, k), w.lockedUntil.value - c.lockMs - t0)
  }

  lemma AccountedFits(c: Config, k: nat, w: World, t0: nat, g: nat, paid: nat, counted: nat)
    requires k >= 1 && ValidConfig(c) && Accounted(c, k, w, t0, g, paid, counted)
    ensures Fits(Widened(c, k), t0, w.now, g)
  {
    if paid > 0 {
      var start := w.lockedUntil.value - c.lockMs - t0;
      AllowanceGrows(Widened(c, k), if IsLocked(w) then start else start + c.lockMs, w.now - t0);
    }
  }

  lemma RemoveOne<T>(s: set<T>, x: T)
    requires x in s
    ensures |s - {x}| == |s| - 1
  {
  }

  lemma AddOne<T>(s: set<T>, x: T)
    requires x !in s
    ensures |s + {x}| == |s| + 1
  {
  }

  lemma CountAccounted(c: Config, k: nat, w: World, call: Id, t0: nat, g: nat, paid: nat, counted: nat)
    returns (counted': nat)
    requires k >= 1 && ValidConfig(c) && Accounted(c, k, w, t0, g, paid, counted)
    requires call in w.reading && call !in w.locking
    ensures Accounted(c, k, Step(c, w, Count(call)), t0, g, paid, counted')
  {
    RemoveOne(w.reading, call);
    AddOne(w.locking, call);
    counted' := if w.attempts + 1 >= c.maxAttempts then counted else counted + 1;
  }

  /** The lock that ends an open period pays for everything compared in it. */
  lemma LockAccounted(c: Config, k: nat, w: World, call: Id, t0: nat, g: nat, paid: nat, counted: nat)
    returns (paid': nat)
    requires k >= 1 && ValidConfig(c) && Accounted(c, k, w, t0, g, paid, counted) && call in w.locking
    ensures Accounted(c, k, Step(c, w, Lock(call)), t0, g, paid', 0)
  {
    RemoveOne(w.locking, call);
    paid' := if IsLocked(w) then paid else paid + c.maxAttempts + k - 1;
    if paid > 0 {
      var start := w.lockedUntil.value - c.lockMs - t0;
      AllowanceGrows(Widened(c, k), if IsLocked(w) then start else start + c.lockMs, w.now - t0);
    }
  }

  lemma StepAccounted(c: Config, k: nat, w: World, e: Event, w': World, t0: nat, g: nat, paid: nat, counted: nat)
    returns (paid': nat, counted': nat)
    requires k >= 1 && ValidConfig(c) && Accounted(c, k, w, t0, g, paid, counted) && w.reading !! w.locking
    requires w' == Step(c, w, e) && InFlight(w') <= k
    ensures Accounted(c, k, w', t0, g + w'.guesses - w.guesses, paid', counted')
    ensures w'.reading !! w'.locking && w.guesses <= w'.guesses
  {
    paid', counted' := paid, counted;
    match e
    case Tick(_) =>
    case Read(call) => if w' != w { AddOne(w.reading, call); }
    case Count(call) => if call in w.reading { counted' := CountAccounted(c, k, w, call, t0, g, paid, counted); }
    case Lock(call) =>
      if call in w.locking {
        paid' := LockAccounted(c, k, w, call, t0, g, paid, counted);
        counted' := 0;
      }
  }

  /**
   * From any state of the account on, however the logins interleave: as long as at most `k` are in flight and nobody
   * clears the counter, the wrong passwords compared within T milliseconds number at most
   * (maxAttempts + k - 1) * (T / lockMs + 1).
   */
  lemma {:induction false} RaceBound(c: Config, w: World, es: seq<Event>, k: nat) returns (paid: nat, counted: nat)
    requires k >= 1 && ValidConfig(c) && w.reading !! w.locking && Disciplined(c, w, es, k)
    ensures var w' := Run(c, w, es);
      && w.guesses <= w'.guesses && w'.reading !! w'.locking
      && Accounted(c, k, w', w.now, w'.guesses - w.guesses, paid, counted)
      && Fits(Widened(c, k), w.now, w'.now, w'.guesses - w.guesses)
  {
    if es == [] {
      paid, counted := 0, 0;
    } else {
      var init, e := es[..|es| - 1], es[|es| - 1];
      paid, counted := RaceBound(c, w, init, k);
      var mid := Run(c, w, init);
      paid, counted :=
        StepAccounted(c, k, mid, e, Run(c, w, es), w.now, mid.guesses - w.guesses, paid, counted);
    }
    AccountedFits(c, k, Run(c, w, es), w.now, Run(c, w, es).guesses - w.guesses, paid, counted);
  }

  /** In closed form. */
  lemma WidenedClosed(c: Config, k: nat, window: nat)
    requires k >= 1 && ValidConfig(c)
    ensures Allowance(Widened(c, k), window) == (c.maxAttempts + k - 1) * (window / c.lockMs + 1)
  {
    AllowanceClosed(Widened(c, k), window);
  }

  // ---- The overshoot is reached ----

  lemma RunSnoc(c: Config, w: World, es: seq<Event>, e: Event)
    ensures Run(c, w, es + [e]) == Step(c, Run(c, w, es), e)
  {
  }

  /** The run ends in `w'` with at most `k` logins in flight at any time. */
  ghost predicate Reaches(c: Config, w: World, es: seq<Event>, k: nat, w': World) {
    Run(c, w, es) == w' && Disciplined(c, w, es, k)
  }

  lemma ReachesSnoc(c: Config, w: World, es: seq<Event>, k: nat, mid: World, e: Event, w': World)
    requires Reaches(c, w, es, k, mid) && w' == Step(c, mid, e) && InFlight(w') <= k
    ensures Reaches(c, w, es + [e], k, w')
  {
    assert (es + [e])[..|es|] == es;
  }

  /** The calls numbered from `a` up to but not including `b`. */
  function Calls(a: nat, b: nat): (calls: set<Id>)
    requires a <= b
    ensures forall i: Id :: i in calls <==> a <= i < b
    ensures |calls| == b - a
    decreases b - a
  {
    if a == b then {} else Calls(a + 1, b) + {a}
  }

  lemma NextCall(n: nat, k: nat)
    requires n < k
    ensures Calls(n, k) - {n} == Calls(n + 1, k) && Calls(0, n) + {n} == Calls(0, n + 1)
  {
  }

  /** No login in flight, no lock in force. */
  ghost predicate Open(w: World, attempts: nat) {
    w.reading == {} && w.locking == {} && !IsLocked(w) && w.attempts == attempts
  }

  /** `n` guesses one after the other, below the limit. */
  lemma {:induction false} GuessInTurn(c: Config, w: World, es: seq<Event>, k: nat, mid: World, n: nat)
    returns (es': seq<Event>)
    requires k >= 1 && n < c.maxAttempts && Reaches(c, w, es, k, mid) && Open(mid, 0)
    ensures Reaches(c, w, es', k, mid.(attempts := n, guesses := mid.guesses + n))
  {
    if n == 0 {
      es' := es;
    } else {
      es' := GuessInTurn(c, w, es, k, mid, n - 1);
      var w1 := mid.(attempts := n - 1, guesses := mid.guesses + n - 1);
      var w2 := w1.(reading := {0}, guesses := w1.guesses + 1);
      assert Step(c, w1, Read(0)) == w2;
      assert Step(c, w2, Count(0)) == mid.(attempts := n, guesses := mid.guesses + n);
      ReachesSnoc(c, w, es', k, w1, Read(0), w2);
      ReachesSnoc(c, w, es' + [Read(0)], k, w2, Count(0), mid.(attempts := n, guesses := mid.guesses + n));
      es' := es' + [Read(0)] + [Count(0)];
    }
  }

  /** `n` logins have read the account, and none has counted. */
  function Reading(w: World, n: nat): World { w.(reading := Calls(0, n), guesses := w.guesses + n) }

  /** Of `k` such logins `n` have counted, each at or above the limit. */
  function Counting(w: World, k: nat, n: nat): World
    requires n <= k
  {
    w.(reading := Calls(n, k), locking := Calls(0, n), attempts := w.attempts + n)
  }

  /** And `n` of them have locked the account. */
  function Locking(c: Config, w: World, k: nat, n: nat): World
    requires n <= k
  {
    w.(locking := Calls(n, k), attempts := 0, lockedUntil := Some(w.now + c.lockMs))
  }

  lemma ReadOn(c: Config, w: World, es: seq<Event>, k: nat, mid: World, n: nat)
    requires n < k && Reaches(c, w, es, k, Reading(mid, n)) && Open(mid, mid.attempts)
    ensures Reaches(c, w, es + [Read(n)], k, Reading(mid, n + 1))
  {
    NextCall(n, n + 1);
    ReachesSnoc(c, w, es, k, Reading(mid, n), Read(n), Reading(mid, n + 1));
  }

  lemma {:induction false} ReadTogether(c: Config, w: World, es: seq<Event>, k: nat, mid: World, n: nat)
    returns (es': seq<Event>)
    requires n <= k && Reaches(c, w, es, k, mid) && Open(mid, mid.attempts)
    ensures Reaches(c, w, es', k, Reading(mid, n))
  {
    if n == 0 {
      es' := es;
    } else {
      es' := ReadTogether(c, w, es, k, mid, n - 1);
      ReadOn(c, w, es', k, mid, n - 1);
      es' := es' + [Read(n - 1)];
    }
  }

  lemma CountStep(c: Config, w: World, k: nat, n: nat)
    requires n < k && w.attempts + 1 == c.maxAttempts
    ensures Step(c, Counting(w, k, n), Count(n)) == Counting(w, k, n + 1) && InFlight(Counting(w, k, n + 1)) == k
  {
    NextCall(n, k);
  }

  lemma CountOn(c: Config, w: World, es: seq<Event>, k: nat, mid: World, n: nat)
    requires n < k && Reaches(c, w, es, k, Counting(mid, k, n)) && mid.attempts + 1 == c.maxAttempts
    ensures Reaches(c, w, es + [Count(n)], k, Counting(mid, k, n + 1))
  {
    CountStep(c, mid, k, n);
    ReachesSnoc(c, w, es, k, Counting(mid, k, n), Count(n), Counting(mid, k, n + 1));
  }

  lemma {:induction false} CountTogether(c: Config, w: World, es: seq<Event>, k: nat, mid: World, n: nat)
    returns (es': seq<Event>)
    requires n <= k && Reaches(c, w, es, k, Counting(mid, k, 0)) && mid.attempts + 1 == c.maxAttempts
    ensures Reaches(c, w, es', k, Counting(mid, k, n))
  {
    if n == 0 {
      es' := es;
    } else {
      es' := CountTogether(c, w, es, k, mid, n - 1);
      CountOn(c, w, es', k, mid, n - 1);
      es' := es' + [Count(n - 1)];
    }
  }

  lemma LockStep(c: Config, w: World, before: World, k: nat, n: nat)
    requires n < k && w.reading == {}
    requires before == if n == 0 then w.(locking := Calls(0, k)) else Locking(c, w, k, n)
    ensures Step(c, before, Lock(n)) == Locking(c, w, k, n + 1) && InFlight(Locking(c, w, k, n + 1)) <= k
  {
    NextCall(n, k);
  }

  lemma {:induction false} LockTogether(c: Config, w: World, es: seq<Event>, k: nat, mid: World, n: nat)
    returns (es': seq<Event>)
    requires 1 <= n <= k && mid.reading == {} && Reaches(c, w, es, k, mid.(locking := Calls(0, k)))
    ensures Reaches(c, w, es', k, Locking(c, mid, k, n))
  {
    es' := es;
    var before := mid.(locking := Calls(0, k));
    if n > 1 {
      es' := LockTogether(c, w, es, k, mid, n - 1);
      before := Locking(c, mid, k, n - 1);
    }
    LockStep(c, mid, before, k, n - 1);
    ReachesSnoc(c, w, es', k, before, Lock(n - 1), Locking(c, mid, k, n));
    es' := es' + [Lock(n - 1)];
  }

  /** The account was just locked by a full, widened round. */
  function AfterRound(c: Config, k: nat, w: World): World
    requires k >= 1
  {
    w.(attempts := 0, lockedUntil := Some(w.now + c.lockMs), guesses := w.guesses + Widened(c, k).maxAttempts)
  }

  lemma Round(c: Config, w: World, es: seq<Event>, k: nat, mid: World) returns (es': seq<Event>)
    requires k >= 1 && ValidConfig(c) && Reaches(c, w, es, k, mid) && Open(mid, 0)
    ensures Reaches(c, w, es', k, AfterRound(c, k, mid))
  {
    es' := GuessInTurn(c, w, es, k, mid, c.maxAttempts - 1);
    var w1 := mid.(attempts := c.maxAttempts - 1, guesses := mid.guesses + c.maxAttempts - 1);
    es' := ReadTogether(c, w, es', k, w1, k);
    assert Reading(w1, k) == Counting(Reading(w1, k), k, 0);
    es' := CountTogether(c, w, es', k, Reading(w1, k), k);
    var counted := Counting(Reading(w1, k), k, k);
    assert counted.reading == {} && counted == counted.(locking := Calls(0, k));
    es' := LockTogether(c, w, es', k, counted, k);
    assert Locking(c, counted, k, k) == AfterRound(c, k, mid);
  }

  /** After `n` lock durations the whole widened allowance is used up and the account is locked again. */
  lemma {:induction false} OvershootReached(c: Config, w: World, k: nat, n: nat) returns (es: seq<Event>, w': World)
    requires k >= 1 && ValidConfig(c) && Open(w, 0)
    ensures Reaches(c, w, es, k, w') && w'.now == w.now + Locks(c, n)
    ensures w'.guesses == w.guesses + Allowance(Widened(c, k), Locks(c, n))
    ensures w'.reading == {} && w'.locking == {} && w'.attempts == 0 && w'.lockedUntil == Some(w'.now + c.lockMs)
  {
    AllowanceOfLocks(Widened(c, k), n);
    LocksAlike(c, k, n);
    if n == 0 {
      es := Round(c, w, [], k, w);
      w' := AfterRound(c, k, w);
    } else {
      LocksAlike(c, k, n - 1);
      var mid;
      es, mid := OvershootReached(c, w, k, n - 1);
      var open := mid.(now := mid.now + c.lockMs);
      ReachesSnoc(c, w, es, k, mid, Event.Tick(c.lockMs), open);
      es := Round(c, w, es + [Event.Tick(c.lockMs)], k, open);
      w' := AfterRound(c, k, open);
    }
  }

  lemma {:induction false} LocksAlike(c: Config, k: nat, n: nat)
    requires k >= 1
    ensures Locks(Widened(c, k), n) == Locks(c, n)
  {
    if n == 0 {
    } else {
      LocksAlike(c, k, n - 1);
    }
  }
}
