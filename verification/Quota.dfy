/** The daily API-call quota: the counter is read when a request arrives and incremented later, in the background. */
module Quota {
  import opened Basics
  import opened Redis
  import opened Plans

  const DAY_MS: nat := 24 * 3600 * 1000
  const COUNTER_TTL: nat := 25 * 3600

  /** The UTC day that names the counter's key. */
  function Day(ms: nat): nat { ms / DAY_MS }

  /** An admitted request whose increment has not happened yet. */
  datatype Call = Call(org: Id, day: nat)

  /** By organization and day. */
  type Counts = map<(Id, nat), nat>

  /** `admitted` and `incremented` tell the history: requests let through and increments made, by org and UTC day. */
  datatype World = World(
    now: nat,
    plans: map<Id, Plan>,
    counters: Cache<(Id, nat), nat>,
    pending: seq<Call>,
    admitted: Counts,
    incremented: Counts)

  datatype Event =
    | Tick(elapsed: nat)
    | SetPlan(org: Id, plan: Plan)
    | Request(caller: Option<Id>)
    | Increment(index: nat)          // the background increment of one pending call

  function Start(): World { World(0, map[], map[], [], map[], map[]) }

  function Count(m: Counts, org: Id, day: nat): nat {
    if (org, day) in m then m[(org, day)] else 0
  }

  function CallsToday(w: World, org: Id): nat {
    GetOr(Get(w.counters, (org, Day(w.now)), w.now), 0)
  }

  /** A request without an org, or of an unknown org, is let through unmetered. */
  predicate Metered(w: World, org: Option<Id>) {
    org.Some? && org.value in w.plans
  }

  predicate Admits(w: World, org: Id)
    requires org in w.plans
  {
    CallsToday(w, org) < MaxApiCallsPerDay(w.plans[org])
  }

  /** INCR keeps a live key's expiry; the first increment of a key sets it. */
  function IncrementCounter(m: Cache<(Id, nat), nat>, key: (Id, nat), now: nat): Cache<(Id, nat), nat> {
    if Live(m, key, now) then m[key := Entry(m[key].value + 1, m[key].expiresAt)]
    else SetEx(m, key, 1, COUNTER_TTL, now)
  }

  function Step(w: World, e: Event): World {
    var today := Day(w.now);
    match e
    case Tick(d) => w.(now := w.now + d)
    case SetPlan(org, plan) => w.(plans := w.plans[org := plan])
    case Request(org) =>
      if Metered(w, org) && Admits(w, org.value) then
        w.(pending := w.pending + [Call(org.value, today)],
           admitted := w.admitted[(org.value, today) := Count(w.admitted, org.value, today) + 1])
      else w
    case Increment(i) =>
      if i < |w.pending| then
        var org := w.pending[i].org;
        w.(pending := w.pending[..i] + w.pending[i + 1..],
           counters := IncrementCounter(w.counters, (org, today), w.now),
           incremented := w.incremented[(org, today) := Count(w.incremented, org, today) + 1])
      else w
  }

  function Run(w: World, es: seq<Event>): World {
    if es == [] then w else Step(Run(w, es[..|es| - 1]), es[|es| - 1])
  }

  /** The org's requests between their read and their increment. */
  function InFlight(pending: seq<Call>, org: Id): nat {
    if pending == [] then 0
    else InFlight(pending[..|pending| - 1], org) + if pending[|pending| - 1].org == org then 1 else 0
  }

  lemma {:induction false} InFlightAppend(a: seq<Call>, b: seq<Call>, org: Id)
    ensures InFlight(a + b, org) == InFlight(a, org) + InFlight(b, org)
  {
    if b == [] {
      assert a + b == a;
    } else {
      assert (a + b)[..|a + b| - 1] == a + b[..|b| - 1];
      InFlightAppend(a, b[..|b| - 1], org);
    }
  }

  lemma InFlightOne(call: Call, org: Id)
    ensures InFlight([call], org) == if call.org == org then 1 else 0
  {
  }

  lemma InFlightRemove(pending: seq<Call>, i: nat, org: Id)
    requires i < |pending|
    ensures InFlight(pending, org) ==
      InFlight(pending[..i] + pending[i + 1..], org) + if pending[i].org == org then 1 else 0
  {
    assert pending == pending[..i] + ([pending[i]] + pending[i + 1..]);
    InFlightAppend(pending[..i], [pending[i]] + pending[i + 1..], org);
    InFlightAppend([pending[i]], pending[i + 1..], org);
    InFlightAppend(pending[..i], pending[i + 1..], org);
    InFlightOne(pending[i], org);
  }

  // ---- The counter is never lost inside its own day ----

  ghost predicate CounterKept(w: World) {
    && (forall k :: k in w.counters ==> k.1 <= Day(w.now) && (k.1 + 1) * DAY_MS <= w.counters[k].expiresAt)
    && (forall k :: k in w.counters ==> w.counters[k].value == Count(w.incremented, k.0, k.1))
    && (forall k :: k in w.incremented ==> k in w.counters)
  }

  lemma DayEnds(now: nat)
    ensures Day(now) * DAY_MS <= now < (Day(now) + 1) * DAY_MS
  {
  }

  lemma DayMonotone(a: nat, b: nat)
    requires a <= b
    ensures Day(a) <= Day(b)
  {
  }

  /** One increment, as a change of the counters and of the history only. */
  lemma IncrementKeeps(w: World, org: Id)
    requires CounterKept(w)
    ensures CounterKept(w.(
      counters := IncrementCounter(w.counters, (org, Day(w.now)), w.now),
      incremented := w.incremented[(org, Day(w.now)) := Count(w.incremented, org, Day(w.now)) + 1]))
  {
    DayEnds(w.now);
  }

  lemma StepKeepsCounters(w: World, e: Event)
    requires CounterKept(w)
    ensures CounterKept(Step(w, e))
  {
    match e
    case Increment(i) =>
      if i < |w.pending| {
        IncrementKeeps(w, w.pending[i].org);
      }
    case Tick(d) => DayMonotone(w.now, w.now + d);
    case SetPlan(_, _) =>
    case Request(_) =>
  }

  lemma ReadsIncrements(w: World, org: Id)
    requires CounterKept(w)
    ensures CallsToday(w, org) == Count(w.incremented, org, Day(w.now))
  {
  }

  /** At any moment of any run the counter read is exactly the number of increments made that UTC day. */
  lemma {:induction false} CounterExact(es: seq<Event>, org: Id)
    ensures CounterKept(Run(Start(), es))
    ensures var w := Run(Start(), es); CallsToday(w, org) == Count(w.incremented, org, Day(w.now))
  {
    if es == [] {
    } else {
      CounterExact(es[..|es| - 1], org);
      StepKeepsCounters(Run(Start(), es[..|es| - 1]), es[|es| - 1]);
    }
    ReadsIncrements(Run(Start(), es), org);
  }

  // ---- The overshoot ----

  /** Of the day's admitted requests, those not yet counted are still in flight; nothing is admitted ahead of time. */
  ghost predicate AccountedOn(admitted: Counts, incremented: Counts, pending: seq<Call>, org: Id, today: nat) {
    && Count(admitted, org, today) <= Count(incremented, org, today) + InFlight(pending, org)
    && (forall k :: k in admitted ==> k.1 <= today)
  }

  ghost predicate Accounted(w: World, org: Id) {
    AccountedOn(w.admitted, w.incremented, w.pending, org, Day(w.now))
  }

  lemma LaterDayAccounted(admitted: Counts, incremented: Counts, pending: seq<Call>, org: Id, today: nat, later: nat)
    requires AccountedOn(admitted, incremented, pending, org, today) && today <= later
    ensures AccountedOn(admitted, incremented, pending, org, later)
  {
  }

  lemma AdmissionAccounted(
      admitted: Counts, incremented: Counts, pending: seq<Call>, org: Id, today: nat, caller: Id)
    requires AccountedOn(admitted, incremented, pending, org, today)
    ensures AccountedOn(
      admitted[(caller, today) := Count(admitted, caller, today) + 1], incremented, pending + [Call(caller, today)],
      org, today)
  {
    InFlightAppend(pending, [Call(caller, today)], org);
    InFlightOne(Call(caller, today), org);
  }

  lemma IncrementAccounted(admitted: Counts, incremented: Counts, pending: seq<Call>, org: Id, today: nat, i: nat)
    requires AccountedOn(admitted, incremented, pending, org, today) && i < |pending|
    ensures var caller := pending[i].org;
      AccountedOn(
        admitted, incremented[(caller, today) := Count(incremented, caller, today) + 1],
        pending[..i] + pending[i + 1..], org, today)
  {
    InFlightRemove(pending, i, org);
  }

  lemma StepKeepsAccount(w: World, e: Event, org: Id)
    requires Accounted(w, org)
    ensures Accounted(Step(w, e), org)
  {
    var today := Day(w.now);
    match e
    case Tick(d) =>
      DayMonotone(w.now, w.now + d);
      LaterDayAccounted(w.admitted, w.incremented, w.pending, org, today, Day(w.now + d));
    case SetPlan(_, _) =>
    case Request(o) =>
      if Metered(w, o) && Admits(w, o.value) {
        AdmissionAccounted(w.admitted, w.incremented, w.pending, org, today, o.value);
      }
    case Increment(i) =>
      if i < |w.pending| {
        IncrementAccounted(w.admitted, w.incremented, w.pending, org, today, i);
      }
  }

  lemma {:induction false} RunKeepsAccount(es: seq<Event>, org: Id)
    ensures Accounted(Run(Start(), es), org)
  {
    if es == [] {
    } else {
      RunKeepsAccount(es[..|es| - 1], org);
      StepKeepsAccount(Run(Start(), es[..|es| - 1]), es[|es| - 1], org);
    }
  }

  /**
   * Whenever a request is admitted, the org's admitted requests of that UTC day, this one included, number at most
   * the limit of its plan at that moment plus the requests that were in flight.
   */
  lemma AdmissionBound(es: seq<Event>, org: Id)
    requires org in Run(Start(), es).plans && Admits(Run(Start(), es), org)
    ensures var w := Run(Start(), es);
      Count(Step(w, Request(Some(org))).admitted, org, Day(w.now)) <=
      MaxApiCallsPerDay(w.plans[org]) + InFlight(w.pending, org)
  {
    CounterExact(es, org);
    RunKeepsAccount(es, org);
  }

  /**
   * At most `k` of the org's requests are between read and increment at once, and its plan never allows more than
   * `limit`.
   */
  ghost predicate Disciplined(w: World, es: seq<Event>, org: Id, limit: nat, k: nat) {
    es == [] ||
    (var w' := Run(w, es[..|es| - 1]);
     Disciplined(w, es[..|es| - 1], org, limit, k) &&
     (es[|es| - 1] == Request(Some(org)) && org in w'.plans && Admits(w', org) ==>
        InFlight(w'.pending, org) < k && MaxApiCallsPerDay(w'.plans[org]) <= limit))
  }

  /** No UTC day ever sees more than limit + k - 1 of the org's requests admitted. */
  lemma {:induction false} DailyBound(es: seq<Event>, org: Id, day: nat, limit: nat, k: nat)
    requires Disciplined(Start(), es, org, limit, k) && k >= 1
    ensures Count(Run(Start(), es).admitted, org, day) <= limit + k - 1
  {
    if es == [] {
    } else {
      var init, e := es[..|es| - 1], es[|es| - 1];
      DailyBound(init, org, day, limit, k);
      if e == Request(Some(org)) && org in Run(Start(), init).plans && Admits(Run(Start(), init), org) {
        AdmissionBound(init, org);
      }
    }
  }

  // ---- The bound is reached ----

  lemma RunSnoc(w: World, es: seq<Event>, e: Event)
    ensures Run(w, es + [e]) == Step(Run(w, es), e)
  {
  }

  lemma DisciplinedSnoc(w: World, es: seq<Event>, e: Event, org: Id, limit: nat, k: nat)
    requires Disciplined(w, es, org, limit, k)
    requires var w' := Run(w, es);
      e == Request(Some(org)) && org in w'.plans && Admits(w', org) ==>
        InFlight(w'.pending, org) < k && MaxApiCallsPerDay(w'.plans[org]) <= limit
    ensures Disciplined(w, es + [e], org, limit, k)
  {
  }

  /** On the first day, `done` requests counted and `waiting` still in flight. */
  ghost predicate Reached(w: World, org: Id, plan: Plan, done: nat, waiting: nat) {
    && w.now == 0 && org in w.plans && w.plans[org] == plan
    && Count(w.incremented, org, 0) == done && Count(w.admitted, org, 0) == done + waiting
    && |w.pending| == waiting && InFlight(w.pending, org) == waiting
    && (waiting == 1 ==> w.pending[0].org == org)
  }

  lemma AdmitOne(es: seq<Event>, org: Id, plan: Plan, done: nat, waiting: nat, k: nat) returns (es': seq<Event>)
    requires Disciplined(Start(), es, org, MaxApiCallsPerDay(plan), k)
    requires Reached(Run(Start(), es), org, plan, done, waiting)
    requires done < MaxApiCallsPerDay(plan) && waiting < k
    ensures Disciplined(Start(), es', org, MaxApiCallsPerDay(plan), k)
    ensures Reached(Run(Start(), es'), org, plan, done, waiting + 1)
  {
    es' := es + [Request(Some(org))];
    RunSnoc(Start(), es, Request(Some(org)));
    DisciplinedSnoc(Start(), es, Request(Some(org)), org, MaxApiCallsPerDay(plan), k);
    CounterExact(es, org);
    InFlightAppend(Run(Start(), es).pending, [Call(org, 0)], org);
    InFlightOne(Call(org, 0), org);
  }

  lemma CountOne(es: seq<Event>, org: Id, plan: Plan, done: nat, k: nat) returns (es': seq<Event>)
    requires Disciplined(Start(), es, org, MaxApiCallsPerDay(plan), k) && Reached(Run(Start(), es), org, plan, done, 1)
    ensures Disciplined(Start(), es', org, MaxApiCallsPerDay(plan), k)
    ensures Reached(Run(Start(), es'), org, plan, done + 1, 0)
  {
    es' := es + [Increment(0)];
    RunSnoc(Start(), es, Increment(0));
    DisciplinedSnoc(Start(), es, Increment(0), org, MaxApiCallsPerDay(plan), k);
    InFlightRemove(Run(Start(), es).pending, 0, org);
  }

  lemma {:induction false} Fill(org: Id, plan: Plan, done: nat, k: nat) returns (es: seq<Event>)
    requires done <= MaxApiCallsPerDay(plan) && k >= 1
    ensures Disciplined(Start(), es, org, MaxApiCallsPerDay(plan), k) && Reached(Run(Start(), es), org, plan, done, 0)
  {
    if done == 0 {
      es := [] + [SetPlan(org, plan)];
      RunSnoc(Start(), [], SetPlan(org, plan));
      DisciplinedSnoc(Start(), [], SetPlan(org, plan), org, MaxApiCallsPerDay(plan), k);
    } else {
      es := Fill(org, plan, done - 1, k);
      es := AdmitOne(es, org, plan, done - 1, 0, k);
      es := CountOne(es, org, plan, done - 1, k);
    }
  }

  lemma {:induction false} Burst(org: Id, plan: Plan, waiting: nat, k: nat) returns (es: seq<Event>)
    requires waiting <= k && k >= 1
    ensures Disciplined(Start(), es, org, MaxApiCallsPerDay(plan), k)
    ensures Reached(Run(Start(), es), org, plan, MaxApiCallsPerDay(plan) - 1, waiting)
  {
    if waiting == 0 {
      es := Fill(org, plan, MaxApiCallsPerDay(plan) - 1, k);
    } else {
      es := Burst(org, plan, waiting - 1, k);
      es := AdmitOne(es, org, plan, MaxApiCallsPerDay(plan) - 1, waiting - 1, k);
    }
  }

  /** For every plan and every k some run with at most k requests in flight does admit limit + k - 1 in one day. */
  lemma OvershootReached(org: Id, plan: Plan, k: nat) returns (es: seq<Event>)
    requires k >= 1
    ensures Disciplined(Start(), es, org, MaxApiCallsPerDay(plan), k)
    ensures Count(Run(Start(), es).admitted, org, 0) == MaxApiCallsPerDay(plan) + k - 1
  {
    es := Burst(org, plan, k, k);
  }

  // ---- The middleware ----

  class Middleware {
    var now: nat
    var plans: map<Id, Plan>
    var counters: Cache<(Id, nat), nat>
    var pending: seq<Call>
    var admitted: map<(Id, nat), nat>
    var incremented: map<(Id, nat), nat>

    function St(): World
      reads this
    {
      World(now, plans, counters, pending, admitted, incremented)
    }

    constructor ()
      ensures St() == Start()
    {
      now, plans, counters, pending, admitted, incremented := 0, map[], map[], [], map[], map[];
    }

    method GetApiCallsToday(org: Id) returns (calls: nat)
      ensures calls == CallsToday(St(), org)
    {
      var key := (org, Day(now));
      calls := if Live(counters, key, now) then counters[key].value else 0;
    }

    /** Reject at the limit; otherwise let the request through and leave its increment to the background. */
    method EnforceApiCallQuota(caller: Option<Id>) returns (passed: bool)
      modifies this`pending, this`admitted
      ensures St() == Step(old(St()), Request(caller))
      ensures passed <==> (Metered(old(St()), caller) ==> Admits(old(St()), caller.value))
    {
      if caller.None? || caller.value !in plans {
        return true;
      }
      var org := caller.value;
      var current := GetApiCallsToday(org);
      if current >= MaxApiCallsPerDay(plans[org]) {
        return false;
      }
      var today := (org, Day(now));
      pending := pending + [Call(org, Day(now))];
      admitted := admitted[today := (if today in admitted then admitted[today] else 0) + 1];
      return true;
    }

    /** The background increment: the key is that of the moment it runs, and only a first increment sets the expiry. */
    method IncrementApiCalls(index: nat) returns (count: nat)
      requires index < |pending|
      modifies this`pending, this`counters, this`incremented
      ensures St() == Step(old(St()), Increment(index))
      ensures count == CallsToday(St(), old(pending)[index].org)
    {
      var org := pending[index].org;
      var key := (org, Day(now));
      var alive := Live(counters, key, now);
      count := if alive then counters[key].value + 1 else 1;
      if alive {
        counters := counters[key := Entry(count, counters[key].expiresAt)];
      } else {
        counters := SetEx(counters, key, count, COUNTER_TTL, now);
      }
      pending := pending[..index] + pending[index + 1..];
      incremented := incremented[key := (if key in incremented then incremented[key] else 0) + 1];
    }
  }
}
