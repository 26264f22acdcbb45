/** The read-through permission cache of the check endpoint, with lookup, resolution and store as separate steps. */
module PermCache {
  import opened Basics
  import opened Redis
  import opened PermKeys

  const PERM_TTL: nat := 60
  const PERM_TTL_MS: nat := PERM_TTL * MS_PER_SECOND

  // ---- Checks against a resolved list ----

  predicate Check(userFeatures: seq<string>, feature: string) { feature in userFeatures }

  /** The batch endpoint answers exactly what the single check would answer for each requested key, and nothing else. */
  method BatchCheck(userFeatures: seq<string>, features: seq<string>) returns (result: map<string, bool>)
    ensures result.Keys == set f | f in features
    ensures forall f :: f in features ==> result[f] == Check(userFeatures, f)
  {
    var featureSet := set f | f in userFeatures;
    result := map[];
    for i := 0 to |features|
      invariant result.Keys == set f | f in features[..i]
      invariant forall f :: f in features[..i] ==> result[f] == Check(userFeatures, f)
    {
      assert features[..i + 1] == features[..i] + [features[i]];
      result := result[features[i] := features[i] in featureSet];
    }
    assert features[..|features|] == features;
  }

  // ---- The interleaved protocol ----

  /** What every user's features in every app are in the database; a user without access has none. */
  type Truth = map<(string, string), seq<string>>

  function FeaturesIn(t: Truth, userId: string, appId: string): seq<string> {
    if (userId, appId) in t then t[(userId, appId)] else []
  }

  datatype Lookup = Lookup(userId: string, appId: string, roleVersion: nat)

  function Key(q: Lookup): string { PermKey(q.userId, q.appId, q.roleVersion) }

  /** A call between its cache miss and its answer. */
  datatype Pending = Missed(query: Lookup) | Resolved(query: Lookup, features: seq<string>, resolvedAt: nat)

  datatype Answer = Answer(query: Lookup, features: seq<string>, at: nat)

  datatype Moment = Moment(now: nat, truth: Truth)

  /** `log` records every moment of the run: the time and the database contents after each step. */
  datatype World = World(
    now: nat, truth: Truth, cache: Cache<string, seq<string>>,
    pending: map<Id, Pending>, answers: seq<Answer>, log: seq<Moment>)

  datatype Event =
    | Tick(elapsed: nat)
    | Change(truth: Truth)            // any administrative change
    | Get(call: Id, query: Lookup)    // look in the cache; a hit answers at once
    | Resolve(call: Id)               // after a miss, read the database
    | Store(call: Id)                 // write the cache, then answer

  function Start(truth: Truth): World { World(0, truth, map[], map[], [], [Moment(0, truth)]) }

  function Act(w: World, e: Event): World {
    match e
    case Tick(d) => w.(now := w.now + d)
    case Change(truth) => w.(truth := truth)
    case Get(k, q) =>
      var cached := Redis.Get(w.cache, Key(q), w.now);
      if cached.Some? then w.(answers := w.answers + [Answer(q, cached.value, w.now)], pending := w.pending - {k})
      else w.(pending := w.pending[k := Missed(q)])
    case Resolve(k) =>
      if k in w.pending && w.pending[k].Missed? then
        var q := w.pending[k].query;
        w.(pending := w.pending[k := Resolved(q, FeaturesIn(w.truth, q.userId, q.appId), w.now)])
      else w
    case Store(k) =>
      if k in w.pending && w.pending[k].Resolved? then
        var p := w.pending[k];
        w.(cache := SetEx(w.cache, Key(p.query), p.features, PERM_TTL, w.now),
           answers := w.answers + [Answer(p.query, p.features, w.now)],
           pending := w.pending - {k})
      else w
  }

  function Step(w: World, e: Event): World {
    var w' := Act(w, e);
    w'.(log := w.log + [Moment(w'.now, w'.truth)])
  }

  function Run(w: World, es: seq<Event>): World {
    if es == [] then w else Step(Run(w, es[..|es| - 1]), es[|es| - 1])
  }

  /** A store happens at most `delta` after the resolution it writes. */
  predicate Timely(w: World, e: Event, delta: nat) {
    e.Store? && e.call in w.pending && w.pending[e.call].Resolved? ==> w.now <= w.pending[e.call].resolvedAt + delta
  }

  ghost predicate TimelyRun(w: World, es: seq<Event>, delta: nat) {
    es == [] || (TimelyRun(w, es[..|es| - 1], delta) && Timely(Run(w, es[..|es| - 1]), es[|es| - 1], delta))
  }

  /** Every lookup names its app by an id without colons, as a uuid is. */
  predicate PlainIds(es: seq<Event>) {
    forall i :: 0 <= i < |es| && es[i].Get? ==> NoColon(es[i].query.appId)
  }

  // ---- Bounded staleness ----

  /** At some recorded moment in [lo, hi] these were the user's features. */
  ghost predicate WasTrue(log: seq<Moment>, q: Lookup, features: seq<string>, lo: int, hi: nat) {
    exists i :: 0 <= i < |log| && lo <= log[i].now <= hi && FeaturesIn(log[i].truth, q.userId, q.appId) == features
  }

  lemma WasTrueLater(log: seq<Moment>, more: seq<Moment>, q: Lookup, features: seq<string>, lo: int, hi: nat)
    requires WasTrue(log, q, features, lo, hi)
    ensures WasTrue(log + more, q, features, lo, hi)
  {
    var i :| 0 <= i < |log| && lo <= log[i].now <= hi && FeaturesIn(log[i].truth, q.userId, q.appId) == features;
    assert (log + more)[i] == log[i];
  }

  ghost predicate EntryTrue(log: seq<Moment>, key: string, e: Entry<seq<string>>, delta: nat, now: nat) {
    exists q: Lookup :: Key(q) == key && NoColon(q.appId)
      && WasTrue(log, q, e.value, e.expiresAt - PERM_TTL_MS - delta, now)
  }

  ghost predicate PendingTrue(log: seq<Moment>, p: Pending, now: nat) {
    && NoColon(p.query.appId)
    && (p.Resolved? ==> p.resolvedAt <= now && WasTrue(log, p.query, p.features, p.resolvedAt, p.resolvedAt))
  }

  /** The answer was the truth at some moment of the last `delta` plus sixty seconds. */
  ghost predicate Explained(log: seq<Moment>, a: Answer, delta: nat) {
    WasTrue(log, a.query, a.features, a.at - 60 * 1000 - delta, a.at)
  }

  ghost predicate Inv(w: World, delta: nat) {
    && |w.log| > 0 && w.log[|w.log| - 1] == Moment(w.now, w.truth)
    && (forall key :: key in w.cache ==> EntryTrue(w.log, key, w.cache[key], delta, w.now))
    && (forall k :: k in w.pending ==> PendingTrue(w.log, w.pending[k], w.now))
    && (forall i :: 0 <= i < |w.answers| ==> Explained(w.log, w.answers[i], delta))
  }

  lemma WasTrueWider(log: seq<Moment>, q: Lookup, features: seq<string>, lo: int, hi: nat, lo': int, hi': nat)
    requires WasTrue(log, q, features, lo, hi) && lo' <= lo && hi <= hi'
    ensures WasTrue(log, q, features, lo', hi')
  {
  }

  /** Recording one more moment, at or after now, keeps everything explained. */
  lemma LogGrows(w: World, now: nat, truth: Truth, delta: nat)
    requires Inv(w, delta) && w.now <= now
    ensures Inv(w.(now := now, truth := truth, log := w.log + [Moment(now, truth)]), delta)
  {
    var more := [Moment(now, truth)];
    forall key | key in w.cache ensures EntryTrue(w.log + more, key, w.cache[key], delta, now) {
      var e := w.cache[key];
      var lo := e.expiresAt - PERM_TTL_MS - delta;
      var q: Lookup :| Key(q) == key && NoColon(q.appId) && WasTrue(w.log, q, e.value, lo, w.now);
      WasTrueLater(w.log, more, q, e.value, lo, w.now);
      WasTrueWider(w.log + more, q, e.value, lo, w.now, lo, now);
    }
    forall k | k in w.pending ensures PendingTrue(w.log + more, w.pending[k], now) {
      var p := w.pending[k];
      if p.Resolved? {
        WasTrueLater(w.log, more, p.query, p.features, p.resolvedAt, p.resolvedAt);
      }
    }
    forall i | 0 <= i < |w.answers| ensures Explained(w.log + more, w.answers[i], delta) {
      var a := w.answers[i];
      WasTrueLater(w.log, more, a.query, a.features, a.at - PERM_TTL_MS - delta, a.at);
    }
  }

  /** A hit: the live entry was written for the same user and app, because keys are injective. */
  lemma HitExplained(w: World, q: Lookup, delta: nat)
    requires Inv(w, delta) && NoColon(q.appId) && Live(w.cache, Key(q), w.now)
    ensures Explained(w.log, Answer(q, w.cache[Key(q)].value, w.now), delta)
  {
    var e := w.cache[Key(q)];
    var q': Lookup :|
      Key(q') == Key(q) && NoColon(q'.appId) && WasTrue(w.log, q', e.value, e.expiresAt - PERM_TTL_MS - delta, w.now);
    PermKeyInjective(q.userId, q.appId, q.roleVersion, q'.userId, q'.appId, q'.roleVersion);
    WasTrueWider(w.log, q, e.value, e.expiresAt - PERM_TTL_MS - delta, w.now, w.now - PERM_TTL_MS - delta, w.now);
  }

  lemma ResolveKeeps(w: World, call: Id, delta: nat)
    requires Inv(w, delta)
    ensures Inv(Act(w, Resolve(call)), delta)
  {
  }

  lemma StoreKeeps(w: World, call: Id, delta: nat)
    requires Inv(w, delta) && Timely(w, Event.Store(call), delta)
    ensures Inv(Act(w, Event.Store(call)), delta)
  {
  }

  lemma GetKeeps(w: World, call: Id, q: Lookup, delta: nat)
    requires Inv(w, delta) && NoColon(q.appId)
    ensures Inv(Act(w, Event.Get(call, q)), delta)
  {
    if Live(w.cache, Key(q), w.now) {
      HitExplained(w, q, delta);
    } else {
      assert PendingTrue(w.log, Missed(q), w.now);
    }
  }

  lemma ActKeeps(w: World, e: Event, delta: nat)
    requires Inv(w, delta) && Timely(w, e, delta) && !e.Tick? && !e.Change?
    requires e.Get? ==> NoColon(e.query.appId)
    ensures Inv(Act(w, e), delta)
  {
    match e
    case Get(call, q) => GetKeeps(w, call, q, delta);
    case Resolve(call) => ResolveKeeps(w, call, delta);
    case Store(call) => StoreKeeps(w, call, delta);
  }

  lemma StepKeeps(w: World, e: Event, delta: nat)
    requires Inv(w, delta) && Timely(w, e, delta)
    requires e.Get? ==> NoColon(e.query.appId)
    ensures Inv(Step(w, e), delta)
  {
    var w' := Act(w, e);
    if e.Tick? || e.Change? {
      LogGrows(w, w'.now, w'.truth, delta);
    } else {
      ActKeeps(w, e, delta);
      LogGrows(w', w'.now, w'.truth, delta);
    }
  }

  lemma {:induction false} RunKeeps(truth: Truth, es: seq<Event>, delta: nat)
    requires TimelyRun(Start(truth), es, delta) && PlainIds(es)
    ensures Inv(Run(Start(truth), es), delta)
  {
    if es == [] {
    } else {
      RunKeeps(truth, es[..|es| - 1], delta);
      StepKeeps(Run(Start(truth), es[..|es| - 1]), es[|es| - 1], delta);
    }
  }

  /**
   * Under arbitrary database changes and any interleaving, every answer given at time t was the true resolution at
   * some moment of [t - 60 s - delta, t].
   */
  lemma BoundedStaleness(truth: Truth, es: seq<Event>, delta: nat, i: nat)
    requires TimelyRun(Start(truth), es, delta) && PlainIds(es)
    requires i < |Run(Start(truth), es).answers|
    ensures Explained(Run(Start(truth), es).log, Run(Start(truth), es).answers[i], delta)
  {
    RunKeeps(truth, es, delta);
  }

  // ---- What is cached: the last store, to the letter ----

  /** The call writes the cache under this key. */
  predicate Fires(w: World, e: Event, key: string) {
    e.Store? && e.call in w.pending && w.pending[e.call].Resolved? && Key(w.pending[e.call].query) == key
  }

  /** The last list written under the key in this run, and when it expires; before the first one, what was there. */
  ghost function LastStore(w: World, es: seq<Event>, key: string): Option<Entry<seq<string>>> {
    if es == [] then if key in w.cache then Some(w.cache[key]) else None
    else
      var before, e := Run(w, es[..|es| - 1]), es[|es| - 1];
      if Fires(before, e, key) then Some(Entry(before.pending[e.call].features, before.now + PERM_TTL_MS))
      else LastStore(w, es[..|es| - 1], key)
  }

  ghost predicate CacheHas(w: World, key: string, last: Option<Entry<seq<string>>>) {
    (key in w.cache <==> last.Some?) && (key in w.cache ==> Some(w.cache[key]) == last)
  }

  lemma StepOnKey(w: World, e: Event, key: string)
    ensures CacheHas(Step(w, e), key,
      if Fires(w, e, key) then Some(Entry(w.pending[e.call].features, w.now + PERM_TTL_MS))
      else if key in w.cache then Some(w.cache[key]) else None)
  {
  }

  /** No change of the database, and nothing but a store under the very key, ever touches a cached list. */
  lemma {:induction false} CacheIsLastStore(w: World, es: seq<Event>, key: string)
    ensures CacheHas(Run(w, es), key, LastStore(w, es, key))
  {
    if es == [] {
    } else {
      CacheIsLastStore(w, es[..|es| - 1], key);
      StepOnKey(Run(w, es[..|es| - 1]), es[|es| - 1], key);
    }
  }

  lemma RunSnoc(w: World, es: seq<Event>, e: Event)
    ensures Run(w, es + [e]) == Step(Run(w, es), e)
  {
  }

  /** No store under the key happens in this run. */
  ghost predicate Quiet(w: World, es: seq<Event>, key: string) {
    es == [] || (Quiet(w, es[..|es| - 1], key) && !Fires(Run(w, es[..|es| - 1]), es[|es| - 1], key))
  }

  lemma {:induction false} QuietKeepsLast(w: World, es: seq<Event>, key: string)
    requires Quiet(w, es, key)
    ensures LastStore(w, es, key) == if key in w.cache then Some(w.cache[key]) else None
  {
    if es == [] {
    } else {
      QuietKeepsLast(w, es[..|es| - 1], key);
    }
  }

  /**
   * From any state: a list stored now is served under its key until exactly sixty seconds from now, whatever the
   * database says by then, as long as nothing else is stored under the key.
   */
  lemma ServedUntilExpiry(w: World, call: Id, w': World, es: seq<Event>, key: string)
    requires Fires(w, Event.Store(call), key) && w' == Step(w, Event.Store(call)) && Quiet(w', es, key)
    ensures var end := Run(w', es);
      Redis.Get(end.cache, key, end.now) ==
      if end.now < w.now + 60 * 1000 then Some(w.pending[call].features) else None
  {
    StepOnKey(w, Event.Store(call), key);
    QuietKeepsLast(w', es, key);
    CacheIsLastStore(w', es, key);
  }

  // ---- What a lookup answers ----

  /** The lookup finds a list stored under its key less than sixty seconds ago. */
  ghost predicate Recent(last: Option<Entry<seq<string>>>, now: nat) { last.Some? && now < last.value.expiresAt }

  /** A lookup, and after a miss its resolution and its store, with nothing in between. */
  function LookUp(w: World, call: Id, q: Lookup): World {
    Step(Step(Step(w, Event.Get(call, q)), Resolve(call)), Event.Store(call))
  }

  lemma LookUpAnswers(w: World, call: Id, q: Lookup)
    ensures LookUp(w, call, q).answers == w.answers + [Answer(q,
      if Live(w.cache, Key(q), w.now) then w.cache[Key(q)].value else FeaturesIn(w.truth, q.userId, q.appId), w.now)]
  {
    var w1 := Step(w, Event.Get(call, q));
    if Live(w.cache, Key(q), w.now) {
      assert call !in w1.pending;
      assert Step(w1, Resolve(call)).pending == w1.pending;
    } else {
      assert w1.pending[call] == Missed(q);
      assert Step(w1, Resolve(call)).pending[call] == Resolved(q, FeaturesIn(w.truth, q.userId, q.appId), w.now);
    }
  }

  /**
   * In every run: a lookup answers what was last stored under its key if that was less than sixty seconds ago, and the
   * database otherwise. So it answers the present truth exactly if no store under the key was that recent, or the list
   * stored then still is the truth.
   */
  lemma LookUpCurrentIff(truth: Truth, es: seq<Event>, call: Id, q: Lookup)
    ensures var w, last := Run(Start(truth), es), LastStore(Start(truth), es, Key(q));
      var now := FeaturesIn(w.truth, q.userId, q.appId);
      && LookUp(w, call, q).answers ==
         w.answers + [Answer(q, if Recent(last, w.now) then last.value.value else now, w.now)]
      && (LookUp(w, call, q).answers[|w.answers|].features == now <==>
          (Recent(last, w.now) ==> last.value.value == now))
  {
    CacheIsLastStore(Start(truth), es, Key(q));
    LookUpAnswers(Run(Start(truth), es), call, q);
  }
}
