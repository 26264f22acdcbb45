/**
 * The check endpoint over its cache: one uninterrupted call does the three steps of the interleaved protocol in a row.
 */
module CheckController {
  import opened Basics
  import opened Redis
  import opened PermCache

  class Controller {
    var now: nat
    var cache: Cache<string, seq<string>>

    constructor (now: nat)
      ensures this.now == now && cache == map[]
    {
      this.now, cache := now, map[];
    }

    method GetPermissions(q: Lookup) returns (cached: Option<seq<string>>)
      ensures cached == Redis.Get(cache, Key(q), now)
    {
      if Live(cache, Key(q), now) {
        return Some(cache[Key(q)].value);
      }
      return None;
    }

    method SetPermissions(q: Lookup, features: seq<string>)
      modifies this`cache
      ensures cache == SetEx(old(cache), Key(q), features, PERM_TTL, now)
    {
      cache := cache[Key(q) := Entry(features, now + PERM_TTL * MS_PER_SECOND)];
    }

    /** Read through: answer from the cache, or resolve, store and answer. */
    method ResolveFeatures(q: Lookup, db: Truth) returns (features: seq<string>)
      modifies this`cache
      ensures features == ReadThrough(old(cache), now, q, db)
      ensures cache == AfterRead(old(cache), now, q, db)
    {
      var cached := GetPermissions(q);
      if cached.Some? {
        return cached.value;
      }
      features := FeaturesIn(db, q.userId, q.appId);
      SetPermissions(q, features);
    }

    method CheckOne(q: Lookup, feature: string, db: Truth) returns (allowed: bool)
      modifies this`cache
      ensures allowed == Check(ReadThrough(old(cache), now, q, db), feature)
      ensures cache == AfterRead(old(cache), now, q, db)
    {
      var features := ResolveFeatures(q, db);
      allowed := feature in features;
    }

    /** The batch endpoint agrees with single checks made against the same cache and database. */
    method CheckBatch(q: Lookup, wanted: seq<string>, db: Truth) returns (results: map<string, bool>)
      modifies this`cache
      ensures results.Keys == set f | f in wanted
      ensures forall f :: f in wanted ==> results[f] == Check(ReadThrough(old(cache), now, q, db), f)
      ensures cache == AfterRead(old(cache), now, q, db)
    {
      var features := ResolveFeatures(q, db);
      results := BatchCheck(features, wanted);
    }
  }

  function ReadThrough(cache: Cache<string, seq<string>>, now: nat, q: Lookup, db: Truth): seq<string> {
    GetOr(Redis.Get(cache, Key(q), now), FeaturesIn(db, q.userId, q.appId))
  }

  function AfterRead(cache: Cache<string, seq<string>>, now: nat, q: Lookup, db: Truth): Cache<string, seq<string>> {
    if Live(cache, Key(q), now) then cache else SetEx(cache, Key(q), FeaturesIn(db, q.userId, q.appId), PERM_TTL, now)
  }

  /** The uninterrupted call is the protocol's three events in a row, so its answers are bounded in staleness too. */
  lemma CallIsThreeEvents(w: World, call: Id, q: Lookup)
    requires call !in w.pending
    ensures var w' := Act(Act(Act(w, Event.Get(call, q)), Resolve(call)), Event.Store(call));
      && w'.answers == w.answers + [Answer(q, ReadThrough(w.cache, w.now, q, w.truth), w.now)]
      && w'.cache == AfterRead(w.cache, w.now, q, w.truth)
      && w'.pending == w.pending
  {
    if !Live(w.cache, Key(q), w.now) {
      assert w.pending[call := Missed(q)] - {call} == w.pending;
      var features := FeaturesIn(w.truth, q.userId, q.appId);
      assert w.pending[call := Missed(q)][call := Resolved(q, features, w.now)] - {call} == w.pending;
    }
  }
}
