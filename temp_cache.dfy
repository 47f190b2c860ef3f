/** A cache whose units expire (the cache of parsed saved requests). Time is a number of
    milliseconds passed in by the caller in place of LocalDateTime.now(). A hash map's
    iteration order is not specified, and getCachedUnit depends on it, so that method takes the
    order in which the iterator visits the keys as a parameter. */
module TempCaches {
  import opened Wrappers

  /** Fifteen minutes, in milliseconds. */
  const CACHE_PERIOD_DEFAULT: int := 900000

  /** TempCache.Unit: a cached value and the time it was last read. */
  class Unit<T> {
    const cacheUnit: T
    var lastAccessedAt: int

    constructor (cacheUnit: T, now: int)
      ensures this.cacheUnit == cacheUnit && lastAccessedAt == now
    {
      this.cacheUnit := cacheUnit;
      lastAccessedAt := now;
    }

    method SetAccessTimestamp(timestamp: int)
      modifies this
      ensures lastAccessedAt == timestamp
    {
      lastAccessedAt := timestamp;
    }
  }

  /** `order` visits every key of `keys` exactly once. */
  predicate IterationOrder(order: seq<string>, keys: set<string>) {
    (forall i :: 0 <= i < |order| ==> order[i] in keys)
    && (forall k :: k in keys ==> k in order)
    && (forall i, j :: 0 <= i < j < |order| ==> order[i] != order[j])
  }

  /** What getCachedUnit finds as written: every entry that does not match resets the result
      to null, so it finds the key only when the key is the last one visited. */
  predicate LastVisited(order: seq<string>, key: string) {
    |order| > 0 && order[|order| - 1] == key
  }

  /** A hit is a key of the cache. */
  lemma LastVisitedIsPresent(order: seq<string>, keys: set<string>, key: string)
    requires IterationOrder(order, keys) && LastVisited(order, key)
    ensures key in keys
  {
  }

  /** Some order visiting every key of `keys` once. */
  ghost function Enumerate(keys: set<string>): (order: seq<string>)
    ensures IterationOrder(order, keys) && |order| == |keys|
  {
    if keys == {} then []
    else
      var k :| k in keys;
      var rest := Enumerate(keys - {k});
      assert forall x :: x in keys ==> x == k || x in keys - {k};
      [k] + rest
  }

  /** As written, a present key can be missed: with a second key in the cache, an iterator
      that visits the key first returns null. */
  lemma {:induction false} PresentKeyCanBeMissed(keys: set<string>, key: string, other: string)
    requires key in keys && other in keys && other != key
    ensures exists order :: IterationOrder(order, keys) && !LastVisited(order, key)
  {
    var rest := Enumerate(keys - {key});
    var order := [key] + rest;
    assert other in keys - {key};
    assert |rest| > 0;
    assert order[|order| - 1] == rest[|rest| - 1] && rest[|rest| - 1] in keys - {key};
    forall k | k in keys ensures k in order {
      if k != key {
        assert k in keys - {key};
      }
    }
    assert IterationOrder(order, keys);
  }

  /** The entries still within their period at `now`. */
  function Live<T>(m: map<string, Unit<T>>, period: int, now: int): (r: map<string, Unit<T>>)
    reads m.Values
    ensures forall k :: k in r <==> k in m && !(m[k].lastAccessedAt + period < now)
    ensures forall k :: k in r ==> r[k] == m[k]
  {
    map k | k in m && !(m[k].lastAccessedAt + period < now) :: m[k]
  }

  /** The access stamps after a lookup of `key` at `now` in the cache that held `units`: the
      unit under the key, if any, carries `now`, and every other unit keeps the stamp it had. */
  twostate predicate Stamped<T>(units: map<string, Unit<T>>, key: string, now: int)
    reads units.Values
  {
    (key in units ==> units[key].lastAccessedAt == now)
    && forall k :: k in units && (key !in units || units[k] != units[key]) ==>
         units[k].lastAccessedAt == old(units[k].lastAccessedAt)
  }

  /** Every unit of `units` keeps the stamp it had. */
  twostate predicate Untouched<T>(units: map<string, Unit<T>>)
    reads units.Values
  {
    forall k :: k in units ==> units[k].lastAccessedAt == old(units[k].lastAccessedAt)
  }

  /** Stamped under `key` when a lookup took place, untouched otherwise. */
  twostate predicate StampedIf<T>(lookedUp: bool, units: map<string, Unit<T>>, key: string, now: int)
    reads units.Values
  {
    if lookedUp then Stamped(units, key, now) else Untouched(units)
  }

  class TempCache<T> {
    var name: string
    const cachePeriod: int
    var cache: map<string, Unit<T>>

    /** The one-argument constructor: the default period of fifteen minutes. */
    constructor (name: string)
      ensures this.name == name && cachePeriod == CACHE_PERIOD_DEFAULT && cache == map[]
    {
      this.name := name;
      cachePeriod := CACHE_PERIOD_DEFAULT;
      cache := map[];
    }

    constructor WithPeriod(name: string, cachePeriod: int)
      ensures this.name == name && this.cachePeriod == cachePeriod && cache == map[]
    {
      this.name := name;
      this.cachePeriod := cachePeriod;
      cache := map[];
    }

    /** cacheUnit: insert or overwrite the entry for the key. */
    method CacheUnit(unitKey: string, cacheUnit: Unit<T>)
      modifies this
      ensures cache == old(cache)[unitKey := cacheUnit] && name == old(name)
    {
      cache := cache[unitKey := cacheUnit];
    }

    /** getCachedUnit, visiting the keys in `order`: the matching unit is stamped with `now`
        whether or not it is returned, and it is returned only when visited last. */
    method GetCachedUnit(unitKey: string, now: int, order: seq<string>) returns (r: Option<Unit<T>>)
      requires IterationOrder(order, cache.Keys)
      modifies if unitKey in cache then {cache[unitKey]} else {}
      ensures unitKey in cache ==> cache[unitKey].lastAccessedAt == now
      ensures r == if LastVisited(order, unitKey) then Some(cache[unitKey]) else None
    {
      var next: Option<Unit<T>> := None;
      for i := 0 to |order|
        invariant next == if i > 0 && order[i - 1] == unitKey then Some(cache[unitKey]) else None
        invariant unitKey in cache && unitKey in order[..i] ==> cache[unitKey].lastAccessedAt == now
      {
        var key := order[i];
        if key == unitKey {
          cache[key].SetAccessTimestamp(now);
          next := Some(cache[key]);
        } else {
          next := None;
        }
      }
      assert order[..|order|] == order;
      r := next;
    }

    /** getCachedUnit as evidently intended, stopping at the match as SimpleCache.getCachedUnit
        does: a present unit is stamped with `now` and returned whatever the iteration order. */
    method GetCachedUnitStopping(unitKey: string, now: int, order: seq<string>) returns (r: Option<Unit<T>>)
      requires IterationOrder(order, cache.Keys)
      modifies if unitKey in cache then {cache[unitKey]} else {}
      ensures unitKey in cache ==> cache[unitKey].lastAccessedAt == now
      ensures r == if unitKey in cache then Some(cache[unitKey]) else None
    {
      for i := 0 to |order|
        invariant unitKey !in order[..i]
      {
        var key := order[i];
        if key == unitKey {
          cache[key].SetAccessTimestamp(now);
          return Some(cache[key]);
        }
      }
      assert order[..|order|] == order;
      return None;
    }

    /** cleanExpiredCache: remove exactly the units whose period ended strictly before `now`. */
    method CleanExpiredCache(now: int)
      modifies this
      ensures cache == Live(old(cache), cachePeriod, now) && name == old(name)
    {
      var rest := cache.Keys;
      while rest != {}
        invariant rest <= old(cache).Keys
        invariant cache == map k | k in old(cache) && (k in rest || !(old(cache)[k].lastAccessedAt + cachePeriod < now)) :: old(cache)[k]
        invariant name == old(name)
        decreases rest
      {
        var entry :| entry in rest;
        var lastAccessTime := cache[entry].lastAccessedAt + cachePeriod;
        if lastAccessTime < now {
          cache := cache - {entry};
        }
        rest := rest - {entry};
      }
    }
  }
}
