/** A named cache of units keyed by string (the template cache). The source keeps the units in
    a ConcurrentHashMap; here the map is a field the methods reassign, and each iterator loop
    visits the keys in an order it does not rely on. */
module SimpleCaches {
  import opened Wrappers

  /** Map.get: the unit stored under the key, or null. */
  function Lookup<T>(m: map<string, T>, key: string): (r: Option<T>)
    ensures r.Some? <==> key in m
    ensures r.Some? ==> r.value == m[key]
  {
    if key in m then Some(m[key]) else None
  }

  /** The entries whose keys are in the list. */
  function Retain<T>(m: map<string, T>, keys: seq<string>): (r: map<string, T>)
    ensures r.Keys == m.Keys * set k | k in keys
    ensures forall k :: k in r ==> r[k] == m[k]
  {
    map k | k in m && k in keys :: m[k]
  }

  /** Storing a unit makes it the one found under its key and leaves every other key as it
      was. */
  lemma LookupAfterStore<T>(m: map<string, T>, key: string, unit: T, other: string)
    ensures Lookup(m[key := unit], key) == Some(unit)
    ensures other != key ==> Lookup(m[key := unit], other) == Lookup(m, other)
  {
  }

  /** Removing a key makes it absent and leaves every other key as it was. */
  lemma LookupAfterRemove<T>(m: map<string, T>, key: string, other: string)
    ensures Lookup(m - {key}, key) == None
    ensures other != key ==> Lookup(m - {key}, other) == Lookup(m, other)
  {
  }

  /** Pruning twice against the same list prunes nothing more. */
  lemma RetainIdempotent<T>(m: map<string, T>, keys: seq<string>)
    ensures Retain(Retain(m, keys), keys) == Retain(m, keys)
  {
  }

  /** Pruning keeps a unit exactly when its key is listed. */
  lemma RetainLookup<T>(m: map<string, T>, keys: seq<string>, key: string)
    ensures Lookup(Retain(m, keys), key) == if key in keys then Lookup(m, key) else None
  {
  }

  class SimpleCache<T> {
    var name: string
    var cache: map<string, T>

    constructor (name: string)
      ensures this.name == name && cache == map[]
    {
      this.name := name;
      cache := map[];
    }

    /** cacheUnit: put the unit under its key. */
    method CacheUnit(unitKey: string, cacheUnit: T)
      modifies this
      ensures cache == old(cache)[unitKey := cacheUnit] && name == old(name)
    {
      cache := cache[unitKey := cacheUnit];
    }

    /** getCachedUnit: scan the entries for the key. */
    method GetCachedUnit(unitKey: string) returns (r: Option<T>)
      ensures r == Lookup(cache, unitKey)
    {
      var rest := cache.Keys;
      while rest != {}
        invariant rest <= cache.Keys
        invariant unitKey in cache ==> unitKey in rest
        decreases rest
      {
        var next :| next in rest;
        if next == unitKey {
          return Some(cache[next]);
        }
        rest := rest - {next};
      }
      return None;
    }

    /** clearCachedUnit: remove, through the iterator, every entry with the key. */
    method ClearCachedUnit(unitKey: string)
      modifies this
      ensures cache == old(cache) - {unitKey} && name == old(name)
    {
      var rest := cache.Keys;
      while rest != {}
        invariant rest <= old(cache).Keys
        invariant cache == map k | k in old(cache) && (k in rest || k != unitKey) :: old(cache)[k]
        invariant name == old(name)
        decreases rest
      {
        var next :| next in rest;
        if next == unitKey {
          cache := cache - {next};
        }
        rest := rest - {next};
      }
    }

    /** clearCachedUnitExcept: remove every entry whose key is not in the list. */
    method ClearCachedUnitExcept(effectiveKeys: seq<string>)
      modifies this
      ensures cache == Retain(old(cache), effectiveKeys) && name == old(name)
    {
      var rest := cache.Keys;
      while rest != {}
        invariant rest <= old(cache).Keys
        invariant cache == map k | k in old(cache) && (k in rest || k in effectiveKeys) :: old(cache)[k]
        invariant name == old(name)
        decreases rest
      {
        var next :| next in rest;
        if next !in effectiveKeys {
          cache := cache - {next};
        }
        rest := rest - {next};
      }
    }

    /** getSize: the number of stored units. */
    function GetSize(): (r: nat)
      reads this
      ensures r == |cache.Keys|
    {
      |cache|
    }
  }
}
