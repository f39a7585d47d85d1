/** The resource cache as an object that is updated in place and owns private copies of the resources
    it holds (internal/resource/cache.go). */
module Cache {
  import opened GoStrings
  import opened Wrappers
  import opened Cluster
  import M = CacheModel

  datatype CacheEntry = CacheEntry(resources: seq<Resource>, lastUpdated: int, namespace: string)

  /** Deep copies of a list of resources. */
  method CopyAll(resources: seq<Resource>) returns (copies: seq<Resource>)
    ensures fresh(copies) && ItemsOf(copies) == ItemsOf(resources)
  {
    copies := [];
    for i := 0 to |resources|
      invariant fresh(copies) && |copies| == i
      invariant forall j | 0 <= j < i :: copies[j].key == resources[j].key && copies[j].Value() == resources[j].Value()
    {
      var copy := resources[i].DeepCopy();
      copies := copies + [copy];
    }
  }

  /** An entry of the cache, and its value. */
  ghost predicate Holds(entry: CacheEntry, value: M.Entry)
    reads entry.resources
  {
    value == M.Entry(ItemsOf(entry.resources), entry.lastUpdated, entry.namespace)
  }

  class ResourceCache {
    var cache: map<string, CacheEntry>
    const ttl: int
    const maxEntries: int
    var hits: nat
    var misses: nat
    var evictions: nat
    ghost var lookups: nat
    /** The cache's contents as values. */
    ghost var contents: M.Contents
    /** The copies that the cache owns. */
    ghost var Repr: set<Resource>

    constructor (ttl: int, maxEntries: int)
      ensures Valid() && contents == map[] && fresh(Repr)
      ensures this.ttl == ttl && this.maxEntries == maxEntries && hits == misses == evictions == lookups == 0
    {
      cache, contents, Repr := map[], map[], {};
      this.ttl, this.maxEntries := ttl, maxEntries;
      hits, misses, evictions, lookups := 0, 0, 0, 0;
    }

    ghost predicate Valid()
      reads this`cache, this`contents, this`Repr, this`hits, this`misses, this`lookups, Repr
    {
      && "" !in cache
      && cache.Keys == contents.Keys
      && (forall k, r | k in cache && r in cache[k].resources :: r in Repr)
      && (forall k | k in cache :: Holds(cache[k], contents[k]))
      && |contents| <= M.Bound(maxEntries)
      && hits + misses == lookups
    }

    /** A hit hands out fresh copies, so that nothing the caller does to them reaches the cache. */
    method GetCachedResources(q: M.Query, now: int) returns (resources: seq<Resource>, found: bool)
      requires Valid()
      modifies this`hits, this`misses, this`lookups
      ensures Valid() && contents == old(contents)
      ensures found <==> M.Hits(contents, q, now, ttl)
      ensures found ==> fresh(resources) && ItemsOf(resources) == contents[M.CacheKey(q)].items
      ensures !found ==> resources == []
      ensures lookups == old(lookups) + 1
      ensures hits == old(hits) + (if found then 1 else 0) && misses == old(misses) + if found then 0 else 1
    {
      lookups := lookups + 1;
      var key := M.CacheKey(q);
      if key in cache && now - cache[key].lastUpdated <= ttl {
        hits := hits + 1;
        resources := CopyAll(cache[key].resources);
        found := true;
      } else {
        misses := misses + 1;
        resources, found := [], false;
      }
    }

    /** The loop of evictOldestEntry finds an oldest entry in every iteration order; "" stands for none
        yet, which no key of the cache equals. */
    method FindOldest() returns (oldestKey: string)
      requires Valid()
      ensures if contents == map[] then oldestKey == "" else oldestKey != "" && M.Oldest(contents, oldestKey)
    {
      oldestKey := "";
      var oldestTime := 0;
      var remaining := cache.Keys;
      while remaining != {}
        invariant remaining <= cache.Keys
        invariant oldestKey == "" <==> remaining == cache.Keys
        invariant oldestKey != "" ==> oldestKey in cache && oldestTime == cache[oldestKey].lastUpdated
        invariant forall k | k in cache && k !in remaining :: oldestTime <= cache[k].lastUpdated
        decreases |remaining|
      {
        var key :| key in remaining;
        if oldestKey == "" || cache[key].lastUpdated < oldestTime {
          oldestKey, oldestTime := key, cache[key].lastUpdated;
        }
        remaining := remaining - {key};
      }
    }

    method EvictOldestEntry() returns (ghost victim: Option<string>)
      requires Valid()
      modifies this`cache, this`contents, this`evictions
      ensures Valid() && contents == M.WithoutVictim(old(contents), victim)
      ensures if old(contents) == map[] then victim == None else victim.Some? && M.Oldest(old(contents), victim.value)
      ensures evictions == old(evictions) + if victim.Some? then 1 else 0
    {
      var oldestKey := FindOldest();
      victim := None;
      if oldestKey != "" {
        victim := Some(oldestKey);
        DeleteKeys({oldestKey});
        evictions := evictions + 1;
      }
    }

    method MakeRoom() returns (ghost victim: Option<string>)
      requires Valid()
      modifies this`cache, this`contents, this`evictions
      ensures Valid() && contents == M.WithoutVictim(old(contents), victim)
      ensures M.MayEvict(old(contents), maxEntries, victim)
      ensures evictions == old(evictions) + if victim.Some? then 1 else 0
    {
      SameSize(cache, contents);
      victim := None;
      if |cache| >= maxEntries {
        victim := EvictOldestEntry();
      }
    }

    /** Stores fresh copies, evicting an oldest entry first if the cache is full. */
    method CacheResources(q: M.Query, resources: seq<Resource>, now: int) returns (ghost victim: Option<string>)
      requires Valid()
      modifies this`cache, this`contents, this`evictions, this`Repr
      ensures Valid() && fresh(Repr - old(Repr))
      ensures M.MayEvict(old(contents), maxEntries, victim)
      ensures contents == M.Stored(old(contents), victim, q, old(ItemsOf(resources)), now)
      ensures evictions == old(evictions) + if victim.Some? then 1 else 0
    {
      ghost var items := ItemsOf(resources);
      victim := MakeRoom();
      var copies := CopyAll(resources);
      M.StoredIsBounded(old(contents), maxEntries, victim, q, items, now);
      Insert(M.CacheKey(q), CacheEntry(copies, now, q.namespace), M.Entry(items, now, q.namespace));
    }

    method Insert(key: string, entry: CacheEntry, ghost value: M.Entry)
      requires Valid() && key != "" && Holds(entry, value)
      requires |contents[key := value]| <= M.Bound(maxEntries)
      modifies this`cache, this`contents, this`Repr
      ensures Valid() && Repr == old(Repr) + set r | r in entry.resources
      ensures contents == old(contents)[key := value]
    {
      Repr := Repr + set r | r in entry.resources;
      cache, contents := cache[key := entry], contents[key := value];
    }

    /** The keys of the entries in a namespace that mention a resource type; "" stands for any. */
    method KeysToInvalidate(namespace: string, resourceType: string) returns (keysToDelete: set<string>)
      requires Valid()
      ensures keysToDelete == set k | k in contents && M.Invalidates(k, contents[k], namespace, resourceType)
    {
      keysToDelete := {};
      var remaining := cache.Keys;
      while remaining != {}
        invariant remaining <= cache.Keys
        invariant keysToDelete == set k | k in cache.Keys - remaining
          && M.Invalidates(k, contents[k], namespace, resourceType)
        decreases |remaining|
      {
        var key :| key in remaining;
        remaining := remaining - {key};
        if namespace != "" && cache[key].namespace != namespace {
          continue;
        }
        if resourceType != "" && !Contains(key, resourceType) {
          continue;
        }
        keysToDelete := keysToDelete + {key};
      }
    }

    /** Drops the entries that a write may have made stale. */
    method InvalidateCache(namespace: string, resourceType: string)
      requires Valid()
      modifies this`cache, this`contents
      ensures Valid() && contents == M.Invalidated(old(contents), namespace, resourceType)
    {
      var keysToDelete := KeysToInvalidate(namespace, resourceType);
      assert contents - keysToDelete == M.Invalidated(contents, namespace, resourceType);
      DeleteKeys(keysToDelete);
    }

    method DeleteKeys(keys: set<string>)
      requires Valid()
      modifies this`cache, this`contents
      ensures Valid() && contents == old(contents) - keys
    {
      M.SubmapIsSmaller(contents - keys, contents);
      cache, contents := cache - keys, contents - keys;
    }

    method ExpiredKeys(now: int) returns (keysToDelete: set<string>)
      requires Valid()
      ensures keysToDelete == set k | k in contents && M.Expired(contents[k], now, ttl)
    {
      keysToDelete := {};
      var remaining := cache.Keys;
      while remaining != {}
        invariant remaining <= cache.Keys
        invariant keysToDelete == set k | k in cache.Keys - remaining && M.Expired(contents[k], now, ttl)
        decreases |remaining|
      {
        var key :| key in remaining;
        remaining := remaining - {key};
        if now - cache[key].lastUpdated > ttl {
          keysToDelete := keysToDelete + {key};
        }
      }
    }

    method InvalidateExpiredEntries(now: int)
      requires Valid()
      modifies this`cache, this`contents, this`evictions
      ensures Valid() && contents == M.Swept(old(contents), now, ttl)
      ensures evictions == old(evictions) + |set k | k in old(contents) && M.Expired(old(contents)[k], now, ttl)|
    {
      var keysToDelete := ExpiredKeys(now);
      assert contents - keysToDelete == M.Swept(contents, now, ttl);
      evictions := evictions + |keysToDelete|;
      DeleteKeys(keysToDelete);
    }

    method ClearCache()
      requires Valid()
      modifies this`cache, this`contents
      ensures Valid() && contents == map[]
    {
      cache, contents := map[], map[];
    }
  }

  lemma SameSize(a: map<string, CacheEntry>, b: M.Contents)
    requires a.Keys == b.Keys
    ensures |a| == |b|
  {
    assert |a| == |a.Keys| && |b| == |b.Keys|;
  }
}
