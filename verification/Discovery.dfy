/** Finding a rule's resources through the cache (internal/resource/manager.go). */
module Discovery {
  import opened Cache
  import opened Cluster
  import opened Manager
  import opened Stores
  import opened QuietWorld
  import opened Wrappers
  import M = CacheModel

  datatype ManagerError = ValidationFailed | SelectorFailed | SomeResourcesFailed

  /** The cache holds states that the server has been in. */
  ghost predicate CacheKnown(contents: M.Contents, history: History) {
    forall k | k in contents :: Known(contents[k].items, history)
  }

  /** What is known stays known. */
  lemma CacheStaysKnown(contents: M.Contents, earlier: History, later: History)
    requires CacheKnown(contents, earlier) && Extends(earlier, later)
    ensures CacheKnown(contents, later)
  {
    forall k | k in contents
      ensures Known(contents[k].items, later)
    {
      assert Known(contents[k].items, earlier);
    }
  }

  /* Listing. */

  /** What a list request for one type returns: nothing if the type is unsupported or the request fails. */
  function Listed(s: Store, script: seq<Turn>, kind: string, q: M.Query, lister: M.Lister): seq<Item>
    requires M.Arranges(lister)
  {
    if kind !in M.SUPPORTED_TYPES || Faulty(script) then []
    else M.ListType(Arrival(s, script).objects, kind, q, lister)
  }

  /** What the requests for the types of a query return one after the other, behind what came before. */
  function Fetched(
    before: seq<Item>, s: Store, script: seq<Turn>, types: seq<string>, q: M.Query, lister: M.Lister): seq<Item>
    requires M.Arranges(lister)
    decreases types
  {
    if types == [] then before
    else
      var items := before + Listed(s, script, types[0], q, lister);
      if types[0] in M.SUPPORTED_TYPES then Fetched(items, Arrival(s, script), Rest(script), types[1..], q, lister)
      else Fetched(items, s, script, types[1..], q, lister)
  }

  lemma Regroup(a: seq<Item>, b: seq<Item>, c: seq<Item>)
    ensures a + b + c == a + (b + c)
  {
  }

  /** With nobody else about, that is the listing. */
  lemma {:induction false} QuietFetched(
    before: seq<Item>, s: Store, script: seq<Turn>, types: seq<string>, q: M.Query, lister: M.Lister)
    requires M.Arranges(lister) && QuietScript(script)
    ensures Fetched(before, s, script, types, q, lister) == before + M.ListTypes(s.objects, types, q, lister)
    decreases types
  {
    if types == [] {
    } else {
      QuietArrival(s, script);
      var items := Listed(s, script, types[0], q, lister);
      var rest := M.ListTypes(s.objects, types[1..], q, lister);
      QuietFetched(
        before + items, s, if types[0] in M.SUPPORTED_TYPES then Rest(script) else script, types[1..], q, lister);
      Regroup(before, items, rest);
    }
  }

  method BuildResources(objects: Objects, keys: seq<ObjectKey>) returns (resources: seq<Resource>)
    requires forall k | k in keys :: k in objects
    ensures fresh(resources) && ItemsOf(resources) == M.Items(objects, keys)
  {
    resources := [];
    for i := 0 to |keys|
      invariant |resources| == i && fresh(resources)
      invariant forall j | 0 <= j < i :: resources[j].key == keys[j] && resources[j].Value() == objects[keys[j]]
    {
      assert keys[i] in keys;
      var r := new Resource(keys[i], objects[keys[i]]);
      resources := resources + [r];
    }
  }

  lemma ListTypeIsKnown(s: Store, kind: string, q: M.Query, lister: M.Lister)
    requires Consistent(s) && M.Arranges(lister)
    ensures Known(M.ListType(s.objects, kind, q, lister), s.history)
  {
    forall item | item in M.ListType(s.objects, kind, q, lister)
      ensures (item.0, item.1.version) in s.history && s.history[(item.0, item.1.version)] == item.1
    {
      M.ListedOfType(s.objects, kind, q, lister, item);
    }
  }

  /** One list request: the selected objects as fresh resources. */
  method ListOneType(server: ApiServer, kind: string, q: M.Query, lister: M.Lister) returns (resources: seq<Resource>)
    requires server.Valid() && M.Arranges(lister)
    modifies server`objects, server`revision, server`history, server`newest, server`script
    ensures server.Valid() && Follows(server.Now(), old(server.Now()))
    ensures fresh(resources) && ItemsOf(resources) == old(Listed(server.Now(), server.script, kind, q, lister))
    ensures Known(ItemsOf(resources), server.history)
    ensures kind in M.SUPPORTED_TYPES ==>
      server.Now() == old(server.AtRequest()) && server.script == Rest(old(server.script))
    ensures kind !in M.SUPPORTED_TYPES ==> server.Now() == old(server.Now()) && server.script == old(server.script)
  {
    if kind !in M.SUPPORTED_TYPES {
      return [];
    }
    server.ArrivalIsValid();
    var fault := server.PlayTurn();
    if fault {
      return [];
    }
    ListTypeIsKnown(server.Now(), kind, q, lister);
    resources := BuildResources(server.objects, lister.arrange(M.Selected(server.objects, kind, q, lister)));
  }

  lemma ItemsOfConcat(a: seq<Resource>, b: seq<Resource>)
    ensures ItemsOf(a + b) == ItemsOf(a) + ItemsOf(b)
  {
  }

  /** All types of a query, in turn. */
  method ListAllTypes(server: ApiServer, q: M.Query, lister: M.Lister) returns (resources: seq<Resource>)
    requires server.Valid() && M.Arranges(lister)
    modifies server`objects, server`revision, server`history, server`newest, server`script
    ensures server.Valid() && Follows(server.Now(), old(server.Now()))
    ensures fresh(resources)
      && ItemsOf(resources) == old(Fetched([], server.Now(), server.script, q.resourceTypes, q, lister))
    ensures Known(ItemsOf(resources), server.history)
    ensures old(server.Quiet()) ==> server.Quiet() && server.objects == old(server.objects)
  {
    resources := [];
    ghost var items: seq<Item> := [];
    var types := q.resourceTypes;
    ghost var start, script, quiet := server.Now(), server.script, server.Quiet();
    for i := 0 to |types|
      invariant server.Valid() && Follows(server.Now(), start)
      invariant fresh(resources) && ItemsOf(resources) == items && Known(items, server.history)
      invariant Fetched(items, server.Now(), server.script, types[i..], q, lister)
             == Fetched([], start, script, types, q, lister)
      invariant quiet ==> server.Quiet() && server.objects == start.objects
    {
      assert types[i..][0] == types[i] && types[i..][1..] == types[i + 1..];
      QuietRounds(server.Now(), server.script);
      var some := ListOneType(server, types[i], q, lister);
      ItemsOfConcat(resources, some);
      items := items + ItemsOf(some);
      resources := resources + some;
    }
    assert types[|types|..] == [];
  }

  /* Through the cache. */

  /** What a query is answered: the entry that it hits, or what is fetched now. */
  function Answered(
    s: Store, script: seq<Turn>, contents: M.Contents, q: M.Query, now: int, ttl: int, lister: M.Lister): seq<Item>
    requires M.Arranges(lister)
  {
    if M.Hits(contents, q, now, ttl) then contents[M.CacheKey(q)].items
    else if q.selector.Inconvertible? then []
    else Fetched([], s, script, q.resourceTypes, q, lister)
  }

  /** The cache behind a query: as it was after a hit or an error, and otherwise with the answer stored. */
  ghost predicate Cached(
    earlier: M.Contents, later: M.Contents, q: M.Query, items: seq<Item>, now: int, ttl: int, maxEntries: int,
    victim: Option<string>)
  {
    if M.Hits(earlier, q, now, ttl) || q.selector.Inconvertible? then later == earlier
    else M.MayEvict(earlier, maxEntries, victim) && later == M.Stored(earlier, victim, q, items, now)
  }

  /** Each query gets its answer, and fails exactly on a selector that cannot be converted and misses. */
  method GetMatchingResources(server: ApiServer, cache: ResourceCache, q: M.Query, lister: M.Lister, now: int)
    returns (err: Option<ManagerError>, resources: seq<Resource>, ghost victim: Option<string>)
    requires server.Valid() && cache.Valid() && M.Arranges(lister) && CacheKnown(cache.contents, server.history)
    modifies server`objects, server`revision, server`history, server`newest, server`script, cache
    ensures server.Valid() && Follows(server.Now(), old(server.Now()))
    ensures cache.Valid() && CacheKnown(cache.contents, server.history)
    ensures err ==
      if q.selector.Inconvertible? && !M.Hits(old(cache.contents), q, now, cache.ttl) then Some(SelectorFailed)
      else None
    ensures fresh(resources) && Known(ItemsOf(resources), server.history)
    ensures ItemsOf(resources) == old(Answered(server.Now(), server.script, cache.contents, q, now, cache.ttl, lister))
    ensures Cached(old(cache.contents), cache.contents, q, ItemsOf(resources), now, cache.ttl, cache.maxEntries, victim)
    ensures old(server.Quiet()) ==> server.Quiet() && server.objects == old(server.objects)
  {
    victim := None;
    var found: bool;
    resources, found := cache.GetCachedResources(q, now);
    if found {
      return None, resources, None;
    }
    if q.selector.Inconvertible? {
      return Some(SelectorFailed), [], None;
    }
    resources, victim := ListAndCache(server, cache, q, lister, now);
    err := None;
  }

  method ListAndCache(server: ApiServer, cache: ResourceCache, q: M.Query, lister: M.Lister, now: int)
    returns (resources: seq<Resource>, ghost victim: Option<string>)
    requires server.Valid() && cache.Valid() && M.Arranges(lister) && CacheKnown(cache.contents, server.history)
    modifies server`objects, server`revision, server`history, server`newest, server`script, cache
    ensures server.Valid() && Follows(server.Now(), old(server.Now()))
    ensures cache.Valid() && CacheKnown(cache.contents, server.history)
    ensures fresh(resources) && Known(ItemsOf(resources), server.history)
    ensures ItemsOf(resources) == old(Fetched([], server.Now(), server.script, q.resourceTypes, q, lister))
    ensures M.MayEvict(old(cache.contents), cache.maxEntries, victim)
    ensures cache.contents == M.Stored(old(cache.contents), victim, q, ItemsOf(resources), now)
    ensures old(server.Quiet()) ==> server.Quiet() && server.objects == old(server.objects)
  {
    resources := ListAllTypes(server, q, lister);
    CacheStaysKnown(cache.contents, old(server.history), server.history);
    victim := CacheAnswer(cache, q, resources, now, server.history);
  }

  /** Stores an answer; what is handed out is not touched. */
  method CacheAnswer(cache: ResourceCache, q: M.Query, resources: seq<Resource>, now: int, ghost history: History)
    returns (ghost victim: Option<string>)
    requires cache.Valid() && CacheKnown(cache.contents, history) && Known(ItemsOf(resources), history)
    modifies cache
    ensures cache.Valid() && CacheKnown(cache.contents, history)
    ensures ItemsOf(resources) == old(ItemsOf(resources))
    ensures M.MayEvict(old(cache.contents), cache.maxEntries, victim)
    ensures cache.contents == M.Stored(old(cache.contents), victim, q, ItemsOf(resources), now)
  {
    ghost var items := ItemsOf(resources);
    victim := cache.CacheResources(q, resources, now);
    assert ItemsOf(resources) == items;
    StoredIsKnown(old(cache.contents), history, victim, q, items, now);
  }

  lemma StoredIsKnown(
    contents: M.Contents, history: History, victim: Option<string>, q: M.Query, items: seq<Item>, now: int)
    requires CacheKnown(contents, history) && Known(items, history)
    ensures CacheKnown(M.Stored(contents, victim, q, items, now), history)
  {
  }

  /** Every listed object is in the query's namespace. */
  lemma {:induction false} ListedInNamespace(objects: Objects, types: seq<string>, q: M.Query, lister: M.Lister)
    requires M.Arranges(lister) && q.namespace != ""
    ensures forall item | item in M.ListTypes(objects, types, q, lister) :: item.0.namespace == q.namespace
  {
    if types == [] {
    } else {
      ListedInNamespace(objects, types[1..], q, lister);
      if types[0] in M.SUPPORTED_TYPES {
        var keys := lister.arrange(M.Selected(objects, types[0], q, lister));
        forall i | 0 <= i < |keys|
          ensures keys[i].namespace == q.namespace
        {
          assert keys[i] in keys;
        }
      }
    }
  }

  /** No other writers, no faults, and a cache that answers rightly. */
  ghost predicate Settled(server: ApiServer, contents: M.Contents, lister: M.Lister)
    requires M.Arranges(lister)
    reads server`script, server`objects
  {
    server.Quiet() && M.Coherent(server.objects, contents, lister)
  }

  /** When things are settled a proper query is answered by the listing, and they stay settled. */
  lemma AnswerIsListing(
    s: Store, script: seq<Turn>, earlier: M.Contents, later: M.Contents, q: M.Query, now: int, ttl: int,
    maxEntries: int, lister: M.Lister, victim: Option<string>)
    requires M.Arranges(lister) && M.Proper(q) && QuietScript(script) && M.Coherent(s.objects, earlier, lister)
    requires Cached(earlier, later, q, Answered(s, script, earlier, q, now, ttl, lister), now, ttl, maxEntries, victim)
    ensures Answered(s, script, earlier, q, now, ttl, lister) == M.Listing(s.objects, q, lister)
    ensures M.Coherent(s.objects, later, lister)
    ensures M.CacheKey(q) in later && later[M.CacheKey(q)].items == M.Listing(s.objects, q, lister)
  {
    QuietFetched([], s, script, q.resourceTypes, q, lister);
    M.StoredIsCoherent(s.objects, earlier, lister, victim, q, now);
  }

  lemma ListedAreFresh(objects: Objects, q: M.Query, lister: M.Lister)
    requires M.Arranges(lister)
    ensures forall item | item in M.Listing(objects, q, lister) :: Fresh(objects, item)
  {
    forall item | item in M.Listing(objects, q, lister)
      ensures Fresh(objects, item)
    {
      M.ListedExactly(objects, q.resourceTypes, q, lister, item);
    }
  }

  /** The query of a task. */
  method FindResources(server: ApiServer, cache: ResourceCache, q: M.Query, lister: M.Lister, now: int)
    returns (err: Option<ManagerError>, resources: seq<Resource>, ghost victim: Option<string>)
    requires server.Valid() && cache.Valid() && M.Arranges(lister) && CacheKnown(cache.contents, server.history)
    modifies server`objects, server`revision, server`history, server`newest, server`script, cache
    ensures server.Valid() && Follows(server.Now(), old(server.Now()))
    ensures cache.Valid() && CacheKnown(cache.contents, server.history)
    ensures err ==
      if q.selector.Inconvertible? && !M.Hits(old(cache.contents), q, now, cache.ttl) then Some(SelectorFailed)
      else None
    ensures Known(ItemsOf(resources), server.history) && (err.Some? ==> resources == [])
    ensures ItemsOf(resources) == old(Answered(server.Now(), server.script, cache.contents, q, now, cache.ttl, lister))
    ensures Cached(old(cache.contents), cache.contents, q, ItemsOf(resources), now, cache.ttl, cache.maxEntries, victim)
    ensures old(server.Quiet()) ==> server.Quiet() && server.objects == old(server.objects)
    ensures old(Settled(server, cache.contents, lister)) && M.Proper(q) ==>
      && err == None && Settled(server, cache.contents, lister)
      && ItemsOf(resources) == M.Listing(server.objects, q, lister)
      && M.CacheKey(q) in cache.contents && cache.contents[M.CacheKey(q)].items == ItemsOf(resources)
      && forall item | item in ItemsOf(resources) :: item.0.namespace == q.namespace && Fresh(server.objects, item)
  {
    err, resources, victim := GetMatchingResources(server, cache, q, lister, now);
    assert err.Some? ==> |ItemsOf(resources)| == 0;
    if M.Proper(q) && old(Settled(server, cache.contents, lister)) {
      AnswerIsListing(
        old(server.Now()), old(server.script), old(cache.contents), cache.contents, q, now, cache.ttl, cache.maxEntries,
        lister, victim);
      ListedInNamespace(server.objects, q.resourceTypes, q, lister);
      ListedAreFresh(server.objects, q, lister);
    }
  }
}
