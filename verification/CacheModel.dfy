/** The resource cache as a function of its contents, and the queries it answers
    (internal/resource/cache.go, and GetMatchingResources in internal/resource/manager.go). */
module CacheModel {
  import opened GoStrings
  import opened Validator
  import opened Tracking
  import opened Wrappers
  import opened Stores

  /** A label selector: empty, convertible with its canonical text, or not convertible. */
  datatype Selector = MatchAll | Labels(canonical: string) | Inconvertible

  datatype Query = Query(selector: Selector, resourceTypes: seq<string>, namespace: string)

  function SelectorText(s: Selector): string {
    match s
    case Labels(canonical) => canonical
    case _ => ""
  }

  /** generateCacheKey */
  function CacheKey(q: Query): (key: string)
    ensures key != ""
  {
    q.namespace + ":" + SelectorText(q.selector) + ":" + FormatList(q.resourceTypes)
  }

  /** A query of a rule: a namespace and resource types whose names have no colon, and a selector that
      can be converted. */
  predicate Proper(q: Query) {
    && q.namespace != "" && ':' !in q.namespace
    && !q.selector.Inconvertible?
    && forall t | t in q.resourceTypes :: Clean(t) && ':' !in t
  }

  lemma {:induction false} JoinHasNo(parts: seq<string>, sep: char, c: char)
    requires c != sep && forall part | part in parts :: c !in part
    ensures c !in Join(parts, sep)
  {
    if |parts| <= 1 {
    } else {
      JoinHasNo(parts[1..], sep, c);
    }
  }

  lemma SuffixAfterLast(a: string, b: string, x: string, y: string, c: char)
    requires a + [c] + x == b + [c] + y && c !in x && c !in y
    ensures a == b && x == y
  {
    var w := a + [c] + x;
    assert w[|a|] == c && w == b + [c] + y && w[|b|] == c;
    assert forall i | |b| < i < |w| :: w[i] == y[i - |b| - 1];
    assert forall i | |a| < i < |w| :: w[i] == x[i - |a| - 1];
    assert w[..|a|] == a && w[..|b|] == b;
    assert w[|a| + 1..] == x && w[|b| + 1..] == y;
  }

  lemma PrefixBeforeFirst(a: string, b: string, x: string, y: string, c: char)
    requires a + [c] + x == b + [c] + y && c !in a && c !in b
    ensures a == b && x == y
  {
    var w := a + [c] + x;
    assert w[|a|] == c && w[|b|] == c;
    assert forall i | 0 <= i < |b| :: w[i] == b[i];
    assert forall i | 0 <= i < |a| :: w[i] == a[i];
    assert w[..|a|] == a && w[..|b|] == b;
    assert w[|a| + 1..] == x && w[|b| + 1..] == y;
  }

  /** Proper queries that share a cache key ask for the same thing. */
  lemma CacheKeyInjective(p: Query, q: Query)
    requires Proper(p) && Proper(q) && CacheKey(p) == CacheKey(q)
    ensures p.namespace == q.namespace && p.resourceTypes == q.resourceTypes
    ensures SelectorText(p.selector) == SelectorText(q.selector)
  {
    var tp, tq := FormatList(p.resourceTypes), FormatList(q.resourceTypes);
    JoinHasNo(p.resourceTypes, ' ', ':');
    JoinHasNo(q.resourceTypes, ' ', ':');
    SuffixAfterLast(
      p.namespace + ":" + SelectorText(p.selector), q.namespace + ":" + SelectorText(q.selector), tp, tq, ':');
    PrefixBeforeFirst(p.namespace, q.namespace, SelectorText(p.selector), SelectorText(q.selector), ':');
    CleanRoundTrip(p.resourceTypes);
    CleanRoundTrip(q.resourceTypes);
  }

  /** A selector that cannot be converted shares its key with the empty one. */
  lemma InconvertibleSharesKey(resourceTypes: seq<string>, namespace: string)
    ensures CacheKey(Query(Inconvertible, resourceTypes, namespace)) ==
      CacheKey(Query(MatchAll, resourceTypes, namespace))
  {
  }

  /* Listing. */

  const SUPPORTED_TYPES := {"pods", "deployments", "statefulsets", "daemonsets"}

  /** The API server's part of a listing: which labels a selector text matches, and the order in which
      objects are returned. */
  datatype Lister = Lister(matches: (string, map<string, string>) -> bool, arrange: set<ObjectKey> -> seq<ObjectKey>)

  /** The arrangement of a set of objects lists its members and no others. */
  ghost predicate Arranges(lister: Lister) {
    forall keys: set<ObjectKey>, k: ObjectKey :: k in lister.arrange(keys) <==> k in keys
  }

  function Selected(objects: Objects, kind: string, q: Query, lister: Lister): set<ObjectKey> {
    set k | k in objects && k.kind == kind && (q.namespace == "" || k.namespace == q.namespace)
         && lister.matches(SelectorText(q.selector), objects[k].labels)
  }

  function Items(objects: Objects, keys: seq<ObjectKey>): seq<Item>
    requires forall k | k in keys :: k in objects
  {
    seq(|keys|, i requires 0 <= i < |keys| => (keys[i], objects[keys[i]]))
  }

  function ListType(objects: Objects, kind: string, q: Query, lister: Lister): seq<Item>
    requires Arranges(lister)
  {
    if kind in SUPPORTED_TYPES then Items(objects, lister.arrange(Selected(objects, kind, q, lister))) else []
  }

  /** What the types of a query list, in their order; an unsupported type is skipped. */
  function ListTypes(objects: Objects, types: seq<string>, q: Query, lister: Lister): seq<Item>
    requires Arranges(lister)
  {
    if types == [] then [] else ListType(objects, types[0], q, lister) + ListTypes(objects, types[1..], q, lister)
  }

  /** An uncached listing. */
  function Listing(objects: Objects, q: Query, lister: Lister): seq<Item>
    requires Arranges(lister)
  {
    ListTypes(objects, q.resourceTypes, q, lister)
  }

  /** The objects of every other namespace are as they were. */
  ghost predicate OnlyNamespace(earlier: Objects, later: Objects, namespace: string) {
    forall k: ObjectKey | k.namespace != namespace ::
      (k in earlier <==> k in later) && (k in earlier ==> earlier[k] == later[k])
  }

  lemma {:induction false} ListingIsLocal(
    earlier: Objects, later: Objects, namespace: string, types: seq<string>, q: Query, lister: Lister)
    requires Arranges(lister) && OnlyNamespace(earlier, later, namespace)
    requires q.namespace != "" && q.namespace != namespace
    ensures ListTypes(earlier, types, q, lister) == ListTypes(later, types, q, lister)
  {
    if types == [] {
    } else {
      var selected := Selected(earlier, types[0], q, lister);
      assert selected == Selected(later, types[0], q, lister);
      var keys := lister.arrange(selected);
      forall i | 0 <= i < |keys|
        ensures keys[i] in earlier && keys[i] in later && earlier[keys[i]] == later[keys[i]]
      {
        assert keys[i] in keys;
      }
      assert Items(earlier, keys) == Items(later, keys);
      ListingIsLocal(earlier, later, namespace, types[1..], q, lister);
    }
  }

  /** A listing depends on a query's namespace, selector text and types alone. */
  lemma {:induction false} SameListing(objects: Objects, types: seq<string>, p: Query, q: Query, lister: Lister)
    requires Arranges(lister) && p.namespace == q.namespace && SelectorText(p.selector) == SelectorText(q.selector)
    ensures ListTypes(objects, types, p, lister) == ListTypes(objects, types, q, lister)
  {
    if types == [] {
    } else {
      SameListing(objects, types[1..], p, q, lister);
    }
  }

  /* The cache. */

  datatype Entry = Entry(items: seq<Item>, lastUpdated: int, namespace: string)

  type Contents = map<string, Entry>

  predicate Expired(e: Entry, now: int, ttl: int) {
    now - e.lastUpdated > ttl
  }

  predicate Hits(cache: Contents, q: Query, now: int, ttl: int) {
    CacheKey(q) in cache && !Expired(cache[CacheKey(q)], now, ttl)
  }

  /** An entry that evictOldestEntry may choose, whatever order it iterates in. */
  ghost predicate Oldest(cache: Contents, key: string) {
    key in cache && forall k | k in cache :: cache[key].lastUpdated <= cache[k].lastUpdated
  }

  function WithoutVictim(cache: Contents, victim: Option<string>): Contents {
    match victim
    case None => cache
    case Some(k) => cache - {k}
  }

  /** A victim is chosen exactly when the cache is full and not empty. */
  ghost predicate MayEvict(cache: Contents, maxEntries: int, victim: Option<string>) {
    if |cache| >= maxEntries && cache != map[] then victim.Some? && Oldest(cache, victim.value) else victim == None
  }

  function Stored(cache: Contents, victim: Option<string>, q: Query, items: seq<Item>, now: int): Contents {
    WithoutVictim(cache, victim)[CacheKey(q) := Entry(items, now, q.namespace)]
  }

  predicate Invalidates(key: string, e: Entry, namespace: string, resourceType: string) {
    && (namespace == "" || e.namespace == namespace)
    && (resourceType == "" || Contains(key, resourceType))
  }

  function Invalidated(cache: Contents, namespace: string, resourceType: string): Contents {
    map k | k in cache && !Invalidates(k, cache[k], namespace, resourceType) :: cache[k]
  }

  function Swept(cache: Contents, now: int, ttl: int): Contents {
    map k | k in cache && !Expired(cache[k], now, ttl) :: cache[k]
  }

  function Bound(maxEntries: int): int {
    if maxEntries > 1 then maxEntries else 1
  }

  /** Storing keeps the cache within its bound. */
  lemma StoredIsBounded(cache: Contents, maxEntries: int, victim: Option<string>, q: Query, items: seq<Item>, now: int)
    requires MayEvict(cache, maxEntries, victim) && |cache| <= Bound(maxEntries)
    ensures |Stored(cache, victim, q, items, now)| <= Bound(maxEntries)
  {
    var rest := WithoutVictim(cache, victim);
    if victim.Some? {
      assert rest.Keys == cache.Keys - {victim.value};
      assert |rest| == |rest.Keys| == |cache.Keys| - 1;
    }
    var stored := Stored(cache, victim, q, items, now);
    assert stored.Keys == rest.Keys + {CacheKey(q)};
    assert |stored.Keys| <= |rest.Keys| + 1;
    if cache == map[] {
      assert |rest| == 0;
    }
  }

  lemma SubmapIsSmaller(a: Contents, b: Contents)
    requires a.Keys <= b.Keys
    ensures |a| <= |b|
  {
    SubsetIsSmaller(a.Keys, b.Keys);
  }

  /* Coherence. */

  /** Every entry that a proper query can hit holds what an uncached listing returns now. */
  ghost predicate Coherent(objects: Objects, cache: Contents, lister: Lister)
    requires Arranges(lister)
  {
    forall q | Proper(q) && CacheKey(q) in cache ::
      cache[CacheKey(q)].items == Listing(objects, q, lister) && cache[CacheKey(q)].namespace == q.namespace
  }

  lemma StoredIsCoherent(
    objects: Objects, cache: Contents, lister: Lister, victim: Option<string>, q: Query, now: int)
    requires Arranges(lister) && Coherent(objects, cache, lister) && Proper(q)
    ensures Coherent(objects, Stored(cache, victim, q, Listing(objects, q, lister), now), lister)
  {
    var stored := Stored(cache, victim, q, Listing(objects, q, lister), now);
    forall p | Proper(p) && CacheKey(p) in stored
      ensures stored[CacheKey(p)].items == Listing(objects, p, lister) && stored[CacheKey(p)].namespace == p.namespace
    {
      if CacheKey(p) == CacheKey(q) {
        CacheKeyInjective(p, q);
        SameListing(objects, p.resourceTypes, p, q, lister);
      }
    }
  }

  /** A write in one namespace, followed by the invalidation of that namespace. */
  lemma InvalidationRestoresCoherence(
    earlier: Objects, later: Objects, cache: Contents, lister: Lister, namespace: string)
    requires Arranges(lister) && Coherent(earlier, cache, lister) && OnlyNamespace(earlier, later, namespace)
    ensures Coherent(later, Invalidated(cache, namespace, ""), lister)
  {
    var rest := Invalidated(cache, namespace, "");
    forall q | Proper(q) && CacheKey(q) in rest
      ensures rest[CacheKey(q)].items == Listing(later, q, lister)
    {
      ListingIsLocal(earlier, later, namespace, q.resourceTypes, q, lister);
    }
  }

  /* Runs. */

  /** One step of a sequential run. A query may evict any oldest entry; a write is the update loop of
      ApplyAnnotations or RemoveAnnotations in a rule's namespace, with its invalidation. */
  datatype Event =
    | Ask(q: Query, now: int, victim: Option<string>)
    | Write(namespace: string, objects: Objects)
    | Invalidate(namespace: string, resourceType: string)
    | Sweep(now: int)
    | Clear

  datatype World = World(objects: Objects, cache: Contents)

  datatype Config = Config(ttl: int, maxEntries: int, lister: Lister)

  ghost predicate Possible(w: World, e: Event, c: Config) {
    match e
    case Ask(q, now, victim) => Proper(q) && (!Hits(w.cache, q, now, c.ttl) ==> MayEvict(w.cache, c.maxEntries, victim))
    case Write(namespace, objects) => namespace != "" && OnlyNamespace(w.objects, objects, namespace)
    case _ => true
  }

  /** GetMatchingResources */
  function Answer(w: World, q: Query, now: int, c: Config): seq<Item>
    requires Arranges(c.lister)
  {
    if Hits(w.cache, q, now, c.ttl) then w.cache[CacheKey(q)].items else Listing(w.objects, q, c.lister)
  }

  function AfterEvent(w: World, e: Event, c: Config): World
    requires Arranges(c.lister)
  {
    match e
    case Ask(q, now, victim) =>
      if Hits(w.cache, q, now, c.ttl) then w
      else w.(cache := Stored(w.cache, victim, q, Listing(w.objects, q, c.lister), now))
    case Write(namespace, objects) => World(objects, Invalidated(w.cache, namespace, ""))
    case Invalidate(namespace, resourceType) => w.(cache := Invalidated(w.cache, namespace, resourceType))
    case Sweep(now) => w.(cache := Swept(w.cache, now, c.ttl))
    case Clear => w.(cache := map[])
  }

  ghost predicate PossibleRun(w: World, events: seq<Event>, c: Config)
    requires Arranges(c.lister)
    decreases events
  {
    events == [] || (Possible(w, events[0], c) && PossibleRun(AfterEvent(w, events[0], c), events[1..], c))
  }

  function AfterEvents(w: World, events: seq<Event>, c: Config): World
    requires Arranges(c.lister)
    decreases events
  {
    if events == [] then w else AfterEvents(AfterEvent(w, events[0], c), events[1..], c)
  }

  ghost predicate GoodWorld(w: World, c: Config)
    requires Arranges(c.lister)
  {
    Coherent(w.objects, w.cache, c.lister) && |w.cache| <= Bound(c.maxEntries)
  }

  lemma EventKeepsGood(w: World, e: Event, c: Config)
    requires Arranges(c.lister) && GoodWorld(w, c) && Possible(w, e, c)
    ensures GoodWorld(AfterEvent(w, e, c), c)
  {
    match e
    case Ask(q, now, victim) =>
      if !Hits(w.cache, q, now, c.ttl) {
        StoredIsCoherent(w.objects, w.cache, c.lister, victim, q, now);
        StoredIsBounded(w.cache, c.maxEntries, victim, q, Listing(w.objects, q, c.lister), now);
      }
    case Write(namespace, objects) =>
      InvalidationRestoresCoherence(w.objects, objects, w.cache, c.lister, namespace);
      SubmapIsSmaller(Invalidated(w.cache, namespace, ""), w.cache);
    case Invalidate(namespace, resourceType) =>
      SubmapIsSmaller(Invalidated(w.cache, namespace, resourceType), w.cache);
    case Sweep(now) =>
      SubmapIsSmaller(Swept(w.cache, now, c.ttl), w.cache);
    case Clear =>
  }

  /** The cache is transparent: after any run, whatever expired, was evicted or was invalidated, a query
      is answered as an uncached listing would answer it at that moment; and the cache holds at most
      max(1, maxEntries) entries. */
  lemma {:induction false} CacheIsTransparent(w: World, events: seq<Event>, c: Config, q: Query, now: int)
    requires Arranges(c.lister) && GoodWorld(w, c) && PossibleRun(w, events, c) && Proper(q)
    ensures var after := AfterEvents(w, events, c);
      && Answer(after, q, now, c) == Listing(after.objects, q, c.lister)
      && GoodWorld(after, c)
    decreases events
  {
    if events == [] {
    } else {
      EventKeepsGood(w, events[0], c);
      CacheIsTransparent(AfterEvent(w, events[0], c), events[1..], c, q, now);
    }
  }

  /* After a write. */

  /** A write leaves what a query lists: for each supported type of the query the same objects are selected,
      and they are as they were. */
  predicate Unaffected(earlier: Objects, later: Objects, q: Query, lister: Lister) {
    forall kind | kind in q.resourceTypes && kind in SUPPORTED_TYPES ::
      && Selected(earlier, kind, q, lister) == Selected(later, kind, q, lister)
      && forall k | k in Selected(earlier, kind, q, lister) :: earlier[k] == later[k]
  }

  lemma {:induction false} ListedExactly(objects: Objects, types: seq<string>, q: Query, lister: Lister, item: Item)
    requires Arranges(lister)
    ensures item in ListTypes(objects, types, q, lister) <==>
      && item.0.kind in types && item.0.kind in SUPPORTED_TYPES
      && item.0 in Selected(objects, item.0.kind, q, lister) && objects[item.0] == item.1
  {
    if types == [] {
    } else {
      ListedExactly(objects, types[1..], q, lister, item);
      ListedOfType(objects, types[0], q, lister, item);
      assert item.0.kind in types <==> item.0.kind == types[0] || item.0.kind in types[1..];
    }
  }

  /** The query asks for this state of an object: for its type, its namespace and its labels. */
  predicate Selects(q: Query, lister: Lister, item: Item) {
    && item.0.kind in q.resourceTypes
    && (|| item.0.kind == "pods" || item.0.kind == "deployments"
        || item.0.kind == "statefulsets" || item.0.kind == "daemonsets")
    && (q.namespace == "" || item.0.namespace == q.namespace)
    && lister.matches(if q.selector.Labels? then q.selector.canonical else "", item.1.labels)
  }

  /** A listing has exactly the stored objects that the query asks for, as they are stored. */
  lemma ListsExactly(objects: Objects, q: Query, lister: Lister, item: Item)
    requires Arranges(lister)
    ensures item in Listing(objects, q, lister) <==>
      item.0 in objects && objects[item.0] == item.1 && Selects(q, lister, item)
  {
    ListedExactly(objects, q.resourceTypes, q, lister, item);
  }

  lemma ListedOfType(objects: Objects, kind: string, q: Query, lister: Lister, item: Item)
    requires Arranges(lister)
    ensures item in ListType(objects, kind, q, lister) <==>
      && item.0.kind == kind && kind in SUPPORTED_TYPES
      && item.0 in Selected(objects, kind, q, lister) && objects[item.0] == item.1
  {
    if kind in SUPPORTED_TYPES {
      var keys := lister.arrange(Selected(objects, kind, q, lister));
      var items := Items(objects, keys);
      if item.0 in keys && objects[item.0] == item.1 {
        var i :| 0 <= i < |keys| && keys[i] == item.0;
        assert items[i] == item;
      }
      if item in items {
        var i :| 0 <= i < |items| && items[i] == item;
        assert keys[i] in keys;
      }
    }
  }

  lemma {:induction false} UnaffectedListing(
    earlier: Objects, later: Objects, types: seq<string>, q: Query, lister: Lister)
    requires Arranges(lister) && Unaffected(earlier, later, q, lister) && forall t | t in types :: t in q.resourceTypes
    ensures ListTypes(earlier, types, q, lister) == ListTypes(later, types, q, lister)
  {
    if types == [] {
    } else {
      assert types[0] in q.resourceTypes;
      if types[0] in SUPPORTED_TYPES {
        var keys := lister.arrange(Selected(earlier, types[0], q, lister));
        assert forall i | 0 <= i < |keys| :: keys[i] in keys;
        assert Items(earlier, keys) == Items(later, keys);
      }
      UnaffectedListing(earlier, later, types[1..], q, lister);
    }
  }

  /** A listing is the same after a write if and only if the write leaves what the query lists. */
  lemma ListingsAgreeExactly(earlier: Objects, later: Objects, q: Query, lister: Lister)
    requires Arranges(lister)
    ensures Listing(earlier, q, lister) == Listing(later, q, lister) <==> Unaffected(earlier, later, q, lister)
  {
    if Unaffected(earlier, later, q, lister) {
      UnaffectedListing(earlier, later, q.resourceTypes, q, lister);
    } else if Listing(earlier, q, lister) == Listing(later, q, lister) {
      forall kind, k | kind in q.resourceTypes && kind in SUPPORTED_TYPES
        ensures k in Selected(earlier, kind, q, lister) <==> k in Selected(later, kind, q, lister)
        ensures k in Selected(earlier, kind, q, lister) ==> earlier[k] == later[k]
      {
        if k in Selected(earlier, kind, q, lister) {
          ListedExactly(earlier, q.resourceTypes, q, lister, (k, earlier[k]));
          ListedExactly(later, q.resourceTypes, q, lister, (k, earlier[k]));
        }
        if k in Selected(later, kind, q, lister) {
          ListedExactly(earlier, q.resourceTypes, q, lister, (k, later[k]));
          ListedExactly(later, q.resourceTypes, q, lister, (k, later[k]));
        }
      }
    }
  }

  /** What the namespace and the invalidation are for: an accurate entry, of any namespace, answers rightly
      after a write in one namespace if and only if it was invalidated with that namespace, has expired,
      or lists nothing that the write changed. An entry of a query over all namespaces is never
      invalidated by a write in one. */
  lemma RightAfterWriteExactly(w: World, namespace: string, objects: Objects, c: Config, q: Query, now: int)
    requires Arranges(c.lister) && namespace != "" && CacheKey(q) in w.cache
    requires var e := w.cache[CacheKey(q)]; e.items == Listing(w.objects, q, c.lister) && e.namespace == q.namespace
    ensures Answer(AfterEvent(w, Write(namespace, objects), c), q, now, c) == Listing(objects, q, c.lister) <==>
      || q.namespace == namespace
      || Expired(w.cache[CacheKey(q)], now, c.ttl)
      || Unaffected(w.objects, objects, q, c.lister)
  {
    ListingsAgreeExactly(w.objects, objects, q, c.lister);
  }

  /** The group paths write without invalidating: then the namespace does not help. */
  lemma RightAfterGroupWriteExactly(w: World, objects: Objects, c: Config, q: Query, now: int)
    requires Arranges(c.lister) && CacheKey(q) in w.cache
    requires w.cache[CacheKey(q)].items == Listing(w.objects, q, c.lister)
    ensures Answer(w.(objects := objects), q, now, c) == Listing(objects, q, c.lister) <==>
      || Expired(w.cache[CacheKey(q)], now, c.ttl)
      || Unaffected(w.objects, objects, q, c.lister)
  {
    ListingsAgreeExactly(w.objects, objects, q, c.lister);
  }
}
