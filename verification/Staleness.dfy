/** How old an answer from the cache may be, when objects change in any way and nothing is invalidated
    (internal/resource/cache.go, and GetMatchingResources in internal/resource/manager.go). */
module Staleness {
  import opened CacheModel
  import opened Stores
  import opened Wrappers

  /** A moment at which a query was answered from the store, and the objects then. */
  datatype Sighting = Sighting(at: int, objects: Objects)

  datatype Scene = Scene(objects: Objects, cache: Contents, past: seq<Sighting>)

  /** Any change of any objects, by anybody, or a step of the cache. */
  datatype Happening =
    | Query(q: CacheModel.Query, now: int, victim: Option<string>)
    | Change(objects: Objects)
    | Drop(namespace: string, resourceType: string)
    | Sweep(now: int)
    | Clear

  function AnswerIn(w: Scene, q: CacheModel.Query, now: int, c: Config): seq<Item>
    requires Arranges(c.lister)
  {
    Answer(World(w.objects, w.cache), q, now, c)
  }

  function Next(w: Scene, e: Happening, c: Config): Scene
    requires Arranges(c.lister)
  {
    match e
    case Query(q, now, victim) =>
      if Hits(w.cache, q, now, c.ttl) then w
      else
        Scene(
          w.objects, Stored(w.cache, victim, q, Listing(w.objects, q, c.lister), now),
          w.past + [Sighting(now, w.objects)])
    case Change(objects) => w.(objects := objects)
    case Drop(namespace, resourceType) => w.(cache := Invalidated(w.cache, namespace, resourceType))
    case Sweep(now) => w.(cache := Swept(w.cache, now, c.ttl))
    case Clear => w.(cache := map[])
  }

  function AfterAll(w: Scene, events: seq<Happening>, c: Config): Scene
    requires Arranges(c.lister)
    decreases events
  {
    if events == [] then w else AfterAll(Next(w, events[0], c), events[1..], c)
  }

  predicate AllProper(events: seq<Happening>) {
    forall e | e in events && e.Query? :: Proper(e.q)
  }

  /** The entry is the listing of the objects as they were sighted at its time. */
  ghost predicate IsSighted(e: Entry, q: CacheModel.Query, past: seq<Sighting>, lister: Lister)
    requires Arranges(lister)
  {
    exists m | m in past :: e.lastUpdated == m.at && e.items == Listing(m.objects, q, lister)
  }

  ghost predicate AllSighted(w: Scene, c: Config)
    requires Arranges(c.lister)
  {
    forall q | Proper(q) && CacheKey(q) in w.cache :: IsSighted(w.cache[CacheKey(q)], q, w.past, c.lister)
  }

  lemma SightedStays(e: Entry, q: CacheModel.Query, past: seq<Sighting>, more: Sighting, lister: Lister)
    requires Arranges(lister) && IsSighted(e, q, past, lister)
    ensures IsSighted(e, q, past + [more], lister)
  {
    var m :| m in past && e.lastUpdated == m.at && e.items == Listing(m.objects, q, lister);
    assert m in past + [more];
  }

  lemma NextKeepsSighted(w: Scene, e: Happening, c: Config)
    requires Arranges(c.lister) && AllSighted(w, c) && (e.Query? ==> Proper(e.q))
    ensures AllSighted(Next(w, e, c), c)
  {
    if e.Query? && !Hits(w.cache, e.q, e.now, c.ttl) {
      var next, m := Next(w, e, c), Sighting(e.now, w.objects);
      forall p | Proper(p) && CacheKey(p) in next.cache
        ensures IsSighted(next.cache[CacheKey(p)], p, next.past, c.lister)
      {
        if CacheKey(p) == CacheKey(e.q) {
          CacheKeyInjective(p, e.q);
          SameListing(w.objects, p.resourceTypes, p, e.q, c.lister);
          assert m in next.past;
        } else {
          SightedStays(w.cache[CacheKey(p)], p, w.past, m, c.lister);
        }
      }
    }
  }

  /** After any run every answer is what a listing gives now, or what a listing gave when the store was last asked
      for it, which is no longer ago than the time to live. */
  lemma {:induction false} AnswersAreNotTooOld(
    w: Scene, events: seq<Happening>, c: Config, q: CacheModel.Query, now: int)
    requires Arranges(c.lister) && AllSighted(w, c) && AllProper(events) && Proper(q)
    ensures var after := AfterAll(w, events, c);
      var answer := AnswerIn(after, q, now, c);
      || answer == Listing(after.objects, q, c.lister)
      || exists m | m in after.past :: now - m.at <= c.ttl && answer == Listing(m.objects, q, c.lister)
    decreases events
  {
    if events == [] {
      if Hits(w.cache, q, now, c.ttl) {
        var e := w.cache[CacheKey(q)];
        var m :| m in w.past && e.lastUpdated == m.at && e.items == Listing(m.objects, q, c.lister);
        assert now - m.at <= c.ttl;
      }
    } else {
      assert events[0] in events;
      NextKeepsSighted(w, events[0], c);
      AnswersAreNotTooOld(Next(w, events[0], c), events[1..], c, q, now);
    }
  }

  lemma FromTheStart(objects: Objects, events: seq<Happening>, c: Config, q: CacheModel.Query, now: int)
    requires Arranges(c.lister) && AllProper(events) && Proper(q)
    ensures var after := AfterAll(Scene(objects, map[], []), events, c);
      var answer := AnswerIn(after, q, now, c);
      || answer == Listing(after.objects, q, c.lister)
      || exists m | m in after.past :: now - m.at <= c.ttl && answer == Listing(m.objects, q, c.lister)
  {
    AnswersAreNotTooOld(Scene(objects, map[], []), events, c, q, now);
  }
}
