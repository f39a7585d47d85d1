/** Only resources that its query selects are ever handed to a call, and only they are written, whatever other
    clients do and through the cache (internal/resource/manager.go). */
module Selection {
  import opened Attempts
  import opened Discovery
  import opened Groups
  import opened Stores
  import opened Tasks
  import opened Wrappers
  import M = CacheModel

  ghost predicate AllSelected(items: seq<Item>, q: M.Query, lister: M.Lister) {
    forall item | item in items :: M.Selects(q, lister, item)
  }

  /** Every entry that a proper query can hit holds states that the query selects. */
  ghost predicate CacheSelects(contents: M.Contents, lister: M.Lister) {
    forall q | M.Proper(q) && M.CacheKey(q) in contents :: AllSelected(contents[M.CacheKey(q)].items, q, lister)
  }

  lemma ListedIsSelected(s: Store, script: seq<Turn>, kind: string, q: M.Query, lister: M.Lister)
    requires M.Arranges(lister) && kind in q.resourceTypes
    ensures AllSelected(Listed(s, script, kind, q, lister), q, lister)
  {
    var objects := Arrival(s, script).objects;
    forall item | item in Listed(s, script, kind, q, lister)
      ensures M.Selects(q, lister, item)
    {
      M.ListedOfType(objects, kind, q, lister, item);
    }
  }

  /** What the requests return, each from the store as it is at that moment. */
  lemma {:induction false} FetchedIsSelected(
    before: seq<Item>, s: Store, script: seq<Turn>, types: seq<string>, q: M.Query, lister: M.Lister)
    requires M.Arranges(lister) && AllSelected(before, q, lister) && forall t | t in types :: t in q.resourceTypes
    ensures AllSelected(Fetched(before, s, script, types, q, lister), q, lister)
    decreases types
  {
    if types == [] {
    } else {
      ListedIsSelected(s, script, types[0], q, lister);
      var items := before + Listed(s, script, types[0], q, lister);
      if types[0] in M.SUPPORTED_TYPES {
        FetchedIsSelected(items, Arrival(s, script), Rest(script), types[1..], q, lister);
      } else {
        FetchedIsSelected(items, s, script, types[1..], q, lister);
      }
    }
  }

  /** Proper queries with one cache key select the same. */
  lemma SameSelection(p: M.Query, q: M.Query, lister: M.Lister, items: seq<Item>)
    requires M.Proper(p) && M.Proper(q) && M.CacheKey(p) == M.CacheKey(q) && AllSelected(items, q, lister)
    ensures AllSelected(items, p, lister)
  {
    M.CacheKeyInjective(p, q);
  }

  /** Through the cache too, a query is answered with resources that it selects, in states they were in when they
      were listed; and the cache goes on so. */
  lemma AnswerIsSelected(
    s: Store, script: seq<Turn>, earlier: M.Contents, later: M.Contents, q: M.Query, now: int, ttl: int,
    maxEntries: int, lister: M.Lister, victim: Option<string>)
    requires M.Arranges(lister) && M.Proper(q) && CacheSelects(earlier, lister)
    requires Cached(earlier, later, q, Answered(s, script, earlier, q, now, ttl, lister), now, ttl, maxEntries, victim)
    ensures AllSelected(Answered(s, script, earlier, q, now, ttl, lister), q, lister)
    ensures CacheSelects(later, lister)
  {
    FetchedIsSelected([], s, script, q.resourceTypes, q, lister);
    var items := Answered(s, script, earlier, q, now, ttl, lister);
    if !M.Hits(earlier, q, now, ttl) {
      forall p | M.Proper(p) && M.CacheKey(p) in later
        ensures AllSelected(later[M.CacheKey(p)].items, p, lister)
      {
        if M.CacheKey(p) == M.CacheKey(q) {
          SameSelection(p, q, lister, items);
        }
      }
    }
  }

  lemma InvalidationKeepsSelection(contents: M.Contents, namespace: string, resourceType: string, lister: M.Lister)
    requires CacheSelects(contents, lister)
    ensures CacheSelects(M.Invalidated(contents, namespace, resourceType), lister)
  {
  }

  /** The commits of a run are on resources it was given. */
  lemma {:induction false} CommitsAreOnHeld(held: seq<Item>, run: seq<Attempt>, earlier: seq<Commit>, c: Commit)
    requires |run| <= |held| && forall i | 0 <= i < |run| :: run[i].item == held[i] && WritesOwn(run[i])
    requires c in WithCommits(earlier, run) && c !in earlier
    ensures exists item | item in held :: item.0 == c.key
    decreases |run|
  {
    if run == [] {
    } else {
      var n := |run| - 1;
      if run[n].written == Some(c) {
        assert held[n] in held;
      } else {
        CommitsAreOnHeld(held, run[..n], earlier, c);
      }
    }
  }

  lemma {:induction false} GroupCommitsAreOnHeld(
    held: seq<Item>, plans: seq<seq<Plan>>, runs: seq<seq<Attempt>>, earlier: seq<Commit>, c: Commit)
    requires AllPlanned(held, plans, runs) && c in WithRuns(earlier, runs) && c !in earlier
    ensures exists item | item in held :: item.0 == c.key
    decreases |runs|
  {
    if runs == [] {
    } else {
      var n := |runs| - 1;
      var before := WithRuns(earlier, runs[..n]);
      if c in before {
        GroupCommitsAreOnHeld(held, plans, runs[..n], earlier, c);
      } else {
        RunIsOverHeld(held, plans[n], runs[n]);
        forall i | 0 <= i < |runs[n]|
          ensures WritesOwn(runs[n][i])
        {
          PlannedAt(held, plans[n], runs[n], i);
        }
        CommitsAreOnHeld(held, runs[n], before, c);
      }
    }
  }

  /** A call for a proper query writes nothing but objects that the query selects by type, namespace and
      labels. */
  lemma TaskWritesSelected(
    s: Store, script: seq<Turn>, before: M.Contents, left: M.Contents, q: M.Query, held: seq<Item>, now: int, ttl: int,
    maxEntries: int, victim: Option<string>, lister: M.Lister, task: LegacyTask, ruleID: string, run: seq<Attempt>,
    earlier: seq<Commit>, later: seq<Commit>, c: Commit)
    requires M.Arranges(lister) && M.Proper(q) && CacheSelects(before, lister)
    requires held == Answered(s, script, before, q, now, ttl, lister)
    requires Cached(before, left, q, held, now, ttl, maxEntries, victim)
    requires TaskSoFar(held, run, task, ruleID, earlier, later) && c in later && c !in earlier
    ensures exists item | item in held :: item.0 == c.key && M.Selects(q, lister, item)
    ensures CacheSelects(left, lister) && CacheSelects(M.Invalidated(left, q.namespace, ""), lister)
  {
    AnswerIsSelected(s, script, before, left, q, now, ttl, maxEntries, lister, victim);
    CommitsAreOnHeld(held, run, earlier, c);
    InvalidationKeepsSelection(left, q.namespace, "", lister);
  }

  /** So do the calls for groups. */
  lemma GroupsWriteSelected(
    s: Store, script: seq<Turn>, before: M.Contents, after: M.Contents, q: M.Query, held: seq<Item>, now: int, ttl: int,
    maxEntries: int, victim: Option<string>, lister: M.Lister, plans: seq<seq<Plan>>, runs: seq<seq<Attempt>>,
    earlier: seq<Commit>, c: Commit)
    requires M.Arranges(lister) && M.Proper(q) && CacheSelects(before, lister)
    requires held == Answered(s, script, before, q, now, ttl, lister)
    requires Cached(before, after, q, held, now, ttl, maxEntries, victim)
    requires AllPlanned(held, plans, runs) && c in WithRuns(earlier, runs) && c !in earlier
    ensures exists item | item in held :: item.0 == c.key && M.Selects(q, lister, item)
    ensures CacheSelects(after, lister)
  {
    AnswerIsSelected(s, script, before, after, q, now, ttl, maxEntries, lister, victim);
    GroupCommitsAreOnHeld(held, plans, runs, earlier, c);
  }
}
