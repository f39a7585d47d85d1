/** The resource manager's calls: apply, remove, and groups of both, over all the resources of a query
    (internal/resource/manager.go). */
module Tasks {
  import opened Attempts
  import opened Cache
  import opened Cluster
  import opened Discovery
  import opened Engine
  import opened GroupOrder
  import opened Groups
  import opened Manager
  import opened Stores
  import opened QuietWorld
  import opened Wrappers
  import M = CacheModel

  /* The legacy calls. */

  /** Apply or remove, as the task says. */
  datatype LegacyTask = Apply(annotations: map<string, string>) | Remove(keys: seq<string>)

  /** A commit that lays the rule's annotations over what was there just before. */
  ghost predicate HasApplyEffect(c: Commit, annotations: map<string, string>, ruleID: string) {
    exists order ::
      && IsOrderOf(order, annotations.Keys)
      && c.after.annotations == AfterApply(c.before.annotations, annotations, order, ruleID)
  }

  /** A commit that takes the rule's listed keys off what was there just before. */
  ghost predicate HasBatchEffect(c: Commit, keys: seq<string>, ruleID: string) {
    c.after.annotations == StoredByBatchRemoval(c.before.annotations, keys, ruleID)
  }

  /** A successful attempt wrote what the task says, or there was nothing to remove. */
  ghost predicate HasTaskEffect(a: Attempt, task: LegacyTask, ruleID: string) {
    match a.written
    case Some(c) =>
      (match task
       case Apply(annotations) => HasApplyEffect(c, annotations, ruleID)
       case Remove(keys) => HasBatchEffect(c, keys, ruleID))
    case None =>
      a.ok ==> task.Remove? && RemovableKeys(a.item.1.annotations, task.keys, ruleID) == {}
  }

  /** With nobody else about an attempt succeeds if it holds the stored state; an apply, if the object is
      there at all. It keeps to its object. */
  predicate CalmAttempt(a: Attempt, task: LegacyTask, earlier: Objects, later: Objects) {
    && later.Keys == earlier.Keys && (forall k | k in earlier && k != a.item.0 :: later[k] == earlier[k])
    && (Fresh(earlier, a.item) ==> a.ok)
    && (task.Apply? ==> (a.ok <==> a.item.0 in earlier))
  }

  method AttemptApply(server: ApiServer, resource: Resource, annotations: map<string, string>, ruleID: string)
    returns (err: Option<ApiError>, ghost a: Attempt)
    requires server.Valid() && server.Served(resource)
    modifies server
    ensures server.Valid() && Follows(server.Now(), old(server.Now()))
    ensures a.ok == (err == None) && HasTaskEffect(a, LegacyTask.Apply(annotations), ruleID)
    ensures Made((resource.key, resource.Value()), a, old(server.commits), server.commits)
    ensures old(server.Quiet()) ==>
      server.Quiet() && CalmAttempt(a, LegacyTask.Apply(annotations), old(server.objects), server.objects)
  {
    var order;
    err, order := ApplyAnnotationsToResource(server, resource, annotations, ruleID);
    ghost var item := (resource.key, resource.Value());
    if err == None {
      a := Attempt(item, true, Some(server.commits[|old(server.commits)|]));
      OneCommitIsMade(item, old(server.commits), server.commits);
    } else {
      a := Attempt(item, false, None);
    }
  }

  method AttemptBatchRemoval(server: ApiServer, resource: Resource, keys: seq<string>, ruleID: string)
    returns (err: Option<ApiError>, ghost a: Attempt)
    requires server.Valid() && server.Served(resource)
    modifies server
    ensures server.Valid() && Follows(server.Now(), old(server.Now()))
    ensures a.ok == (err == None) && HasTaskEffect(a, LegacyTask.Remove(keys), ruleID)
    ensures Made((resource.key, resource.Value()), a, old(server.commits), server.commits)
    ensures old(server.Quiet()) ==>
      server.Quiet() && CalmAttempt(a, LegacyTask.Remove(keys), old(server.objects), server.objects)
  {
    QuietRounds(server.Now(), server.script);
    err := RemoveAnnotationsFromResource(server, resource, keys, ruleID);
    ghost var item := (resource.key, resource.Value());
    if err == None && RemovableKeys(resource.annotations, keys, ruleID) != {} {
      a := Attempt(item, true, Some(server.commits[|old(server.commits)|]));
      OneCommitIsMade(item, old(server.commits), server.commits);
    } else {
      a := Attempt(item, err == None, None);
    }
  }

  method AttemptTask(
    server: ApiServer, resource: Resource, task: LegacyTask, ruleID: string) returns (ok: bool, ghost a: Attempt)
    requires server.Valid() && server.Served(resource)
    modifies server
    ensures server.Valid() && Follows(server.Now(), old(server.Now()))
    ensures a.ok == ok && HasTaskEffect(a, task, ruleID)
    ensures Made((resource.key, resource.Value()), a, old(server.commits), server.commits)
    ensures old(server.Quiet()) ==> server.Quiet() && CalmAttempt(a, task, old(server.objects), server.objects)
  {
    var err;
    match task {
      case Apply(annotations) =>
        err, a := AttemptApply(server, resource, annotations, ruleID);
      case Remove(keys) =>
        err, a := AttemptBatchRemoval(server, resource, keys, ruleID);
    }
    ok := err == None;
  }

  /** The commits and effects of a task's attempts so far. */
  ghost predicate TaskSoFar(
    held: seq<Item>, run: seq<Attempt>, task: LegacyTask, ruleID: string, earlier: seq<Commit>, later: seq<Commit>) {
    && Accounted(held, run, earlier, later)
    && forall a | a in run :: HasTaskEffect(a, task, ruleID)
  }

  /** A task's run with nobody else about: it keeps to its objects; it fails on none that is there, if it
      applies, and on none of which it holds the stored state, if no object is listed twice. */
  predicate CalmRun(held: seq<Item>, run: seq<Attempt>, task: LegacyTask, earlier: Objects, later: Objects) {
    && |run| <= |held|
    && KeepsOthers(held[..|run|], earlier, later)
    && CalmResults(held, run, task, earlier)
  }

  predicate CalmResults(held: seq<Item>, run: seq<Attempt>, task: LegacyTask, earlier: Objects)
    requires |run| <= |held|
  {
    forall i | 0 <= i < |run| ::
      && (task.Apply? ==> (run[i].ok <==> held[i].0 in earlier))
      && (DistinctObjects(held) && Fresh(earlier, held[i]) ==> run[i].ok)
  }

  lemma CalmResultsGrow(held: seq<Item>, run: seq<Attempt>, a: Attempt, task: LegacyTask, earlier: Objects)
    requires |run| < |held| && CalmResults(held, run, task, earlier)
    requires task.Apply? ==> (a.ok <==> held[|run|].0 in earlier)
    requires DistinctObjects(held) && Fresh(earlier, held[|run|]) ==> a.ok
    ensures CalmResults(held, run + [a], task, earlier)
  {
  }

  predicate KeepsOthers(items: seq<Item>, earlier: Objects, later: Objects) {
    && later.Keys == earlier.Keys
    && forall k | k in earlier && (forall item | item in items :: item.0 != k) :: later[k] == earlier[k]
  }

  lemma KeepsOthersGrows(items: seq<Item>, item: Item, earlier: Objects, middle: Objects, later: Objects)
    requires KeepsOthers(items, earlier, middle) && later.Keys == middle.Keys
    requires forall k | k in middle && k != item.0 :: later[k] == middle[k]
    ensures KeepsOthers(items + [item], earlier, later)
  {
    forall k | k in earlier && forall x | x in items + [item] :: x.0 != k
      ensures later[k] == earlier[k]
    {
      assert item in items + [item];
      assert forall x | x in items :: x in items + [item];
    }
  }

  /** A state of an object that the items do not mention is as fresh as it was. */
  lemma OthersStayFresh(items: seq<Item>, earlier: Objects, middle: Objects, item: Item)
    requires KeepsOthers(items, earlier, middle) && forall x | x in items :: x.0 != item.0
    ensures Fresh(middle, item) <==> Fresh(earlier, item)
  {
  }

  lemma DistinctFromEarlier(held: seq<Item>, n: nat)
    requires DistinctObjects(held) && n < |held|
    ensures forall item | item in held[..n] :: item.0 != held[n].0
  {
  }

  lemma CalmRunGrows(
    held: seq<Item>, run: seq<Attempt>, a: Attempt, task: LegacyTask,
    earlier: Objects, middle: Objects, later: Objects)
    requires |run| < |held| && CalmRun(held, run, task, earlier, middle)
    requires a.item == held[|run|] && CalmAttempt(a, task, middle, later)
    ensures CalmRun(held, run + [a], task, earlier, later)
  {
    var n := |run|;
    KeepsOthersGrows(held[..n], held[n], earlier, middle, later);
    assert held[..n + 1] == held[..n] + [held[n]];
    if DistinctObjects(held) {
      DistinctFromEarlier(held, n);
      OthersStayFresh(held[..n], earlier, middle, held[n]);
    }
    CalmResultsGrow(held, run, a, task, earlier);
  }

  /** The next resource of a task. */
  method AttemptNextTask(
    server: ApiServer, resources: seq<Resource>, i: nat, task: LegacyTask, ruleID: string, failures: nat,
    ghost run: seq<Attempt>,
    ghost earlier: seq<Commit>, ghost history: History, ghost quiet: bool, ghost objects: Objects)
    returns (failed: nat, ghost longer: seq<Attempt>)
    requires server.Valid() && Known(ItemsOf(resources), history) && Extends(history, server.history)
    requires |run| == i < |resources| && failures == i - Successes(run)
    requires TaskSoFar(ItemsOf(resources), run, task, ruleID, earlier, server.commits)
    requires quiet ==> server.Quiet() && CalmRun(ItemsOf(resources), run, task, objects, server.objects)
    modifies server
    ensures server.Valid() && Follows(server.Now(), old(server.Now()))
    ensures |longer| == i + 1 && failed == i + 1 - Successes(longer)
    ensures TaskSoFar(old(ItemsOf(resources)), longer, task, ruleID, earlier, server.commits)
    ensures quiet ==> server.Quiet() && CalmRun(old(ItemsOf(resources)), longer, task, objects, server.objects)
  {
    ghost var held, middle, before := ItemsOf(resources), server.commits, server.objects;
    assert held[i] == (resources[i].key, resources[i].Value());
    KnownIsServed(server, resources[i], held, history);
    var ok, a := AttemptTask(server, resources[i], task, ruleID);
    AccountedGrows(held, run, a, earlier, middle, server.commits);
    if quiet {
      CalmRunGrows(held, run, a, task, objects, before, server.objects);
    }
    failed, longer := if ok then failures else failures + 1, run + [a];
  }

  /** The loop that ApplyAnnotations and RemoveAnnotations share: every resource is attempted. */
  method AttemptAll(server: ApiServer, resources: seq<Resource>, task: LegacyTask, ruleID: string)
    returns (failures: nat, ghost run: seq<Attempt>)
    requires server.Valid() && Known(ItemsOf(resources), server.history)
    modifies server
    ensures server.Valid() && Follows(server.Now(), old(server.Now()))
    ensures |run| == |resources| && failures == |resources| - Successes(run)
    ensures TaskSoFar(old(ItemsOf(resources)), run, task, ruleID, old(server.commits), server.commits)
    ensures old(server.Quiet()) ==>
      server.Quiet() && CalmRun(old(ItemsOf(resources)), run, task, old(server.objects), server.objects)
  {
    failures, run := 0, [];
    ghost var held, quiet := ItemsOf(resources), server.Quiet();
    for i := 0 to |resources|
      invariant server.Valid() && Follows(server.Now(), old(server.Now()))
      invariant |run| == i && failures == i - Successes(run)
      invariant TaskSoFar(held, run, task, ruleID, old(server.commits), server.commits)
      invariant quiet ==> server.Quiet() && CalmRun(held, run, task, old(server.objects), server.objects)
    {
      failures, run := AttemptNextTask(
        server, resources, i, task, ruleID, failures, run, old(server.commits), old(server.history), quiet,
        old(server.objects));
    }
  }

  /** The same loop, and the cache that it leaves alone. */
  method AttemptBesideCache(
    server: ApiServer, cache: ResourceCache, resources: seq<Resource>, task: LegacyTask, ruleID: string)
    returns (failures: nat, ghost run: seq<Attempt>)
    requires server.Valid() && Known(ItemsOf(resources), server.history)
    requires cache.Valid() && CacheKnown(cache.contents, server.history)
    modifies server
    ensures server.Valid() && cache.Valid() && CacheKnown(cache.contents, server.history)
    ensures |run| == |resources| && failures == |resources| - Successes(run)
    ensures TaskSoFar(old(ItemsOf(resources)), run, task, ruleID, old(server.commits), server.commits)
    ensures old(server.Quiet()) ==>
      server.Quiet() && CalmRun(old(ItemsOf(resources)), run, task, old(server.objects), server.objects)
  {
    failures, run := AttemptAll(server, resources, task, ruleID);
    CacheStaysKnown(cache.contents, old(server.history), server.history);
  }

  predicate ValidAnnotations(annotations: map<string, string>, ctx: Context) {
    forall k | k in annotations :: ctx.validator.Accepts(k) && ctx.valueAllowed(annotations[k])
  }

  /** A key or a value does not pass its check. */
  predicate FailsCheck(annotations: map<string, string>, ctx: Context) {
    exists k | k in annotations :: !ctx.validator.Accepts(k) || !ctx.valueAllowed(annotations[k])
  }

  predicate IsEmpty(task: LegacyTask) {
    task == LegacyTask.Apply(map[]) || task == LegacyTask.Remove([])
  }

  predicate IsInvalid(task: LegacyTask, ctx: Context) {
    task.Apply? && !ValidAnnotations(task.annotations, ctx)
  }

  /** A calm run over the listing of a namespace leaves every other namespace, and with no object listed
      twice it has no failure; nor has an apply in any case. */
  lemma CalmRunInNamespace(
    held: seq<Item>, run: seq<Attempt>, task: LegacyTask, earlier: Objects, later: Objects, namespace: string)
    requires CalmRun(held, run, task, earlier, later) && |run| == |held|
    requires forall item | item in held :: item.0.namespace == namespace && Fresh(earlier, item)
    ensures M.OnlyNamespace(earlier, later, namespace)
    ensures task.Apply? || DistinctObjects(held) ==> Successes(run) == |held|
  {
    forall k | k in earlier && k.namespace != namespace
      ensures later[k] == earlier[k]
    {
      assert forall item | item in held[..|run|] :: item in held;
    }
    if task.Apply? || DistinctObjects(held) {
      forall a | a in run
        ensures a.ok
      {
        var i :| 0 <= i < |run| && run[i] == a;
        assert held[i] in held;
      }
    }
    SuccessesBound(run);
  }

  /** The loop of a task with the invalidation behind it. */
  method AttemptAndInvalidate(
    server: ApiServer, cache: ResourceCache, resources: seq<Resource>, q: M.Query, ghost lister: M.Lister,
    task: LegacyTask, ruleID: string)
    returns (failures: nat, ghost run: seq<Attempt>)
    requires server.Valid() && cache.Valid() && M.Arranges(lister) && CacheKnown(cache.contents, server.history)
    requires Known(ItemsOf(resources), server.history)
    modifies server, cache
    ensures server.Valid() && cache.Valid() && CacheKnown(cache.contents, server.history)
    ensures |run| == |resources| && failures == |resources| - Successes(run)
    ensures TaskSoFar(old(ItemsOf(resources)), run, task, ruleID, old(server.commits), server.commits)
    ensures cache.contents == M.Invalidated(old(cache.contents), q.namespace, "")
    ensures
      && old(Settled(server, cache.contents, lister))
      && (forall item | item in old(ItemsOf(resources)) ::
            item.0.namespace == q.namespace && Fresh(old(server.objects), item))
      ==>
        && Settled(server, cache.contents, lister) && M.OnlyNamespace(old(server.objects), server.objects, q.namespace)
        && (task.Apply? || DistinctObjects(old(ItemsOf(resources))) ==> failures == 0)
  {
    ghost var held := ItemsOf(resources);
    failures, run := AttemptBesideCache(server, cache, resources, task, ruleID);
    if old(Settled(server, cache.contents, lister))
       && forall item | item in held :: item.0.namespace == q.namespace && Fresh(old(server.objects), item)
    {
      CalmRunInNamespace(held, run, task, old(server.objects), server.objects, q.namespace);
      M.InvalidationRestoresCoherence(old(server.objects), server.objects, cache.contents, lister, q.namespace);
    }
    cache.InvalidateCache(q.namespace, "");
  }

  /** What a task's query is answered; no query is made for an empty or an invalid task. */
  function Found(
    s: Store, script: seq<Turn>, contents: M.Contents, q: M.Query, now: int, ttl: int, lister: M.Lister,
    task: LegacyTask, ctx: Context)
    : seq<Item>
    requires M.Arranges(lister)
  {
    if IsEmpty(task) || IsInvalid(task, ctx) then [] else Answered(s, script, contents, q, now, ttl, lister)
  }

  /** The part of a task behind its checks. */
  method FindAndAttempt(
    server: ApiServer, cache: ResourceCache, q: M.Query, lister: M.Lister, now: int, task: LegacyTask, ruleID: string)
    returns (
      err: Option<ManagerError>, ghost held: seq<Item>, ghost run: seq<Attempt>,
      ghost left: M.Contents, ghost victim: Option<string>)
    requires server.Valid() && cache.Valid() && M.Arranges(lister) && CacheKnown(cache.contents, server.history)
    modifies server, cache
    ensures server.Valid() && cache.Valid() && CacheKnown(cache.contents, server.history)
    ensures held == old(Answered(server.Now(), server.script, cache.contents, q, now, cache.ttl, lister))
    ensures |run| == |held| && TaskSoFar(held, run, task, ruleID, old(server.commits), server.commits)
    ensures Cached(old(cache.contents), left, q, held, now, cache.ttl, cache.maxEntries, victim)
    ensures cache.contents == if held == [] then left else M.Invalidated(left, q.namespace, "")
    ensures err ==
      if q.selector.Inconvertible? && !M.Hits(old(cache.contents), q, now, cache.ttl) then Some(SelectorFailed)
      else if Successes(run) < |held| then Some(SomeResourcesFailed)
      else None
    ensures old(Settled(server, cache.contents, lister)) && M.Proper(q) ==>
      && Settled(server, cache.contents, lister) && M.OnlyNamespace(old(server.objects), server.objects, q.namespace)
      && held == M.Listing(old(server.objects), q, lister)
      && (task.Apply? || DistinctObjects(held) ==> err == None)
  {
    var found;
    err, found, victim := FindResources(server, cache, q, lister, now);
    held, run, left := ItemsOf(found), [], cache.contents;
    SuccessesBound(run);
    if err == None && |found| > 0 {
      var failures;
      failures, run := AttemptAndInvalidate(server, cache, found, q, lister, task, ruleID);
      SuccessesBound(run);
      err := if failures > 0 then Some(SomeResourcesFailed) else None;
    }
  }

  /** ApplyAnnotations and RemoveAnnotations: find the resources, attempt each of them, and drop the
      namespace from what the query left in the cache. The commits are those of the successful attempts, each
      with the task's effect on the state it replaced. When things are settled they stay so, and the task succeeds, if
      it applies, or if no object is listed twice. */
  method RunTask(
    server: ApiServer, cache: ResourceCache, q: M.Query, lister: M.Lister, now: int, task: LegacyTask, ctx: Context,
    ruleID: string)
    returns (
      err: Option<ManagerError>, ghost held: seq<Item>, ghost run: seq<Attempt>,
      ghost left: M.Contents, ghost victim: Option<string>)
    requires server.Valid() && cache.Valid() && M.Arranges(lister) && CacheKnown(cache.contents, server.history)
    modifies server, cache
    ensures server.Valid() && cache.Valid() && CacheKnown(cache.contents, server.history)
    ensures held == old(Found(server.Now(), server.script, cache.contents, q, now, cache.ttl, lister, task, ctx))
    ensures |run| == |held| && TaskSoFar(held, run, task, ruleID, old(server.commits), server.commits)
    ensures if IsEmpty(task) || IsInvalid(task, ctx) then cache.contents == old(cache.contents)
            else
              && Cached(old(cache.contents), left, q, held, now, cache.ttl, cache.maxEntries, victim)
              && cache.contents == if held == [] then left else M.Invalidated(left, q.namespace, "")
    ensures err ==
      if IsEmpty(task) then None
      else if IsInvalid(task, ctx) then Some(ValidationFailed)
      else if q.selector.Inconvertible? && !M.Hits(old(cache.contents), q, now, cache.ttl) then Some(SelectorFailed)
      else if Successes(run) < |held| then Some(SomeResourcesFailed)
      else None
    ensures old(Settled(server, cache.contents, lister)) && M.Proper(q) ==>
      && Settled(server, cache.contents, lister) && M.OnlyNamespace(old(server.objects), server.objects, q.namespace)
      && (IsEmpty(task) || IsInvalid(task, ctx) || held == M.Listing(old(server.objects), q, lister))
      && (!IsInvalid(task, ctx) && (task.Apply? || DistinctObjects(held)) ==> err == None)
    ensures task == LegacyTask.Apply(map[]) || task == LegacyTask.Remove([]) ==>
      err == None && server.Now() == old(server.Now()) && server.commits == old(server.commits)
    ensures task.Apply? && FailsCheck(task.annotations, ctx) ==>
      && err == Some(ValidationFailed) && cache.contents == old(cache.contents)
      && server.Now() == old(server.Now()) && server.commits == old(server.commits)
  {
    if IsEmpty(task) {
      SuccessesBound([]);
      return None, [], [], cache.contents, None;
    }
    if task.Apply? && !ValidAnnotations(task.annotations, ctx) {
      return Some(ValidationFailed), [], [], cache.contents, None;
    }
    err, held, run, left, victim := FindAndAttempt(server, cache, q, lister, now, task, ruleID);
  }

  /* The group calls. */

  /** The sorts that a group gets on each of n resources. */
  function SortsOf(sortOf: (nat, nat) -> seq<Operation>, g: nat, n: nat): (sorts: seq<seq<Operation>>)
    ensures |sorts| == n && forall i | 0 <= i < n :: sorts[i] == sortOf(g, i)
  {
    seq(n, i requires 0 <= i < n => sortOf(g, i))
  }

  function AllSortsOf(sortOf: (nat, nat) -> seq<Operation>, groups: nat, n: nat): (sorts: seq<seq<seq<Operation>>>)
    ensures |sorts| == groups && forall g | 0 <= g < groups :: sorts[g] == SortsOf(sortOf, g, n)
  {
    seq(groups, g requires 0 <= g < groups => SortsOf(sortOf, g, n))
  }

  lemma SortsOfFit(groups: seq<Group>, sortOf: (nat, nat) -> seq<Operation>, n: nat)
    requires forall g: nat, i: nat | g < |groups| :: MaySortTo(groups[g].operations, sortOf(g, i))
    ensures AllSortsFit(groups, AllSortsOf(sortOf, |groups|, n), n)
  {
    var sorts := AllSortsOf(sortOf, |groups|, n);
    forall g | 0 <= g < |groups|
      ensures |sorts[g]| == n && AllSorts(groups[g].operations, sorts[g])
    {
      assert sorts[g] == SortsOf(sortOf, g, n);
    }
  }

  function ContextsOf(ctxOf: Item -> Context, held: seq<Item>): (ctxs: seq<Context>)
    ensures |ctxs| == |held| && forall i | 0 <= i < |held| :: ctxs[i] == ctxOf(held[i])
  {
    seq(|held|, i requires 0 <= i < |held| => ctxOf(held[i]))
  }

  predicate SomeChange(runs: seq<seq<Attempt>>) {
    exists g, i :: 0 <= g < |runs| && 0 <= i < |runs[g]| && Changes(runs[g][i])
  }

  lemma ChangedIsNotListed(
    held: seq<Item>, plans: seq<seq<Plan>>, runs: seq<seq<Attempt>>, earlier: Objects, later: Objects,
    q: M.Query, lister: M.Lister, g: nat, i: nat)
    requires M.Arranges(lister) && QuietOutcomes(held, plans, runs, earlier, later)
    requires g < |runs| && i < |runs[g]| && Changes(runs[g][i])
    ensures held[i] in held && held[i] !in M.Listing(later, q, lister)
  {
    assert runs[g][i].item == held[i] && runs[g][i] in runs[g] && runs[g] in runs;
    assert !UntouchedByAll(runs, held[i].0);
    assert held[i] in held && !Fresh(later, held[i]);
    M.ListedExactly(later, q.resourceTypes, q, lister, held[i]);
  }

  lemma ListedIsNotAhead(objects: Objects, q: M.Query, lister: M.Lister)
    requires M.Arranges(lister)
    ensures NotAhead(M.Listing(objects, q, lister), objects)
  {
    forall item | item in M.Listing(objects, q, lister)
      ensures Fresh(objects, item)
    {
      M.ListedExactly(objects, q.resourceTypes, q, lister, item);
    }
  }

  lemma UnchangedIsSame(held: seq<Item>, runs: seq<seq<Attempt>>, earlier: Objects, later: Objects)
    requires QuietRunsStates(held, runs, earlier, later) && !SomeChange(runs)
    ensures later == earlier
  {
    forall k
      ensures UntouchedByAll(runs, k)
    {
      forall run, a | run in runs && a in run
        ensures !Changes(a)
      {
        var g :| 0 <= g < |runs| && runs[g] == run;
        var i :| 0 <= i < |run| && run[i] == a;
      }
    }
    assert later.Keys == earlier.Keys;
  }

  /** With nobody else about, groups make the listing that they worked on wrong if and only if an attempt
      changed its object. */
  lemma StaleExactly(
    held: seq<Item>, plans: seq<seq<Plan>>, runs: seq<seq<Attempt>>, earlier: Objects, later: Objects,
    q: M.Query, lister: M.Lister)
    requires M.Arranges(lister) && held == M.Listing(earlier, q, lister) && QuietRuns(held, plans, runs, earlier, later)
    ensures held != M.Listing(later, q, lister) <==> SomeChange(runs)
  {
    ListedIsNotAhead(earlier, q, lister);
    QuietRunsMean(held, plans, runs, earlier, later);
    if SomeChange(runs) {
      var g, i :| 0 <= g < |runs| && 0 <= i < |runs[g]| && Changes(runs[g][i]);
      ChangedIsNotListed(held, plans, runs, earlier, later, q, lister, g, i);
    } else {
      UnchangedIsSame(held, runs, earlier, later);
    }
  }

  /** What becomes of the cache behind a group call: the query's answer is stored, and nothing is ever
      invalidated; so when things were settled, the query's entry is wrong afterwards if and only if
      an attempt changed its object. */
  ghost predicate LeftInCache(
    s: Store, later: Objects, before: M.Contents, after: M.Contents, q: M.Query, held: seq<Item>, now: int, ttl: int,
    maxEntries: int, victim: Option<string>, settled: bool, runs: seq<seq<Attempt>>, lister: M.Lister)
    requires M.Arranges(lister)
  {
    && Cached(before, after, q, held, now, ttl, maxEntries, victim)
    && (settled ==>
          && held == M.Listing(s.objects, q, lister)
          && M.CacheKey(q) in after && after[M.CacheKey(q)].items == held
          && (after[M.CacheKey(q)].items != M.Listing(later, q, lister) <==> SomeChange(runs)))
  }

  lemma LeavesInCache(
    s: Store, script: seq<Turn>, later: Objects, before: M.Contents, after: M.Contents, q: M.Query,
    held: seq<Item>, now: int, ttl: int, maxEntries: int, victim: Option<string>, settled: bool,
    plans: seq<seq<Plan>>, runs: seq<seq<Attempt>>, lister: M.Lister)
    requires M.Arranges(lister) && Cached(before, after, q, held, now, ttl, maxEntries, victim)
    requires held == Answered(s, script, before, q, now, ttl, lister)
    requires settled ==> QuietScript(script) && M.Proper(q) && M.Coherent(s.objects, before, lister)
    requires QuietScript(script) ==> QuietRuns(held, plans, runs, s.objects, later)
    ensures LeftInCache(s, later, before, after, q, held, now, ttl, maxEntries, victim, settled, runs, lister)
  {
    if settled {
      AnswerIsListing(s, script, before, after, q, now, ttl, maxEntries, lister, victim);
      StaleExactly(held, plans, runs, s.objects, later, q, lister);
    }
  }

  /** The groups, if any resource was found. */
  method ApplyGroupsToFound(
    server: ApiServer, cache: ResourceCache, resources: seq<Resource>, groups: seq<Group>,
    sorts: seq<seq<seq<Operation>>>, ctxs: seq<Context>,
    ruleID: string, resolution: string)
    returns (results: seq<GroupResult>, ghost runs: seq<seq<Attempt>>)
    requires server.Valid() && Known(ItemsOf(resources), server.history)
    requires cache.Valid() && CacheKnown(cache.contents, server.history)
    requires AllSortsFit(groups, sorts, |resources|) && |ctxs| == |resources|
    modifies server
    ensures server.Valid() && Follows(server.Now(), old(server.Now()))
    ensures cache.Valid() && CacheKnown(cache.contents, server.history)
    ensures |runs| == if |resources| == 0 then 0 else |groups|
    ensures AllConcluded(results, groups, runs, sorts, ctxs, ruleID, resolution)
    ensures server.commits == WithRuns(old(server.commits), runs) && OneGroupChanges(runs)
    ensures var held := old(ItemsOf(resources)); var plans := AllApplyPlans(held, sorts, ctxs, ruleID, resolution);
      && AllPlanned(held, plans, runs)
      && (old(server.Quiet()) ==> server.Quiet() && QuietRuns(held, plans, runs, old(server.objects), server.objects))
  {
    results, runs := [], [];
    if |resources| > 0 {
      results, runs := ApplyGroupsInTurn(server, resources, groups, sorts, ctxs, ruleID, resolution);
      CacheStaysKnown(cache.contents, old(server.history), server.history);
    }
  }

  method RemoveGroupsFromFound(
    server: ApiServer, cache: ResourceCache, resources: seq<Resource>, groups: seq<Group>, ruleID: string)
    returns (results: seq<GroupResult>, ghost runs: seq<seq<Attempt>>)
    requires server.Valid() && Known(ItemsOf(resources), server.history)
    requires cache.Valid() && CacheKnown(cache.contents, server.history)
    modifies server
    ensures server.Valid() && Follows(server.Now(), old(server.Now()))
    ensures cache.Valid() && CacheKnown(cache.contents, server.history)
    ensures |runs| == (if |resources| == 0 then 0 else |groups|) && AllRemoved(results, runs, |resources|)
    ensures server.commits == WithRuns(old(server.commits), runs) && OneGroupChanges(runs)
    ensures var held := old(ItemsOf(resources)); var plans := AllRemovalPlans(held, groups, ruleID);
      && AllPlanned(held, plans, runs)
      && (old(server.Quiet()) ==> server.Quiet() && QuietRuns(held, plans, runs, old(server.objects), server.objects))
  {
    results, runs := [], [];
    if |resources| > 0 {
      results, runs := RemoveGroupsInTurn(server, resources, groups, ruleID);
      CacheStaysKnown(cache.contents, old(server.history), server.history);
    }
  }

  /** The part of ApplyAnnotationGroups behind its check. */
  method FindAndApplyGroups(
    server: ApiServer, cache: ResourceCache, q: M.Query, lister: M.Lister, now: int, groups: seq<Group>,
    sortOf: (nat, nat) -> seq<Operation>, ctxOf: Item -> Context, ruleID: string, resolution: string)
    returns (
      err: Option<ManagerError>, results: seq<GroupResult>,
      ghost held: seq<Item>, ghost runs: seq<seq<Attempt>>, ghost victim: Option<string>)
    requires server.Valid() && cache.Valid() && M.Arranges(lister) && CacheKnown(cache.contents, server.history)
    requires forall g: nat, i: nat | g < |groups| :: MaySortTo(groups[g].operations, sortOf(g, i))
    modifies server, cache
    ensures server.Valid() && cache.Valid() && CacheKnown(cache.contents, server.history)
    ensures err ==
      if q.selector.Inconvertible? && !M.Hits(old(cache.contents), q, now, cache.ttl) then Some(SelectorFailed)
      else None
    ensures held == old(Answered(server.Now(), server.script, cache.contents, q, now, cache.ttl, lister))
    ensures |runs| == if held == [] then 0 else |groups|
    ensures var sorts := AllSortsOf(sortOf, |groups|, |held|); var ctxs := ContextsOf(ctxOf, held);
      var plans := AllApplyPlans(held, sorts, ctxs, ruleID, resolution);
      && AllConcluded(results, groups, runs, sorts, ctxs, ruleID, resolution)
      && AllPlanned(held, plans, runs)
      && (old(server.Quiet()) ==> server.Quiet() && QuietRuns(held, plans, runs, old(server.objects), server.objects))
    ensures server.commits == WithRuns(old(server.commits), runs) && OneGroupChanges(runs)
    ensures LeftInCache(
      old(server.Now()), server.objects, old(cache.contents), cache.contents,
      q, held, now, cache.ttl, cache.maxEntries, victim,
      old(Settled(server, cache.contents, lister)) && M.Proper(q), runs, lister)
  {
    results, runs := [], [];
    ghost var settled := Settled(server, cache.contents, lister) && M.Proper(q);
    var resources;
    err, resources, victim := GetMatchingResources(server, cache, q, lister, now);
    held := ItemsOf(resources);
    var n := |resources|;
    var sorts, ctxs := AllSortsOf(sortOf, |groups|, n), ContextsOf(ctxOf, ItemsOf(resources));
    SortsOfFit(groups, sortOf, n);
    results, runs := ApplyGroupsToFound(server, cache, resources, groups, sorts, ctxs, ruleID, resolution);
    LeavesInCache(
      old(server.Now()), old(server.script), server.objects, old(cache.contents), cache.contents,
      q, held, now, cache.ttl, cache.maxEntries, victim, settled,
      AllApplyPlans(held, sorts, ctxs, ruleID, resolution), runs, lister);
  }

  /** ApplyAnnotationGroups: all groups on one snapshot of the resources. */
  method ApplyAnnotationGroups(
    server: ApiServer, cache: ResourceCache, q: M.Query, lister: M.Lister, now: int, groups: seq<Group>,
    sortOf: (nat, nat) -> seq<Operation>, ctxOf: Item -> Context, ruleID: string, resolution: string)
    returns (
      err: Option<ManagerError>, results: seq<GroupResult>,
      ghost held: seq<Item>, ghost runs: seq<seq<Attempt>>, ghost victim: Option<string>)
    requires server.Valid() && cache.Valid() && M.Arranges(lister) && CacheKnown(cache.contents, server.history)
    requires forall g: nat, i: nat | g < |groups| :: MaySortTo(groups[g].operations, sortOf(g, i))
    modifies server, cache
    ensures server.Valid() && cache.Valid() && CacheKnown(cache.contents, server.history)
    ensures err ==
      if groups == [] || !q.selector.Inconvertible? || M.Hits(old(cache.contents), q, now, cache.ttl) then None
      else Some(SelectorFailed)
    ensures held ==
      if groups == [] then []
      else old(Answered(server.Now(), server.script, cache.contents, q, now, cache.ttl, lister))
    ensures |runs| == if held == [] then 0 else |groups|
    ensures var sorts := AllSortsOf(sortOf, |groups|, |held|); var ctxs := ContextsOf(ctxOf, held);
      var plans := AllApplyPlans(held, sorts, ctxs, ruleID, resolution);
      && AllConcluded(results, groups, runs, sorts, ctxs, ruleID, resolution)
      && AllPlanned(held, plans, runs)
      && (old(server.Quiet()) ==> server.Quiet() && QuietRuns(held, plans, runs, old(server.objects), server.objects))
    ensures server.commits == WithRuns(old(server.commits), runs) && OneGroupChanges(runs)
    ensures groups != [] ==>
      LeftInCache(
        old(server.Now()), server.objects, old(cache.contents), cache.contents,
        q, held, now, cache.ttl, cache.maxEntries, victim,
        old(Settled(server, cache.contents, lister)) && M.Proper(q), runs, lister)
  {
    if groups == [] {
      err, results, held, runs, victim := None, [], [], [], None;
    } else {
      err, results, held, runs, victim :=
        FindAndApplyGroups(server, cache, q, lister, now, groups, sortOf, ctxOf, ruleID, resolution);
    }
  }

  method FindAndRemoveGroups(
    server: ApiServer, cache: ResourceCache, q: M.Query, lister: M.Lister, now: int, groups: seq<Group>, ruleID: string)
    returns (
      err: Option<ManagerError>, results: seq<GroupResult>,
      ghost held: seq<Item>, ghost runs: seq<seq<Attempt>>, ghost victim: Option<string>)
    requires server.Valid() && cache.Valid() && M.Arranges(lister) && CacheKnown(cache.contents, server.history)
    modifies server, cache
    ensures server.Valid() && cache.Valid() && CacheKnown(cache.contents, server.history)
    ensures err ==
      if q.selector.Inconvertible? && !M.Hits(old(cache.contents), q, now, cache.ttl) then Some(SelectorFailed)
      else None
    ensures held == old(Answered(server.Now(), server.script, cache.contents, q, now, cache.ttl, lister))
    ensures |runs| == (if held == [] then 0 else |groups|) && AllRemoved(results, runs, |held|)
    ensures var plans := AllRemovalPlans(held, groups, ruleID);
      && AllPlanned(held, plans, runs)
      && (old(server.Quiet()) ==> server.Quiet() && QuietRuns(held, plans, runs, old(server.objects), server.objects))
    ensures server.commits == WithRuns(old(server.commits), runs) && OneGroupChanges(runs)
    ensures LeftInCache(
      old(server.Now()), server.objects, old(cache.contents), cache.contents,
      q, held, now, cache.ttl, cache.maxEntries, victim,
      old(Settled(server, cache.contents, lister)) && M.Proper(q), runs, lister)
  {
    results, runs := [], [];
    ghost var settled := Settled(server, cache.contents, lister) && M.Proper(q);
    var resources;
    err, resources, victim := GetMatchingResources(server, cache, q, lister, now);
    held := ItemsOf(resources);
    results, runs := RemoveGroupsFromFound(server, cache, resources, groups, ruleID);
    LeavesInCache(
      old(server.Now()), old(server.script), server.objects, old(cache.contents), cache.contents,
      q, held, now, cache.ttl, cache.maxEntries, victim, settled, AllRemovalPlans(held, groups, ruleID), runs, lister);
  }

  /** RemoveAnnotationGroups */
  method RemoveAnnotationGroups(
    server: ApiServer, cache: ResourceCache, q: M.Query, lister: M.Lister, now: int, groups: seq<Group>, ruleID: string)
    returns (
      err: Option<ManagerError>, results: seq<GroupResult>,
      ghost held: seq<Item>, ghost runs: seq<seq<Attempt>>, ghost victim: Option<string>)
    requires server.Valid() && cache.Valid() && M.Arranges(lister) && CacheKnown(cache.contents, server.history)
    modifies server, cache
    ensures server.Valid() && cache.Valid() && CacheKnown(cache.contents, server.history)
    ensures err ==
      if groups == [] || !q.selector.Inconvertible? || M.Hits(old(cache.contents), q, now, cache.ttl) then None
      else Some(SelectorFailed)
    ensures held ==
      if groups == [] then []
      else old(Answered(server.Now(), server.script, cache.contents, q, now, cache.ttl, lister))
    ensures |runs| == (if held == [] then 0 else |groups|) && AllRemoved(results, runs, |held|)
    ensures var plans := AllRemovalPlans(held, groups, ruleID);
      && AllPlanned(held, plans, runs)
      && (old(server.Quiet()) ==> server.Quiet() && QuietRuns(held, plans, runs, old(server.objects), server.objects))
    ensures server.commits == WithRuns(old(server.commits), runs) && OneGroupChanges(runs)
    ensures groups != [] ==>
      LeftInCache(
        old(server.Now()), server.objects, old(cache.contents), cache.contents,
        q, held, now, cache.ttl, cache.maxEntries, victim,
        old(Settled(server, cache.contents, lister)) && M.Proper(q), runs, lister)
  {
    if groups == [] {
      err, results, held, runs, victim := None, [], [], [], None;
    } else {
      err, results, held, runs, victim := FindAndRemoveGroups(server, cache, q, lister, now, groups, ruleID);
    }
  }
}
