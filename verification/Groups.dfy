/** Annotation groups over many resources: what is written, and how it is accounted for
    (internal/resource/manager.go). */
module Groups {
  import opened Attempts
  import opened Cluster
  import opened Engine
  import opened GroupOrder
  import opened Manager
  import opened QuietWorld
  import opened Stores
  import opened Tracking
  import opened Validator
  import opened Wrappers

  datatype Group = Group(operations: seq<Operation>, atomic: bool)

  datatype GroupResult = GroupResult(
    success: bool, operations: seq<OperationResult>, error: Option<OperationError>, resourcesAffected: nat)

  /* The operations on one resource. */

  /** The reports of a run of operations: each is about the annotations that the earlier ones left. */
  function ResultsOf(m: Annotations, ops: seq<Operation>, ctx: Context, ruleID: string, resolution: string)
    : (results: seq<OperationResult>)
    ensures |results| == |ops|
  {
    seq(|ops|, i requires 0 <= i < |ops| =>
      ResultOf(AfterOperations(m, ops[..i], ctx, ruleID, resolution), ops[i], ctx, ruleID, resolution))
  }

  lemma ResultsGrow(
    m: Annotations, ops: seq<Operation>, op: Operation, ctx: Context, ruleID: string, resolution: string)
    ensures ResultsOf(m, ops + [op], ctx, ruleID, resolution) == ResultsOf(m, ops, ctx, ruleID, resolution)
         + [ResultOf(AfterOperations(m, ops, ctx, ruleID, resolution), op, ctx, ruleID, resolution)]
  {
    assert forall i | 0 <= i <= |ops| :: (ops + [op])[..i] == ops[..i];
    assert ops[..|ops|] == ops;
  }

  /** The error of the first operation that has one. */
  function FirstError(ops: seq<Operation>, ctx: Context): (error: Option<OperationError>)
    ensures error == None <==> AllSucceed(ops, ctx)
  {
    if ops == [] then None
    else
      var front, last := ops[..|ops| - 1], ops[|ops| - 1];
      assert ops == front + [last];
      if FirstError(front, ctx).Some? then FirstError(front, ctx) else ErrorOf(last, ctx)
  }

  /** What the first operations have made of a copy, and their reports. */
  predicate OperationsDone(
    m: Annotations, after: Annotations, done: seq<Operation>, ctx: Context, ruleID: string, resolution: string,
    results: seq<OperationResult>, error: Option<OperationError>)
  {
    && after == AfterOperations(m, done, ctx, ruleID, resolution)
    && results == ResultsOf(m, done, ctx, ruleID, resolution)
    && error == FirstError(done, ctx)
  }

  lemma OperationsDoneGrow(
    m: Annotations, after: Annotations, done: seq<Operation>, ctx: Context, ruleID: string, resolution: string,
    results: seq<OperationResult>, error: Option<OperationError>, op: Operation)
    requires OperationsDone(m, after, done, ctx, ruleID, resolution, results, error)
    ensures OperationsDone(
      m, AfterOperation(after, op, ctx, ruleID, resolution), done + [op], ctx, ruleID, resolution,
      results + [ResultOf(after, op, ctx, ruleID, resolution)], if error.Some? then error else ErrorOf(op, ctx))
  {
    assert (done + [op])[..|done|] == done;
    OneMoreOperation(m, done, op, ctx, ruleID, resolution);
    ResultsGrow(m, done, op, ctx, ruleID, resolution);
  }

  method RunNextOperation(
    copy: Resource, op: Operation, ctx: Context, ruleID: string, resolution: string, ghost m: Annotations,
    ghost done: seq<Operation>, results: seq<OperationResult>, error: Option<OperationError>)
    returns (reports: seq<OperationResult>, first: Option<OperationError>)
    requires OperationsDone(m, copy.annotations, done, ctx, ruleID, resolution, results, error)
    modifies copy`annotations
    ensures OperationsDone(m, copy.annotations, done + [op], ctx, ruleID, resolution, reports, first)
  {
    OperationsDoneGrow(m, copy.annotations, done, ctx, ruleID, resolution, results, error, op);
    ResultTellsError(copy.annotations, op, ctx, ruleID, resolution);
    var r := ApplyAnnotationOperation(copy, op, ctx, ruleID, resolution);
    reports, first := results + [r], error;
    if !r.success && error == None {
      first := r.error;
    }
  }

  /** The operations on a copy, in sorted order. */
  method RunOperations(copy: Resource, sorted: seq<Operation>, ctx: Context, ruleID: string, resolution: string)
    returns (results: seq<OperationResult>, error: Option<OperationError>)
    modifies copy`annotations
    ensures copy.annotations == AfterOperations(old(copy.annotations), sorted, ctx, ruleID, resolution)
    ensures results == ResultsOf(old(copy.annotations), sorted, ctx, ruleID, resolution)
    ensures error == FirstError(sorted, ctx)
  {
    results, error := [], None;
    for i := 0 to |sorted|
      invariant OperationsDone(
        old(copy.annotations), copy.annotations, sorted[..i], ctx, ruleID, resolution, results, error)
    {
      assert sorted[..i + 1] == sorted[..i] + [sorted[i]];
      results, error := RunNextOperation(
        copy, sorted[i], ctx, ruleID, resolution, old(copy.annotations), sorted[..i], results, error);
    }
    assert sorted[..|sorted|] == sorted;
  }

  lemma ResultTellsError(m: Annotations, op: Operation, ctx: Context, ruleID: string, resolution: string)
    ensures var r := ResultOf(m, op, ctx, ruleID, resolution);
      r.error == ErrorOf(op, ctx) && (r.success <==> r.error == None)
  {
  }

  /** What a resource's operations are going to do: all or nothing. */
  function ApplyPlan(item: Item, sorted: seq<Operation>, ctx: Context, ruleID: string, resolution: string): Plan {
    Plan(
      AllSucceed(sorted, ctx),
      if Writes(sorted, ctx) then Some(AfterOperations(item.1.annotations, sorted, ctx, ruleID, resolution)) else None)
  }

  /** The reports on a resource; when its update fails, every operation is reported as failed ... */
  function ReportsOn(item: Item, sorted: seq<Operation>, ctx: Context, ruleID: string, resolution: string, ok: bool)
    : seq<OperationResult>
  {
    var results := ResultsOf(item.1.annotations, sorted, ctx, ruleID, resolution);
    if ok || !AllSucceed(sorted, ctx) then results else AllFailed(results)
  }

  function AllFailed(results: seq<OperationResult>): (failed: seq<OperationResult>)
    ensures |failed| == |results| && forall r | r in failed :: !r.success
    ensures forall i | 0 <= i < |results| ::
      && failed[i].key == results[i].key && failed[i].priority == results[i].priority
      && failed[i].error == if results[i].success then Some(UpdateFailed) else results[i].error
  {
    seq(|results|, i requires 0 <= i < |results| =>
      if results[i].success then results[i].(success := false, error := Some(UpdateFailed)) else results[i])
  }

  /** ... and the error of a resource. */
  function ErrorOn(sorted: seq<Operation>, ctx: Context, ok: bool): Option<OperationError> {
    if ok then None else if AllSucceed(sorted, ctx) then Some(UpdateFailed) else FirstError(sorted, ctx)
  }

  /** One resource. Success is decided by the operations and, if there is something to write, by how the
      update loop ends. Success with operations means exactly one commit: of their effect, if the
      first update is accepted, and otherwise of the state as it was. */
  method ApplyAnnotationOperationsToResource(
    server: ApiServer, resource: Resource, operations: seq<Operation>, sorted: seq<Operation>,
    ctx: Context, ruleID: string, resolution: string)
    returns (result: GroupResult)
    requires server.Valid() && server.Served(resource) && MaySortTo(operations, sorted)
    modifies server
    ensures server.Valid() && Follows(server.Now(), old(server.Now()))
    ensures var plan := ApplyPlan((resource.key, resource.Value()), sorted, ctx, ruleID, resolution);
      var loop := old(server.LoopOutcome(resource.key, resource.version, MAX_RETRIES));
      && (plan.proposal.Some? <==> AllSucceed(operations, ctx) && operations != [])
      && (result.success <==> plan.valid && (plan.proposal.Some? ==> loop.err == None))
      && (plan.proposal == None ==>
            && server.commits == old(server.commits) && server.updates == old(server.updates)
            && server.Now() == old(server.Now()) && server.script == old(server.script))
      && (result.success && plan.proposal.Some? ==>
            && OneCommit(old(server.commits), server.commits, resource.key)
            && var c := server.commits[|old(server.commits)|];
               && Adjacent(c, server.history)
               && TakesOver(c, old(server.newest), server.newest, resource.version)
               && if old(server.NextError(resource.key, resource.version)) == None then
                    c.before == resource.Value() && c.after.annotations == plan.proposal.value
                  else
                    c.after == c.before)
    ensures !result.success ==> server.commits == old(server.commits)
    ensures result.operations ==
      ReportsOn((resource.key, resource.Value()), sorted, ctx, ruleID, resolution, result.success)
    ensures result.error == ErrorOn(sorted, ctx, result.success)
    ensures old(server.Quiet()) ==>
      && server.Quiet()
      && (result.success <==> AllSucceed(sorted, ctx) && (operations != [] ==> resource.key in old(server.objects)))
      && if result.success && operations != [] then
           var c := server.commits[|old(server.commits)|];
           && c.before == old(server.objects)[resource.key]
           && server.objects == old(server.objects)[resource.key := c.after]
         else
           server.objects == old(server.objects)
  {
    SameOperations(operations, sorted);
    var copy := resource.DeepCopy();
    var results, error := RunOperations(copy, sorted, ctx, ruleID, resolution);
    result := GroupResult(true, results, error, 0);
    if |results| > 0 && error == None {
      var err := UpdateResourceWithRetry(server, copy);
      if err.Some? {
        result := GroupResult(false, AllFailed(results), Some(UpdateFailed), 0);
      }
    } else if error.Some? {
      result := result.(success := false);
    }
  }

  /* A group over a list of resources. */

  ghost function StandingOf(server: ApiServer): Standing
    reads server`commits, server`newest
  {
    Standing(server.commits, server.newest)
  }

  /** With nobody else about, an attempt that makes at most one commit goes exactly as planned. */
  lemma AttemptWasQuiet(a: Attempt, plan: Plan, s: Store, script: seq<Turn>, later: Objects, history: History)
    requires Consistent(s) && QuietScript(script)
    requires (a.item.0, a.item.1.version) in s.history && s.history[(a.item.0, a.item.1.version)] == a.item.1
    requires (a.ok <==> plan.valid && (plan.proposal.Some? ==> a.item.0 in s.objects))
      && (a.written.Some? <==> a.ok && plan.proposal.Some?)
    requires a.written == None ==> later == s.objects
    requires a.written.Some? ==>
      var c := a.written.value;
      && c.before == s.objects[a.item.0] && later == s.objects[a.item.0 := c.after] && c.key == a.item.0
      && Adjacent(c, history) && (c.before.annotations == c.after.annotations ==> c.before == c.after)
      && if UpdateError(s, script, a.item.0, a.item.1.version) == None then c.after.annotations == plan.proposal.value
         else c.after == c.before
    ensures QuietAttempt(a, plan, s.objects, later)
  {
    QuietArrival(s, script);
  }

  method AttemptResource(
    server: ApiServer, resource: Resource, operations: seq<Operation>, sorted: seq<Operation>,
    ctx: Context, ruleID: string, resolution: string)
    returns (r: GroupResult, ghost attempt: Attempt)
    requires server.Valid() && server.Served(resource) && MaySortTo(operations, sorted)
    modifies server
    ensures server.Valid() && Follows(server.Now(), old(server.Now()))
    ensures attempt.item == (resource.key, resource.Value())
    ensures var plan := ApplyPlan(attempt.item, sorted, ctx, ruleID, resolution);
      && AttemptStep(attempt.item, plan, attempt, old(StandingOf(server)), StandingOf(server))
      && (old(server.Quiet()) ==> server.Quiet() && QuietAttempt(attempt, plan, old(server.objects), server.objects))
    ensures attempt.ok == r.success
    ensures r.operations == ReportsOn(attempt.item, sorted, ctx, ruleID, resolution, r.success)
    ensures r.error == ErrorOn(sorted, ctx, r.success)
  {
    SameOperations(operations, sorted);
    ghost var item := (resource.key, resource.Value());
    ghost var plan := ApplyPlan(item, sorted, ctx, ruleID, resolution);
    r := ApplyAnnotationOperationsToResource(server, resource, operations, sorted, ctx, ruleID, resolution);
    if r.success && plan.proposal.Some? {
      attempt := Attempt(item, true, Some(server.commits[|old(server.commits)|]));
      OneCommitIsMade(item, old(server.commits), server.commits);
    } else {
      attempt := Attempt(item, r.success, None);
    }
    if old(server.Quiet()) {
      AttemptWasQuiet(attempt, plan, old(server.Now()), old(server.script), server.objects, server.history);
    }
  }

  /** The plans of a group for a list of resources. */
  function ApplyPlans(
    held: seq<Item>, sorts: seq<seq<Operation>>, ctxs: seq<Context>, ruleID: string, resolution: string)
    : (plans: seq<Plan>)
    requires |held| == |sorts| == |ctxs|
    ensures |plans| == |held|
  {
    if held == [] then []
    else
      var last := |held| - 1;
      ApplyPlans(held[..last], sorts[..last], ctxs[..last], ruleID, resolution)
      + [ApplyPlan(held[last], sorts[last], ctxs[last], ruleID, resolution)]
  }

  lemma {:induction false} ApplyPlansAt(
    held: seq<Item>, sorts: seq<seq<Operation>>, ctxs: seq<Context>, ruleID: string, resolution: string, i: nat)
    requires |held| == |sorts| == |ctxs| && i < |held|
    ensures ApplyPlans(held, sorts, ctxs, ruleID, resolution)[i] ==
      ApplyPlan(held[i], sorts[i], ctxs[i], ruleID, resolution)
  {
    var last := |held| - 1;
    if i == last {
    } else {
      ApplyPlansAt(held[..last], sorts[..last], ctxs[..last], ruleID, resolution, i);
    }
  }

  /** All reports of a run, resource after resource ... */
  function ReportsOfRun(
    run: seq<Attempt>, sorts: seq<seq<Operation>>, ctxs: seq<Context>, ruleID: string, resolution: string)
    : seq<OperationResult>
    requires |run| <= |sorts| == |ctxs|
  {
    if run == [] then []
    else
      var last := |run| - 1;
      ReportsOfRun(run[..last], sorts, ctxs, ruleID, resolution)
      + ReportsOn(run[last].item, sorts[last], ctxs[last], ruleID, resolution, run[last].ok)
  }

  /** ... and the error of its first failure. */
  function ErrorOfRun(run: seq<Attempt>, sorts: seq<seq<Operation>>, ctxs: seq<Context>): Option<OperationError>
    requires |run| <= |sorts| == |ctxs|
  {
    if run == [] then None
    else
      var last := |run| - 1;
      var earlier := ErrorOfRun(run[..last], sorts, ctxs);
      if earlier.Some? then earlier else ErrorOn(sorts[last], ctxs[last], run[last].ok)
  }

  lemma RunReportsGrow(
    run: seq<Attempt>, a: Attempt, sorts: seq<seq<Operation>>, ctxs: seq<Context>, ruleID: string, resolution: string)
    requires |run| < |sorts| == |ctxs|
    ensures var i := |run|;
      && ReportsOfRun(run + [a], sorts, ctxs, ruleID, resolution)
         == ReportsOfRun(run, sorts, ctxs, ruleID, resolution)
          + ReportsOn(a.item, sorts[i], ctxs[i], ruleID, resolution, a.ok)
      && ErrorOfRun(run + [a], sorts, ctxs)
         == if ErrorOfRun(run, sorts, ctxs).Some? then ErrorOfRun(run, sorts, ctxs)
           else ErrorOn(sorts[i], ctxs[i], a.ok)
  {
    assert (run + [a])[..|run|] == run;
  }

  /** A run has an error exactly if an attempt has failed. */
  lemma {:induction false} ErrorMeansFailure(run: seq<Attempt>, sorts: seq<seq<Operation>>, ctxs: seq<Context>)
    requires |run| <= |sorts| == |ctxs|
    ensures ErrorOfRun(run, sorts, ctxs) == None <==> Successes(run) == |run|
  {
    if run == [] {
    } else {
      var front := run[..|run| - 1];
      ErrorMeansFailure(front, sorts, ctxs);
      SuccessesBound(front);
      assert FirstError(sorts[|run| - 1], ctxs[|run| - 1]) == None <==> AllSucceed(sorts[|run| - 1], ctxs[|run| - 1]);
    }
  }

  /** The counts, flags, reports and error of a group's run so far. */
  predicate Tallied(
    result: GroupResult, group: Group, run: seq<Attempt>, sorts: seq<seq<Operation>>, ctxs: seq<Context>,
    ruleID: string, resolution: string, stopped: bool)
    requires |run| <= |sorts| == |ctxs|
  {
    && result.resourcesAffected == Successes(run)
    && (result.success <==> result.resourcesAffected == |run|)
    && (stopped <==> group.atomic && !result.success)
    && (stopped ==> run != [] && result.resourcesAffected == |run| - 1 && !run[|run| - 1].ok)
    && result.operations == ReportsOfRun(run, sorts, ctxs, ruleID, resolution)
    && result.error == ErrorOfRun(run, sorts, ctxs)
  }

  /** Adds the result of one resource to that of the group, and says whether an atomic group stops. */
  method Aggregate(
    result: GroupResult, r: GroupResult, group: Group, ghost run: seq<Attempt>, ghost a: Attempt,
    ghost sorts: seq<seq<Operation>>, ghost ctxs: seq<Context>, ghost ruleID: string, ghost resolution: string)
    returns (next: GroupResult, stopped: bool)
    requires |run| < |sorts| == |ctxs| && Tallied(result, group, run, sorts, ctxs, ruleID, resolution, false)
    requires a.ok == r.success
    requires r.operations == ReportsOn(a.item, sorts[|run|], ctxs[|run|], ruleID, resolution, a.ok)
    requires r.error == ErrorOn(sorts[|run|], ctxs[|run|], a.ok)
    ensures Tallied(next, group, run + [a], sorts, ctxs, ruleID, resolution, stopped)
    ensures next.error == if result.error.Some? then result.error else r.error
  {
    ghost var earlier: seq<Commit> := [];
    CountsGrow(earlier, run, a);
    SuccessesBound(run);
    RunReportsGrow(run, a, sorts, ctxs, ruleID, resolution);
    ErrorMeansFailure(run, sorts, ctxs);
    next, stopped := result.(operations := result.operations + r.operations), false;
    if !r.success {
      next := next.(success := false, error := if next.error == None then r.error else next.error);
      if group.atomic {
        next, stopped := next.(error := r.error), true;
      }
    } else {
      next := next.(resourcesAffected := next.resourcesAffected + 1);
    }
  }

  /** The result of a group over all resources: it counts the successes, it is a success exactly if all
      are, it has all reports and the error of the first failure, and only an atomic group stops
      early, just behind its first failure. */
  predicate Concluded(
    result: GroupResult, group: Group, run: seq<Attempt>, sorts: seq<seq<Operation>>, ctxs: seq<Context>,
    ruleID: string, resolution: string)
  {
    && |run| <= |sorts| == |ctxs|
    && result.resourcesAffected == Successes(run)
    && (result.success <==> result.resourcesAffected == |sorts|)
    && (!group.atomic || result.success ==> |run| == |sorts|)
    && (group.atomic && !result.success ==> run != [] && forall i | 0 <= i < |run| :: run[i].ok <==> i < |run| - 1)
    && result.operations == ReportsOfRun(run, sorts, ctxs, ruleID, resolution)
    && result.error == ErrorOfRun(run, sorts, ctxs)
  }

  lemma TallyConcludes(
    result: GroupResult, group: Group, run: seq<Attempt>, sorts: seq<seq<Operation>>, ctxs: seq<Context>,
    ruleID: string, resolution: string, stopped: bool)
    requires |run| <= |sorts| == |ctxs| && (!stopped ==> |run| == |sorts|)
    requires Tallied(result, group, run, sorts, ctxs, ruleID, resolution, stopped)
    ensures Concluded(result, group, run, sorts, ctxs, ruleID, resolution)
  {
    SuccessesBound(run);
    if stopped {
      var front := run[..|run| - 1];
      SuccessesBound(front);
      assert forall i | 0 <= i < |front| :: run[i] == front[i] && front[i] in front;
    }
  }

  method AttemptNext(
    server: ApiServer, resources: seq<Resource>, i: nat, operations: seq<Operation>, sorts: seq<seq<Operation>>,
    ctxs: seq<Context>,
    ruleID: string, resolution: string, ghost plans: seq<Plan>, ghost run: seq<Attempt>, ghost earlier: Standing,
    ghost history: History, ghost quiet: bool, ghost objects: Objects)
    returns (r: GroupResult, ghost a: Attempt)
    requires server.Valid() && Known(ItemsOf(resources), history) && Extends(history, server.history)
    requires |run| == i < |resources| == |sorts| == |ctxs| && MaySortTo(operations, sorts[i])
    requires plans == ApplyPlans(ItemsOf(resources), sorts, ctxs, ruleID, resolution)
    requires RunSteps(ItemsOf(resources), plans, run, earlier, StandingOf(server))
    requires quiet ==> server.Quiet() && QuietRun(ItemsOf(resources), plans, run, objects, server.objects)
    modifies server
    ensures server.Valid() && Follows(server.Now(), old(server.Now()))
    ensures RunSteps(old(ItemsOf(resources)), plans, run + [a], earlier, StandingOf(server))
    ensures quiet ==> server.Quiet() && QuietRun(old(ItemsOf(resources)), plans, run + [a], objects, server.objects)
    ensures a.ok == r.success
    ensures r.operations == ReportsOn(a.item, sorts[i], ctxs[i], ruleID, resolution, a.ok)
    ensures r.error == ErrorOn(sorts[i], ctxs[i], a.ok)
  {
    ghost var held, middle, before := ItemsOf(resources), StandingOf(server), server.objects;
    assert held[i] == (resources[i].key, resources[i].Value());
    KnownIsServed(server, resources[i], held, history);
    ApplyPlansAt(held, sorts, ctxs, ruleID, resolution, i);
    r, a := AttemptResource(server, resources[i], operations, sorts[i], ctxs[i], ruleID, resolution);
    RunGrows(held, plans, run, a, earlier, middle, StandingOf(server));
    if quiet {
      QuietRunGrows(held, plans, run, a, objects, before, server.objects);
    }
  }

  /** The next resource of a group, added to the group's result. */
  method AttemptAndTally(
    server: ApiServer, resources: seq<Resource>, i: nat, group: Group, sorts: seq<seq<Operation>>, ctxs: seq<Context>,
    ruleID: string, resolution: string, result: GroupResult, ghost plans: seq<Plan>, ghost run: seq<Attempt>,
    ghost earlier: Standing, ghost history: History, ghost quiet: bool, ghost objects: Objects)
    returns (next: GroupResult, stopped: bool, ghost longer: seq<Attempt>)
    requires server.Valid() && Known(ItemsOf(resources), history) && Extends(history, server.history)
    requires |run| == i < |resources| == |sorts| == |ctxs| && AllSorts(group.operations, sorts)
    requires plans == ApplyPlans(ItemsOf(resources), sorts, ctxs, ruleID, resolution)
    requires RunSteps(ItemsOf(resources), plans, run, earlier, StandingOf(server))
    requires quiet ==> server.Quiet() && QuietRun(ItemsOf(resources), plans, run, objects, server.objects)
    requires Tallied(result, group, run, sorts, ctxs, ruleID, resolution, false)
    modifies server
    ensures server.Valid() && Follows(server.Now(), old(server.Now()))
    ensures |longer| == i + 1 && RunSteps(old(ItemsOf(resources)), plans, longer, earlier, StandingOf(server))
    ensures quiet ==> server.Quiet() && QuietRun(old(ItemsOf(resources)), plans, longer, objects, server.objects)
    ensures Tallied(next, group, longer, sorts, ctxs, ruleID, resolution, stopped)
  {
    var r, a := AttemptNext(
      server, resources, i, group.operations, sorts, ctxs, ruleID, resolution, plans, run, earlier, history, quiet,
      objects);
    next, stopped := Aggregate(result, r, group, run, a, sorts, ctxs, ruleID, resolution);
    longer := run + [a];
  }

  /** A group over a list of resources, with the sort that each resource's run happens to get. */
  method ApplyAnnotationGroup(
    server: ApiServer, resources: seq<Resource>, group: Group, sorts: seq<seq<Operation>>, ctxs: seq<Context>,
    ruleID: string, resolution: string)
    returns (result: GroupResult, ghost run: seq<Attempt>)
    requires server.Valid() && Known(ItemsOf(resources), server.history)
    requires |sorts| == |ctxs| == |resources| && AllSorts(group.operations, sorts)
    modifies server
    ensures server.Valid() && Follows(server.Now(), old(server.Now()))
    ensures var held := old(ItemsOf(resources)); var plans := ApplyPlans(held, sorts, ctxs, ruleID, resolution);
      && RunSteps(held, plans, run, old(StandingOf(server)), StandingOf(server))
      && (old(server.Quiet()) ==> server.Quiet() && QuietRun(held, plans, run, old(server.objects), server.objects))
    ensures Concluded(result, group, run, sorts, ctxs, ruleID, resolution)
  {
    result := GroupResult(true, [], None, 0);
    run := [];
    ghost var held := ItemsOf(resources);
    ghost var plans := ApplyPlans(held, sorts, ctxs, ruleID, resolution);
    ghost var quiet := server.Quiet();
    var i := 0;
    var stopped := false;
    while i < |resources| && !stopped
      invariant 0 <= i <= |resources| && |run| == i
      invariant server.Valid() && Follows(server.Now(), old(server.Now()))
      invariant RunSteps(held, plans, run, old(StandingOf(server)), StandingOf(server))
      invariant quiet ==> server.Quiet() && QuietRun(held, plans, run, old(server.objects), server.objects)
      invariant Tallied(result, group, run, sorts, ctxs, ruleID, resolution, stopped)
      decreases |resources| - i, !stopped
    {
      result, stopped, run := AttemptAndTally(
        server, resources, i, group, sorts, ctxs, ruleID, resolution, result, plans, run,
        old(StandingOf(server)), old(server.history), quiet, old(server.objects));
      i := i + 1;
    }
    TallyConcludes(result, group, run, sorts, ctxs, ruleID, resolution, stopped);
  }

  /* Several groups on the same resources. */

  /** What the runs of several groups, one after the other, have kept of annotations: of all the groups at
      most one has changed any one resource. */
  ghost predicate OneGroupChanges(runs: seq<seq<Attempt>>) {
    forall g, h, i | 0 <= g < h < |runs| && 0 <= i < |runs[g]| && 0 <= i < |runs[h]| ::
      !(Changes(runs[g][i]) && Changes(runs[h][i]))
  }

  /** Every run so far was over the held states, and took over what it changed. */
  ghost predicate RunsTakeOver(held: seq<Item>, runs: seq<seq<Attempt>>, newest: Newest) {
    forall g | 0 <= g < |runs| ::
      && |runs[g]| <= |held|
      && forall i | 0 <= i < |runs[g]| ::
        && runs[g][i].item == held[i]
        && (Changes(runs[g][i]) ==> Superseded(newest, held[i].0, held[i].1.version))
  }

  lemma NextRunTakesOver(held: seq<Item>, runs: seq<seq<Attempt>>, run: seq<Attempt>, middle: Newest, later: Newest)
    requires RunsTakeOver(held, runs, middle) && OneGroupChanges(runs) && Advances(middle, later)
    requires |run| <= |held| && (forall i | 0 <= i < |run| :: run[i].item == held[i]) && AllTakeOver(run, middle, later)
    ensures RunsTakeOver(held, runs + [run], later) && OneGroupChanges(runs + [run])
  {
    assert forall i | 0 <= i < |run| :: run[i] in run;
  }

  /** The commits with those of all the runs behind them. */
  function WithRuns(earlier: seq<Commit>, runs: seq<seq<Attempt>>): seq<Commit> {
    if runs == [] then earlier else WithCommits(WithRuns(earlier, runs[..|runs| - 1]), runs[|runs| - 1])
  }

  /** The runs of several groups over one snapshot, one after the other. */
  ghost predicate RunsSteps(
    held: seq<Item>, plans: seq<seq<Plan>>, runs: seq<seq<Attempt>>, earlier: Standing, later: Standing)
    decreases |runs|
  {
    if runs == [] then later == earlier
    else
      var n := |runs| - 1;
      && n < |plans|
      && exists middle ::
           RunsSteps(held, plans, runs[..n], earlier, middle) && RunSteps(held, plans[n], runs[n], middle, later)
  }

  lemma RunsGrow(
    held: seq<Item>, plans: seq<seq<Plan>>, runs: seq<seq<Attempt>>, run: seq<Attempt>,
    earlier: Standing, middle: Standing, later: Standing)
    requires RunsSteps(held, plans, runs, earlier, middle) && |runs| < |plans|
    requires RunSteps(held, plans[|runs|], run, middle, later)
    ensures RunsSteps(held, plans, runs + [run], earlier, later)
  {
    assert (runs + [run])[..|runs|] == runs;
  }

  predicate AllPlanned(held: seq<Item>, plans: seq<seq<Plan>>, runs: seq<seq<Attempt>>) {
    && |runs| <= |plans|
    && forall g | 0 <= g < |runs| :: RunIsPlanned(held, plans[g], runs[g])
  }

  lemma AllPlannedGrows(held: seq<Item>, plans: seq<seq<Plan>>, runs: seq<seq<Attempt>>, run: seq<Attempt>)
    requires AllPlanned(held, plans, runs) && |runs| < |plans| && RunIsPlanned(held, plans[|runs|], run)
    ensures AllPlanned(held, plans, runs + [run])
  {
  }

  lemma RunIsOverHeld(held: seq<Item>, plans: seq<Plan>, run: seq<Attempt>)
    requires RunIsPlanned(held, plans, run)
    ensures |run| <= |held| && forall i | 0 <= i < |run| :: run[i].item == held[i]
  {
    forall i | 0 <= i < |run|
      ensures i < |held| && run[i].item == held[i]
    {
      PlannedAt(held, plans, run, i);
    }
    if run != [] {
      PlannedAt(held, plans, run, |run| - 1);
    }
  }

  /** What the runs come to: their commits, each attempt as planned, and at most one change of any resource. */
  lemma {:induction false} RunsMean(
    held: seq<Item>, plans: seq<seq<Plan>>, runs: seq<seq<Attempt>>, earlier: Standing, later: Standing)
    requires RunsSteps(held, plans, runs, earlier, later)
    ensures RunsTakeOver(held, runs, later.newest) && OneGroupChanges(runs)
    ensures later.commits == WithRuns(earlier.commits, runs) && AllPlanned(held, plans, runs)
    decreases |runs|
  {
    if runs == [] {
    } else {
      var n := |runs| - 1;
      var middle :|
        RunsSteps(held, plans, runs[..n], earlier, middle) && RunSteps(held, plans[n], runs[n], middle, later);
      RunsMean(held, plans, runs[..n], earlier, middle);
      RunMeans(held, plans[n], runs[n], middle, later);
      RunIsOverHeld(held, plans[n], runs[n]);
      NextRunTakesOver(held, runs[..n], runs[n], middle.newest, later.newest);
      AllPlannedGrows(held, plans, runs[..n], runs[n]);
      assert runs == runs[..n] + [runs[n]];
    }
  }

  /** The results of several groups, each concluded. */
  predicate AllConcluded(
    results: seq<GroupResult>, groups: seq<Group>, runs: seq<seq<Attempt>>, sorts: seq<seq<seq<Operation>>>,
    ctxs: seq<Context>,
    ruleID: string, resolution: string)
    decreases |runs|
  {
    if runs == [] then results == []
    else
      var n := |runs| - 1;
      && |results| == |runs| && n < |groups| && n < |sorts|
      && Concluded(results[n], groups[n], runs[n], sorts[n], ctxs, ruleID, resolution)
      && AllConcluded(results[..n], groups, runs[..n], sorts, ctxs, ruleID, resolution)
  }

  lemma AllConcludedGrows(
    results: seq<GroupResult>, groups: seq<Group>, runs: seq<seq<Attempt>>, sorts: seq<seq<seq<Operation>>>,
    ctxs: seq<Context>,
    ruleID: string, resolution: string, result: GroupResult, run: seq<Attempt>)
    requires AllConcluded(results, groups, runs, sorts, ctxs, ruleID, resolution)
    requires |runs| < |groups| && |runs| < |sorts|
    requires Concluded(result, groups[|runs|], run, sorts[|runs|], ctxs, ruleID, resolution)
    ensures AllConcluded(results + [result], groups, runs + [run], sorts, ctxs, ruleID, resolution)
  {
    var more, done := results + [result], runs + [run];
    var n := |runs|;
    assert |results| == n;
    assert AllConcluded(more[..n], groups, done[..n], sorts, ctxs, ruleID, resolution) by {
      assert more[..n] == results && done[..n] == runs;
    }
  }

  lemma {:induction false} ConcludedAt(
    results: seq<GroupResult>, groups: seq<Group>, runs: seq<seq<Attempt>>, sorts: seq<seq<seq<Operation>>>,
    ctxs: seq<Context>,
    ruleID: string, resolution: string, g: nat)
    requires AllConcluded(results, groups, runs, sorts, ctxs, ruleID, resolution) && g < |runs|
    ensures |results| == |runs| && g < |groups| && g < |sorts|
    ensures Concluded(results[g], groups[g], runs[g], sorts[g], ctxs, ruleID, resolution)
    decreases |runs|
  {
    if g == |runs| - 1 {
    } else {
      ConcludedAt(results[..|runs| - 1], groups, runs[..|runs| - 1], sorts, ctxs, ruleID, resolution, g);
    }
  }

  /** The plans of all groups. */
  function AllApplyPlans(
    held: seq<Item>, sorts: seq<seq<seq<Operation>>>, ctxs: seq<Context>, ruleID: string, resolution: string)
    : (plans: seq<seq<Plan>>)
    requires |held| == |ctxs| && forall g | 0 <= g < |sorts| :: |sorts[g]| == |held|
    ensures |plans| == |sorts|
  {
    if sorts == [] then []
    else
      var last := |sorts| - 1;
      AllApplyPlans(held, sorts[..last], ctxs, ruleID, resolution)
      + [ApplyPlans(held, sorts[last], ctxs, ruleID, resolution)]
  }

  lemma {:induction false} AllApplyPlansAt(
    held: seq<Item>, sorts: seq<seq<seq<Operation>>>, ctxs: seq<Context>, ruleID: string, resolution: string, g: nat)
    requires |held| == |ctxs| && g < |sorts| && forall h | 0 <= h < |sorts| :: |sorts[h]| == |held|
    ensures AllApplyPlans(held, sorts, ctxs, ruleID, resolution)[g] ==
      ApplyPlans(held, sorts[g], ctxs, ruleID, resolution)
  {
    var last := |sorts| - 1;
    if g == last {
    } else {
      AllApplyPlansAt(held, sorts[..last], ctxs, ruleID, resolution, g);
    }
  }

  /** For each group and each resource, a sort of the group's operations. */
  ghost predicate AllSortsFit(groups: seq<Group>, sorts: seq<seq<seq<Operation>>>, n: nat) {
    && |sorts| == |groups|
    && forall g | 0 <= g < |sorts| :: |sorts[g]| == n && AllSorts(groups[g].operations, sorts[g])
  }

  method ApplyNextGroup(
    server: ApiServer, resources: seq<Resource>, groups: seq<Group>, g: nat, sorts: seq<seq<seq<Operation>>>,
    ctxs: seq<Context>, ruleID: string, resolution: string, ghost plans: seq<seq<Plan>>,
    results: seq<GroupResult>, ghost runs: seq<seq<Attempt>>,
    ghost earlier: Standing, ghost history: History, ghost quiet: bool, ghost objects: Objects)
    returns (next: seq<GroupResult>, ghost done: seq<seq<Attempt>>)
    requires server.Valid() && Known(ItemsOf(resources), history) && Extends(history, server.history)
    requires AllSortsFit(groups, sorts, |resources|) && |ctxs| == |resources|
    requires |runs| == g < |groups| && plans == AllApplyPlans(ItemsOf(resources), sorts, ctxs, ruleID, resolution)
    requires AllConcluded(results, groups, runs, sorts, ctxs, ruleID, resolution)
    requires RunsSteps(ItemsOf(resources), plans, runs, earlier, StandingOf(server))
    requires quiet ==> server.Quiet() && QuietRuns(ItemsOf(resources), plans, runs, objects, server.objects)
    modifies server
    ensures server.Valid() && Follows(server.Now(), old(server.Now()))
    ensures |done| == g + 1 && AllConcluded(next, groups, done, sorts, ctxs, ruleID, resolution)
    ensures RunsSteps(old(ItemsOf(resources)), plans, done, earlier, StandingOf(server))
    ensures quiet ==> server.Quiet() && QuietRuns(old(ItemsOf(resources)), plans, done, objects, server.objects)
  {
    ghost var held, middle, before := ItemsOf(resources), StandingOf(server), server.objects;
    var result, run := ApplyAnnotationGroup(server, resources, groups[g], sorts[g], ctxs, ruleID, resolution);
    AllApplyPlansAt(held, sorts, ctxs, ruleID, resolution, g);
    AllConcludedGrows(results, groups, runs, sorts, ctxs, ruleID, resolution, result, run);
    RunsGrow(held, plans, runs, run, earlier, middle, StandingOf(server));
    if quiet {
      QuietRunsGrow(held, plans, runs, run, objects, before, server.objects);
    }
    next, done := results + [result], runs + [run];
  }

  /** The loop over the groups. */
  method ApplyEachGroup(
    server: ApiServer, resources: seq<Resource>, groups: seq<Group>, sorts: seq<seq<seq<Operation>>>,
    ctxs: seq<Context>,
    ruleID: string, resolution: string)
    returns (results: seq<GroupResult>, ghost runs: seq<seq<Attempt>>)
    requires server.Valid() && Known(ItemsOf(resources), server.history)
    requires AllSortsFit(groups, sorts, |resources|) && |ctxs| == |resources|
    modifies server
    ensures server.Valid() && Follows(server.Now(), old(server.Now()))
    ensures |runs| == |groups| && AllConcluded(results, groups, runs, sorts, ctxs, ruleID, resolution)
    ensures var held := old(ItemsOf(resources)); var plans := AllApplyPlans(held, sorts, ctxs, ruleID, resolution);
      && RunsSteps(held, plans, runs, old(StandingOf(server)), StandingOf(server))
      && (old(server.Quiet()) ==> server.Quiet() && QuietRuns(held, plans, runs, old(server.objects), server.objects))
  {
    results, runs := [], [];
    ghost var held, quiet := ItemsOf(resources), server.Quiet();
    ghost var plans := AllApplyPlans(held, sorts, ctxs, ruleID, resolution);
    for g := 0 to |groups|
      invariant server.Valid() && Follows(server.Now(), old(server.Now()))
      invariant |runs| == g && AllConcluded(results, groups, runs, sorts, ctxs, ruleID, resolution)
      invariant RunsSteps(held, plans, runs, old(StandingOf(server)), StandingOf(server))
      invariant quiet ==> server.Quiet() && QuietRuns(held, plans, runs, old(server.objects), server.objects)
    {
      results, runs := ApplyNextGroup(
        server, resources, groups, g, sorts, ctxs, ruleID, resolution, plans, results, runs,
        old(StandingOf(server)), old(server.history), quiet, old(server.objects));
    }
  }

  /** Group after group over one snapshot of the resources. Of all the groups at most one changes any one
      resource, whatever other clients do: the first that does makes the snapshot out of date. With
      nobody else about it is known which (FirstEffectiveRunChanges). */
  method ApplyGroupsInTurn(
    server: ApiServer, resources: seq<Resource>, groups: seq<Group>, sorts: seq<seq<seq<Operation>>>,
    ctxs: seq<Context>,
    ruleID: string, resolution: string)
    returns (results: seq<GroupResult>, ghost runs: seq<seq<Attempt>>)
    requires server.Valid() && Known(ItemsOf(resources), server.history)
    requires AllSortsFit(groups, sorts, |resources|) && |ctxs| == |resources|
    modifies server
    ensures server.Valid() && Follows(server.Now(), old(server.Now()))
    ensures |runs| == |groups| && AllConcluded(results, groups, runs, sorts, ctxs, ruleID, resolution)
    ensures server.commits == WithRuns(old(server.commits), runs)
    ensures OneGroupChanges(runs)
    ensures var held := old(ItemsOf(resources)); var plans := AllApplyPlans(held, sorts, ctxs, ruleID, resolution);
      && AllPlanned(held, plans, runs)
      && (old(server.Quiet()) ==> server.Quiet() && QuietRuns(held, plans, runs, old(server.objects), server.objects))
  {
    ghost var held := ItemsOf(resources);
    results, runs := ApplyEachGroup(server, resources, groups, sorts, ctxs, ruleID, resolution);
    RunsMean(
      held, AllApplyPlans(held, sorts, ctxs, ruleID, resolution), runs, old(StandingOf(server)), StandingOf(server));
  }

  /* Removal. */

  /** What the removal of keys is going to do to a resource; there is nothing invalid about it. */
  function RemovalPlan(item: Item, keys: seq<string>, ruleID: string): Plan {
    var after := AfterRemovals(item.1.annotations, keys, ruleID);
    Plan(true, if after == item.1.annotations then None else Some(after))
  }

  /** Removes keys one at a time from one resource. It is an error only if there is something to remove
      and the update loop ends with that error. */
  method RemoveAnnotationKeysFromResource(server: ApiServer, resource: Resource, keys: seq<string>, ruleID: string)
    returns (err: Option<ApiError>)
    requires server.Valid() && server.Served(resource)
    modifies server
    ensures server.Valid() && Follows(server.Now(), old(server.Now()))
    ensures var plan := RemovalPlan((resource.key, resource.Value()), keys, ruleID);
      var loop := old(server.LoopOutcome(resource.key, resource.version, MAX_RETRIES));
      && err == (if plan.proposal.Some? then loop.err else None)
      && (plan.proposal == None ==>
            && server.commits == old(server.commits) && server.updates == old(server.updates)
            && server.Now() == old(server.Now()) && server.script == old(server.script))
      && (err == None && plan.proposal.Some? ==>
            && OneCommit(old(server.commits), server.commits, resource.key)
            && var c := server.commits[|old(server.commits)|];
               && Adjacent(c, server.history)
               && TakesOver(c, old(server.newest), server.newest, resource.version)
               && if old(server.NextError(resource.key, resource.version)) == None then
                    c.before == resource.Value() && c.after.annotations == plan.proposal.value
                  else
                    c.after == c.before)
      && (old(server.Quiet()) ==>
            && server.Quiet()
            && (err == None <==> plan.proposal == None || resource.key in old(server.objects))
            && if err == None && plan.proposal.Some? then
                 var c := server.commits[|old(server.commits)|];
                 && c.before == old(server.objects)[resource.key]
                 && server.objects == old(server.objects)[resource.key := c.after]
               else
                 server.objects == old(server.objects))
    ensures err.Some? ==> server.commits == old(server.commits)
  {
    var copy := resource.DeepCopy();
    var removedCount := RemoveInTurn(copy, keys, ruleID);
    if removedCount > 0 {
      err := UpdateResourceWithRetry(server, copy);
    } else {
      err := None;
    }
  }

  method RemoveInTurn(copy: Resource, keys: seq<string>, ruleID: string) returns (removedCount: nat)
    modifies copy`annotations
    ensures copy.annotations == AfterRemovals(old(copy.annotations), keys, ruleID)
    ensures removedCount > 0 <==> copy.annotations != old(copy.annotations)
  {
    removedCount := 0;
    for i := 0 to |keys|
      invariant AfterRemovals(copy.annotations, keys[i..], ruleID) == AfterRemovals(old(copy.annotations), keys, ruleID)
      invariant removedCount == 0 ==> copy.annotations == old(copy.annotations)
      invariant removedCount > 0 ==> |copy.annotations| < |old(copy.annotations)|
    {
      assert keys[i..][1..] == keys[i + 1..];
      var removed := RemoveFirst(copy, keys[i..], ruleID);
      if removed {
        removedCount := removedCount + 1;
      }
    }
  }

  method RemoveFirst(copy: Resource, keys: seq<string>, ruleID: string) returns (removed: bool)
    requires keys != []
    modifies copy`annotations
    ensures AfterRemovals(copy.annotations, keys[1..], ruleID) == AfterRemovals(old(copy.annotations), keys, ruleID)
    ensures if removed then |copy.annotations| < |old(copy.annotations)| else copy.annotations == old(copy.annotations)
  {
    var key := keys[0];
    removed := Names(RecordedKeys(copy.annotations, ruleID), key);
    if removed && key in copy.annotations {
      UntrackShrinks(copy.annotations, key, ruleID);
      copy.annotations := copy.annotations - {key};
      UntrackAnnotationApplication(copy, key, ruleID);
    } else {
      removed := false;
    }
  }

  lemma UntrackShrinks(m: Annotations, key: string, ruleID: string)
    requires key in m
    ensures var after := Untrack(m - {key}, key, ruleID);
      after.Keys <= m.Keys && |after| < |m|
  {
    var after := Untrack(m - {key}, key, ruleID);
    assert after.Keys <= (m - {key}).Keys;
    SubsetIsSmaller(after.Keys, (m - {key}).Keys);
    assert (m - {key}).Keys == m.Keys - {key};
  }

  method AttemptRemoval(server: ApiServer, resource: Resource, keys: seq<string>, ruleID: string)
    returns (err: Option<ApiError>, ghost attempt: Attempt)
    requires server.Valid() && server.Served(resource)
    modifies server
    ensures server.Valid() && Follows(server.Now(), old(server.Now()))
    ensures attempt.item == (resource.key, resource.Value())
    ensures var plan := RemovalPlan(attempt.item, keys, ruleID);
      && AttemptStep(attempt.item, plan, attempt, old(StandingOf(server)), StandingOf(server))
      && (old(server.Quiet()) ==> server.Quiet() && QuietAttempt(attempt, plan, old(server.objects), server.objects))
    ensures attempt.ok == (err == None)
  {
    ghost var item := (resource.key, resource.Value());
    ghost var plan := RemovalPlan(item, keys, ruleID);
    err := RemoveAnnotationKeysFromResource(server, resource, keys, ruleID);
    if err == None && plan.proposal.Some? {
      attempt := Attempt(item, true, Some(server.commits[|old(server.commits)|]));
      OneCommitIsMade(item, old(server.commits), server.commits);
    } else {
      attempt := Attempt(item, err == None, None);
    }
    if old(server.Quiet()) {
      AttemptWasQuiet(attempt, plan, old(server.Now()), old(server.script), server.objects, server.history);
    }
  }

  function KeysOf(ops: seq<Operation>): seq<string> {
    seq(|ops|, i requires 0 <= i < |ops| => ops[i].key)
  }

  function RemovalPlans(held: seq<Item>, keys: seq<string>, ruleID: string): (plans: seq<Plan>)
    ensures |plans| == |held|
  {
    if held == [] then []
    else RemovalPlans(held[..|held| - 1], keys, ruleID) + [RemovalPlan(held[|held| - 1], keys, ruleID)]
  }

  lemma {:induction false} RemovalPlansAt(held: seq<Item>, keys: seq<string>, ruleID: string, i: nat)
    requires i < |held|
    ensures RemovalPlans(held, keys, ruleID)[i] == RemovalPlan(held[i], keys, ruleID)
  {
    if i == |held| - 1 {
    } else {
      RemovalPlansAt(held[..|held| - 1], keys, ruleID, i);
    }
  }

  /** The result of a group's removal, which attempts every resource, atomic or not. */
  predicate RemovalConcluded(result: GroupResult, run: seq<Attempt>, n: nat) {
    && |run| == n
    && result.resourcesAffected == Successes(run)
    && (result.success <==> result.resourcesAffected == n)
    && (result.success <==> result.error == None)
    && result.operations == []
  }

  method AggregateRemoval(result: GroupResult, err: Option<ApiError>, ghost run: seq<Attempt>, ghost a: Attempt)
    returns (next: GroupResult)
    requires RemovalConcluded(result, run, |run|) && a.ok == (err == None)
    ensures RemovalConcluded(next, run + [a], |run| + 1)
  {
    ghost var earlier: seq<Commit> := [];
    CountsGrow(earlier, run, a);
    SuccessesBound(run);
    if err.Some? {
      next := result.(success := false, error := if result.error == None then Some(UpdateFailed) else result.error);
    } else {
      next := result.(resourcesAffected := result.resourcesAffected + 1);
    }
  }

  method AttemptNextRemoval(
    server: ApiServer, resources: seq<Resource>, i: nat, keys: seq<string>, ruleID: string,
    ghost plans: seq<Plan>, ghost run: seq<Attempt>, ghost earlier: Standing, ghost history: History,
    ghost quiet: bool, ghost objects: Objects)
    returns (err: Option<ApiError>, ghost a: Attempt)
    requires server.Valid() && Known(ItemsOf(resources), history) && Extends(history, server.history)
    requires |run| == i < |resources| && plans == RemovalPlans(ItemsOf(resources), keys, ruleID)
    requires RunSteps(ItemsOf(resources), plans, run, earlier, StandingOf(server))
    requires quiet ==> server.Quiet() && QuietRun(ItemsOf(resources), plans, run, objects, server.objects)
    modifies server
    ensures server.Valid() && Follows(server.Now(), old(server.Now()))
    ensures RunSteps(old(ItemsOf(resources)), plans, run + [a], earlier, StandingOf(server))
    ensures quiet ==> server.Quiet() && QuietRun(old(ItemsOf(resources)), plans, run + [a], objects, server.objects)
    ensures a.ok == (err == None)
  {
    ghost var held, middle, before := ItemsOf(resources), StandingOf(server), server.objects;
    assert held[i] == (resources[i].key, resources[i].Value());
    KnownIsServed(server, resources[i], held, history);
    RemovalPlansAt(held, keys, ruleID, i);
    err, a := AttemptRemoval(server, resources[i], keys, ruleID);
    RunGrows(held, plans, run, a, earlier, middle, StandingOf(server));
    if quiet {
      QuietRunGrows(held, plans, run, a, objects, before, server.objects);
    }
  }

  /** The next resource of a group's removal, added to the result. */
  method RemoveAndTally(
    server: ApiServer, resources: seq<Resource>, i: nat, keys: seq<string>, ruleID: string, result: GroupResult,
    ghost plans: seq<Plan>, ghost run: seq<Attempt>, ghost earlier: Standing, ghost history: History,
    ghost quiet: bool, ghost objects: Objects)
    returns (next: GroupResult, ghost longer: seq<Attempt>)
    requires server.Valid() && Known(ItemsOf(resources), history) && Extends(history, server.history)
    requires i < |resources| && plans == RemovalPlans(ItemsOf(resources), keys, ruleID)
    requires RunSteps(ItemsOf(resources), plans, run, earlier, StandingOf(server))
    requires quiet ==> server.Quiet() && QuietRun(ItemsOf(resources), plans, run, objects, server.objects)
    requires RemovalConcluded(result, run, i)
    modifies server
    ensures server.Valid() && Follows(server.Now(), old(server.Now()))
    ensures RunSteps(old(ItemsOf(resources)), plans, longer, earlier, StandingOf(server))
    ensures quiet ==> server.Quiet() && QuietRun(old(ItemsOf(resources)), plans, longer, objects, server.objects)
    ensures RemovalConcluded(next, longer, i + 1)
  {
    var err, a := AttemptNextRemoval(
      server, resources, i, keys, ruleID, plans, run, earlier, history, quiet, objects);
    next := AggregateRemoval(result, err, run, a);
    longer := run + [a];
  }

  method RemoveAnnotationGroup(server: ApiServer, resources: seq<Resource>, group: Group, ruleID: string)
    returns (result: GroupResult, ghost run: seq<Attempt>)
    requires server.Valid() && Known(ItemsOf(resources), server.history)
    modifies server
    ensures server.Valid() && Follows(server.Now(), old(server.Now()))
    ensures var held := old(ItemsOf(resources)); var plans := RemovalPlans(held, KeysOf(group.operations), ruleID);
      && RunSteps(held, plans, run, old(StandingOf(server)), StandingOf(server))
      && (old(server.Quiet()) ==> server.Quiet() && QuietRun(held, plans, run, old(server.objects), server.objects))
    ensures RemovalConcluded(result, run, |resources|)
  {
    var keysToRemove := KeysOf(group.operations);
    result := GroupResult(true, [], None, 0);
    run := [];
    ghost var held, quiet := ItemsOf(resources), server.Quiet();
    ghost var plans := RemovalPlans(held, keysToRemove, ruleID);
    for i := 0 to |resources|
      invariant server.Valid() && Follows(server.Now(), old(server.Now()))
      invariant RunSteps(held, plans, run, old(StandingOf(server)), StandingOf(server))
      invariant quiet ==> server.Quiet() && QuietRun(held, plans, run, old(server.objects), server.objects)
      invariant RemovalConcluded(result, run, i)
    {
      result, run := RemoveAndTally(
        server, resources, i, keysToRemove, ruleID, result, plans, run,
        old(StandingOf(server)), old(server.history), quiet, old(server.objects));
    }
  }

  function AllRemovalPlans(held: seq<Item>, groups: seq<Group>, ruleID: string): (plans: seq<seq<Plan>>)
    ensures |plans| == |groups|
  {
    if groups == [] then []
    else
      var last := |groups| - 1;
      AllRemovalPlans(held, groups[..last], ruleID) + [RemovalPlans(held, KeysOf(groups[last].operations), ruleID)]
  }

  lemma {:induction false} AllRemovalPlansAt(held: seq<Item>, groups: seq<Group>, ruleID: string, g: nat)
    requires g < |groups|
    ensures AllRemovalPlans(held, groups, ruleID)[g] == RemovalPlans(held, KeysOf(groups[g].operations), ruleID)
  {
    if g == |groups| - 1 {
    } else {
      AllRemovalPlansAt(held, groups[..|groups| - 1], ruleID, g);
    }
  }

  predicate AllRemoved(results: seq<GroupResult>, runs: seq<seq<Attempt>>, n: nat)
    decreases |runs|
  {
    if runs == [] then results == []
    else
      var last := |runs| - 1;
      && |results| == |runs| && RemovalConcluded(results[last], runs[last], n)
      && AllRemoved(results[..last], runs[..last], n)
  }

  lemma AllRemovedGrows(
    results: seq<GroupResult>, runs: seq<seq<Attempt>>, n: nat, result: GroupResult, run: seq<Attempt>)
    requires AllRemoved(results, runs, n) && RemovalConcluded(result, run, n)
    ensures AllRemoved(results + [result], runs + [run], n)
  {
    assert |results| == |runs|;
    assert (results + [result])[..|runs|] == results && (runs + [run])[..|runs|] == runs;
  }

  method RemoveNextGroup(
    server: ApiServer, resources: seq<Resource>, groups: seq<Group>, g: nat, ruleID: string,
    ghost earlier: Standing, ghost plans: seq<seq<Plan>>, results: seq<GroupResult>, ghost runs: seq<seq<Attempt>>,
    ghost history: History, ghost quiet: bool, ghost objects: Objects)
    returns (next: seq<GroupResult>, ghost done: seq<seq<Attempt>>)
    requires server.Valid() && Known(ItemsOf(resources), history) && Extends(history, server.history)
    requires |runs| == g < |groups| && plans == AllRemovalPlans(ItemsOf(resources), groups, ruleID)
    requires AllRemoved(results, runs, |resources|)
    requires RunsSteps(ItemsOf(resources), plans, runs, earlier, StandingOf(server))
    requires quiet ==> server.Quiet() && QuietRuns(ItemsOf(resources), plans, runs, objects, server.objects)
    modifies server
    ensures server.Valid() && Follows(server.Now(), old(server.Now()))
    ensures |done| == g + 1 && AllRemoved(next, done, |resources|)
    ensures RunsSteps(old(ItemsOf(resources)), plans, done, earlier, StandingOf(server))
    ensures quiet ==> server.Quiet() && QuietRuns(old(ItemsOf(resources)), plans, done, objects, server.objects)
  {
    ghost var held, middle, before := ItemsOf(resources), StandingOf(server), server.objects;
    var result, run := RemoveAnnotationGroup(server, resources, groups[g], ruleID);
    AllRemovalPlansAt(held, groups, ruleID, g);
    AllRemovedGrows(results, runs, |resources|, result, run);
    RunsGrow(held, plans, runs, run, earlier, middle, StandingOf(server));
    if quiet {
      QuietRunsGrow(held, plans, runs, run, objects, before, server.objects);
    }
    next, done := results + [result], runs + [run];
  }

  method RemoveEachGroup(server: ApiServer, resources: seq<Resource>, groups: seq<Group>, ruleID: string)
    returns (results: seq<GroupResult>, ghost runs: seq<seq<Attempt>>)
    requires server.Valid() && Known(ItemsOf(resources), server.history)
    modifies server
    ensures server.Valid() && Follows(server.Now(), old(server.Now()))
    ensures |runs| == |groups| && AllRemoved(results, runs, |resources|)
    ensures var held := old(ItemsOf(resources)); var plans := AllRemovalPlans(held, groups, ruleID);
      && RunsSteps(held, plans, runs, old(StandingOf(server)), StandingOf(server))
      && (old(server.Quiet()) ==> server.Quiet() && QuietRuns(held, plans, runs, old(server.objects), server.objects))
  {
    results, runs := [], [];
    ghost var held, quiet := ItemsOf(resources), server.Quiet();
    ghost var plans := AllRemovalPlans(held, groups, ruleID);
    for g := 0 to |groups|
      invariant server.Valid() && Follows(server.Now(), old(server.Now()))
      invariant |runs| == g && AllRemoved(results, runs, |resources|)
      invariant RunsSteps(held, plans, runs, old(StandingOf(server)), StandingOf(server))
      invariant quiet ==> server.Quiet() && QuietRuns(held, plans, runs, old(server.objects), server.objects)
    {
      results, runs := RemoveNextGroup(
        server, resources, groups, g, ruleID, old(StandingOf(server)), plans, results, runs,
        old(server.history), quiet, old(server.objects));
    }
  }

  /** The removal of group after group over one snapshot: here too at most one group changes any one
      resource. */
  method RemoveGroupsInTurn(server: ApiServer, resources: seq<Resource>, groups: seq<Group>, ruleID: string)
    returns (results: seq<GroupResult>, ghost runs: seq<seq<Attempt>>)
    requires server.Valid() && Known(ItemsOf(resources), server.history)
    modifies server
    ensures server.Valid() && Follows(server.Now(), old(server.Now()))
    ensures |runs| == |groups| && AllRemoved(results, runs, |resources|)
    ensures server.commits == WithRuns(old(server.commits), runs)
    ensures OneGroupChanges(runs)
    ensures var held := old(ItemsOf(resources)); var plans := AllRemovalPlans(held, groups, ruleID);
      && AllPlanned(held, plans, runs)
      && (old(server.Quiet()) ==> server.Quiet() && QuietRuns(held, plans, runs, old(server.objects), server.objects))
  {
    ghost var held := ItemsOf(resources);
    results, runs := RemoveEachGroup(server, resources, groups, ruleID);
    RunsMean(held, AllRemovalPlans(held, groups, ruleID), runs, old(StandingOf(server)), StandingOf(server));
  }

  /* An input for which a group is reported as applied, and is not. */

  function Setting(key: string): Group {
    Group([Operation(key, "1", false, "apply", 0)], false)
  }

  lemma SettingIsEffective(item: Item, key: string, ctx: Context, ruleID: string, resolution: string)
    requires ctx.validator.Accepts(key) && ctx.valueAllowed("1") && item.1.annotations == map[]
    ensures var plan := ApplyPlan(item, Setting(key).operations, ctx, ruleID, resolution);
      && Effective(plan, item)
      && key in plan.proposal.value
      && forall k :: k in plan.proposal.value ==> k == key || k == TrackingKey(ruleID)
  {
    var op := Setting(key).operations[0];
    assert [op][1..] == [];
    assert AfterOperations(map[], [op], ctx, ruleID, resolution)
        == AfterOperations(AfterOperation(map[], op, ctx, ruleID, resolution), [], ctx, ruleID, resolution);
    assert key in AfterOperation(map[], op, ctx, ruleID, resolution);
  }

  lemma SingleSuccess(
    result: GroupResult, group: Group, run: seq<Attempt>, sorts: seq<seq<Operation>>, ctxs: seq<Context>,
    ruleID: string, resolution: string)
    requires Concluded(result, group, run, sorts, ctxs, ruleID, resolution) && |sorts| == 1 && !group.atomic
    requires run != [] ==> run[0].ok
    ensures |run| == 1 && result.success
  {
    if run == [] {
      SuccessesBound(run);
    } else {
      assert run == [run[0]];
      assert run[..0] == [];
      assert Successes(run) == Successes([]) + 1;
    }
  }

  /** What the second of two runs with effective plans for a resource does: nothing. */
  lemma SecondRunIsLost(
    item: Item, plans: seq<seq<Plan>>, runs: seq<seq<Attempt>>, earlier: Objects, later: Objects)
    requires QuietRuns([item], plans, runs, earlier, later) && Fresh(earlier, item) && |runs| == 2
    requires |plans| == 2 && |plans[0]| == |plans[1]| == 1
    requires Effective(plans[0][0], item) && Effective(plans[1][0], item)
    ensures runs[0] != [] ==>
      && runs[0][0].ok && item.0 in later && later[item.0].annotations == plans[0][0].proposal.value
    ensures runs[0] != [] && runs[1] != [] ==> runs[1][0].ok && !Changes(runs[1][0])
  {
    var held := [item];
    QuietRunsMean(held, plans, runs, earlier, later);
    FirstEffectiveRunChanges(held, plans, runs, earlier, 0, 0);
    FirstEffectiveRunChanges(held, plans, runs, earlier, 1, 0);
    if runs[0] != [] {
      assert runs[0][0].item == held[0];
      assert QuietEffects(plans[0], runs[0], later);
    }
  }

  /** A server with one object that has no annotations, and a client that holds it. */
  method OneResource(key: ObjectKey) returns (server: ApiServer, resource: Resource)
    ensures fresh(server) && server.Valid() && server.Quiet() && server.Served(resource) && resource.key == key
    ensures Fresh(server.objects, (key, resource.Value())) && resource.annotations == map[]
  {
    server := new ApiServer([]);
    WriteKeepsConsistent(server.Now(), key, map[], map[]);
    server.Write(key, map[], map[]);
    resource := new Resource(key, server.objects[key]);
  }

  /** Two concluded groups with one operation each and no failed attempt are successes. */
  lemma BothSucceed(
    results: seq<GroupResult>, groups: seq<Group>, runs: seq<seq<Attempt>>, sorts: seq<seq<seq<Operation>>>,
    ctx: Context,
    ruleID: string, resolution: string)
    requires |runs| == 2 && AllConcluded(results, groups, runs, sorts, [ctx], ruleID, resolution)
    requires |groups| == 2 && !groups[0].atomic && !groups[1].atomic
    requires |sorts| == 2 && |sorts[0]| == |sorts[1]| == 1
    requires runs[0] != [] ==> runs[0][0].ok
    requires runs[0] != [] && runs[1] != [] ==> runs[1][0].ok
    ensures |results| == 2 && results[0].success && results[1].success && |runs[0]| == |runs[1]| == 1
  {
    ConcludedAt(results, groups, runs, sorts, [ctx], ruleID, resolution, 0);
    ConcludedAt(results, groups, runs, sorts, [ctx], ruleID, resolution, 1);
    SingleSuccess(results[0], groups[0], runs[0], sorts[0], [ctx], ruleID, resolution);
    SingleSuccess(results[1], groups[1], runs[1], sorts[1], [ctx], ruleID, resolution);
  }

  /** The quiet runs of two groups that set different keys of one resource: both attempts are successes, and
      the second key is not there. */
  lemma SecondSettingIsLost(
    item: Item, a: string, b: string, ctx: Context, ruleID: string, resolution: string, runs: seq<seq<Attempt>>,
    earlier: Objects, later: Objects)
    requires ctx.validator.Accepts(a) && ctx.validator.Accepts(b) && ctx.valueAllowed("1")
    requires a != b && b != TrackingKey(ruleID) && item.1.annotations == map[] && Fresh(earlier, item)
    requires |runs| == 2
    requires QuietRuns(
      [item], AllApplyPlans([item], SettingSorts(a, b), [ctx], ruleID, resolution), runs, earlier, later)
    ensures runs[0] != [] ==>
      && runs[0][0].ok && (runs[1] != [] ==> runs[1][0].ok)
      && item.0 in later && a in later[item.0].annotations && b !in later[item.0].annotations
  {
    var plans := AllApplyPlans([item], SettingSorts(a, b), [ctx], ruleID, resolution);
    SettingPlan(item, a, b, ctx, ruleID, resolution, 0);
    SettingPlan(item, a, b, ctx, ruleID, resolution, 1);
    SecondRunIsLost(item, plans, runs, earlier, later);
    assert runs[0] != [] ==> later[item.0].annotations == plans[0][0].proposal.value;
  }

  function SettingSorts(a: string, b: string): (sorts: seq<seq<seq<Operation>>>)
    ensures |sorts| == 2 && |sorts[0]| == |sorts[1]| == 1
  {
    [[Setting(a).operations], [Setting(b).operations]]
  }

  lemma SettingPlan(item: Item, a: string, b: string, ctx: Context, ruleID: string, resolution: string, g: nat)
    requires g < 2 && ctx.validator.Accepts(a) && ctx.validator.Accepts(b) && ctx.valueAllowed("1")
    requires item.1.annotations == map[]
    ensures var plans := AllApplyPlans([item], SettingSorts(a, b), [ctx], ruleID, resolution);
      var key := if g == 0 then a else b;
      && |plans[g]| == 1 && Effective(plans[g][0], item)
      && key in plans[g][0].proposal.value
      && forall k :: k in plans[g][0].proposal.value ==> k == key || k == TrackingKey(ruleID)
  {
    var sorts, key := SettingSorts(a, b), if g == 0 then a else b;
    AllApplyPlansAt([item], sorts, [ctx], ruleID, resolution, g);
    ApplyPlansAt([item], sorts[g], [ctx], ruleID, resolution, 0);
    SettingIsEffective(item, key, ctx, ruleID, resolution);
  }

  /** Two groups that set different keys of one resource (such as those of ManagedKeysAreAccepted): both are
      reported as successes, and the second key is not there. */
  method SecondGroupIsLost(key: ObjectKey, a: string, b: string, ctx: Context, ruleID: string)
    returns (server: ApiServer, results: seq<GroupResult>)
    requires ctx.validator.Accepts(a) && ctx.validator.Accepts(b) && ctx.valueAllowed("1")
    requires a != b && b != TrackingKey(ruleID)
    ensures |results| == 2 && results[0].success && results[1].success
    ensures key in server.objects && a in server.objects[key].annotations && b !in server.objects[key].annotations
  {
    var resource;
    server, resource := OneResource(key);
    ghost var item, earlier := (key, resource.Value()), server.objects;
    assert ItemsOf([resource]) == [item] && Known([item], server.history);
    var sorts := SettingSorts(a, b);
    SettingsFit(a, b);
    ghost var runs;
    var groups := [Setting(a), Setting(b)];
    results, runs := ApplyGroupsInTurn(server, [resource], groups, sorts, [ctx], ruleID, "priority");
    SecondSettingIsLost(item, a, b, ctx, ruleID, "priority", runs, earlier, server.objects);
    BothSucceed(results, groups, runs, sorts, ctx, ruleID, "priority");
  }

  lemma SettingsFit(a: string, b: string)
    ensures AllSortsFit([Setting(a), Setting(b)], SettingSorts(a, b), 1)
  {
    var opsA, opsB := Setting(a).operations, Setting(b).operations;
    assert AllSorts(opsA, [opsA]) && AllSorts(opsB, [opsB]);
  }
}
