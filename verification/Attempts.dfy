/** A run over a list of resources: what became of each, and what was written
    (internal/resource/manager.go). */
module Attempts {
  import opened Wrappers
  import opened Manager
  import opened Stores
  import opened Tracking

  /** One attempted resource: the state that the client held, whether the attempt was a success, and
      the commit it made. */
  datatype Attempt = Attempt(item: Item, ok: bool, written: Option<Commit>)

  /** A resource that fails is not written, and a commit is on the attempted resource. */
  predicate WritesOwn(a: Attempt) {
    a.written.Some? ==> a.ok && a.written.value.key == a.item.0
  }

  /** The commits with that of an attempt behind them, if it made one ... */
  function WithCommit(earlier: seq<Commit>, a: Attempt): seq<Commit> {
    match a.written
    case None => earlier
    case Some(c) => earlier + [c]
  }

  /** ... and with those of a list of attempts. */
  function WithCommits(earlier: seq<Commit>, attempts: seq<Attempt>): seq<Commit> {
    if attempts == [] then earlier
    else WithCommit(WithCommits(earlier, attempts[..|attempts| - 1]), attempts[|attempts| - 1])
  }

  function Successes(attempts: seq<Attempt>): nat {
    if attempts == [] then 0
    else Successes(attempts[..|attempts| - 1]) + if attempts[|attempts| - 1].ok then 1 else 0
  }

  lemma {:induction false} SuccessesBound(attempts: seq<Attempt>)
    ensures Successes(attempts) <= |attempts|
    ensures Successes(attempts) == |attempts| <==> forall a | a in attempts :: a.ok
  {
    if attempts == [] {
    } else {
      var rest, last := attempts[..|attempts| - 1], attempts[|attempts| - 1];
      SuccessesBound(rest);
      assert attempts == rest + [last];
    }
  }

  /** A single attempt, with what it committed. */
  predicate Made(item: Item, attempt: Attempt, earlier: seq<Commit>, later: seq<Commit>) {
    && attempt.item == item && WritesOwn(attempt)
    && later == WithCommit(earlier, attempt)
  }

  /** What an attempt is going to do: whether its operations are valid, and the annotations that it is
      going to write, if any, judging by the state that the client holds. */
  datatype Plan = Plan(valid: bool, proposal: Option<Annotations>)

  /** The plan would change the annotations held. */
  predicate Effective(plan: Plan, item: Item) {
    plan.valid && plan.proposal.Some? && plan.proposal.value != item.1.annotations
  }

  /** An attempt that goes as planned: it is written if it is a success and there is something to write, and
      then it has the planned effect on the state held, or, behind a conflict, none. */
  predicate Planned(a: Attempt, plan: Plan) {
    && (a.ok ==> plan.valid)
    && (a.written.Some? <==> a.ok && plan.proposal.Some?)
    && (a.written.Some? ==>
          var c := a.written.value;
          c.after == c.before || (c.before == a.item.1 && c.after.annotations == plan.proposal.value))
  }

  lemma OneCommitIsMade(item: Item, earlier: seq<Commit>, later: seq<Commit>)
    requires OneCommit(earlier, later, item.0)
    ensures Made(item, Attempt(item, true, Some(later[|earlier|])), earlier, later)
  {
    assert later == later[..|earlier|] + [later[|earlier|]];
  }

  /** The resources of a list, in turn: the commits are exactly those of the attempts, in order and each
      on its own resource, and a resource that fails is never written. */
  predicate Accounted(held: seq<Item>, attempts: seq<Attempt>, earlier: seq<Commit>, later: seq<Commit>) {
    && |attempts| <= |held|
    && later == WithCommits(earlier, attempts)
    && forall i | 0 <= i < |attempts| :: attempts[i].item == held[i] && WritesOwn(attempts[i])
  }

  lemma CountsGrow(earlier: seq<Commit>, attempts: seq<Attempt>, a: Attempt)
    ensures WithCommits(earlier, attempts + [a]) == WithCommit(WithCommits(earlier, attempts), a)
    ensures Successes(attempts + [a]) == Successes(attempts) + if a.ok then 1 else 0
  {
    assert (attempts + [a])[..|attempts|] == attempts;
  }

  lemma AccountedGrows(
    held: seq<Item>, attempts: seq<Attempt>, attempt: Attempt, earlier: seq<Commit>, middle: seq<Commit>,
    later: seq<Commit>)
    requires Accounted(held, attempts, earlier, middle) && |attempts| < |held|
    requires Made(held[|attempts|], attempt, middle, later)
    ensures Accounted(held, attempts + [attempt], earlier, later)
    ensures Successes(attempts + [attempt]) == Successes(attempts) + if attempt.ok then 1 else 0
  {
    CountsGrow(earlier, attempts, attempt);
  }

  /* Changes of annotations. */

  predicate Changes(a: Attempt) {
    a.written.Some? && a.written.value.after.annotations != a.written.value.before.annotations
  }

  /** Each attempt that changed annotations started from the newest version of its resource, and that
      version is out of date now. */
  ghost predicate AllTakeOver(attempts: seq<Attempt>, earlier: Newest, later: Newest) {
    forall a | a in attempts && Changes(a) ::
      !Superseded(earlier, a.item.0, a.item.1.version) && Superseded(later, a.item.0, a.item.1.version)
  }

  lemma TakingOverGrows(attempts: seq<Attempt>, attempt: Attempt, earlier: Newest, middle: Newest, later: Newest)
    requires AllTakeOver(attempts, earlier, middle) && Advances(earlier, middle) && Advances(middle, later)
    requires WritesOwn(attempt)
    requires (attempt.written.Some? ==> TakesOver(attempt.written.value, middle, later, attempt.item.1.version))
    ensures AllTakeOver(attempts + [attempt], earlier, later) && Advances(earlier, later)
  {
  }

  /** The commits and newest versions at some moment. */
  datatype Standing = Standing(commits: seq<Commit>, newest: Newest)

  /** An attempt of a plan: what it commits, its effect, and what becomes of the newest versions. */
  ghost predicate AttemptStep(item: Item, plan: Plan, a: Attempt, earlier: Standing, later: Standing) {
    && Made(item, a, earlier.commits, later.commits) && Planned(a, plan)
    && Advances(earlier.newest, later.newest)
    && (a.written.Some? ==> TakesOver(a.written.value, earlier.newest, later.newest, item.1.version))
  }

  /** A run is one attempt after the other. */
  ghost predicate RunSteps(held: seq<Item>, plans: seq<Plan>, run: seq<Attempt>, earlier: Standing, later: Standing)
    decreases |run|
  {
    if run == [] then later == earlier
    else
      var n := |run| - 1;
      && n < |held| && n < |plans|
      && exists middle ::
           RunSteps(held, plans, run[..n], earlier, middle) && AttemptStep(held[n], plans[n], run[n], middle, later)
  }

  lemma RunGrows(
    held: seq<Item>, plans: seq<Plan>, run: seq<Attempt>, a: Attempt, earlier: Standing, middle: Standing,
    later: Standing)
    requires RunSteps(held, plans, run, earlier, middle) && |run| < |held| && |run| < |plans|
    requires AttemptStep(held[|run|], plans[|run|], a, middle, later)
    ensures RunSteps(held, plans, run + [a], earlier, later)
  {
    assert (run + [a])[..|run|] == run;
  }

  /** A run whose attempts are those on the held states, as planned. */
  predicate RunIsPlanned(held: seq<Item>, plans: seq<Plan>, run: seq<Attempt>)
    decreases |run|
  {
    if run == [] then true
    else
      var n := |run| - 1;
      && n < |held| && n < |plans| && run[n].item == held[n] && WritesOwn(run[n]) && Planned(run[n], plans[n])
      && RunIsPlanned(held, plans, run[..n])
  }

  lemma {:induction false} PlannedAt(held: seq<Item>, plans: seq<Plan>, run: seq<Attempt>, i: nat)
    requires RunIsPlanned(held, plans, run) && i < |run|
    ensures i < |held| && i < |plans| && run[i].item == held[i] && WritesOwn(run[i]) && Planned(run[i], plans[i])
    decreases |run|
  {
    if i == |run| - 1 {
    } else {
      PlannedAt(held, plans, run[..|run| - 1], i);
    }
  }

  /** What a run comes to: its commits, each attempt as planned, and what it has taken over. */
  lemma {:induction false} RunMeans(
    held: seq<Item>, plans: seq<Plan>, run: seq<Attempt>, earlier: Standing, later: Standing)
    requires RunSteps(held, plans, run, earlier, later)
    ensures Accounted(held, run, earlier.commits, later.commits) && RunIsPlanned(held, plans, run)
    ensures Advances(earlier.newest, later.newest) && AllTakeOver(run, earlier.newest, later.newest)
    decreases |run|
  {
    if run == [] {
    } else {
      var n := |run| - 1;
      var front, a := run[..n], run[n];
      var middle :|
        RunSteps(held, plans, front, earlier, middle) && AttemptStep(held[n], plans[n], a, middle, later);
      RunMeans(held, plans, front, earlier, middle);
      AccountedGrows(held, front, a, earlier.commits, middle.commits, later.commits);
      TakingOverGrows(front, a, earlier.newest, middle.newest, later.newest);
      assert run == front + [a];
    }
  }
}
