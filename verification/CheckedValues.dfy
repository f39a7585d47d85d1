/** No call ever writes an annotation that has not passed the checks (internal/resource/manager.go). */
module CheckedValues {
  import opened Attempts
  import opened Engine
  import opened Groups
  import opened OperationLaws
  import opened Stores
  import opened Tasks
  import opened Tracking
  import opened Validator
  import opened Wrappers

  /** The checks of a key and a value. */
  datatype Checks = Checks(validator: AnnotationValidator, valueAllowed: string -> bool)

  ghost predicate ContextHas(ctx: Context, checks: Checks) {
    ctx.validator == checks.validator && ctx.valueAllowed == checks.valueAllowed
  }

  /** Each value that a commit newly sets has passed the checks with its key, or is a tracking entry. */
  ghost predicate Checked(c: Commit, checks: Checks) {
    forall k | NewValue(c.before.annotations, c.after.annotations, k) ::
      || (checks.validator.Accepts(k) && checks.valueAllowed(c.after.annotations[k]))
      || exists id :: k == TrackingKey(id)
  }

  ghost predicate AllChecked(commits: seq<Commit>, checks: Checks) {
    forall c | c in commits :: Checked(c, checks)
  }

  lemma TaskCommitIsChecked(a: Attempt, task: LegacyTask, ruleID: string, ctx: Context, checks: Checks)
    requires a.written.Some? && HasTaskEffect(a, task, ruleID) && !IsInvalid(task, ctx) && ContextHas(ctx, checks)
    ensures Checked(a.written.value, checks)
  {
    var before, after := a.written.value.before.annotations, a.written.value.after.annotations;
    forall k | NewValue(before, after, k) && k != TrackingKey(ruleID)
      ensures checks.validator.Accepts(k) && checks.valueAllowed(after[k])
    {
      match task
      case Apply(annotations) =>
        assert k in annotations && after[k] == annotations[k];
      case Remove(keys) =>
        assert false;
    }
  }

  lemma GroupCommitIsChecked(
    a: Attempt, sorted: seq<Operation>, ctx: Context, ruleID: string, resolution: string, checks: Checks)
    requires a.written.Some? && Planned(a, ApplyPlan(a.item, sorted, ctx, ruleID, resolution))
    requires ContextHas(ctx, checks)
    ensures Checked(a.written.value, checks)
  {
    var before, after := a.written.value.before.annotations, a.written.value.after.annotations;
    forall k | NewValue(before, after, k) && k != TrackingKey(ruleID)
      ensures checks.validator.Accepts(k) && checks.valueAllowed(after[k])
    {
      NewValuesPass(before, sorted, ctx, ruleID, resolution, k);
    }
  }

  lemma {:induction false} RemovalsSetNothing(m: Annotations, keys: seq<string>, ruleID: string, k: string)
    requires k != TrackingKey(ruleID)
    ensures !NewValue(m, AfterRemovals(m, keys, ruleID), k)
    decreases keys
  {
    if keys == [] {
    } else {
      var next := if AppliedBy(m, keys[0], ruleID) && keys[0] in m then Untrack(m - {keys[0]}, keys[0], ruleID) else m;
      RecordingKeepsOthers(m - {keys[0]}, keys[0], ruleID, k);
      RemovalsSetNothing(next, keys[1..], ruleID, k);
    }
  }

  lemma RemovalCommitIsChecked(a: Attempt, keys: seq<string>, ruleID: string, checks: Checks)
    requires a.written.Some? && Planned(a, RemovalPlan(a.item, keys, ruleID))
    ensures Checked(a.written.value, checks)
  {
    var before, after := a.written.value.before.annotations, a.written.value.after.annotations;
    forall k | NewValue(before, after, k)
      ensures k == TrackingKey(ruleID)
    {
      if k != TrackingKey(ruleID) {
        RemovalsSetNothing(before, keys, ruleID, k);
      }
    }
  }

  /** Commits stay checked when each of a run's is. */
  lemma {:induction false} RunKeepsChecked(commits: seq<Commit>, run: seq<Attempt>, checks: Checks)
    requires AllChecked(commits, checks)
    requires forall i | 0 <= i < |run| && run[i].written.Some? :: Checked(run[i].written.value, checks)
    ensures AllChecked(WithCommits(commits, run), checks)
  {
    if run == [] {
    } else {
      RunKeepsChecked(commits, run[..|run| - 1], checks);
    }
  }

  /** A legacy call, however it ends and whatever other clients do, writes only what passes its checks. */
  lemma TaskKeepsChecked(
    commits: seq<Commit>, held: seq<Item>, run: seq<Attempt>, later: seq<Commit>, task: LegacyTask, ruleID: string,
    ctx: Context, checks: Checks)
    requires AllChecked(commits, checks) && ContextHas(ctx, checks) && !IsInvalid(task, ctx)
    requires TaskSoFar(held, run, task, ruleID, commits, later)
    ensures AllChecked(later, checks)
  {
    forall i | 0 <= i < |run| && run[i].written.Some?
      ensures Checked(run[i].written.value, checks)
    {
      TaskCommitIsChecked(run[i], task, ruleID, ctx, checks);
    }
    RunKeepsChecked(commits, run, checks);
  }

  lemma GroupKeepsChecked(
    commits: seq<Commit>, held: seq<Item>, run: seq<Attempt>, sorts: seq<seq<Operation>>, ctxs: seq<Context>,
    ruleID: string, resolution: string, checks: Checks)
    requires AllChecked(commits, checks) && |held| == |sorts| == |ctxs|
    requires forall ctx | ctx in ctxs :: ContextHas(ctx, checks)
    requires RunIsPlanned(held, ApplyPlans(held, sorts, ctxs, ruleID, resolution), run)
    ensures AllChecked(WithCommits(commits, run), checks)
  {
    var plans := ApplyPlans(held, sorts, ctxs, ruleID, resolution);
    RunIsOverHeld(held, plans, run);
    forall i | 0 <= i < |run| && run[i].written.Some?
      ensures Checked(run[i].written.value, checks)
    {
      PlannedAt(held, plans, run, i);
      ApplyPlansAt(held, sorts, ctxs, ruleID, resolution, i);
      GroupCommitIsChecked(run[i], sorts[i], ctxs[i], ruleID, resolution, checks);
    }
    RunKeepsChecked(commits, run, checks);
  }

  /** Nor does a call for several groups write anything else. */
  lemma {:induction false} GroupsKeepChecked(
    commits: seq<Commit>, held: seq<Item>, runs: seq<seq<Attempt>>, sorts: seq<seq<seq<Operation>>>, ctxs: seq<Context>,
    ruleID: string, resolution: string, checks: Checks)
    requires AllChecked(commits, checks) && forall ctx | ctx in ctxs :: ContextHas(ctx, checks)
    requires |held| == |ctxs| && forall g | 0 <= g < |sorts| :: |sorts[g]| == |held|
    requires AllPlanned(held, AllApplyPlans(held, sorts, ctxs, ruleID, resolution), runs)
    ensures AllChecked(WithRuns(commits, runs), checks)
    decreases |runs|
  {
    if runs == [] {
    } else {
      var n := |runs| - 1;
      GroupsKeepChecked(commits, held, runs[..n], sorts, ctxs, ruleID, resolution, checks);
      AllApplyPlansAt(held, sorts, ctxs, ruleID, resolution, n);
      GroupKeepsChecked(
        WithRuns(commits, runs[..n]), held, runs[n], sorts[n], ctxs, ruleID, resolution, checks);
    }
  }

  lemma RemovalKeepsChecked(
    commits: seq<Commit>, held: seq<Item>, run: seq<Attempt>, keys: seq<string>, ruleID: string, checks: Checks)
    requires AllChecked(commits, checks) && RunIsPlanned(held, RemovalPlans(held, keys, ruleID), run)
    ensures AllChecked(WithCommits(commits, run), checks)
  {
    var plans := RemovalPlans(held, keys, ruleID);
    forall i | 0 <= i < |run| && run[i].written.Some?
      ensures Checked(run[i].written.value, checks)
    {
      PlannedAt(held, plans, run, i);
      RemovalPlansAt(held, keys, ruleID, i);
      RemovalCommitIsChecked(run[i], keys, ruleID, checks);
    }
    RunKeepsChecked(commits, run, checks);
  }

  /** Nor does the removal of several groups. */
  lemma {:induction false} RemovalsKeepChecked(
    commits: seq<Commit>, held: seq<Item>, runs: seq<seq<Attempt>>, groups: seq<Group>, ruleID: string, checks: Checks)
    requires AllChecked(commits, checks) && AllPlanned(held, AllRemovalPlans(held, groups, ruleID), runs)
    ensures AllChecked(WithRuns(commits, runs), checks)
    decreases |runs|
  {
    if runs == [] {
    } else {
      var n := |runs| - 1;
      RemovalsKeepChecked(commits, held, runs[..n], groups, ruleID, checks);
      AllRemovalPlansAt(held, groups, ruleID, n);
      RemovalKeepsChecked(WithRuns(commits, runs[..n]), held, runs[n], KeysOf(groups[n].operations), ruleID, checks);
    }
  }
}
