/** Ownership over the history of an object in the store, among the writes of other clients
    (internal/resource/manager.go). */
module StoreRuns {
  import opened Attempts
  import opened Cluster
  import opened Engine
  import opened Groups
  import opened Ownership
  import opened Stores
  import opened Tasks
  import opened Tracking
  import opened Validator
  import opened Wrappers
  import L = Ledgers

  /** A change of an object's state by a rule's step, or one that keeps the annotations. */
  predicate MadeBy(before: Snapshot, after: Snapshot, step: RuleStep) {
    after.annotations == before.annotations || after.annotations == step.After(before.annotations)
  }

  /* Every commit of a call is a step of its rule. */

  /** A step that a legacy call may take: on its keys, in some iteration order. */
  ghost predicate StepOfTask(step: RuleStep, task: LegacyTask, ruleID: string) {
    match task
    case Apply(annotations) =>
      step.LegacyApply? && step == LegacyApply(ruleID, annotations, step.order)
        && IsOrderOf(step.order, annotations.Keys)
    case Remove(keys) => step == LegacyRemove(ruleID, keys)
  }

  lemma TaskCommitIsStep(a: Attempt, task: LegacyTask, ruleID: string, ctx: Context) returns (step: RuleStep)
    requires a.written.Some? && HasTaskEffect(a, task, ruleID)
    requires NamespacedID(ruleID) && !IsEmpty(task) && !IsInvalid(task, ctx)
    ensures StepOfTask(step, task, ruleID) && step.Allowed()
    ensures MadeBy(a.written.value.before, a.written.value.after, step)
  {
    match task
    case Apply(annotations) =>
      var order :| IsOrderOf(order, annotations.Keys) &&
        a.written.value.after.annotations == AfterApply(a.written.value.before.annotations, annotations, order, ruleID);
      step := LegacyApply(ruleID, annotations, order);
      forall k | k in annotations
        ensures Plain(k)
      {
        AcceptedIsPlain(ctx.validator, k);
      }
    case Remove(keys) =>
      step := LegacyRemove(ruleID, keys);
  }

  /** Every commit of a group is a step of its rule, or keeps the annotations. */
  lemma GroupCommitIsStep(a: Attempt, sorted: seq<Operation>, ctx: Context, ruleID: string, resolution: string)
    requires a.written.Some? && Planned(a, ApplyPlan(a.item, sorted, ctx, ruleID, resolution))
    ensures MadeBy(a.written.value.before, a.written.value.after, GroupApply(ruleID, sorted, ctx, resolution))
  {
  }

  lemma RemovalCommitIsStep(a: Attempt, keys: seq<string>, ruleID: string)
    requires a.written.Some? && Planned(a, RemovalPlan(a.item, keys, ruleID))
    ensures MadeBy(a.written.value.before, a.written.value.after, GroupRemove(ruleID, keys))
  {
  }

  /** One step for each commit, that explains it. */
  ghost predicate AreSteps(commits: seq<Commit>, steps: seq<RuleStep>) {
    && |commits| == |steps|
    && forall j | 0 <= j < |commits| :: steps[j].Allowed() && MadeBy(commits[j].before, commits[j].after, steps[j])
  }

  /** A commit more, with its step; an attempt that wrote nothing adds neither. */
  lemma AttemptAddsStep(commits: seq<Commit>, steps: seq<RuleStep>, a: Attempt, step: RuleStep)
    requires AreSteps(commits, steps)
    requires a.written.Some? ==> step.Allowed() && MadeBy(a.written.value.before, a.written.value.after, step)
    ensures AreSteps(WithCommit(commits, a), steps + if a.written.Some? then [step] else [])
  {
  }

  /** The commits of a legacy call are steps of its rule. */
  lemma {:induction false} TaskAddsSteps(
    commits: seq<Commit>, steps: seq<RuleStep>, run: seq<Attempt>, task: LegacyTask, ruleID: string, ctx: Context)
    returns (more: seq<RuleStep>)
    requires AreSteps(commits, steps) && NamespacedID(ruleID) && !IsEmpty(task) && !IsInvalid(task, ctx)
    requires forall a | a in run :: HasTaskEffect(a, task, ruleID)
    ensures AreSteps(WithCommits(commits, run), steps + more)
    ensures forall step | step in more :: StepOfTask(step, task, ruleID)
  {
    if run == [] {
      more := [];
      assert steps + more == steps;
    } else {
      var front, last := run[..|run| - 1], run[|run| - 1];
      more := TaskAddsSteps(commits, steps, front, task, ruleID, ctx);
      if last.written.Some? {
        var step := TaskCommitIsStep(last, task, ruleID, ctx);
        AttemptAddsStep(WithCommits(commits, front), steps + more, last, step);
        assert steps + more + [step] == steps + (more + [step]);
        more := more + [step];
      }
    }
  }

  /** The commits of a run are steps of a rule, when one is known for each of its attempts. */
  lemma {:induction false} RunAddsSteps(
    commits: seq<Commit>, steps: seq<RuleStep>, run: seq<Attempt>, known: seq<RuleStep>)
    returns (more: seq<RuleStep>)
    requires AreSteps(commits, steps) && |run| <= |known|
    requires forall i | 0 <= i < |run| && run[i].written.Some? ::
      known[i].Allowed() && MadeBy(run[i].written.value.before, run[i].written.value.after, known[i])
    ensures AreSteps(WithCommits(commits, run), steps + more)
    ensures forall step | step in more :: step in known
  {
    if run == [] {
      more := [];
      assert steps + more == steps;
    } else {
      var n := |run| - 1;
      more := RunAddsSteps(commits, steps, run[..n], known);
      if run[n].written.Some? {
        AttemptAddsStep(WithCommits(commits, run[..n]), steps + more, run[n], known[n]);
        assert steps + more + [known[n]] == steps + (more + [known[n]]);
        more := more + [known[n]];
      }
    }
  }

  /** The step of a group for each resource. */
  function GroupSteps(
    sorts: seq<seq<Operation>>, ctxs: seq<Context>, ruleID: string, resolution: string): (known: seq<RuleStep>)
    requires |sorts| == |ctxs|
    ensures |known| == |sorts|
    ensures forall i | 0 <= i < |sorts| :: known[i] == GroupApply(ruleID, sorts[i], ctxs[i], resolution)
  {
    seq(|sorts|, i requires 0 <= i < |sorts| => GroupApply(ruleID, sorts[i], ctxs[i], resolution))
  }

  /** The commits of a group are steps of its rule. */
  lemma GroupAddsSteps(
    commits: seq<Commit>, steps: seq<RuleStep>, held: seq<Item>, run: seq<Attempt>,
    sorts: seq<seq<Operation>>, ctxs: seq<Context>, ruleID: string, resolution: string)
    returns (more: seq<RuleStep>)
    requires AreSteps(commits, steps) && NamespacedID(ruleID) && |held| == |sorts| == |ctxs|
    requires RunIsPlanned(held, ApplyPlans(held, sorts, ctxs, ruleID, resolution), run)
    ensures AreSteps(WithCommits(commits, run), steps + more)
    ensures forall step | step in more :: step in GroupSteps(sorts, ctxs, ruleID, resolution)
  {
    var known, plans := GroupSteps(sorts, ctxs, ruleID, resolution), ApplyPlans(held, sorts, ctxs, ruleID, resolution);
    RunIsOverHeld(held, plans, run);
    forall i | 0 <= i < |run| && run[i].written.Some?
      ensures known[i].Allowed() && MadeBy(run[i].written.value.before, run[i].written.value.after, known[i])
    {
      PlannedAt(held, plans, run, i);
      ApplyPlansAt(held, sorts, ctxs, ruleID, resolution, i);
      GroupCommitIsStep(run[i], sorts[i], ctxs[i], ruleID, resolution);
    }
    more := RunAddsSteps(commits, steps, run, known);
  }

  /** A step of one of several groups. */
  ghost predicate OfGroups(
    step: RuleStep, sorts: seq<seq<seq<Operation>>>, ctxs: seq<Context>, ruleID: string, resolution: string)
    requires forall g | 0 <= g < |sorts| :: |sorts[g]| == |ctxs|
  {
    exists g :: 0 <= g < |sorts| && step in GroupSteps(sorts[g], ctxs, ruleID, resolution)
  }

  lemma Reassociated(a: seq<RuleStep>, b: seq<RuleStep>, c: seq<RuleStep>)
    ensures a + b + c == a + (b + c)
  {
  }

  /** The commits of a call for several groups are steps of its rule. */
  lemma {:induction false} GroupsAddSteps(
    commits: seq<Commit>, steps: seq<RuleStep>, held: seq<Item>, runs: seq<seq<Attempt>>,
    sorts: seq<seq<seq<Operation>>>, ctxs: seq<Context>, ruleID: string, resolution: string)
    returns (more: seq<RuleStep>)
    requires AreSteps(commits, steps) && NamespacedID(ruleID)
    requires |held| == |ctxs| && forall g | 0 <= g < |sorts| :: |sorts[g]| == |ctxs|
    requires AllPlanned(held, AllApplyPlans(held, sorts, ctxs, ruleID, resolution), runs)
    ensures AreSteps(WithRuns(commits, runs), steps + more)
    ensures forall step | step in more :: OfGroups(step, sorts, ctxs, ruleID, resolution)
    decreases |runs|
  {
    if runs == [] {
      more := [];
      assert steps + more == steps;
    } else {
      var n := |runs| - 1;
      more := GroupsAddSteps(commits, steps, held, runs[..n], sorts, ctxs, ruleID, resolution);
      AllApplyPlansAt(held, sorts, ctxs, ruleID, resolution, n);
      var last := GroupAddsSteps(
        WithRuns(commits, runs[..n]), steps + more, held, runs[n], sorts[n], ctxs, ruleID, resolution);
      Reassociated(steps, more, last);
      more := more + last;
    }
  }

  /** The commits of a group's removal are steps of its rule. */
  lemma RemovalAddsSteps(
    commits: seq<Commit>, steps: seq<RuleStep>, held: seq<Item>, run: seq<Attempt>, keys: seq<string>, ruleID: string)
    returns (more: seq<RuleStep>)
    requires AreSteps(commits, steps) && NamespacedID(ruleID)
    requires RunIsPlanned(held, RemovalPlans(held, keys, ruleID), run)
    ensures AreSteps(WithCommits(commits, run), steps + more)
    ensures forall step | step in more :: step == GroupRemove(ruleID, keys)
  {
    var known, plans := seq(|run|, i => GroupRemove(ruleID, keys)), RemovalPlans(held, keys, ruleID);
    forall i | 0 <= i < |run| && run[i].written.Some?
      ensures known[i].Allowed() && MadeBy(run[i].written.value.before, run[i].written.value.after, known[i])
    {
      PlannedAt(held, plans, run, i);
      RemovalPlansAt(held, keys, ruleID, i);
      RemovalCommitIsStep(run[i], keys, ruleID);
    }
    more := RunAddsSteps(commits, steps, run, known);
  }

  /** A step of the removal of one of several groups. */
  ghost predicate OfRemovals(step: RuleStep, groups: seq<Group>, ruleID: string) {
    exists g :: 0 <= g < |groups| && step == GroupRemove(ruleID, KeysOf(groups[g].operations))
  }

  lemma {:induction false} RemovalsAddSteps(
    commits: seq<Commit>, steps: seq<RuleStep>, held: seq<Item>, runs: seq<seq<Attempt>>, groups: seq<Group>,
    ruleID: string)
    returns (more: seq<RuleStep>)
    requires AreSteps(commits, steps) && NamespacedID(ruleID)
    requires AllPlanned(held, AllRemovalPlans(held, groups, ruleID), runs)
    ensures AreSteps(WithRuns(commits, runs), steps + more)
    ensures forall step | step in more :: OfRemovals(step, groups, ruleID)
    decreases |runs|
  {
    if runs == [] {
      more := [];
      assert steps + more == steps;
    } else {
      var n := |runs| - 1;
      more := RemovalsAddSteps(commits, steps, held, runs[..n], groups, ruleID);
      AllRemovalPlansAt(held, groups, ruleID, n);
      var last := RemovalAddsSteps(
        WithRuns(commits, runs[..n]), steps + more, held, runs[n], KeysOf(groups[n].operations), ruleID);
      Reassociated(steps, more, last);
      more := more + last;
    }
  }

  /* The history of an object. */

  /** All the states of an object between two of its versions, in order. */
  ghost predicate StatesOf(history: History, key: ObjectKey, states: seq<Snapshot>) {
    && (forall i | 0 <= i < |states| ::
          (key, states[i].version) in history && history[(key, states[i].version)] == states[i])
    && (forall i | 0 < i < |states| ::
          && states[i - 1].version < states[i].version
          && forall v | states[i - 1].version < v < states[i].version :: (key, v) !in history)
  }

  /** A commit that makes a new version leads from one state of the object to the next. */
  lemma CommitIsNextState(history: History, c: Commit, states: seq<Snapshot>, i: nat)
    requires StatesOf(history, c.key, states) && Adjacent(c, history)
    requires i + 1 < |states| && states[i] == c.before && c.after != c.before
    ensures states[i + 1] == c.after
  {
    assert (c.key, states[i + 1].version) in history;
  }

  /** What led from each state to the next: a rule's step, or another client, which may write anything that
      leaves the tracking entries well formed. */
  ghost predicate LedBy(states: seq<Snapshot>, moves: seq<Option<RuleStep>>) {
    && |states| == |moves| + 1
    && forall i | 0 <= i < |moves| ::
         match moves[i]
         case Some(step) => step.Allowed() && MadeBy(states[i], states[i + 1], step)
         case None => Sound(states[i].annotations) ==> Sound(states[i + 1].annotations)
  }

  /** The key is changed at this point, and the rule that does so may: its own tracking entry, a key that it
      applies, or a key on its record. */
  ghost predicate ChangedByOwner(states: seq<Snapshot>, moves: seq<Option<RuleStep>>, i: nat, key: string)
    requires LedBy(states, moves)
  {
    && i < |moves| && moves[i].Some? && !L.SameAt(states[i].annotations, states[i + 1].annotations, key)
    && (key == TrackingKey(moves[i].value.ruleID) || key in Reach(states[i].annotations, moves[i].value))
  }

  ghost predicate ChangedByOther(states: seq<Snapshot>, moves: seq<Option<RuleStep>>, i: nat, key: string)
    requires LedBy(states, moves)
  {
    i < |moves| && moves[i] == None && !L.SameAt(states[i].annotations, states[i + 1].annotations, key)
  }

  /** Over the whole history of an object in the store, tracking entries stay well formed, and a key that is not
      as it was has been changed by another client, or by a rule that owns it at that moment. */
  lemma {:induction false} StoreRunsKeepOwnership(
    states: seq<Snapshot>, moves: seq<Option<RuleStep>>, n: nat, key: string)
    requires LedBy(states, moves) && n <= |moves| && Sound(states[0].annotations)
    ensures Sound(states[n].annotations)
    ensures L.SameAt(states[0].annotations, states[n].annotations, key)
      || exists i: nat :: i < n && (ChangedByOwner(states, moves, i, key) || ChangedByOther(states, moves, i, key))
  {
    if n == 0 {
    } else {
      StoreRunsKeepOwnership(states, moves, n - 1, key);
      var before, after := states[n - 1].annotations, states[n].annotations;
      match moves[n - 1]
      case None =>
        if !L.SameAt(before, after, key) {
          assert ChangedByOther(states, moves, n - 1, key);
        }
      case Some(step) =>
        StepStaysInReach(before, step);
        if !L.SameAt(before, after, key) {
          assert ChangedByOwner(states, moves, n - 1, key);
        }
    }
  }

  /* The history in the store and the commits of the server. */

  /** The commit that leads from one state of the object to another. */
  predicate Links(c: Commit, key: ObjectKey, before: Snapshot, after: Snapshot) {
    c.key == key && c.before == before && c.after == after
  }

  predicate IsCommitted(commits: seq<Commit>, key: ObjectKey, before: Snapshot, after: Snapshot) {
    exists c | c in commits :: Links(c, key, before, after)
  }

  /** The step of the first commit that leads from one state to another. */
  function MoveOf(
    commits: seq<Commit>, steps: seq<RuleStep>, key: ObjectKey, before: Snapshot, after: Snapshot): Option<RuleStep>
    requires |commits| == |steps|
    decreases commits
  {
    if commits == [] then None
    else if Links(commits[0], key, before, after) then Some(steps[0])
    else MoveOf(commits[1..], steps[1..], key, before, after)
  }

  /** The j-th commit leads from one state to the other, and its step is the move. */
  ghost predicate IsMove(
    commits: seq<Commit>, steps: seq<RuleStep>, key: ObjectKey, before: Snapshot, after: Snapshot, j: nat,
    step: RuleStep)
    requires |commits| == |steps|
  {
    j < |commits| && Links(commits[j], key, before, after) && step == steps[j]
  }

  lemma {:induction false} MoveIsOfCommit(
    commits: seq<Commit>, steps: seq<RuleStep>, key: ObjectKey, before: Snapshot, after: Snapshot)
    requires AreSteps(commits, steps)
    ensures var move := MoveOf(commits, steps, key, before, after);
      && (move.Some? <==> IsCommitted(commits, key, before, after))
      && (move.Some? ==>
            && move.value.Allowed() && MadeBy(before, after, move.value)
            && exists j: nat :: IsMove(commits, steps, key, before, after, j, move.value))
    decreases commits
  {
    if commits == [] {
    } else {
      assert commits[0] in commits && steps[0].Allowed();
      assert forall c :: c in commits <==> c == commits[0] || c in commits[1..];
      MoveIsOfCommit(commits[1..], steps[1..], key, before, after);
      var move := MoveOf(commits, steps, key, before, after);
      if Links(commits[0], key, before, after) {
        assert IsMove(commits, steps, key, before, after, 0, steps[0]);
      } else if move.Some? {
        var j: nat :| IsMove(commits[1..], steps[1..], key, before, after, j, move.value);
        assert IsMove(commits, steps, key, before, after, j + 1, move.value);
      }
    }
  }

  /** What led from each state to the next: the step of the commit that links them, and otherwise another
      client. */
  function MovesOf(
    commits: seq<Commit>, steps: seq<RuleStep>, key: ObjectKey, states: seq<Snapshot>): (moves: seq<Option<RuleStep>>)
    requires |commits| == |steps| && states != []
    ensures |moves| == |states| - 1
    ensures forall i | 0 <= i < |moves| :: moves[i] == MoveOf(commits, steps, key, states[i], states[i + 1])
  {
    seq(|states| - 1, i requires 0 <= i < |states| - 1 => MoveOf(commits, steps, key, states[i], states[i + 1]))
  }

  /** The writes of other clients leave the tracking entries well formed. */
  ghost predicate OthersKeepSound(commits: seq<Commit>, key: ObjectKey, states: seq<Snapshot>) {
    forall i | 0 < i < |states| && !IsCommitted(commits, key, states[i - 1], states[i]) ::
      Sound(states[i - 1].annotations) ==> Sound(states[i].annotations)
  }

  lemma CommitsLead(commits: seq<Commit>, steps: seq<RuleStep>, key: ObjectKey, states: seq<Snapshot>)
    requires AreSteps(commits, steps) && states != [] && OthersKeepSound(commits, key, states)
    ensures LedBy(states, MovesOf(commits, steps, key, states))
  {
    var moves := MovesOf(commits, steps, key, states);
    forall i | 0 <= i < |moves|
      ensures match moves[i]
        case Some(step) => step.Allowed() && MadeBy(states[i], states[i + 1], step)
        case None => Sound(states[i].annotations) ==> Sound(states[i + 1].annotations)
    {
      MoveIsOfCommit(commits, steps, key, states[i], states[i + 1]);
      assert states[i + 1 - 1] == states[i];
    }
  }

  /** A commit between two states has changed an annotation, and its step owns it at that moment. */
  ghost predicate ChangedByCommit(
    commits: seq<Commit>, steps: seq<RuleStep>, key: ObjectKey, before: Snapshot, after: Snapshot, k: string)
    requires |commits| == |steps|
  {
    && !L.SameAt(before.annotations, after.annotations, k)
    && exists j: nat, step ::
         && IsMove(commits, steps, key, before, after, j, step)
         && (k == TrackingKey(step.ruleID) || k in Reach(before.annotations, step))
  }

  /** Another client has changed the annotation between two states. */
  ghost predicate ChangedOutside(commits: seq<Commit>, key: ObjectKey, before: Snapshot, after: Snapshot, k: string) {
    !IsCommitted(commits, key, before, after) && !L.SameAt(before.annotations, after.annotations, k)
  }

  lemma MoveChanges(
    commits: seq<Commit>, steps: seq<RuleStep>, key: ObjectKey, states: seq<Snapshot>, i: nat, k: string)
    requires AreSteps(commits, steps) && states != [] && LedBy(states, MovesOf(commits, steps, key, states))
    requires var moves := MovesOf(commits, steps, key, states);
      ChangedByOwner(states, moves, i, k) || ChangedByOther(states, moves, i, k)
    ensures i + 1 < |states|
    ensures
      || ChangedByCommit(commits, steps, key, states[i], states[i + 1], k)
      || ChangedOutside(commits, key, states[i], states[i + 1], k)
  {
    MoveIsOfCommit(commits, steps, key, states[i], states[i + 1]);
  }

  lemma StatesKeepOwnership(
    commits: seq<Commit>, steps: seq<RuleStep>, key: ObjectKey, states: seq<Snapshot>, k: string)
    requires AreSteps(commits, steps) && states != [] && Sound(states[0].annotations)
    requires OthersKeepSound(commits, key, states)
    ensures var last := states[|states| - 1];
      && Sound(last.annotations)
      && (L.SameAt(states[0].annotations, last.annotations, k)
          || exists i: nat :: i + 1 < |states| &&
               (|| ChangedByCommit(commits, steps, key, states[i], states[i + 1], k)
                || ChangedOutside(commits, key, states[i], states[i + 1], k)))
  {
    var moves := MovesOf(commits, steps, key, states);
    CommitsLead(commits, steps, key, states);
    StoreRunsKeepOwnership(states, moves, |moves|, k);
    if !L.SameAt(states[0].annotations, states[|moves|].annotations, k) {
      var i: nat :| i < |moves| && (ChangedByOwner(states, moves, i, k) || ChangedByOther(states, moves, i, k));
      MoveChanges(commits, steps, key, states, i, k);
    }
  }

  /** Over the history of an object in the server, when its commits are steps of rules and the other clients leave
      the tracking entries well formed: they stay well formed, and an annotation that is not as it was has
      been changed by another client, or by a commit whose rule owned it at that moment. No commit is
      left out: each that makes a new version of one of the states leads to the next. */
  lemma ServerKeepsOwnership(server: ApiServer, steps: seq<RuleStep>, key: ObjectKey, states: seq<Snapshot>, k: string)
    requires server.Valid() && AreSteps(server.commits, steps)
    requires states != [] && StatesOf(server.history, key, states) && Sound(states[0].annotations)
    requires OthersKeepSound(server.commits, key, states)
    ensures var last := states[|states| - 1];
      && Sound(last.annotations)
      && (L.SameAt(states[0].annotations, last.annotations, k)
          || exists i: nat :: i + 1 < |states| &&
               (|| ChangedByCommit(server.commits, steps, key, states[i], states[i + 1], k)
                || ChangedOutside(server.commits, key, states[i], states[i + 1], k)))
    ensures forall c, i | c in server.commits && c.key == key && c.after != c.before && 0 <= i < |states| - 1 ::
      c.before == states[i] ==> c.after == states[i + 1]
  {
    StatesKeepOwnership(server.commits, steps, key, states, k);
    forall c, i | c in server.commits && c.key == key && c.after != c.before && 0 <= i < |states| - 1
      && c.before == states[i]
      ensures c.after == states[i + 1]
    {
      CommitIsNextState(server.history, c, states, i);
    }
  }
}
