/** Runs over resources with nobody else about: exactly which attempts succeed, and which change their
    object (internal/resource/manager.go). */
module QuietWorld {
  import opened Attempts
  import opened Stores

  predicate Fresh(objects: Objects, item: Item) {
    item.0 in objects && objects[item.0] == item.1
  }

  /** The attempt of a plan: a success if the plan is valid and finds its object; it has the planned
      effect if the client's state is the stored one, and otherwise none. */
  predicate QuietAttempt(a: Attempt, plan: Plan, earlier: Objects, later: Objects) {
    && (a.ok <==> plan.valid && (plan.proposal.Some? ==> a.item.0 in earlier))
    && (a.written.Some? <==> a.ok && plan.proposal.Some?)
    && match a.written
       case None => later == earlier
       case Some(c) =>
         && a.item.0 in earlier && c.before == earlier[a.item.0] && later == earlier[a.item.0 := c.after]
         && (if Fresh(earlier, a.item) then c.after.annotations == plan.proposal.value else c.after == c.before)
         && (c.after != c.before ==> c.after.annotations != c.before.annotations && c.after.version > c.before.version)
  }

  /** No attempt has changed the object. */
  predicate Untouched(attempts: seq<Attempt>, key: ObjectKey) {
    forall a | a in attempts && a.item.0 == key :: !Changes(a)
  }

  /** The client holds no state that is newer than the stored one. */
  predicate NotAhead(held: seq<Item>, objects: Objects) {
    forall item | item in held && item.0 in objects ::
      && item.1.version <= objects[item.0].version
      && (item.1.version == objects[item.0].version ==> item.1 == objects[item.0])
  }

  /** Which attempts of a run succeed, and which change their object: exactly those with an effective plan
      on a state that is the stored one at the start and that no earlier attempt has changed. */
  predicate QuietResults(held: seq<Item>, plans: seq<Plan>, run: seq<Attempt>, earlier: Objects)
    requires |run| <= |plans| == |held|
  {
    forall i | 0 <= i < |run| ::
      && run[i].item == held[i]
      && (run[i].ok <==> plans[i].valid && (plans[i].proposal.Some? ==> held[i].0 in earlier))
      && (Changes(run[i]) <==>
            Effective(plans[i], held[i]) && Fresh(earlier, held[i]) && Untouched(run[..i], held[i].0))
  }

  /** What a run leaves: the objects that no attempt has changed are as they were, and a state is the
      stored one still if it was and no attempt has changed the object. */
  predicate QuietStates(held: seq<Item>, run: seq<Attempt>, earlier: Objects, later: Objects) {
    && later.Keys == earlier.Keys
    && NotAhead(held, later)
    && (forall item | item in held :: Fresh(later, item) <==> Fresh(earlier, item) && Untouched(run, item.0))
    && (forall k | k in earlier && Untouched(run, k) :: later[k] == earlier[k])
  }

  /** An object that an attempt has changed has the annotations planned. */
  predicate QuietEffects(plans: seq<Plan>, run: seq<Attempt>, later: Objects)
    requires |run| <= |plans|
  {
    forall i | 0 <= i < |run| && Changes(run[i]) ::
      && plans[i].proposal.Some?
      && run[i].item.0 in later && later[run[i].item.0].annotations == plans[i].proposal.value
  }

  /** States that the store has been in are not ahead of it. */
  lemma KnownIsNotAhead(s: Store, held: seq<Item>)
    requires Consistent(s)
    requires forall item | item in held ::
      (item.0, item.1.version) in s.history && s.history[(item.0, item.1.version)] == item.1
    ensures NotAhead(held, s.objects)
  {
  }

  /** What a run over held states comes to, when its attempts go as planned. */
  predicate QuietOutcome(
    held: seq<Item>, plans: seq<Plan>, run: seq<Attempt>, earlier: Objects, later: Objects)
  {
    && |run| <= |plans| == |held|
    && QuietResults(held, plans, run, earlier)
    && QuietStates(held, run, earlier, later)
    && QuietEffects(plans, run, later)
  }

  lemma UntouchedGrows(attempts: seq<Attempt>, a: Attempt, key: ObjectKey)
    ensures Untouched(attempts + [a], key) <==> Untouched(attempts, key) && (a.item.0 == key ==> !Changes(a))
  {
    assert a in attempts + [a];
    assert forall x | x in attempts :: x in attempts + [a];
  }

  /** An attempt on an object in a quiet run, and what it leaves of any state of any object. */
  lemma AttemptChanges(a: Attempt, plan: Plan, earlier: Objects, later: Objects)
    requires QuietAttempt(a, plan, earlier, later) && NotAhead([a.item], earlier)
    ensures later.Keys == earlier.Keys
    ensures Changes(a) <==> Effective(plan, a.item) && Fresh(earlier, a.item)
    ensures !Changes(a) ==> later == earlier
    ensures Changes(a) ==>
      later == earlier[a.item.0 := later[a.item.0]] && later[a.item.0].version > earlier[a.item.0].version
  {
    assert a.item in [a.item];
  }

  lemma QuietResultsGrow(
    held: seq<Item>, plans: seq<Plan>, run: seq<Attempt>, a: Attempt,
    earlier: Objects, middle: Objects, later: Objects)
    requires |run| < |plans| == |held| && QuietResults(held, plans, run, earlier)
      && QuietStates(held, run, earlier, middle)
    requires a.item == held[|run|] && QuietAttempt(a, plans[|run|], middle, later)
    ensures QuietResults(held, plans, run + [a], earlier)
  {
    var grown := run + [a];
    assert held[|run|] in held;
    AttemptChanges(a, plans[|run|], middle, later);
    assert forall i | 0 <= i <= |run| :: grown[..i] == run[..i];
    assert run[..|run|] == run;
  }

  lemma QuietStatesGrow(
    held: seq<Item>, plan: Plan, run: seq<Attempt>, a: Attempt,
    earlier: Objects, middle: Objects, later: Objects)
    requires QuietStates(held, run, earlier, middle) && a.item in held && QuietAttempt(a, plan, middle, later)
    ensures QuietStates(held, run + [a], earlier, later)
  {
    AttemptChanges(a, plan, middle, later);
    forall key {
      UntouchedGrows(run, a, key);
    }
    forall item | item in held
      ensures Fresh(later, item) <==> Fresh(earlier, item) && Untouched(run + [a], item.0)
      ensures item.0 in later ==>
        item.1.version <= later[item.0].version && (item.1.version == later[item.0].version ==> item.1 == later[item.0])
    {
      assert Fresh(middle, item) <==> Fresh(earlier, item) && Untouched(run, item.0);
    }
  }

  lemma UntouchedMeans(run: seq<Attempt>, key: ObjectKey, i: nat)
    requires Untouched(run, key) && i < |run| && Changes(run[i])
    ensures run[i].item.0 != key
  {
    assert run[i] in run;
  }

  lemma QuietEffectsGrow(
    held: seq<Item>, plans: seq<Plan>, run: seq<Attempt>, a: Attempt,
    earlier: Objects, middle: Objects, later: Objects)
    requires |run| < |plans| && QuietStates(held, run, earlier, middle) && QuietEffects(plans, run, middle)
    requires a.item in held && QuietAttempt(a, plans[|run|], middle, later)
    ensures QuietEffects(plans, run + [a], later)
  {
    AttemptChanges(a, plans[|run|], middle, later);
    if Changes(a) {
      assert Untouched(run, a.item.0);
      forall i: nat | i < |run| && Changes(run[i])
        ensures run[i].item.0 != a.item.0
      {
        UntouchedMeans(run, a.item.0, i);
      }
    }
  }

  lemma QuietOutcomeGrows(
    held: seq<Item>, plans: seq<Plan>, run: seq<Attempt>, a: Attempt, earlier: Objects, middle: Objects, later: Objects)
    requires |run| < |plans| && QuietOutcome(held, plans, run, earlier, middle)
    requires a.item == held[|run|] && QuietAttempt(a, plans[|run|], middle, later)
    ensures QuietOutcome(held, plans, run + [a], earlier, later)
  {
    assert held[|run|] in held;
    QuietResultsGrow(held, plans, run, a, earlier, middle, later);
    QuietStatesGrow(held, plans[|run|], run, a, earlier, middle, later);
    QuietEffectsGrow(held, plans, run, a, earlier, middle, later);
  }

  /** A quiet run is one quiet attempt after the other. */
  ghost predicate QuietRun(held: seq<Item>, plans: seq<Plan>, run: seq<Attempt>, earlier: Objects, later: Objects)
    decreases |run|
  {
    if run == [] then later == earlier
    else
      var n := |run| - 1;
      && n < |held| && n < |plans| && run[n].item == held[n]
      && exists middle ::
        QuietRun(held, plans, run[..n], earlier, middle) && QuietAttempt(run[n], plans[n], middle, later)
  }

  lemma QuietRunGrows(
    held: seq<Item>, plans: seq<Plan>, run: seq<Attempt>, a: Attempt, earlier: Objects, middle: Objects, later: Objects)
    requires QuietRun(held, plans, run, earlier, middle) && |run| < |held| && |run| < |plans|
    requires a.item == held[|run|] && QuietAttempt(a, plans[|run|], middle, later)
    ensures QuietRun(held, plans, run + [a], earlier, later)
  {
    assert (run + [a])[..|run|] == run;
  }

  /** What a quiet run comes to. */
  lemma {:induction false} QuietRunMeans(
    held: seq<Item>, plans: seq<Plan>, run: seq<Attempt>, earlier: Objects, later: Objects)
    requires |plans| == |held| && NotAhead(held, earlier) && QuietRun(held, plans, run, earlier, later)
    ensures QuietOutcome(held, plans, run, earlier, later)
    decreases |run|
  {
    if run == [] {
    } else {
      var n := |run| - 1;
      var middle :| QuietRun(held, plans, run[..n], earlier, middle) && QuietAttempt(run[n], plans[n], middle, later);
      QuietRunMeans(held, plans, run[..n], earlier, middle);
      QuietOutcomeGrows(held, plans, run[..n], run[n], earlier, middle, later);
      assert run == run[..n] + [run[n]];
    }
  }

  /* Run after run over the same held states. */

  predicate UntouchedByAll(runs: seq<seq<Attempt>>, key: ObjectKey) {
    forall run | run in runs :: Untouched(run, key)
  }

  predicate Fit(held: seq<Item>, plans: seq<seq<Plan>>, runs: seq<seq<Attempt>>) {
    |runs| <= |plans| && forall g | 0 <= g < |runs| :: |runs[g]| <= |plans[g]| == |held|
  }

  /** In one run after the other, exactly those attempts change their object that have an effective plan, on
      a state that is the stored one at the very start and that no attempt before has changed. */
  predicate QuietRunsResults(held: seq<Item>, plans: seq<seq<Plan>>, runs: seq<seq<Attempt>>, earlier: Objects)
    requires Fit(held, plans, runs)
  {
    forall g, i | 0 <= g < |runs| && 0 <= i < |runs[g]| ::
      && runs[g][i].item == held[i]
      && (runs[g][i].ok <==> plans[g][i].valid && (plans[g][i].proposal.Some? ==> held[i].0 in earlier))
      && (Changes(runs[g][i]) <==>
            && Effective(plans[g][i], held[i]) && Fresh(earlier, held[i])
            && UntouchedByAll(runs[..g], held[i].0) && Untouched(runs[g][..i], held[i].0))
  }

  predicate QuietRunsStates(
    held: seq<Item>, runs: seq<seq<Attempt>>, earlier: Objects, later: Objects)
  {
    && later.Keys == earlier.Keys
    && NotAhead(held, later)
    && (forall item | item in held :: Fresh(later, item) <==> Fresh(earlier, item) && UntouchedByAll(runs, item.0))
    && (forall k | k in earlier && UntouchedByAll(runs, k) :: later[k] == earlier[k])
  }

  predicate QuietOutcomes(
    held: seq<Item>, plans: seq<seq<Plan>>, runs: seq<seq<Attempt>>, earlier: Objects, later: Objects)
  {
    && Fit(held, plans, runs)
    && QuietRunsResults(held, plans, runs, earlier)
    && QuietRunsStates(held, runs, earlier, later)
    && forall g | 0 <= g < |runs| :: QuietEffects(plans[g], runs[g], later)
  }

  lemma UntouchedByAllGrows(runs: seq<seq<Attempt>>, run: seq<Attempt>, key: ObjectKey)
    ensures UntouchedByAll(runs + [run], key) <==> UntouchedByAll(runs, key) && Untouched(run, key)
  {
    assert run in runs + [run];
    assert forall r | r in runs :: r in runs + [run];
  }

  lemma QuietRunsResultsGrow(
    held: seq<Item>, plans: seq<seq<Plan>>, runs: seq<seq<Attempt>>, run: seq<Attempt>,
    earlier: Objects, middle: Objects)
    requires Fit(held, plans, runs) && |runs| < |plans| && |run| <= |plans[|runs|]| == |held|
    requires QuietRunsResults(held, plans, runs, earlier) && QuietRunsStates(held, runs, earlier, middle)
    requires QuietResults(held, plans[|runs|], run, middle)
    ensures QuietRunsResults(held, plans, runs + [run], earlier)
  {
    var grown: seq<seq<Attempt>> := runs + [run];
    forall g: int, i: int | 0 <= g < |grown| && 0 <= i < |grown[g]|
      ensures grown[g][i].item == held[i]
      ensures grown[g][i].ok <==> plans[g][i].valid && (plans[g][i].proposal.Some? ==> held[i].0 in earlier)
      ensures Changes(grown[g][i]) <==>
        && Effective(plans[g][i], held[i]) && Fresh(earlier, held[i])
        && UntouchedByAll(grown[..g], held[i].0) && Untouched(grown[g][..i], held[i].0)
    {
      assert grown[..g] == runs[..g];
      assert held[i] in held;
      if g == |runs| {
        assert runs[..g] == runs;
        assert run[i].item == held[i];
      } else {
        assert runs[g][i].item == held[i];
      }
    }
  }

  lemma QuietRunsStatesGrow(
    held: seq<Item>, runs: seq<seq<Attempt>>, run: seq<Attempt>,
    earlier: Objects, middle: Objects, later: Objects)
    requires QuietRunsStates(held, runs, earlier, middle) && QuietStates(held, run, middle, later)
    ensures QuietRunsStates(held, runs + [run], earlier, later)
  {
    forall key {
      UntouchedByAllGrows(runs, run, key);
    }
  }

  /** An object of which only stale states are held is not changed. */
  lemma StaleIsUntouched(
    held: seq<Item>, plans: seq<Plan>, run: seq<Attempt>, earlier: Objects, later: Objects,
    key: ObjectKey)
    requires QuietOutcome(held, plans, run, earlier, later) && key in earlier
    requires forall item | item in held && item.0 == key :: !Fresh(earlier, item)
    ensures later[key] == earlier[key]
  {
    forall a | a in run && a.item.0 == key
      ensures !Changes(a)
    {
      var j :| 0 <= j < |run| && run[j] == a;
      assert run[j].item == held[j] && held[j] in held;
    }
    assert Untouched(run, key);
  }

  /** An object that an earlier run has changed is not changed again. */
  lemma QuietRunsEffectsStay(
    held: seq<Item>, plans: seq<seq<Plan>>, runs: seq<seq<Attempt>>, run: seq<Attempt>,
    earlier: Objects, middle: Objects, later: Objects, g: nat)
    requires QuietOutcomes(held, plans, runs, earlier, middle) && |runs| < |plans| && g < |runs|
    requires QuietOutcome(held, plans[|runs|], run, middle, later)
    ensures QuietEffects(plans[g], runs[g], later)
  {
    forall i | 0 <= i < |runs[g]| && Changes(runs[g][i])
      ensures plans[g][i].proposal.Some?
      ensures runs[g][i].item.0 in later && later[runs[g][i].item.0].annotations == plans[g][i].proposal.value
    {
      var key := runs[g][i].item.0;
      assert runs[g][i] in runs[g] && runs[g] in runs;
      assert !UntouchedByAll(runs, key);
      StaleIsUntouched(held, plans[|runs|], run, middle, later, key);
    }
  }

  lemma QuietOutcomesGrow(
    held: seq<Item>, plans: seq<seq<Plan>>, runs: seq<seq<Attempt>>, run: seq<Attempt>,
    earlier: Objects, middle: Objects, later: Objects)
    requires QuietOutcomes(held, plans, runs, earlier, middle) && |runs| < |plans|
    requires QuietOutcome(held, plans[|runs|], run, middle, later)
    ensures QuietOutcomes(held, plans, runs + [run], earlier, later)
  {
    QuietRunsResultsGrow(held, plans, runs, run, earlier, middle);
    QuietRunsStatesGrow(held, runs, run, earlier, middle, later);
    forall g | 0 <= g < |runs| + 1
      ensures QuietEffects(plans[g], (runs + [run])[g], later)
    {
      if g < |runs| {
        QuietRunsEffectsStay(held, plans, runs, run, earlier, middle, later, g);
      }
    }
  }

  /** One quiet run after the other. */
  ghost predicate QuietRuns(
    held: seq<Item>, plans: seq<seq<Plan>>, runs: seq<seq<Attempt>>, earlier: Objects, later: Objects)
    decreases |runs|
  {
    if runs == [] then later == earlier
    else
      var n := |runs| - 1;
      && n < |plans| && |plans[n]| == |held|
      && exists middle ::
        QuietRuns(held, plans, runs[..n], earlier, middle) && QuietRun(held, plans[n], runs[n], middle, later)
  }

  lemma QuietRunsGrow(
    held: seq<Item>, plans: seq<seq<Plan>>, runs: seq<seq<Attempt>>, run: seq<Attempt>,
    earlier: Objects, middle: Objects, later: Objects)
    requires QuietRuns(held, plans, runs, earlier, middle) && |runs| < |plans| && |plans[|runs|]| == |held|
    requires QuietRun(held, plans[|runs|], run, middle, later)
    ensures QuietRuns(held, plans, runs + [run], earlier, later)
  {
    assert (runs + [run])[..|runs|] == runs;
  }

  /** What quiet runs come to. */
  lemma {:induction false} QuietRunsMean(
    held: seq<Item>, plans: seq<seq<Plan>>, runs: seq<seq<Attempt>>, earlier: Objects, later: Objects)
    requires NotAhead(held, earlier) && QuietRuns(held, plans, runs, earlier, later)
    ensures QuietOutcomes(held, plans, runs, earlier, later)
    decreases |runs|
  {
    if runs == [] {
    } else {
      var n := |runs| - 1;
      var middle :|
        QuietRuns(held, plans, runs[..n], earlier, middle) && QuietRun(held, plans[n], runs[n], middle, later);
      QuietRunsMean(held, plans, runs[..n], earlier, middle);
      QuietRunMeans(held, plans[n], runs[n], middle, later);
      QuietOutcomesGrow(held, plans, runs[..n], runs[n], earlier, middle, later);
      assert runs == runs[..n] + [runs[n]];
    }
  }

  predicate DistinctObjects(held: seq<Item>) {
    forall i, j | 0 <= i < j < |held| :: held[i].0 != held[j].0
  }

  /** A run before the given one has attempted the state, with an effective plan. */
  predicate EffectiveBefore(held: seq<Item>, plans: seq<seq<Plan>>, runs: seq<seq<Attempt>>, g: nat, i: nat)
    requires Fit(held, plans, runs) && g <= |runs| && i < |held|
  {
    exists f | 0 <= f < g :: i < |runs[f]| && Effective(plans[f][i], held[i])
  }

  /** The first run that would change an object changes it; every later one succeeds all the same, and
      changes nothing. */
  lemma {:induction false} FirstEffectiveRunChanges(
    held: seq<Item>, plans: seq<seq<Plan>>, runs: seq<seq<Attempt>>, earlier: Objects, g: nat, i: nat)
    requires Fit(held, plans, runs) && QuietRunsResults(held, plans, runs, earlier) && DistinctObjects(held)
    requires g <= |runs| && i < |held| && Fresh(earlier, held[i])
    ensures UntouchedByAll(runs[..g], held[i].0) <==> !EffectiveBefore(held, plans, runs, g, i)
    ensures g < |runs| && i < |runs[g]| ==>
      && (runs[g][i].ok <==> plans[g][i].valid)
      && (Changes(runs[g][i]) <==> Effective(plans[g][i], held[i]) && !EffectiveBefore(held, plans, runs, g, i))
    decreases g
  {
    if g == 0 {
    } else {
      FirstEffectiveRunChanges(held, plans, runs, earlier, g - 1, i);
      OwnAttemptOnly(held, plans, runs, earlier, g - 1, i);
      assert runs[..g] == runs[..g - 1] + [runs[g - 1]];
      UntouchedByAllGrows(runs[..g - 1], runs[g - 1], held[i].0);
    }
    if g < |runs| && i < |runs[g]| {
      forall j | 0 <= j < i
        ensures runs[g][..i][j].item.0 != held[i].0
      {
        assert runs[g][j].item == held[j];
      }
      assert Untouched(runs[g][..i], held[i].0);
      assert runs[g][i].item == held[i];
    }
  }

  /** An object is changed in a run by the attempt on it alone. */
  lemma OwnAttemptOnly(
    held: seq<Item>, plans: seq<seq<Plan>>, runs: seq<seq<Attempt>>, earlier: Objects, g: nat, i: nat)
    requires Fit(held, plans, runs) && QuietRunsResults(held, plans, runs, earlier) && DistinctObjects(held)
    requires g < |runs| && i < |held|
    ensures Untouched(runs[g], held[i].0) <==> (i < |runs[g]| ==> !Changes(runs[g][i]))
  {
    if i < |runs[g]| {
      assert runs[g][i] in runs[g];
    }
    forall a | a in runs[g] && a.item.0 == held[i].0
      ensures i < |runs[g]| && a == runs[g][i]
    {
      var j :| 0 <= j < |runs[g]| && runs[g][j] == a;
      assert runs[g][j].item == held[j];
    }
  }
}
