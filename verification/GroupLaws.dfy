/** What a group plans for one resource, in terms of its operations (internal/resource/manager.go). */
module GroupLaws {
  import opened Attempts
  import opened Engine
  import opened Groups
  import opened OperationLaws
  import opened Removal
  import opened Stores
  import opened Tracking
  import opened Wrappers
  import L = Ledgers

  lemma KeysOfExactly(ops: seq<Operation>, k: string)
    ensures k in KeysOf(ops) <==> exists op | op in ops :: op.key == k
  {
    if op :| op in ops && op.key == k {
      var i :| 0 <= i < |ops| && ops[i] == op;
      assert KeysOf(ops)[i] == k;
    }
  }

  /** The annotations that a plan leaves. */
  function Outcome(item: Item, plan: Plan): Annotations {
    if plan.proposal.Some? then plan.proposal.value else item.1.annotations
  }

  /** Removing a group takes off a resource exactly the keys of its operations that are on the rule's record, and
      leaves every other annotation but the tracking entry. */
  lemma GroupRemovalExactly(item: Item, ops: seq<Operation>, ruleID: string, k: string)
    requires WellTracked(item.1.annotations, ruleID) && k != TrackingKey(ruleID)
    ensures var before := item.1.annotations; var after := Outcome(item, RemovalPlan(item, KeysOf(ops), ruleID));
      && (k in after <==>
            k in before && !(k in RecordedKeys(before, ruleID) && exists op | op in ops :: op.key == k))
      && (k in after ==> after[k] == before[k])
  {
    var before, keys := item.1.annotations, KeysOf(ops);
    var tracking, after := TrackingKey(ruleID), AfterRemovals(before, keys, ruleID);
    KeysOfExactly(ops, k);
    RemovalFrame(before, keys, ruleID);
    var gone := RemovableKeys(before, keys, ruleID);
    assert k in after <==> k in after - {tracking};
    assert k in before - {tracking} - gone <==> k in before && k !in gone;
  }

  /** A group is going to write exactly if it has an operation and every operation passes its checks, and then what
      it newly sets is the expanded value of one of its operations on that key. */
  lemma GroupPlanExactly(
    item: Item, sorted: seq<Operation>, ctx: Context, ruleID: string, resolution: string, k: string)
    ensures var plan := ApplyPlan(item, sorted, ctx, ruleID, resolution);
      && (plan.valid <==> forall op | op in sorted :: Acceptable(op, ctx))
      && (plan.proposal.Some? <==> sorted != [] && plan.valid)
      && (k != TrackingKey(ruleID) && NewValue(item.1.annotations, Outcome(item, plan), k) ==>
            exists op | op in sorted ::
              op.key == k && op.action in {"", "apply"} && Outcome(item, plan)[k] == Expanded(op, ctx.variables))
  {
    forall op {
      ErrorExactly(op, ctx);
    }
    var plan := ApplyPlan(item, sorted, ctx, ruleID, resolution);
    if k != TrackingKey(ruleID) && NewValue(item.1.annotations, Outcome(item, plan), k) {
      NewValuesPass(item.1.annotations, sorted, ctx, ruleID, resolution, k);
    }
  }

  /** An attempt is a success only if every operation passes its checks, and one that is a success and has an
      operation is written. */
  lemma SuccessIsAcceptable(a: Attempt, sorted: seq<Operation>, ctx: Context, ruleID: string, resolution: string)
    requires Planned(a, ApplyPlan(a.item, sorted, ctx, ruleID, resolution)) && a.ok
    ensures forall op | op in sorted :: Acceptable(op, ctx)
    ensures a.written.Some? <==> sorted != []
  {
    GroupPlanExactly(a.item, sorted, ctx, ruleID, resolution, "");
  }
}
