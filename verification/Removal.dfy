/** The two removal algorithms compared, and removal as the inverse of apply
    (internal/resource/manager.go). */
module Removal {
  import opened Validator
  import opened Tracking
  import L = Ledgers
  import opened Engine

  /** The two removals store the same annotations if and only if nothing is removed or every listed
      key on the rule's record is present. */
  lemma RemovalsAgreeExactly(m: Annotations, keys: seq<string>, ruleID: string)
    requires WellTracked(m, ruleID)
    ensures StoredByBatchRemoval(m, keys, ruleID) == AfterRemovals(m, keys, ruleID) <==>
      || RemovableKeys(m, keys, ruleID) == {}
      || forall k | k in keys && k in RecordedKeys(m, ruleID) :: k in m
  {
    var l := Decode(m, ruleID);
    BatchRefines(m, keys, ruleID);
    RemovalsRefine(m, keys, ruleID);
    L.RemovalsAgreeExactly(l, keys);
    TrackedIsRecorded(m, ruleID);
    assert forall k | k in l.recorded :: k in m <==> k in l.values;
    if L.RemoveBatch(l, keys) == L.RemoveEach(l, keys) {
      DecodeIsInjective(StoredByBatchRemoval(m, keys, ruleID), AfterRemovals(m, keys, ruleID), ruleID);
    }
  }

  /** Both removals delete exactly the listed keys on the rule's record, and nothing else changes but
      the rule's tracking entry. */
  lemma RemovalFrame(m: Annotations, keys: seq<string>, ruleID: string)
    requires WellTracked(m, ruleID)
    ensures var tracking := TrackingKey(ruleID); var gone := RemovableKeys(m, keys, ruleID);
      && (forall k :: k in gone <==> k in keys && k in m && k in RecordedKeys(m, ruleID))
      && StoredByBatchRemoval(m, keys, ruleID) - {tracking} == m - {tracking} - gone
      && AfterRemovals(m, keys, ruleID) - {tracking} == m - {tracking} - gone
  {
    BatchRefines(m, keys, ruleID);
    RemovalsRefine(m, keys, ruleID);
    L.RemoveEachStrips(Decode(m, ruleID), keys);
    TrackedIsRecorded(m, ruleID);
  }

  /** Legacy remove undoes legacy apply, in any iteration orders, if and only if the rule's keys and
      its tracking entry were absent before. */
  lemma RemoveUndoesApplyExactly(
    m: Annotations, annotations: map<string, string>, order: seq<string>, keys: seq<string>, ruleID: string)
    requires NamespacedID(ruleID) && annotations != map[] && forall k | k in annotations :: Plain(k)
    requires L.ListedSet(order) == L.ListedSet(keys) == annotations.Keys
    ensures StoredByBatchRemoval(AfterApply(m, annotations, order, ruleID), keys, ruleID) == m <==>
      annotations.Keys !! m.Keys && TrackingKey(ruleID) !in m
  {
    var tracking := TrackingKey(ruleID);
    assert AllPlain(order) by {
      assert forall k | k in order :: k in L.ListedSet(order);
    }
    assert order != [] by {
      var k :| k in annotations;
      assert k in L.ListedSet(order);
    }
    var applied := AfterApply(m, annotations, order, ruleID);
    ApplyRefines(m, annotations, order, ruleID);
    BatchRefines(applied, keys, ruleID);
    L.RemoveAfterApplyMap(Decode(m, ruleID), annotations, order, keys);
    EmptyRecord(StoredByBatchRemoval(applied, keys, ruleID), m - {tracking} - annotations.Keys, ruleID);
    NothingTaken(m, annotations.Keys, tracking);
  }

  lemma EmptyRecord(m: Annotations, values: Annotations, ruleID: string)
    requires WellTracked(m, ruleID) && Decode(m, ruleID) == L.Ledger(values, [])
    ensures m == values
  {
    assert TrackingKey(ruleID) !in m;
    assert m == m - {TrackingKey(ruleID)};
  }

  lemma NothingTaken(m: Annotations, keys: set<string>, key: string)
    ensures m - {key} - keys == m <==> keys !! m.Keys && key !in m
  {
    if m - {key} - keys == m {
      assert forall k :: k in m ==> k in m - {key} - keys;
    }
  }

  lemma {:induction false} EffectsOfApplies(ops: seq<Operation>, ctx: Context)
    requires AllApply(ops, ctx)
    ensures L.AllPuts(EffectsOf(ops, ctx))
    ensures L.PutKeys(EffectsOf(ops, ctx)) == set op | op in ops :: op.key
  {
    if ops == [] {
    } else {
      EffectsOfApplies(ops[1..], ctx);
      var effects := EffectsOf(ops[1..], ctx);
      assert ops[0] in ops;
      assert EffectsOf(ops, ctx) == [L.Put(ops[0].key, ProcessedValue(ops[0], ctx))] + effects;
      assert L.PutKeys(EffectsOf(ops, ctx)) == {ops[0].key} + L.PutKeys(effects);
      assert (set op | op in ops :: op.key) == {ops[0].key} + set op | op in ops[1..] :: op.key;
    }
  }

  /** A key that a group is about to apply, and that removing the group will leave as it is now: it is
      not on the rule's record, and is absent or is not to be overridden by any of the operations. */
  predicate Restorable(
    m: Annotations, key: string, ops: seq<Operation>, ctx: Context, ruleID: string, resolution: string) {
    && key !in RecordedKeys(m, ruleID)
    && (key in m ==>
          && !ShouldOverride(resolution)
          && forall op | op in ops && op.key == key :: ProcessedValue(op, ctx) != m[key])
  }

  lemma {:induction false} PutsOfApplies(ops: seq<Operation>, ctx: Context, key: string, value: string)
    requires AllApply(ops, ctx)
    ensures L.Put(key, value) in EffectsOf(ops, ctx) <==>
      exists op :: op in ops && op.key == key && ProcessedValue(op, ctx) == value
  {
    if ops == [] {
    } else {
      assert ops[0] in ops;
      PutsOfApplies(ops[1..], ctx, key, value);
    }
  }

  /** What makes a key restorable is the same on the ledger. */
  lemma RestorableOnLedger(
    m: Annotations, key: string, ops: seq<Operation>, ctx: Context, ruleID: string, resolution: string)
    requires NamespacedID(ruleID) && AllApply(ops, ctx) && exists op :: op in ops && op.key == key
    ensures Restorable(m, key, ops, ctx, ruleID, resolution) <==>
      L.Undone(L.StateOf(Decode(m, ruleID), key), key, EffectsOf(ops, ctx), ShouldOverride(resolution))
  {
    var op :| op in ops && op.key == key;
    AcceptedIsPlain(ctx.validator, key);
    PlainIsNotTracking(key, ruleID);
    EffectsOfApplies(ops, ctx);
    if key in m {
      PutsOfApplies(ops, ctx, key, m[key]);
    }
  }

  /** Group remove undoes group apply exactly, whatever the order of the operations, repeated keys and
      "skip" included, if and only if every key is restorable. What else the rule had on record
      before stays on record. */
  lemma GroupRemoveUndoesGroupApplyExactly(
    m: Annotations, ops: seq<Operation>, ctx: Context, ruleID: string, resolution: string, keys: seq<string>)
    requires WellTracked(m, ruleID) && AllApply(ops, ctx)
    requires L.ListedSet(keys) == set op | op in ops :: op.key
    ensures AfterRemovals(AfterOperations(m, ops, ctx, ruleID, resolution), keys, ruleID) == m <==>
      forall k | k in keys :: Restorable(m, k, ops, ctx, ruleID, resolution)
  {
    var applied := AfterOperations(m, ops, ctx, ruleID, resolution);
    OperationsRefine(m, ops, ctx, ruleID, resolution);
    RemovalsRefine(applied, keys, ruleID);
    EffectsOfApplies(ops, ctx);
    L.RemoveUndoesPutsExactly(Decode(m, ruleID), EffectsOf(ops, ctx), ShouldOverride(resolution), keys);
    forall k | k in keys
      ensures k in L.PutKeys(EffectsOf(ops, ctx))
      ensures Restorable(m, k, ops, ctx, ruleID, resolution) <==>
        L.Undone(L.StateOf(Decode(m, ruleID), k), k, EffectsOf(ops, ctx), ShouldOverride(resolution))
    {
      assert k in L.ListedSet(keys);
      RestorableOnLedger(m, k, ops, ctx, ruleID, resolution);
    }
    assert forall k | k in L.PutKeys(EffectsOf(ops, ctx)) :: k in L.ListedSet(keys) && k in keys;
    if L.RemoveEach(L.PerformAll(Decode(m, ruleID), EffectsOf(ops, ctx), ShouldOverride(resolution)), keys) ==
      Decode(m, ruleID) {
      DecodeIsInjective(AfterRemovals(applied, keys, ruleID), m, ruleID);
    }
  }
}
