/** What the resource manager does to one resource's annotations, as functions on the map
    (internal/resource/manager.go). A nil annotation map is the empty map. */
module Engine {
  import opened GoStrings
  import opened Validator
  import opened Tracking
  import opened Wrappers
  import opened Ledgers
  import Template

  /* The tracking entry. */

  function TrimAll(keys: seq<string>): (trimmed: seq<string>)
    ensures |trimmed| == |keys| && forall i | 0 <= i < |keys| :: trimmed[i] == TrimSpace(keys[i])
  {
    seq(|keys|, i requires 0 <= i < |keys| => TrimSpace(keys[i]))
  }

  /** The map with the rule's tracking entry set to a list, or deleted if the list is empty. */
  function Record(m: Annotations, ruleID: string, keys: seq<string>): Annotations {
    if keys == [] then m - {TrackingKey(ruleID)} else m[TrackingKey(ruleID) := FormatList(keys)]
  }

  /** trackAnnotationApplication */
  function Track(m: Annotations, key: string, ruleID: string): Annotations {
    if AppliedBy(m, key, ruleID) then m else Record(m, ruleID, RecordedKeys(m, ruleID) + [key])
  }

  /** untrackAnnotationApplication */
  function Untrack(m: Annotations, key: string, ruleID: string): Annotations {
    if RecordedKeys(m, ruleID) == [] then m
    else Record(m, ruleID, Without(TrimAll(RecordedKeys(m, ruleID)), {key}))
  }

  /* Group operations. */

  datatype Operation = Operation(key: string, value: string, template: bool, action: string, priority: int)

  /** What an operation is checked and expanded with: the key policy, the value check, and the
      template variables of the resource. */
  datatype Context = Context(
    validator: AnnotationValidator, valueAllowed: string -> bool, variables: Template.Variables)

  datatype OperationError = InvalidKey | InvalidValue | UnknownAction | UpdateFailed

  datatype OperationResult = OperationResult(
    key: string, priority: int, success: bool, skipped: bool, error: Option<OperationError>,
    oldValue: string, newValue: string)

  function ProcessedValue(op: Operation, ctx: Context): string {
    if op.template && Template.IsTemplate(op.value) then Template.Processed(op.value, ctx.variables) else op.value
  }

  function ActionOf(op: Operation): string {
    if op.action == "" then "apply" else op.action
  }

  /** The error of an operation depends on the operation alone, not on the annotations. */
  function ErrorOf(op: Operation, ctx: Context): Option<OperationError> {
    if !ctx.validator.Accepts(op.key) then Some(InvalidKey)
    else if !ctx.valueAllowed(ProcessedValue(op, ctx)) then Some(InvalidValue)
    else if ActionOf(op) !in {"apply", "remove"} then Some(UnknownAction)
    else None
  }

  predicate ShouldOverride(resolution: string) {
    resolution != "skip"
  }

  /** What an operation comes down to. */
  function EffectOf(op: Operation, ctx: Context): Effect {
    if ErrorOf(op, ctx).Some? then Nothing
    else if ActionOf(op) == "apply" then Put(op.key, ProcessedValue(op, ctx))
    else Delete(op.key)
  }

  function EffectsOf(ops: seq<Operation>, ctx: Context): seq<Effect> {
    if ops == [] then [] else [EffectOf(ops[0], ctx)] + EffectsOf(ops[1..], ctx)
  }

  /** applyAnnotationOperation: the new annotations. */
  function AfterOperation(
    m: Annotations, op: Operation, ctx: Context, ruleID: string, resolution: string): Annotations {
    if ErrorOf(op, ctx).Some? then m
    else if ActionOf(op) == "apply" then
      var value := ProcessedValue(op, ctx);
      if op.key in m && m[op.key] != value && !ShouldOverride(resolution) then m
      else Track(m[op.key := value], op.key, ruleID)
    else
      if op.key in m && AppliedBy(m, op.key, ruleID) then Untrack(m - {op.key}, op.key, ruleID) else m
  }

  /** ... and what is reported. */
  function ResultOf(m: Annotations, op: Operation, ctx: Context, ruleID: string, resolution: string): OperationResult {
    var previous :=
      if ErrorOf(op, ctx) in {Some(InvalidKey), Some(InvalidValue)} || op.key !in m then "" else m[op.key];
    if ErrorOf(op, ctx).Some? then OperationResult(op.key, op.priority, false, false, ErrorOf(op, ctx), previous, "")
    else if ActionOf(op) == "apply" then
      var value := ProcessedValue(op, ctx);
      if op.key in m && m[op.key] != value && !ShouldOverride(resolution) then
        OperationResult(op.key, op.priority, true, true, None, previous, "")
      else
        OperationResult(op.key, op.priority, true, false, None, previous, value)
    else
      OperationResult(op.key, op.priority, true, !(op.key in m && AppliedBy(m, op.key, ruleID)), None, previous, "")
  }

  function AfterOperations(
    m: Annotations, ops: seq<Operation>, ctx: Context, ruleID: string, resolution: string): Annotations
    decreases ops
  {
    if ops == [] then m
    else AfterOperations(AfterOperation(m, ops[0], ctx, ruleID, resolution), ops[1..], ctx, ruleID, resolution)
  }

  lemma {:induction false} OneMoreOperation(
    m: Annotations, ops: seq<Operation>, op: Operation, ctx: Context, ruleID: string, resolution: string)
    ensures AfterOperations(m, ops + [op], ctx, ruleID, resolution)
         == AfterOperation(AfterOperations(m, ops, ctx, ruleID, resolution), op, ctx, ruleID, resolution)
    decreases ops
  {
    if ops == [] {
      assert [] + [op] == [op] && [op][1..] == [];
    } else {
      assert (ops + [op])[0] == ops[0] && (ops + [op])[1..] == ops[1..] + [op];
      OneMoreOperation(AfterOperation(m, ops[0], ctx, ruleID, resolution), ops[1..], op, ctx, ruleID, resolution);
    }
  }

  predicate AllSucceed(ops: seq<Operation>, ctx: Context) {
    forall op | op in ops :: ErrorOf(op, ctx) == None
  }

  predicate AllApply(ops: seq<Operation>, ctx: Context) {
    forall op | op in ops :: ErrorOf(op, ctx) == None && ActionOf(op) == "apply"
  }

  /** applyAnnotationOperationsToResource writes only if there is an operation and none failed. */
  predicate Writes(ops: seq<Operation>, ctx: Context) {
    ops != [] && AllSucceed(ops, ctx)
  }

  /* Legacy apply and the two removals. */

  /** applyAnnotationsToResource, when the rule's map is iterated in the given order. */
  function AfterApply(
    m: Annotations, annotations: map<string, string>, order: seq<string>, ruleID: string): Annotations {
    if order == [] then m + annotations else Record(m + annotations, ruleID, order)
  }

  predicate IsOrderOf(order: seq<string>, keys: set<string>) {
    && (set k | k in order) == keys
    && (forall i, j | 0 <= i < j < |order| :: order[i] != order[j])
  }

  /** The listed keys that a removal deletes. */
  function RemovableKeys(m: Annotations, keys: seq<string>, ruleID: string): set<string> {
    set k | k in keys && k in m && AppliedBy(m, k, ruleID)
  }

  /** removeAnnotationsFromResource: the map it builds ... */
  function AfterBatchRemoval(m: Annotations, keys: seq<string>, ruleID: string): Annotations {
    var rest := m - RemovableKeys(m, keys, ruleID);
    if RecordedKeys(m, ruleID) == [] then rest
    else Record(rest, ruleID, Without(TrimAll(RecordedKeys(m, ruleID)), ListedSet(keys)))
  }

  /** ... which it stores only if it deleted a key. */
  function StoredByBatchRemoval(m: Annotations, keys: seq<string>, ruleID: string): Annotations {
    if RemovableKeys(m, keys, ruleID) == {} then m else AfterBatchRemoval(m, keys, ruleID)
  }

  /** removeAnnotationKeysFromResource: one key at a time, rewriting the tracking entry at each. */
  function AfterRemovals(m: Annotations, keys: seq<string>, ruleID: string): Annotations
    decreases keys
  {
    if keys == [] then m
    else
      var k := keys[0];
      AfterRemovals(if AppliedBy(m, k, ruleID) && k in m then Untrack(m - {k}, k, ruleID) else m, keys[1..], ruleID)
  }

  /* The text encoding, and the ledger behind it. */

  /** The tracking entry is absent, or is what the engine writes for some list of plain keys. */
  predicate WellTracked(m: Annotations, ruleID: string) {
    && NamespacedID(ruleID)
    && (TrackingKey(ruleID) in m ==>
          && RecordedKeys(m, ruleID) != []
          && AllPlain(RecordedKeys(m, ruleID))
          && m[TrackingKey(ruleID)] == FormatList(RecordedKeys(m, ruleID)))
  }

  function Decode(m: Annotations, ruleID: string): Ledger {
    Ledger(m - {TrackingKey(ruleID)}, RecordedKeys(m, ruleID))
  }

  /** Recording a list of plain keys writes a well-formed entry that reads back as the list. */
  lemma RecordDecodes(m: Annotations, ruleID: string, keys: seq<string>)
    requires NamespacedID(ruleID) && AllPlain(keys)
    ensures WellTracked(Record(m, ruleID, keys), ruleID)
    ensures Decode(Record(m, ruleID, keys), ruleID) == Ledger(m - {TrackingKey(ruleID)}, keys)
  {
    CleanRoundTrip(keys);
    var tracking := TrackingKey(ruleID);
    assert Record(m, ruleID, keys) - {tracking} == m - {tracking};
  }

  /** Well-formed annotations are determined by their ledger. */
  lemma DecodeIsInjective(a: Annotations, b: Annotations, ruleID: string)
    requires WellTracked(a, ruleID) && WellTracked(b, ruleID) && Decode(a, ruleID) == Decode(b, ruleID)
    ensures a == b
  {
    var tracking := TrackingKey(ruleID);
    forall k | k != tracking
      ensures k in a <==> k in b
      ensures k in a ==> a[k] == b[k]
    {
      assert k in a <==> k in a - {tracking};
      assert k in b <==> k in b - {tracking};
    }
    assert tracking in a <==> RecordedKeys(a, ruleID) != [];
    assert tracking in b <==> RecordedKeys(b, ruleID) != [];
  }

  /** Reading a well-formed entry: the trimmed keys are the recorded ones. */
  lemma TrackedIsRecorded(m: Annotations, ruleID: string)
    requires WellTracked(m, ruleID)
    ensures AllPlain(RecordedKeys(m, ruleID))
    ensures forall k :: AppliedBy(m, k, ruleID) <==> k in RecordedKeys(m, ruleID)
    ensures TrimAll(RecordedKeys(m, ruleID)) == RecordedKeys(m, ruleID)
    ensures TrackingKey(ruleID) !in RecordedKeys(m, ruleID)
  {
    var recorded := RecordedKeys(m, ruleID);
    forall k | k in recorded
      ensures Plain(k) && TrimSpace(k) == k && k != TrackingKey(ruleID)
    {
      CleanIsTrimmed(k);
      PlainIsNotTracking(k, ruleID);
    }
  }

  /** A change to entries other than the tracking entry leaves the record. */
  lemma SameRecord(m: Annotations, n: Annotations, ruleID: string)
    requires TrackingKey(ruleID) in m <==> TrackingKey(ruleID) in n
    requires TrackingKey(ruleID) in m ==> m[TrackingKey(ruleID)] == n[TrackingKey(ruleID)]
    ensures RecordedKeys(m, ruleID) == RecordedKeys(n, ruleID)
    ensures WellTracked(m, ruleID) ==> WellTracked(n, ruleID)
  {
  }

  /** The text of the tracking entry: a first key stands alone in brackets, and each further one behind a space. */
  lemma TrackWritesText(m: Annotations, key: string, ruleID: string)
    requires WellTracked(m, ruleID) && !AppliedBy(m, key, ruleID)
    ensures var tracking := "scheduler.k8s.io/rule-" + ruleID + "-annotations"; var after := Track(m, key, ruleID);
      && tracking in after
      && after[tracking] ==
         if tracking in m then m[tracking][..|m[tracking]| - 1] + " " + key + "]" else "[" + key + "]"
  {
    var tracking, recorded := TrackingKey(ruleID), RecordedKeys(m, ruleID);
    assert tracking == "scheduler.k8s.io/rule-" + ruleID + "-annotations";
    JoinGrows(recorded, key, ' ');
    if tracking in m {
      assert m[tracking][..|m[tracking]| - 1] == "[" + Join(recorded, ' ');
    } else {
      assert recorded + [key] == [key];
    }
  }

  lemma TrackRefines(m: Annotations, key: string, value: string, ruleID: string)
    requires WellTracked(m, ruleID) && Plain(key)
    ensures var after := Track(m[key := value], key, ruleID);
      WellTracked(after, ruleID) && Decode(after, ruleID) == Perform(Decode(m, ruleID), Put(key, value), true)
  {
    PlainIsNotTracking(key, ruleID);
    var written := m[key := value];
    SameRecord(m, written, ruleID);
    TrackedIsRecorded(written, ruleID);
    var tracking := TrackingKey(ruleID);
    assert written - {tracking} == (m - {tracking})[key := value];
    if key !in RecordedKeys(m, ruleID) {
      RecordDecodes(written, ruleID, RecordedKeys(m, ruleID) + [key]);
    }
  }

  lemma UntrackRefines(m: Annotations, key: string, ruleID: string)
    requires WellTracked(m, ruleID) && key in m && key in RecordedKeys(m, ruleID)
    ensures var after := Untrack(m - {key}, key, ruleID);
      WellTracked(after, ruleID) && Decode(after, ruleID) == Perform(Decode(m, ruleID), Delete(key), true)
  {
    TrackedIsRecorded(m, ruleID);
    SameRecord(m, m - {key}, ruleID);
    var recorded := RecordedKeys(m, ruleID);
    WithoutMembers(recorded, {key});
    RecordDecodes(m - {key}, ruleID, Without(recorded, {key}));
    assert m - {key} - {TrackingKey(ruleID)} == m - {TrackingKey(ruleID)} - {key};
  }

  /** One operation on the text-encoded annotations performs its effect on the ledger. */
  lemma OperationRefines(m: Annotations, op: Operation, ctx: Context, ruleID: string, resolution: string)
    requires WellTracked(m, ruleID)
    ensures var after := AfterOperation(m, op, ctx, ruleID, resolution);
      && WellTracked(after, ruleID)
      && Decode(after, ruleID) == Perform(Decode(m, ruleID), EffectOf(op, ctx), ShouldOverride(resolution))
  {
    if ErrorOf(op, ctx) == None {
      AcceptedIsPlain(ctx.validator, op.key);
      if ActionOf(op) == "apply" {
        ApplyingRefines(m, op.key, ProcessedValue(op, ctx), ruleID, ShouldOverride(resolution));
      } else {
        RemovingRefines(m, op.key, ruleID, ShouldOverride(resolution));
      }
    }
  }

  lemma ApplyingRefines(m: Annotations, key: string, value: string, ruleID: string, override: bool)
    requires WellTracked(m, ruleID) && Plain(key)
    ensures var after := if key in m && m[key] != value && !override then m else Track(m[key := value], key, ruleID);
      WellTracked(after, ruleID) && Decode(after, ruleID) == Perform(Decode(m, ruleID), Put(key, value), override)
  {
    PlainIsNotTracking(key, ruleID);
    TrackRefines(m, key, value, ruleID);
  }

  lemma RemovingRefines(m: Annotations, key: string, ruleID: string, override: bool)
    requires WellTracked(m, ruleID) && Plain(key)
    ensures var after := if key in m && AppliedBy(m, key, ruleID) then Untrack(m - {key}, key, ruleID) else m;
      WellTracked(after, ruleID) && Decode(after, ruleID) == Perform(Decode(m, ruleID), Delete(key), override)
  {
    PlainIsNotTracking(key, ruleID);
    TrackedIsRecorded(m, ruleID);
    if key in m && AppliedBy(m, key, ruleID) {
      UntrackRefines(m, key, ruleID);
    }
  }

  lemma {:induction false} OperationsRefine(
    m: Annotations, ops: seq<Operation>, ctx: Context, ruleID: string, resolution: string)
    requires WellTracked(m, ruleID)
    ensures var after := AfterOperations(m, ops, ctx, ruleID, resolution);
      && WellTracked(after, ruleID)
      && Decode(after, ruleID) == PerformAll(Decode(m, ruleID), EffectsOf(ops, ctx), ShouldOverride(resolution))
    decreases ops
  {
    if ops == [] {
    } else {
      OperationRefines(m, ops[0], ctx, ruleID, resolution);
      OperationsRefine(AfterOperation(m, ops[0], ctx, ruleID, resolution), ops[1..], ctx, ruleID, resolution);
      assert EffectsOf(ops, ctx)[1..] == EffectsOf(ops[1..], ctx);
    }
  }

  lemma ApplyRefines(m: Annotations, annotations: map<string, string>, order: seq<string>, ruleID: string)
    requires NamespacedID(ruleID) && AllPlain(order) && order != [] && ListedSet(order) == annotations.Keys
    ensures var after := AfterApply(m, annotations, order, ruleID);
      WellTracked(after, ruleID) && Decode(after, ruleID) == ApplyMap(Decode(m, ruleID), annotations, order)
  {
    var tracking := TrackingKey(ruleID);
    assert tracking !in annotations by {
      if tracking in annotations {
        assert tracking in ListedSet(order);
        PlainIsNotTracking(tracking, ruleID);
      }
    }
    RecordDecodes(m + annotations, ruleID, order);
    assert m + annotations - {tracking} == m - {tracking} + annotations;
  }

  lemma BatchRefines(m: Annotations, keys: seq<string>, ruleID: string)
    requires WellTracked(m, ruleID)
    ensures var after := StoredByBatchRemoval(m, keys, ruleID);
      WellTracked(after, ruleID) && Decode(after, ruleID) == RemoveBatch(Decode(m, ruleID), keys)
    ensures RemovableKeys(m, keys, ruleID) == Removable(Decode(m, ruleID), keys)
  {
    TrackedIsRecorded(m, ruleID);
    var tracking := TrackingKey(ruleID);
    var recorded := RecordedKeys(m, ruleID);
    var gone := RemovableKeys(m, keys, ruleID);
    assert gone == Removable(Decode(m, ruleID), keys);
    if gone != {} {
      WithoutMembers(recorded, ListedSet(keys));
      RecordDecodes(m - gone, ruleID, Without(recorded, ListedSet(keys)));
      assert m - gone - {tracking} == m - {tracking} - gone;
    }
  }

  lemma {:induction false} RemovalsRefine(m: Annotations, keys: seq<string>, ruleID: string)
    requires WellTracked(m, ruleID)
    ensures var after := AfterRemovals(m, keys, ruleID);
      WellTracked(after, ruleID) && Decode(after, ruleID) == RemoveEach(Decode(m, ruleID), keys)
    decreases keys
  {
    if keys == [] {
    } else {
      TrackedIsRecorded(m, ruleID);
      var k := keys[0];
      if AppliedBy(m, k, ruleID) && k in m {
        UntrackRefines(m, k, ruleID);
        RemovalsRefine(Untrack(m - {k}, k, ruleID), keys[1..], ruleID);
      } else {
        RemovalsRefine(m, keys[1..], ruleID);
      }
    }
  }
}
