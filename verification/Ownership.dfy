/** Any number of rules writing to one resource: what each write may touch, over whole runs
    (internal/resource/manager.go). */
module Ownership {
  import opened Validator
  import opened Tracking
  import opened Wrappers
  import L = Ledgers
  import opened Engine

  /** A write that a rule commits on the annotations it has read. */
  datatype RuleStep =
    | LegacyApply(ruleID: string, annotations: map<string, string>, order: seq<string>)
    | LegacyRemove(ruleID: string, keys: seq<string>)
    | GroupApply(ruleID: string, ops: seq<Operation>, ctx: Context, resolution: string)
    | GroupRemove(ruleID: string, keys: seq<string>)
  {
    function Keys(): set<string> {
      match this
      case LegacyApply(_, annotations, _) => annotations.Keys
      case LegacyRemove(_, keys) => L.ListedSet(keys)
      case GroupApply(_, ops, _, _) => set op | op in ops :: op.key
      case GroupRemove(_, keys) => L.ListedSet(keys)
    }

    /** The keys that the step applies; the others of its keys it removes. */
    function AppliedKeys(): set<string> {
      match this
      case LegacyApply(_, annotations, _) => annotations.Keys
      case GroupApply(_, ops, ctx, _) =>
        set op | op in ops && ErrorOf(op, ctx) == None && ActionOf(op) == "apply" :: op.key
      case _ => {}
    }

    /** Legacy apply validates its keys first; a group skips each key it does not accept, and the
        removals take any keys. */
    predicate Allowed() {
      && NamespacedID(ruleID)
      && (LegacyApply? ==>
            annotations != map[] && L.ListedSet(order) == annotations.Keys && forall k | k in annotations :: Plain(k))
    }

    function After(m: Annotations): Annotations {
      match this
      case LegacyApply(_, annotations, order) => AfterApply(m, annotations, order, ruleID)
      case LegacyRemove(_, keys) => StoredByBatchRemoval(m, keys, ruleID)
      case GroupApply(_, ops, ctx, resolution) =>
        if Writes(ops, ctx) then AfterOperations(m, ops, ctx, ruleID, resolution) else m
      case GroupRemove(_, keys) => AfterRemovals(m, keys, ruleID)
    }

    /** The same write on the rule's ledger. */
    function OnLedger(l: L.Ledger): L.Ledger {
      match this
      case LegacyApply(_, annotations, order) => L.ApplyMap(l, annotations, order)
      case LegacyRemove(_, keys) => L.RemoveBatch(l, keys)
      case GroupApply(_, ops, ctx, resolution) =>
        if Writes(ops, ctx) then L.PerformAll(l, EffectsOf(ops, ctx), ShouldOverride(resolution)) else l
      case GroupRemove(_, keys) => L.RemoveEach(l, keys)
    }
  }

  function AfterAll(m: Annotations, steps: seq<RuleStep>): Annotations
    decreases steps
  {
    if steps == [] then m else AfterAll(steps[0].After(m), steps[1..])
  }

  /** Every rule's tracking entry is well formed. */
  ghost predicate Sound(m: Annotations) {
    forall id | NamespacedID(id) :: WellTracked(m, id)
  }

  lemma PlainOrder(annotations: map<string, string>, order: seq<string>)
    requires annotations != map[] && L.ListedSet(order) == annotations.Keys && forall k | k in annotations :: Plain(k)
    ensures order != [] && AllPlain(order)
  {
    assert forall k | k in order :: k in L.ListedSet(order);
    var k :| k in annotations;
    assert k in L.ListedSet(order);
  }

  lemma StepRefines(m: Annotations, step: RuleStep)
    requires WellTracked(m, step.ruleID) && step.Allowed()
    ensures WellTracked(step.After(m), step.ruleID)
    ensures Decode(step.After(m), step.ruleID) == step.OnLedger(Decode(m, step.ruleID))
  {
    match step
    case LegacyApply(id, annotations, order) =>
      PlainOrder(annotations, order);
      ApplyRefines(m, annotations, order, id);
    case LegacyRemove(id, keys) =>
      BatchRefines(m, keys, id);
    case GroupApply(id, ops, ctx, resolution) =>
      OperationsRefine(m, ops, ctx, id, resolution);
    case GroupRemove(id, keys) =>
      RemovalsRefine(m, keys, id);
  }

  /** The keys that a step may change: of its keys, those that it applies, and those on its rule's record. */
  function Reach(m: Annotations, step: RuleStep): set<string> {
    set k | k in step.Keys() && Plain(k) && (k in step.AppliedKeys() || k in RecordedKeys(m, step.ruleID))
  }

  /** Every effect of a group is on a plain key of one of its operations; a put, of one that applies. */
  lemma {:induction false} EffectKeysAreAccepted(ops: seq<Operation>, ctx: Context)
    ensures forall e | e in EffectsOf(ops, ctx) && !e.Nothing? ::
      && Plain(e.key)
      && exists op ::
        op in ops && op.key == e.key && ErrorOf(op, ctx) == None && (e.Put? ==> ActionOf(op) == "apply")
  {
    if ops == [] {
    } else {
      EffectKeysAreAccepted(ops[1..], ctx);
      var first := EffectOf(ops[0], ctx);
      assert ops[0] in ops;
      if ErrorOf(ops[0], ctx) == None {
        AcceptedIsPlain(ctx.validator, ops[0].key);
      }
      assert EffectsOf(ops, ctx) == [first] + EffectsOf(ops[1..], ctx);
    }
  }

  lemma GroupReaches(m: Annotations, ops: seq<Operation>, ctx: Context, ruleID: string, resolution: string)
    ensures L.ReachOf(Decode(m, ruleID), EffectsOf(ops, ctx)) <= Reach(m, GroupApply(ruleID, ops, ctx, resolution))
  {
    EffectKeysAreAccepted(ops, ctx);
  }

  lemma LedgerStepReaches(m: Annotations, step: RuleStep)
    requires WellTracked(m, step.ruleID) && step.Allowed()
    ensures var l := Decode(m, step.ruleID);
      && L.Reaches(l, step.OnLedger(l), Reach(m, step))
      && (L.Present(l) ==> L.Present(step.OnLedger(l)))
  {
    var l := Decode(m, step.ruleID);
    TrackedIsRecorded(m, step.ruleID);
    match step
    case LegacyApply(_, annotations, order) =>
      L.ApplyMapReaches(l, annotations, order);
    case LegacyRemove(_, keys) =>
      L.RemovalReaches(l, keys);
    case GroupApply(_, ops, ctx, resolution) =>
      L.PerformAllReaches(l, EffectsOf(ops, ctx), ShouldOverride(resolution));
      GroupReaches(m, ops, ctx, step.ruleID, resolution);
    case GroupRemove(_, keys) =>
      L.RemovalReaches(l, keys);
  }

  /** One write: it changes its rule's tracking entry and keys within its reach, and it keeps every
      tracking entry well formed. So a removal touches only keys on its own rule's record, also that of
      a group among applies; an apply touches only its keys, and no write another rule's entry. */
  lemma StepStaysInReach(m: Annotations, step: RuleStep)
    requires Sound(m) && step.Allowed()
    ensures Sound(step.After(m))
    ensures forall k :: k != TrackingKey(step.ruleID) && k !in Reach(m, step) ==> L.SameAt(m, step.After(m), k)
    ensures forall id :: NamespacedID(id) && id != step.ruleID ==>
      && L.SameAt(m, step.After(m), TrackingKey(id))
      && RecordedKeys(step.After(m), id) == RecordedKeys(m, id)
  {
    var after := step.After(m);
    var mine := TrackingKey(step.ruleID);
    StepRefines(m, step);
    LedgerStepReaches(m, step);
    forall k | k != mine && k !in Reach(m, step)
      ensures L.SameAt(m, after, k)
    {
      assert L.SameAt(m - {mine}, after - {mine}, k);
    }
    forall id | NamespacedID(id) && id != step.ruleID
      ensures L.SameAt(m, after, TrackingKey(id)) && RecordedKeys(after, id) == RecordedKeys(m, id)
        && WellTracked(after, id)
    {
      if TrackingKey(id) == mine {
        TrackingKeyInjective(id, step.ruleID);
      }
      if TrackingKey(id) in Reach(m, step) {
        PlainIsNotTracking(TrackingKey(id), id);
      }
      SameRecord(m, after, id);
    }
  }

  /** What the steps of a run reach, each at its moment, and the tracking entries of their rules. */
  function Reached(m: Annotations, steps: seq<RuleStep>): set<string>
    decreases steps
  {
    if steps == [] then {}
    else Reach(m, steps[0]) + {TrackingKey(steps[0].ruleID)} + Reached(steps[0].After(m), steps[1..])
  }

  /** Whole runs: tracking entries stay well formed, everything that no step reaches at its moment stays as
      it was, and the record of a rule that takes no step stays as it was. */
  lemma {:induction false} RunsKeepOwnership(m: Annotations, steps: seq<RuleStep>)
    requires Sound(m) && forall s | s in steps :: s.Allowed()
    ensures Sound(AfterAll(m, steps))
    ensures forall k :: k !in Reached(m, steps) ==> L.SameAt(m, AfterAll(m, steps), k)
    ensures forall id :: NamespacedID(id) && (forall s | s in steps :: s.ruleID != id) ==>
      L.SameAt(m, AfterAll(m, steps), TrackingKey(id))
    decreases steps
  {
    if steps == [] {
    } else {
      var next := steps[0].After(m);
      StepStaysInReach(m, steps[0]);
      RunsKeepOwnership(next, steps[1..]);
      forall k | k !in Reached(m, steps)
        ensures L.SameAt(m, AfterAll(m, steps), k)
      {
        assert L.SameAt(m, next, k) && L.SameAt(next, AfterAll(m, steps), k);
      }
      forall id | NamespacedID(id) && (forall s | s in steps :: s.ruleID != id)
        ensures L.SameAt(m, AfterAll(m, steps), TrackingKey(id))
      {
        assert steps[0].ruleID != id;
        assert L.SameAt(m, next, TrackingKey(id)) && L.SameAt(next, AfterAll(m, steps), TrackingKey(id));
      }
    }
  }

  /* Rules with disjoint keys. */

  ghost predicate Disjoint(keysOf: string -> set<string>) {
    forall a, b | a != b :: keysOf(a) !! keysOf(b)
  }

  /** Every rule's recorded keys are its own and are present. */
  ghost predicate TrackedArePresent(m: Annotations, keysOf: string -> set<string>) {
    forall id | NamespacedID(id) :: forall k | k in RecordedKeys(m, id) :: k in m && k in keysOf(id)
  }

  lemma StepKeepsTrackedPresent(m: Annotations, step: RuleStep, keysOf: string -> set<string>)
    requires Sound(m) && step.Allowed() && Disjoint(keysOf) && step.Keys() <= keysOf(step.ruleID)
    requires TrackedArePresent(m, keysOf)
    ensures TrackedArePresent(step.After(m), keysOf)
  {
    var after := step.After(m);
    var me := step.ruleID;
    StepStaysInReach(m, step);
    StepRefines(m, step);
    LedgerStepReaches(m, step);
    TrackedIsRecorded(m, me);
    assert L.Present(Decode(m, me));
    forall id, k | NamespacedID(id) && k in RecordedKeys(after, id)
      ensures k in after && k in keysOf(id)
    {
      if id == me {
        assert k in Decode(after, me).values;
      } else {
        TrackedIsRecorded(m, id);
        PlainIsNotTracking(k, me);
        assert keysOf(id) !! keysOf(me);
        assert L.SameAt(m, after, k);
      }
    }
  }

  /** Over any run of rules with disjoint keys, every tracked key stays present. */
  lemma {:induction false} RunsKeepTrackedPresent(m: Annotations, steps: seq<RuleStep>, keysOf: string -> set<string>)
    requires Sound(m) && Disjoint(keysOf) && TrackedArePresent(m, keysOf)
    requires forall s | s in steps :: s.Allowed() && s.Keys() <= keysOf(s.ruleID)
    ensures Sound(AfterAll(m, steps)) && TrackedArePresent(AfterAll(m, steps), keysOf)
    decreases steps
  {
    if steps == [] {
    } else {
      StepStaysInReach(m, steps[0]);
      StepKeepsTrackedPresent(m, steps[0], keysOf);
      RunsKeepTrackedPresent(steps[0].After(m), steps[1..], keysOf);
    }
  }

  /* Steps of different rules commute. */

  function PlainKeys(step: RuleStep): set<string> {
    set k | k in step.Keys() && Plain(k)
  }

  lemma LedgerStepIsLocal(a: Annotations, b: Annotations, step: RuleStep)
    requires WellTracked(a, step.ruleID) && WellTracked(b, step.ruleID) && step.Allowed()
    requires L.Alike(Decode(a, step.ruleID), Decode(b, step.ruleID), PlainKeys(step))
    ensures L.Alike(step.OnLedger(Decode(a, step.ruleID)), step.OnLedger(Decode(b, step.ruleID)), PlainKeys(step))
  {
    var la, lb := Decode(a, step.ruleID), Decode(b, step.ruleID);
    TrackedIsRecorded(a, step.ruleID);
    match step
    case LegacyApply(_, annotations, order) =>
    case LegacyRemove(_, keys) =>
      L.RemovalIsLocal(la, lb, keys, PlainKeys(step));
    case GroupApply(_, ops, ctx, resolution) =>
      EffectKeysAreAccepted(ops, ctx);
      assert L.EffectKeys(EffectsOf(ops, ctx)) <= PlainKeys(step);
      L.PerformAllIsLocal(la, lb, EffectsOf(ops, ctx), ShouldOverride(resolution), PlainKeys(step));
    case GroupRemove(_, keys) =>
      L.RemovalIsLocal(la, lb, keys, PlainKeys(step));
  }

  /** All that a write reads, and all that it changes, is its tracking entry and its plain keys. */
  lemma StepIsLocal(a: Annotations, b: Annotations, step: RuleStep)
    requires Sound(a) && Sound(b) && step.Allowed()
    requires L.SameAt(a, b, TrackingKey(step.ruleID)) && forall k | k in PlainKeys(step) :: L.SameAt(a, b, k)
    ensures L.SameAt(step.After(a), step.After(b), TrackingKey(step.ruleID))
    ensures forall k | k in PlainKeys(step) :: L.SameAt(step.After(a), step.After(b), k)
  {
    var mine := TrackingKey(step.ruleID);
    var afterA, afterB := step.After(a), step.After(b);
    SameRecord(a, b, step.ruleID);
    forall k | k in PlainKeys(step)
      ensures k != mine && L.SameAt(a - {mine}, b - {mine}, k)
    {
      PlainIsNotTracking(k, step.ruleID);
      assert L.SameAt(a, b, k);
    }
    LedgerStepIsLocal(a, b, step);
    StepRefines(a, step);
    StepRefines(b, step);
    forall k | k in PlainKeys(step)
      ensures L.SameAt(afterA, afterB, k)
    {
      assert L.SameAt(afterA - {mine}, afterB - {mine}, k);
    }
    SameEntry(afterA, afterB, step.ruleID);
  }

  lemma SameEntry(a: Annotations, b: Annotations, ruleID: string)
    requires WellTracked(a, ruleID) && WellTracked(b, ruleID) && RecordedKeys(a, ruleID) == RecordedKeys(b, ruleID)
    ensures L.SameAt(a, b, TrackingKey(ruleID))
  {
  }

  /** Writes of two rules with disjoint keys commute exactly. */
  lemma StepsCommute(m: Annotations, s: RuleStep, t: RuleStep)
    requires Sound(m) && s.Allowed() && t.Allowed() && s.ruleID != t.ruleID && s.Keys() !! t.Keys()
    ensures t.After(s.After(m)) == s.After(t.After(m))
  {
    var st, ts := t.After(s.After(m)), s.After(t.After(m));
    forall k
      ensures L.SameAt(st, ts, k)
    {
      if InFootprint(k, s) {
        FirstDecides(m, s, t, k);
      } else if InFootprint(k, t) {
        FirstDecides(m, t, s, k);
      } else {
        OutOfFootprints(m, s, t, k);
        OutOfFootprints(m, t, s, k);
      }
    }
    L.SameEverywhere(st, ts);
  }

  lemma OutOfFootprints(m: Annotations, s: RuleStep, t: RuleStep, k: string)
    requires Sound(m) && s.Allowed() && t.Allowed() && !InFootprint(k, s) && !InFootprint(k, t)
    ensures L.SameAt(m, t.After(s.After(m)), k)
  {
    StepStaysInReach(m, s);
    StepStaysInReach(s.After(m), t);
    assert L.SameAt(m, s.After(m), k) && L.SameAt(s.After(m), t.After(s.After(m)), k);
  }

  predicate InFootprint(k: string, step: RuleStep) {
    k == TrackingKey(step.ruleID) || k in PlainKeys(step)
  }

  lemma FootprintsAreApart(s: RuleStep, t: RuleStep, k: string)
    requires s.Allowed() && t.Allowed() && s.ruleID != t.ruleID && s.Keys() !! t.Keys()
    requires InFootprint(k, s)
    ensures !InFootprint(k, t)
  {
    if k == TrackingKey(s.ruleID) {
      if k == TrackingKey(t.ruleID) {
        TrackingKeyInjective(s.ruleID, t.ruleID);
      } else if k in PlainKeys(t) {
        PlainIsNotTracking(k, s.ruleID);
      }
    } else if k == TrackingKey(t.ruleID) {
      PlainIsNotTracking(k, t.ruleID);
    }
  }

  /** Within a step's footprint, a step of another rule before or after it makes no difference. */
  lemma FirstDecides(m: Annotations, s: RuleStep, t: RuleStep, k: string)
    requires Sound(m) && s.Allowed() && t.Allowed() && s.ruleID != t.ruleID && s.Keys() !! t.Keys()
    requires InFootprint(k, s)
    ensures L.SameAt(t.After(s.After(m)), s.After(t.After(m)), k)
  {
    StepStaysInReach(m, s);
    StepStaysInReach(m, t);
    StepStaysInReach(s.After(m), t);
    FootprintsAreApart(s, t, k);
    assert L.SameAt(s.After(m), t.After(s.After(m)), k);
    forall x | InFootprint(x, s)
      ensures L.SameAt(m, t.After(m), x)
    {
      FootprintsAreApart(s, t, x);
    }
    StepIsLocal(m, t.After(m), s);
    assert L.SameAt(s.After(m), s.After(t.After(m)), k);
  }
}
