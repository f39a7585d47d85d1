/** Group operations are sorted by priority with an unstable sort before they are applied
    (internal/resource/manager.go): what depends on the order that the sort happens to produce, and
    which operation on a repeated key decides. */
module GroupOrder {
  import opened Tracking
  import opened Wrappers
  import opened Ledgers
  import opened Engine
  import opened OperationLaws

  /** No operation comes before one of higher priority. */
  ghost predicate Descending(ops: seq<Operation>) {
    forall i, j | 0 <= i < j < |ops| :: ops[i].priority >= ops[j].priority
  }

  /** What sort.Slice with the source's comparison may return. */
  ghost predicate MaySortTo(ops: seq<Operation>, sorted: seq<Operation>) {
    multiset(sorted) == multiset(ops) && Descending(sorted)
  }

  ghost predicate AllSorts(ops: seq<Operation>, sorts: seq<seq<Operation>>) {
    forall i | 0 <= i < |sorts| :: MaySortTo(ops, sorts[i])
  }

  /** No two different operations on one key have the same priority. */
  predicate PrioritiesDecide(ops: seq<Operation>) {
    forall x, y | x in ops && y in ops && x.key == y.key && x.priority == y.priority :: x == y
  }

  function OperationsOn(key: string, ops: seq<Operation>): seq<Operation> {
    if ops == [] then []
    else (if ops[0].key == key then [ops[0]] else []) + OperationsOn(key, ops[1..])
  }

  lemma {:induction false} OperationsOnAreSelected(key: string, ops: seq<Operation>)
    ensures forall x :: multiset(OperationsOn(key, ops))[x] == if x.key == key then multiset(ops)[x] else 0
  {
    if ops == [] {
    } else {
      assert ops == [ops[0]] + ops[1..];
      OperationsOnAreSelected(key, ops[1..]);
    }
  }

  lemma {:induction false} OperationsOnAreDescending(key: string, ops: seq<Operation>)
    requires Descending(ops)
    ensures Descending(OperationsOn(key, ops))
    ensures forall op :: op in OperationsOn(key, ops) <==> op in ops && op.key == key
  {
    if ops == [] {
    } else {
      OperationsOnAreDescending(key, ops[1..]);
    }
  }

  predicate DistinctPriorities(ops: seq<Operation>) {
    forall x, y | x in ops && y in ops && x.priority == y.priority :: x == y
  }

  /** Descending arrangements of the same operations are equal when priorities decide. */
  lemma {:induction false} DescendingIsUnique(a: seq<Operation>, b: seq<Operation>)
    requires multiset(a) == multiset(b) && Descending(a) && Descending(b) && DistinctPriorities(a)
    ensures a == b
    decreases |a|
  {
    SameSize(a, b);
    if a == [] {
    } else {
      SameHeads(a, b);
      SameTails(a, b);
      TailIsDescending(a);
      TailIsDescending(b);
      DescendingIsUnique(a[1..], b[1..]);
      assert a == [a[0]] + a[1..] && b == [b[0]] + b[1..];
    }
  }

  lemma SameSize(a: seq<Operation>, b: seq<Operation>)
    requires multiset(a) == multiset(b)
    ensures |a| == |b|
  {
    assert |a| == |multiset(a)| && |b| == |multiset(b)|;
  }

  lemma SameTails(a: seq<Operation>, b: seq<Operation>)
    requires a != [] && b != [] && a[0] == b[0] && multiset(a) == multiset(b)
    ensures multiset(a[1..]) == multiset(b[1..])
  {
    TailOf(a);
    TailOf(b);
  }

  lemma TailOf(a: seq<Operation>)
    requires a != []
    ensures multiset(a[1..]) == multiset(a) - multiset{a[0]}
  {
    assert a == [a[0]] + a[1..];
  }

  lemma TailIsDescending(a: seq<Operation>)
    requires a != [] && Descending(a)
    ensures Descending(a[1..]) && (DistinctPriorities(a) ==> DistinctPriorities(a[1..]))
  {
  }

  lemma SameHeads(a: seq<Operation>, b: seq<Operation>)
    requires a != [] && b != [] && multiset(a) == multiset(b) && Descending(a) && Descending(b) && DistinctPriorities(a)
    ensures a[0] == b[0]
  {
    assert a[0] in multiset(b) && b[0] in multiset(a);
    assert a[0] in b && b[0] in a;
  }

  /** A key's state moves only with the operations on that key. */
  lemma {:induction false} OtherOperationsDoNotMatter(
    s: KeyState, key: string, ops: seq<Operation>, ctx: Context, override: bool)
    ensures Steps(s, key, EffectsOf(ops, ctx), override) ==
            Steps(s, key, EffectsOf(OperationsOn(key, ops), ctx), override)
    decreases ops
  {
    if ops == [] {
    } else {
      var next := Step(s, key, EffectOf(ops[0], ctx), override);
      var on := OperationsOn(key, ops[1..]);
      OtherOperationsDoNotMatter(next, key, ops[1..], ctx, override);
      assert EffectsOf(ops, ctx)[1..] == EffectsOf(ops[1..], ctx);
      if ops[0].key == key {
        assert OperationsOn(key, ops)[1..] == on;
        assert EffectsOf(OperationsOn(key, ops), ctx)[1..] == EffectsOf(on, ctx);
      } else {
        assert OperationsOn(key, ops) == on;
      }
    }
  }

  lemma SortedStatesAgree(
    l: Ledger, ops: seq<Operation>, a: seq<Operation>, b: seq<Operation>, ctx: Context, override: bool, key: string)
    requires MaySortTo(ops, a) && MaySortTo(ops, b) && PrioritiesDecide(ops)
    ensures StateOf(PerformAll(l, EffectsOf(a, ctx), override), key) ==
            StateOf(PerformAll(l, EffectsOf(b, ctx), override), key)
  {
    SameOperations(ops, a);
    OperationsOnAreSelected(key, a);
    OperationsOnAreSelected(key, b);
    OperationsOnAreDescending(key, a);
    OperationsOnAreDescending(key, b);
    DescendingIsUnique(OperationsOn(key, a), OperationsOn(key, b));
    OtherOperationsDoNotMatter(StateOf(l, key), key, a, ctx, override);
    OtherOperationsDoNotMatter(StateOf(l, key), key, b, ctx, override);
    PerformAllIsSteps(l, EffectsOf(a, ctx), override, key);
    PerformAllIsSteps(l, EffectsOf(b, ctx), override, key);
  }

  lemma SameOperations(ops: seq<Operation>, sorted: seq<Operation>)
    requires multiset(sorted) == multiset(ops)
    ensures forall op :: op in sorted <==> op in ops
    ensures sorted == [] <==> ops == []
  {
    assert forall op :: op in sorted <==> op in multiset(sorted);
    assert forall op :: op in ops <==> op in multiset(ops);
    assert |multiset(ops)| == |ops| && |multiset(sorted)| == |sorted|;
  }

  /** Whatever order the sort produces: the same values, the same set of tracked keys, and the same
      decision to write. */
  lemma AnySortGivesTheSameResult(
    m: Annotations, ops: seq<Operation>, a: seq<Operation>, b: seq<Operation>,
    ctx: Context, ruleID: string, resolution: string)
    requires WellTracked(m, ruleID) && MaySortTo(ops, a) && MaySortTo(ops, b) && PrioritiesDecide(ops)
    ensures Writes(a, ctx) == Writes(b, ctx) == Writes(ops, ctx)
    ensures var afterA := AfterOperations(m, a, ctx, ruleID, resolution);
      var afterB := AfterOperations(m, b, ctx, ruleID, resolution);
      && afterA - {TrackingKey(ruleID)} == afterB - {TrackingKey(ruleID)}
      && forall k :: k in RecordedKeys(afterA, ruleID) <==> k in RecordedKeys(afterB, ruleID)
  {
    SameOperations(ops, a);
    SameOperations(ops, b);
    OperationsRefine(m, a, ctx, ruleID, resolution);
    OperationsRefine(m, b, ctx, ruleID, resolution);
    var l, override := Decode(m, ruleID), ShouldOverride(resolution);
    forall k {
      SortedStatesAgree(l, ops, a, b, ctx, override, k);
    }
    SameStates(PerformAll(l, EffectsOf(a, ctx), override), PerformAll(l, EffectsOf(b, ctx), override));
  }

  /* Repeated keys. */

  lemma {:induction false} StepsOfApplies(s: KeyState, key: string, ops: seq<Operation>, ctx: Context, override: bool)
    requires ops != [] && AllApply(ops, ctx) && forall op | op in ops :: op.key == key
    ensures Steps(s, key, EffectsOf(ops, ctx), override).value ==
      if override then Some(ProcessedValue(ops[|ops| - 1], ctx))
      else if s.value.Some? then s.value
      else Some(ProcessedValue(ops[0], ctx))
    decreases ops
  {
    assert ops[0] in ops;
    var next := Step(s, key, EffectOf(ops[0], ctx), override);
    assert EffectsOf(ops, ctx)[1..] == EffectsOf(ops[1..], ctx);
    if |ops| == 1 {
    } else {
      StepsOfApplies(next, key, ops[1..], ctx, override);
    }
  }

  lemma SortedAppliesDecide(
    l: Ledger, sorted: seq<Operation>, key: string, ctx: Context, override: bool)
    requires Descending(sorted) && OperationsOn(key, sorted) != [] && AllApply(OperationsOn(key, sorted), ctx)
    ensures var on := OperationsOn(key, sorted);
      StateOf(PerformAll(l, EffectsOf(sorted, ctx), override), key).value ==
      if override then Some(ProcessedValue(on[|on| - 1], ctx))
      else if key in l.values then Some(l.values[key])
      else Some(ProcessedValue(on[0], ctx))
  {
    OperationsOnAreDescending(key, sorted);
    PerformAllIsSteps(l, EffectsOf(sorted, ctx), override, key);
    OtherOperationsDoNotMatter(StateOf(l, key), key, sorted, ctx, override);
    StepsOfApplies(StateOf(l, key), key, OperationsOn(key, sorted), ctx, override);
  }

  /** Which operation decides a key that is applied more than once: under "priority", and under every
      other policy that overrides, one of lowest priority; under "skip" one of highest priority, or
      none if the key was there before. */
  lemma LowestPriorityWins(
    m: Annotations, ops: seq<Operation>, sorted: seq<Operation>, key: string,
    ctx: Context, ruleID: string, resolution: string) returns (winner: Operation)
    requires WellTracked(m, ruleID) && MaySortTo(ops, sorted) && key != TrackingKey(ruleID)
    requires exists op :: op in ops && op.key == key
    requires forall op | op in ops && op.key == key :: ErrorOf(op, ctx) == None && ActionOf(op) == "apply"
    ensures winner in ops && winner.key == key
    ensures resolution != "skip" ==> forall op | op in ops && op.key == key :: winner.priority <= op.priority
    ensures resolution == "skip" ==> forall op | op in ops && op.key == key :: winner.priority >= op.priority
    ensures var after := AfterOperations(m, sorted, ctx, ruleID, resolution);
      key in after &&
      after[key] == if resolution == "skip" && key in m then m[key] else Expanded(winner, ctx.variables)
  {
    SortedOperationsOn(ops, sorted, key);
    winner := SortedWinner(m, ops, sorted, key, ctx, ruleID, resolution);
    ProcessedIsExpanded(winner, ctx);
  }

  lemma SortedWinner(
    m: Annotations, ops: seq<Operation>, sorted: seq<Operation>, key: string,
    ctx: Context, ruleID: string, resolution: string) returns (winner: Operation)
    requires WellTracked(m, ruleID) && Descending(sorted) && key != TrackingKey(ruleID)
    requires Descending(OperationsOn(key, sorted)) && AllApply(OperationsOn(key, sorted), ctx)
    requires OperationsOn(key, sorted) != []
    requires forall op :: op in OperationsOn(key, sorted) <==> op in ops && op.key == key
    ensures winner in ops && winner.key == key
    ensures ShouldOverride(resolution) ==> forall op | op in ops && op.key == key :: winner.priority <= op.priority
    ensures !ShouldOverride(resolution) ==> forall op | op in ops && op.key == key :: winner.priority >= op.priority
    ensures var after := AfterOperations(m, sorted, ctx, ruleID, resolution);
      key in after &&
      after[key] == if !ShouldOverride(resolution) && key in m then m[key] else ProcessedValue(winner, ctx)
  {
    var on := OperationsOn(key, sorted);
    winner := if ShouldOverride(resolution) then on[|on| - 1] else on[0];
    EndsDecide(ops, on, key);
    WinnerDecides(m, sorted, key, ctx, ruleID, resolution);
  }

  lemma EndsDecide(ops: seq<Operation>, on: seq<Operation>, key: string)
    requires Descending(on) && on != [] && forall op :: op in on <==> op in ops && op.key == key
    ensures on[0] in ops && on[0].key == key && on[|on| - 1] in ops && on[|on| - 1].key == key
    ensures forall op | op in ops && op.key == key :: on[|on| - 1].priority <= op.priority <= on[0].priority
  {
    assert on[0] in on && on[|on| - 1] in on;
    forall op | op in ops && op.key == key
      ensures on[|on| - 1].priority <= op.priority <= on[0].priority
    {
      var i :| 0 <= i < |on| && on[i] == op;
    }
  }

  lemma SortedOperationsOn(ops: seq<Operation>, sorted: seq<Operation>, key: string)
    requires MaySortTo(ops, sorted)
    ensures Descending(OperationsOn(key, sorted)) && Descending(sorted)
    ensures forall op :: op in OperationsOn(key, sorted) <==> op in ops && op.key == key
  {
    SameOperations(ops, sorted);
    OperationsOnAreDescending(key, sorted);
  }

  lemma WinnerDecides(
    m: Annotations, sorted: seq<Operation>, key: string, ctx: Context, ruleID: string, resolution: string)
    requires WellTracked(m, ruleID) && Descending(sorted) && key != TrackingKey(ruleID)
    requires OperationsOn(key, sorted) != [] && AllApply(OperationsOn(key, sorted), ctx)
    ensures var after := AfterOperations(m, sorted, ctx, ruleID, resolution);
      var on := OperationsOn(key, sorted);
      key in after &&
      after[key] == if ShouldOverride(resolution) then ProcessedValue(on[|on| - 1], ctx)
                    else if key in m then m[key]
                    else ProcessedValue(on[0], ctx)
  {
    OperationsRefine(m, sorted, ctx, ruleID, resolution);
    SortedAppliesDecide(Decode(m, ruleID), sorted, key, ctx, ShouldOverride(resolution));
    var after := AfterOperations(m, sorted, ctx, ruleID, resolution);
    assert key in after - {TrackingKey(ruleID)};
  }

  /** The condition on ties is needed: two applies of different values with equal key and priority
      may be sorted either way, and the one that comes last decides. */
  lemma TieLeavesTheValueOpen(
    m: Annotations, x: Operation, y: Operation, ctx: Context, ruleID: string, resolution: string)
    requires WellTracked(m, ruleID) && ShouldOverride(resolution)
    requires x.key == y.key != TrackingKey(ruleID) && x.priority == y.priority && AllApply([x, y], ctx)
    requires ProcessedValue(x, ctx) != ProcessedValue(y, ctx)
    ensures MaySortTo([x, y], [x, y]) && MaySortTo([x, y], [y, x])
    ensures AfterOperations(m, [x, y], ctx, ruleID, resolution) != AfterOperations(m, [y, x], ctx, ruleID, resolution)
  {
    assert [y, x][0] == y && [y, x][1] == x;
    EitherOrder(x, y);
    TwoApplies(m, x, y, ctx, ruleID, resolution);
    TwoApplies(m, y, x, ctx, ruleID, resolution);
  }

  lemma EitherOrder(x: Operation, y: Operation)
    requires x.priority == y.priority
    ensures MaySortTo([x, y], [x, y]) && MaySortTo([x, y], [y, x])
  {
  }

  lemma TwoApplies(m: Annotations, x: Operation, y: Operation, ctx: Context, ruleID: string, resolution: string)
    requires WellTracked(m, ruleID) && ShouldOverride(resolution)
    requires x.key == y.key != TrackingKey(ruleID) && x.priority == y.priority && AllApply([x, y], ctx)
    ensures var after := AfterOperations(m, [x, y], ctx, ruleID, resolution);
      x.key in after && after[x.key] == ProcessedValue(y, ctx)
  {
    var ops := [x, y];
    assert x in ops && y in ops;
    assert ops[1..] == [y] && [y][1..] == [];
    assert OperationsOn(x.key, [y]) == [y];
    assert OperationsOn(x.key, ops) == [x] + [y] == ops;
    OperationsRefine(m, ops, ctx, ruleID, resolution);
    SortedAppliesDecide(Decode(m, ruleID), ops, x.key, ctx, true);
    var after := AfterOperations(m, ops, ctx, ruleID, resolution);
    assert x.key in after - {TrackingKey(ruleID)};
  }
}
