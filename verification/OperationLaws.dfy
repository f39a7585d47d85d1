/** What one operation of a group does to annotations, in terms of its fields, the checks and the text of its
    value (internal/resource/manager.go). */
module OperationLaws {
  import opened Engine
  import opened Rendering
  import opened Tracking
  import opened Wrappers
  import L = Ledgers
  import Template

  /** The value of an operation, with the variables filled in if it is a template. */
  ghost function Expanded(op: Operation, vars: Template.Variables): string {
    if op.template then Expansion(op.value, vars) else op.value
  }

  lemma ProcessedIsExpanded(op: Operation, ctx: Context)
    ensures ProcessedValue(op, ctx) == Expanded(op, ctx.variables)
  {
    ProcessedIsExpansion(op.value, ctx.variables);
    if !Template.IsTemplate(op.value) {
      Template.NonTemplateIsKept(op.value, ctx.variables);
    }
  }

  /** The operation passes its checks: of its key, of its expanded value, and of its action. */
  ghost predicate Acceptable(op: Operation, ctx: Context) {
    && ctx.validator.Accepts(op.key)
    && ctx.valueAllowed(Expanded(op, ctx.variables))
    && op.action in {"", "apply", "remove"}
  }

  /** Which error an operation has. */
  lemma ErrorExactly(op: Operation, ctx: Context)
    ensures ErrorOf(op, ctx) == None <==> Acceptable(op, ctx)
    ensures ErrorOf(op, ctx) == Some(InvalidKey) <==> !ctx.validator.Accepts(op.key)
    ensures ErrorOf(op, ctx) == Some(InvalidValue) <==>
      ctx.validator.Accepts(op.key) && !ctx.valueAllowed(Expanded(op, ctx.variables))
    ensures ErrorOf(op, ctx) != Some(UpdateFailed)
  {
    ProcessedIsExpanded(op, ctx);
  }

  /** Writing down what was done changes nothing but the tracking entry. */
  lemma RecordingKeepsOthers(m: Annotations, key: string, ruleID: string, k: string)
    requires k != TrackingKey(ruleID)
    ensures L.SameAt(m, Track(m, key, ruleID), k) && L.SameAt(m, Untrack(m, key, ruleID), k)
  {
  }

  lemma ApplyExactly(m: Annotations, op: Operation, ctx: Context, ruleID: string, resolution: string, k: string)
    requires k != TrackingKey(ruleID) && ErrorOf(op, ctx) == None && op.action in {"", "apply"}
    ensures var after := AfterOperation(m, op, ctx, ruleID, resolution);
      if k != op.key || (resolution == "skip" && k in m) then L.SameAt(m, after, k)
      else k in after && after[k] == ProcessedValue(op, ctx)
  {
    assert ActionOf(op) == "apply";
    var written := m[op.key := ProcessedValue(op, ctx)];
    RecordingKeepsOthers(written, op.key, ruleID, k);
  }

  lemma RemoveExactly(m: Annotations, op: Operation, ctx: Context, ruleID: string, resolution: string, k: string)
    requires k != TrackingKey(ruleID) && ErrorOf(op, ctx) == None && op.action == "remove"
    ensures var after := AfterOperation(m, op, ctx, ruleID, resolution);
      if k == op.key && AppliedBy(m, k, ruleID) then k !in after else L.SameAt(m, after, k)
  {
    assert ActionOf(op) == "remove" != "apply";
    RecordingKeepsOthers(m - {op.key}, op.key, ruleID, k);
  }

  /** What an operation makes of any annotation but the tracking entry: it stores its expanded value under its
      key, unless the policy is "skip" and the key is there; it removes its key, if that is on record;
      and everything else, and everything if it does not pass, it leaves. */
  lemma OperationExactly(m: Annotations, op: Operation, ctx: Context, ruleID: string, resolution: string, k: string)
    requires k != TrackingKey(ruleID)
    ensures var after := AfterOperation(m, op, ctx, ruleID, resolution);
      if k != op.key || !Acceptable(op, ctx) then L.SameAt(m, after, k)
      else if op.action == "remove" then if AppliedBy(m, k, ruleID) then k !in after else L.SameAt(m, after, k)
      else if resolution == "skip" && k in m then L.SameAt(m, after, k)
      else k in after && after[k] == Expanded(op, ctx.variables)
  {
    ErrorExactly(op, ctx);
    ProcessedIsExpanded(op, ctx);
    if Acceptable(op, ctx) {
      if op.action == "remove" {
        RemoveExactly(m, op, ctx, ruleID, resolution, k);
      } else {
        ApplyExactly(m, op, ctx, ruleID, resolution, k);
      }
    }
  }

  /** A value that the operations newly set. */
  predicate NewValue(before: Annotations, after: Annotations, k: string) {
    k in after && !(k in before && before[k] == after[k])
  }

  /** Whatever a run of operations newly sets, other than the tracking entry, has passed the checks, and is the
      expanded value of an operation on that key. */
  lemma {:induction false} NewValuesPass(
    m: Annotations, ops: seq<Operation>, ctx: Context, ruleID: string, resolution: string, k: string)
    requires k != TrackingKey(ruleID) && NewValue(m, AfterOperations(m, ops, ctx, ruleID, resolution), k)
    ensures var value := AfterOperations(m, ops, ctx, ruleID, resolution)[k];
      && ctx.validator.Accepts(k) && ctx.valueAllowed(value)
      && exists op | op in ops ::
           op.key == k && op.action in {"", "apply"} && value == Expanded(op, ctx.variables)
    decreases ops
  {
    if ops == [] {
    } else {
      var next := AfterOperation(m, ops[0], ctx, ruleID, resolution);
      var value := AfterOperations(m, ops, ctx, ruleID, resolution)[k];
      OperationExactly(m, ops[0], ctx, ruleID, resolution, k);
      if k in next && next[k] == value {
        assert ops[0] in ops;
      } else {
        NewValuesPass(next, ops[1..], ctx, ruleID, resolution, k);
      }
    }
  }
}
