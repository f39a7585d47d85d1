/** The resource manager's work on one resource: the legacy path and the group path, on a deep copy
    that is changed in place and written back with optimistic updates
    (internal/resource/manager.go). */
module Manager {
  import opened GoStrings
  import opened Tracking
  import opened Wrappers
  import opened Ledgers
  import opened Engine
  import opened Stores
  import opened Cluster

  const MAX_RETRIES := 3

  /** Exactly one update has been committed, on the given object, leaving all but the annotations as
      they were just before, and everything if it leaves the annotations. */
  ghost predicate OneCommit(earlier: seq<Commit>, later: seq<Commit>, key: ObjectKey) {
    && |later| == |earlier| + 1
    && later[..|earlier|] == earlier
    && later[|earlier|].key == key
    && later[|earlier|].before.labels == later[|earlier|].after.labels
    && (later[|earlier|].before.annotations == later[|earlier|].after.annotations ==>
      later[|earlier|].before == later[|earlier|].after)
  }

  /** The store differs at most at one object. */
  ghost predicate OnlyAt(earlier: Objects, later: Objects, key: ObjectKey) {
    forall k | k != key :: (k in later <==> k in earlier) && (k in later ==> later[k] == earlier[k])
  }

  lemma PutIsOnlyAt(objects: Objects, key: ObjectKey, s: Snapshot)
    requires key in objects
    ensures OnlyAt(objects, objects[key := s], key) && objects[key := s].Keys == objects.Keys
  {
  }

  /** A commit that changes the annotations comes from a client that holds the newest version, and takes
      that version out of date. */
  ghost predicate TakesOver(c: Commit, earlier: Newest, later: Newest, version: nat) {
    c.after.annotations != c.before.annotations ==>
      !Superseded(earlier, c.key, version) && Superseded(later, c.key, version)
  }

  /** The client's object has the labels of the version it bears. */
  ghost predicate Based(server: ApiServer, copy: Resource)
    reads server`history, copy
  {
    (copy.key, copy.version) in server.history && copy.labels == server.history[(copy.key, copy.version)].labels
  }

  /** An accepted update of a client's object takes over from the version it bears. */
  lemma AcceptedTakesOver(s: Store, script: seq<Turn>, key: ObjectKey, held: Snapshot, annotations: Annotations)
    requires Consistent(s) && (key, held.version) in s.history && held.labels == s.history[(key, held.version)].labels
    requires UpdateError(s, script, key, held.version) == None
    ensures var at := Arrival(s, script); var u := Updated(at, key, held.labels, annotations);
      && at.objects[key] == s.history[(key, held.version)]
      && u.objects[key].labels == at.objects[key].labels && u.objects[key].annotations == annotations
      && (annotations == at.objects[key].annotations ==> u == at)
      && TakesOver(Commit(key, at.objects[key], u.objects[key]), s.newest, u.newest, held.version)
  {
    ArrivalKeepsConsistent(s, script);
    UpdateIsAdjacent(Arrival(s, script), key, held.labels, annotations);
  }

  /** The outcome of a loop after one round of it. */
  predicate Rounds(all: Outcome, err: Option<ApiError>, again: bool, later: Outcome) {
    if again then all.err == later.err && all.updates == later.updates + 1 else all == Outcome(err, 1)
  }

  /** With nobody else about, two requests find the store as it was. */
  lemma QuietRounds(s: Store, script: seq<Turn>)
    ensures QuietScript(script) ==>
      && Arrival(s, script) == s && Arrival(s, Rest(script)) == s
      && QuietScript(Rest(script)) && QuietScript(Rest(Rest(script)))
  {
    if QuietScript(script) {
      QuietArrival(s, script);
      QuietArrival(s, Rest(script));
    }
  }

  /** A single update of a client's object. */
  method UpdateOnce(server: ApiServer, copy: Resource) returns (err: Option<ApiError>)
    requires server.Valid() && Based(server, copy)
    modifies server, copy
    ensures server.Valid() && Follows(server.Now(), old(server.Now()))
    ensures server.updates == old(server.updates) + 1 && server.script == Rest(old(server.script))
    ensures err == old(server.NextError(copy.key, copy.version))
    ensures err == None ==>
      && OneCommit(old(server.commits), server.commits, copy.key)
      && var c := server.commits[|old(server.commits)|];
         && c.before == old(server.history[(copy.key, copy.version)]) && c.after.annotations == old(copy.annotations)
         && Adjacent(c, server.history) && TakesOver(c, old(server.newest), server.newest, old(copy.version))
         && (old(server.Quiet()) ==>
               && copy.key in old(server.objects) && c.before == old(server.objects)[copy.key]
               && server.objects == old(server.objects)[copy.key := c.after])
    ensures err.Some? ==>
      && server.commits == old(server.commits) && copy.Value() == old(copy.Value())
      && server.Now() == old(server.AtRequest())
      && (old(server.Quiet()) ==> server.objects == old(server.objects))
    ensures old(server.Quiet()) ==> server.Quiet()
  {
    ghost var held := copy.Value();
    QuietRounds(server.Now(), server.script);
    err := server.Update(copy);
    if err == None {
      AcceptedTakesOver(old(server.Now()), old(server.script), copy.key, held, held.annotations);
      assert server.commits[|old(server.commits)|] in server.commits;
    }
  }

  /** One round of an update loop: an update, and a refetch if it met a conflict and another round is
      to follow. */
  method UpdateOrRefetch(server: ApiServer, copy: Resource, lastRound: bool, ghost rounds: nat)
    returns (err: Option<ApiError>, again: bool)
    requires server.Valid() && Based(server, copy) && rounds > 0 && (lastRound <==> rounds == 1)
    modifies server, copy
    ensures server.Valid() && Follows(server.Now(), old(server.Now()))
    ensures server.updates == old(server.updates) + 1
    ensures again ==>
      rounds > 1 && server.Served(copy) && old(server.NextError(copy.key, copy.version)) == Some(Conflict)
    ensures Rounds(old(server.LoopOutcome(copy.key, copy.version, rounds)), err, again,
      server.LoopOutcome(copy.key, copy.version, rounds - 1))
    ensures err == None && !again ==>
      && old(server.NextError(copy.key, copy.version)) == None
      && OneCommit(old(server.commits), server.commits, copy.key)
      && var c := server.commits[|old(server.commits)|];
         && c.before == old(server.history[(copy.key, copy.version)]) && c.after.annotations == old(copy.annotations)
         && Adjacent(c, server.history) && TakesOver(c, old(server.newest), server.newest, old(copy.version))
         && (old(server.Quiet()) ==> copy.key in old(server.objects) && c.before == old(server.objects)[copy.key])
    ensures again || err.Some? ==> server.commits == old(server.commits)
    ensures old(server.Quiet()) ==>
      && server.Quiet()
      && server.objects ==
         if err == None && !again then old(server.objects)[copy.key := server.commits[|old(server.commits)|].after]
                           else old(server.objects)
  {
    QuietRounds(server.Now(), server.script);
    err := UpdateOnce(server, copy);
    again := err == Some(Conflict) && !lastRound;
    if again {
      err := server.Get(copy);
      again := err == None;
    }
  }

  /* The legacy path. */

  /** The order in which a map happens to be iterated. */
  method IterationOrder(keys: set<string>) returns (order: seq<string>)
    ensures IsOrderOf(order, keys)
  {
    order := [];
    var remaining := keys;
    while remaining != {}
      invariant remaining <= keys && IsOrderOf(order, keys - remaining)
      decreases |remaining|
    {
      var key :| key in remaining;
      OrderGrows(order, keys - remaining, key);
      assert keys - remaining + {key} == keys - (remaining - {key});
      order := order + [key];
      remaining := remaining - {key};
    }
    assert keys - {} == keys;
  }

  /** Copies a rule's annotations into a resource, in the iteration order it reports. */
  method Overlay(target: Resource, annotations: map<string, string>) returns (order: seq<string>)
    modifies target`annotations
    ensures target.annotations == old(target.annotations) + annotations
    ensures IsOrderOf(order, annotations.Keys)
  {
    order := IterationOrder(annotations.Keys);
    assert forall k | k in order :: k in ListedSet(order);
    for i := 0 to |order|
      invariant forall k :: k in target.annotations <==> k in old(target.annotations) || k in order[..i]
      invariant forall k | k in order[..i] :: k in annotations && target.annotations[k] == annotations[k]
      invariant forall k | k in old(target.annotations) && k !in order[..i] ::
        target.annotations[k] == old(target.annotations)[k]
    {
      assert order[..i + 1] == order[..i] + [order[i]];
      target.annotations := target.annotations[order[i] := annotations[order[i]]];
    }
    assert order[..|order|] == order;
    assert forall k :: k in annotations <==> k in order by {
      assert forall k :: k in annotations <==> k in ListedSet(order);
    }
  }

  lemma OrderGrows(order: seq<string>, keys: set<string>, key: string)
    requires IsOrderOf(order, keys) && key !in keys
    ensures IsOrderOf(order + [key], keys + {key})
  {
    assert forall k | k in order :: k in set x | x in order;
  }

  method RecordApplied(target: Resource, appliedKeys: seq<string>, ruleID: string)
    modifies target`annotations
    ensures target.annotations == if appliedKeys == [] then old(target.annotations)
                                  else Record(old(target.annotations), ruleID, appliedKeys)
  {
    if |appliedKeys| > 0 {
      target.annotations := target.annotations[TrackingKey(ruleID) := FormatList(appliedKeys)];
    }
  }

  /** The copy is a state of the store with the rule's annotations and tracking entry laid over it. */
  ghost predicate Prepared(
    server: ApiServer, copy: Resource, annotations: map<string, string>, order: seq<string>, ruleID: string)
    reads server`history, copy
  {
    && Based(server, copy)
    && copy.annotations == AfterApply(server.history[(copy.key, copy.version)].annotations, annotations, order, ruleID)
  }

  method Reapply(copy: Resource, annotations: map<string, string>, order: seq<string>, ruleID: string)
    modifies copy`annotations
    ensures copy.annotations == AfterApply(old(copy.annotations), annotations, order, ruleID)
  {
    var _ := Overlay(copy, annotations);
    RecordApplied(copy, order, ruleID);
  }

  /** One round of the apply loop: after a conflict the rule's annotations are laid over what the store
      has now. */
  method ApplyRound(
    server: ApiServer, copy: Resource, annotations: map<string, string>, order: seq<string>, ruleID: string,
    lastRound: bool,
    ghost rounds: nat)
    returns (err: Option<ApiError>, again: bool)
    requires server.Valid() && Prepared(server, copy, annotations, order, ruleID)
    requires rounds > 0 && (lastRound <==> rounds == 1)
    modifies server, copy
    ensures server.Valid() && Follows(server.Now(), old(server.Now()))
    ensures server.updates == old(server.updates) + 1
    ensures again ==> rounds > 1 && Prepared(server, copy, annotations, order, ruleID)
    ensures Rounds(old(server.LoopOutcome(copy.key, copy.version, rounds)), err, again,
      server.LoopOutcome(copy.key, copy.version, rounds - 1))
    ensures err == None && !again ==>
      && OneCommit(old(server.commits), server.commits, copy.key)
      && var c := server.commits[|old(server.commits)|];
         && Adjacent(c, server.history)
         && c.after.annotations == AfterApply(c.before.annotations, annotations, order, ruleID)
    ensures again || err.Some? ==> server.commits == old(server.commits)
    ensures old(server.Quiet()) ==>
      && server.Quiet() && OnlyAt(old(server.objects), server.objects, copy.key)
      && server.objects.Keys == old(server.objects).Keys
      && (again ==> server.objects == old(server.objects))
  {
    err, again := UpdateOrRefetch(server, copy, lastRound, rounds);
    if again {
      Reapply(copy, annotations, order, ruleID);
    }
  }

  /** Apply with retries. Whatever the other clients do: success means exactly one commit, which lays
      the rule's annotations and tracking entry over the state that it replaced, with no state of the
      object between the two; failure means no commit; and which of the two it is, after how many
      updates, is decided by the store and by what the other clients do in the meantime. */
  method ApplyAnnotationsToResource(
    server: ApiServer, resource: Resource, annotations: map<string, string>, ruleID: string)
    returns (err: Option<ApiError>, order: seq<string>)
    requires server.Valid() && server.Served(resource)
    modifies server
    ensures server.Valid() && Follows(server.Now(), old(server.Now()))
    ensures IsOrderOf(order, annotations.Keys)
    ensures old(server.updates) < server.updates <= old(server.updates) + MAX_RETRIES
    ensures var outcome := old(server.LoopOutcome(resource.key, resource.version, MAX_RETRIES));
      err == outcome.err && server.updates == old(server.updates) + outcome.updates
    ensures err == Some(Conflict) ==> server.updates == old(server.updates) + 3
    ensures err == None ==>
      && OneCommit(old(server.commits), server.commits, resource.key)
      && var c := server.commits[|old(server.commits)|];
         && Adjacent(c, server.history)
         && c.after.annotations == AfterApply(c.before.annotations, annotations, order, ruleID)
    ensures err.Some? ==> server.commits == old(server.commits)
    ensures old(server.Quiet()) ==>
      && server.Quiet() && OnlyAt(old(server.objects), server.objects, resource.key)
      && server.objects.Keys == old(server.objects).Keys
      && (err == None <==> resource.key in old(server.objects))
  {
    QuietSuccess(server.Now(), server.script, resource.key, resource.version);
    ConflictAfterThree(server.Now(), server.script, resource.key, resource.version);
    var copy := resource.DeepCopy();
    order := Overlay(copy, annotations);
    RecordApplied(copy, order, ruleID);
    err := ApplyWithRetries(server, copy, annotations, order, ruleID);
  }

  /** The update loop of the apply path. */
  method ApplyWithRetries(
    server: ApiServer, copy: Resource, annotations: map<string, string>, order: seq<string>, ruleID: string)
    returns (err: Option<ApiError>)
    requires server.Valid() && Prepared(server, copy, annotations, order, ruleID)
    modifies server, copy
    ensures server.Valid() && Follows(server.Now(), old(server.Now()))
    ensures old(server.updates) < server.updates <= old(server.updates) + MAX_RETRIES
    ensures var outcome := old(server.LoopOutcome(copy.key, copy.version, MAX_RETRIES));
      err == outcome.err && server.updates == old(server.updates) + outcome.updates
    ensures err == None ==>
      && OneCommit(old(server.commits), server.commits, copy.key)
      && var c := server.commits[|old(server.commits)|];
         && Adjacent(c, server.history)
         && c.after.annotations == AfterApply(c.before.annotations, annotations, order, ruleID)
    ensures err.Some? ==> server.commits == old(server.commits)
    ensures old(server.Quiet()) ==>
      && server.Quiet() && OnlyAt(old(server.objects), server.objects, copy.key)
      && server.objects.Keys == old(server.objects).Keys
  {
    ghost var outcome := server.LoopOutcome(copy.key, copy.version, MAX_RETRIES);
    ghost var start, commits, updates, quiet := server.Now(), server.commits, server.updates, server.Quiet();
    for attempt := 0 to MAX_RETRIES
      invariant server.Valid() && Follows(server.Now(), start)
      invariant server.commits == commits && server.updates == updates + attempt
      invariant quiet ==> server.Quiet() && server.objects == start.objects
      invariant attempt < MAX_RETRIES && Prepared(server, copy, annotations, order, ruleID)
      invariant var later := server.LoopOutcome(copy.key, copy.version, MAX_RETRIES - attempt);
        outcome.err == later.err && outcome.updates == later.updates + attempt
    {
      var again: bool;
      err, again := ApplyRound(
        server, copy, annotations, order, ruleID, attempt >= MAX_RETRIES - 1, MAX_RETRIES - attempt);
      if !again {
        return;
      }
    }
  }

  /** There are three tries: the loop succeeds exactly if one of them is accepted, each before it having met a
      conflict, and reports a conflict only when the third has met one too. */
  lemma ThreeTries(m: Moment, key: ObjectKey)
    ensures var o := Outlook(m.store, m.script, key, m.version, MAX_RETRIES);
      && (o.err == None <==> AcceptedAt(m, key, 1) || AcceptedAt(m, key, 2) || AcceptedAt(m, key, 3))
      && (o.err == Some(Conflict) <==> Try(m, key, 3).Some? && TryError(Try(m, key, 3).value, key) == Some(Conflict))
      && (o.err == Some(Conflict) ==> o.updates == 3)
  {
    LoopEndsExactly(m, key, MAX_RETRIES);
    if k: nat :| 1 <= k <= MAX_RETRIES && AcceptedAt(m, key, k) {
      assert k == 1 || k == 2 || k == 3;
    }
  }

  lemma ConflictAfterThree(s: Store, script: seq<Turn>, key: ObjectKey, version: nat)
    ensures var o := Outlook(s, script, key, version, MAX_RETRIES); o.err == Some(Conflict) ==> o.updates == 3
  {
    ThreeTries(Moment(s, script, version), key);
  }

  lemma QuietSuccess(s: Store, script: seq<Turn>, key: ObjectKey, version: nat)
    ensures QuietScript(script) ==> (Outlook(s, script, key, version, MAX_RETRIES).err == None <==> key in s.objects)
  {
    if QuietScript(script) {
      QuietOutlook(s, script, key, version, MAX_RETRIES);
    }
  }

  /** Remove in one batch, with a single update and no retry. */
  method RemoveAnnotationsFromResource(server: ApiServer, resource: Resource, keys: seq<string>, ruleID: string)
    returns (err: Option<ApiError>)
    requires server.Valid() && server.Served(resource)
    modifies server
    ensures server.Valid() && Follows(server.Now(), old(server.Now()))
    ensures if RemovableKeys(resource.annotations, keys, ruleID) == {} then
              && err == None && server.commits == old(server.commits) && server.updates == old(server.updates)
              && server.Now() == old(server.Now())
            else
              && server.updates == old(server.updates) + 1
              && err == old(server.NextError(resource.key, resource.version))
              && (err == None ==>
                    && OneCommit(old(server.commits), server.commits, resource.key)
                    && var c := server.commits[|old(server.commits)|];
                       && Adjacent(c, server.history)
                       && c.before == resource.Value()
                       && c.after.annotations == StoredByBatchRemoval(c.before.annotations, keys, ruleID))
    ensures err.Some? ==> server.commits == old(server.commits)
    ensures old(server.Quiet()) ==>
      && server.Quiet() && OnlyAt(old(server.objects), server.objects, resource.key)
      && server.objects.Keys == old(server.objects).Keys
  {
    var copy := resource.DeepCopy();
    var removedCount := RemoveInBatch(copy, keys, ruleID);
    if removedCount > 0 {
      err := UpdateOnce(server, copy);
      if old(server.Quiet()) && err == None {
        PutIsOnlyAt(old(server.objects), resource.key, server.commits[|old(server.commits)|].after);
      }
    } else {
      err := None;
    }
  }

  method RemoveInBatch(copy: Resource, keys: seq<string>, ruleID: string) returns (removedCount: nat)
    modifies copy`annotations
    ensures copy.annotations == AfterBatchRemoval(old(copy.annotations), keys, ruleID)
    ensures removedCount == |RemovableKeys(old(copy.annotations), keys, ruleID)|
    ensures removedCount == 0 <==> RemovableKeys(old(copy.annotations), keys, ruleID) == {}
    ensures removedCount > 0 ==> copy.annotations == StoredByBatchRemoval(old(copy.annotations), keys, ruleID)
  {
    var ruleAppliedKeys := RecordedKeys(copy.annotations, ruleID);
    removedCount := RemoveApplied(copy, keys, ruleAppliedKeys);
    assert Gone(old(copy.annotations), keys, ruleAppliedKeys) == RemovableKeys(old(copy.annotations), keys, ruleID);
    if |ruleAppliedKeys| > 0 {
      var remainingKeys := Remaining(ruleAppliedKeys, keys);
      if |remainingKeys| > 0 {
        copy.annotations := copy.annotations[TrackingKey(ruleID) := FormatList(remainingKeys)];
      } else {
        copy.annotations := copy.annotations - {TrackingKey(ruleID)};
      }
    }
  }

  /** The listed keys that are present and, trimmed, on a list. */
  function Gone(m: Annotations, keys: seq<string>, recorded: seq<string>): set<string> {
    set k | k in keys && k in m && exists r | r in recorded :: TrimSpace(r) == k
  }

  /** One more key takes itself off, if it is present still and on the list; otherwise nothing. */
  lemma GoneGrows(m: Annotations, keys: seq<string>, key: string, recorded: seq<string>)
    ensures var gone := Gone(m, keys, recorded); var next := Gone(m, keys + [key], recorded);
      if key in m - gone && exists r | r in recorded :: TrimSpace(r) == key then
        m - next == m - gone - {key} && |next| == |gone| + 1
      else
        next == gone
  {
    var gone, next := Gone(m, keys, recorded), Gone(m, keys + [key], recorded);
    if key in m && exists r | r in recorded :: TrimSpace(r) == key {
      assert next == gone + {key};
    } else {
      assert next == gone;
    }
  }

  /** Deletes the listed keys that are among the rule's, and counts them. */
  method RemoveApplied(copy: Resource, keys: seq<string>, ruleAppliedKeys: seq<string>) returns (removedCount: nat)
    modifies copy`annotations
    ensures copy.annotations == old(copy.annotations) - Gone(old(copy.annotations), keys, ruleAppliedKeys)
    ensures removedCount == |Gone(old(copy.annotations), keys, ruleAppliedKeys)|
  {
    removedCount := 0;
    ghost var m := copy.annotations;
    for i := 0 to |keys|
      invariant copy.annotations == m - Gone(m, keys[..i], ruleAppliedKeys)
      invariant removedCount == |Gone(m, keys[..i], ruleAppliedKeys)|
    {
      assert keys[..i + 1] == keys[..i] + [keys[i]];
      GoneGrows(m, keys[..i], keys[i], ruleAppliedKeys);
      var wasAppliedByRule := Names(ruleAppliedKeys, keys[i]);
      if wasAppliedByRule && keys[i] in copy.annotations {
        copy.annotations := copy.annotations - {keys[i]};
        removedCount := removedCount + 1;
      }
    }
    assert keys[..|keys|] == keys;
  }

  /** Does a list, trimmed, name a key? */
  method Names(recorded: seq<string>, key: string) returns (found: bool)
    ensures found <==> exists r | r in recorded :: TrimSpace(r) == key
  {
    found := false;
    for i := 0 to |recorded|
      invariant forall r | r in recorded[..i] :: TrimSpace(r) != key
    {
      assert recorded[..i + 1] == recorded[..i] + [recorded[i]];
      if TrimSpace(recorded[i]) == key {
        return true;
      }
    }
    assert recorded[..|recorded|] == recorded;
  }

  /** The trimmed list less the listed keys. */
  method Remaining(recorded: seq<string>, keys: seq<string>) returns (remaining: seq<string>)
    ensures remaining == Without(TrimAll(recorded), ListedSet(keys))
  {
    remaining := [];
    var trimmed := TrimAll(recorded);
    for i := 0 to |recorded|
      invariant remaining == Without(trimmed[..i], ListedSet(keys))
    {
      var ruleKey := TrimSpace(recorded[i]);
      var shouldKeep := true;
      for j := 0 to |keys|
        invariant shouldKeep && ruleKey !in keys[..j]
      {
        assert keys[..j + 1] == keys[..j] + [keys[j]];
        if ruleKey == keys[j] {
          shouldKeep := false;
          break;
        }
      }
      assert keys[..|keys|] == keys;
      assert shouldKeep <==> ruleKey !in ListedSet(keys);
      assert trimmed[..i + 1] == trimmed[..i] + [ruleKey];
      WithoutAppend(trimmed[..i], [ruleKey], ListedSet(keys));
      if shouldKeep {
        remaining := remaining + [ruleKey];
      }
    }
    assert trimmed[..|recorded|] == trimmed;
  }

  /* The group path. */

  method TrackAnnotationApplication(target: Resource, key: string, ruleID: string)
    modifies target`annotations
    ensures target.annotations == Track(old(target.annotations), key, ruleID)
  {
    var appliedKeys := RecordedKeys(target.annotations, ruleID);
    var found := Names(appliedKeys, key);
    if !found {
      appliedKeys := appliedKeys + [key];
      target.annotations := target.annotations[TrackingKey(ruleID) := FormatList(appliedKeys)];
    }
  }

  method UntrackAnnotationApplication(target: Resource, key: string, ruleID: string)
    modifies target`annotations
    ensures target.annotations == Untrack(old(target.annotations), key, ruleID)
  {
    var appliedKeys := RecordedKeys(target.annotations, ruleID);
    if appliedKeys != [] {
      var remainingKeys := Remaining(appliedKeys, [key]);
      assert ListedSet([key]) == {key};
      if |remainingKeys| > 0 {
        target.annotations := target.annotations[TrackingKey(ruleID) := FormatList(remainingKeys)];
      } else {
        target.annotations := target.annotations - {TrackingKey(ruleID)};
      }
    }
  }

  method ApplyAnnotationOperation(target: Resource, op: Operation, ctx: Context, ruleID: string, resolution: string)
    returns (result: OperationResult)
    modifies target`annotations
    ensures target.annotations == AfterOperation(old(target.annotations), op, ctx, ruleID, resolution)
    ensures result == ResultOf(old(target.annotations), op, ctx, ruleID, resolution)
  {
    result := OperationResult(op.key, op.priority, false, false, None, "", "");
    if !ctx.validator.Accepts(op.key) {
      return result.(error := Some(InvalidKey));
    }
    var value := ProcessedValue(op, ctx);
    if !ctx.valueAllowed(value) {
      return result.(error := Some(InvalidValue));
    }
    var exists_ := op.key in target.annotations;
    var currentValue := if exists_ then target.annotations[op.key] else "";
    result := result.(oldValue := currentValue);
    var action := if op.action == "" then "apply" else op.action;
    if action == "apply" {
      if exists_ && currentValue != value && !ShouldOverride(resolution) {
        return result.(skipped := true, success := true);
      }
      target.annotations := target.annotations[op.key := value];
      TrackAnnotationApplication(target, op.key, ruleID);
      result := result.(newValue := value, success := true);
    } else if action == "remove" {
      var applied := false;
      if exists_ {
        applied := Names(RecordedKeys(target.annotations, ruleID), op.key);
      }
      if applied {
        target.annotations := target.annotations - {op.key};
        UntrackAnnotationApplication(target, op.key, ruleID);
        result := result.(success := true);
      } else {
        result := result.(skipped := true, success := true);
      }
    } else {
      result := result.(error := Some(UnknownAction));
    }
  }

  /** Refetches after a conflict, but does not reapply. How it ends is decided by the store and the other
      clients; success commits the caller's annotations if the first update is accepted, that is, if
      the version held is the stored one when it is served, and otherwise a state as it was. */
  method UpdateResourceWithRetry(server: ApiServer, copy: Resource) returns (err: Option<ApiError>)
    requires server.Valid() && Based(server, copy)
    modifies server, copy
    ensures server.Valid() && Follows(server.Now(), old(server.Now()))
    ensures old(server.updates) < server.updates <= old(server.updates) + MAX_RETRIES
    ensures var outcome := old(server.LoopOutcome(copy.key, copy.version, MAX_RETRIES));
      err == outcome.err && server.updates == old(server.updates) + outcome.updates
    ensures err == Some(Conflict) ==> server.updates == old(server.updates) + 3
    ensures err == None ==>
      && OneCommit(old(server.commits), server.commits, copy.key)
      && var c := server.commits[|old(server.commits)|];
         && Adjacent(c, server.history)
         && TakesOver(c, old(server.newest), server.newest, old(copy.version))
         && if old(server.NextError(copy.key, copy.version)) == None then
              c.before == old(server.history[(copy.key, copy.version)]) && c.after.annotations == old(copy.annotations)
            else
              c.after == c.before
    ensures err.Some? ==> server.commits == old(server.commits)
    ensures old(server.Quiet()) ==>
      && server.Quiet() && (err == None <==> copy.key in old(server.objects))
      && (err == None ==> server.commits[|old(server.commits)|].before == old(server.objects)[copy.key])
      && server.objects ==
         if err == None then old(server.objects)[copy.key := server.commits[|old(server.commits)|].after]
                           else old(server.objects)
  {
    ghost var outcome := server.LoopOutcome(copy.key, copy.version, MAX_RETRIES);
    for attempt := 0 to MAX_RETRIES
      invariant server.Valid() && Follows(server.Now(), old(server.Now()))
      invariant server.commits == old(server.commits)
      invariant server.updates == old(server.updates) + attempt
      invariant attempt < MAX_RETRIES && Based(server, copy)
      invariant attempt == 0 ==>
        copy.Value() == old(copy.Value()) && server.Now() == old(server.Now()) && server.script == old(server.script)
      invariant attempt > 0 ==> server.Served(copy) && old(server.NextError(copy.key, copy.version)).Some?
      invariant old(server.Quiet()) ==> server.Quiet() && server.objects == old(server.objects)
      invariant var later := server.LoopOutcome(copy.key, copy.version, MAX_RETRIES - attempt);
        outcome.err == later.err && outcome.updates == later.updates + attempt
    {
      var again: bool;
      err, again := UpdateOrRefetch(server, copy, attempt >= MAX_RETRIES - 1, MAX_RETRIES - attempt);
      if !again {
        QuietSuccess(old(server.Now()), old(server.script), copy.key, old(copy.version));
        ConflictAfterThree(old(server.Now()), old(server.script), copy.key, old(copy.version));
        return;
      }
    }
  }
}
