# Verification of the dynamic annotation controller

A Dafny model of the controller's three engines, with proofs about them:

- **Annotation ownership.** Rules write annotations onto shared Kubernetes resources and record what they
  wrote in a text-encoded tracking annotation. The store is optimistic, other clients may write between any
  two requests, and a cache with an age limit and a size limit sits in front of the listing.
  Files: `GoStrings`, `Validator`, `KeyShapes`, `ManagedKeys`, `Tracking`, `Ledger`, `Engine`, `OperationLaws`,
  `GroupOrder`, `Removal`, `Ownership`, `Store`, `Cluster`, `Manager`, `Attempts`, `QuietWorld`, `Groups`, `GroupLaws`,
  `CacheModel`, `Staleness`, `Cache`, `Discovery`, `Tasks`, `Selection`, `CheckedValues`, `StoreRuns`.
- **The time scheduler.** A task map, a bounded queue, one loop, and workers behind a semaphore, in any
  interleaving, with the schedule parser that decides what a rule does next.
  Files: `Parser`, `SchedulerModel`, `Scheduler`.
- **Retries and templates.** Bounded retry loops with exponential backoff, and the two substitution passes of
  the template engine, with the check of templates in front of them.
  Files: `Backoff`, `Retry`, `Scanner`, `Template`, `Rendering`, `TemplateValidation`.

`dafny verify dfyconfig.toml` checks everything. `Wrappers` holds `Option` and `Result`.

## How the model is built

Code that changes objects in place is modelled by classes and methods (`Cluster.Resource`,
`Cluster.ApiServer`, `Cache.ResourceCache`, `Scheduler.TimeScheduler`, and the methods of `Manager`, `Groups`,
`Discovery` and `Tasks`). Each method is tied to a function of the old state (`Engine.AfterApply`,
`Engine.AfterOperations`, `Engine.AfterRemovals`, `CacheModel.AfterEvent`, `SchedulerModel.After` and so on);
the laws are proved about those functions.

Other clients are a script that the API server plays: before each request, any list of writes and deletions,
and possibly a fault. `Stores` says as functions of the store and the script what each request finds and how
an update loop ends, and the contracts of the methods are tied to them; as they hold for every script, they
hold for every interleaving at the granularity of requests. The server keeps the history of every object, and
every commit is adjacent in it to the state that it replaced. An update that changes nothing succeeds without
making a new version, as on a real API server. Results "with nobody else about" are for scripts without other
writes and faults.

The tracking annotation is text. `Engine.Decode` reads it into a ledger (annotation values and a list of
keys), the laws of removal, ordering and locality are proved on ledgers, and the lemmas named `...Refines`
carry them over to the text, for well-formed entries of rules named `namespace/name`.

Iteration over a Go map, and the order that the unstable `sort.Slice` leaves equal elements in, are
nondeterministic choices or parameters that range over every permitted order.

## What the code does not do

These are results about the code as it is; each has an exact condition or a concrete counterexample.

- A group write that meets a conflict refetches and then writes the refetched object back unchanged, and
  reports success (`Manager.UpdateResourceWithRetry`). As all groups of one call start from one snapshot of
  the resources, at most one group of a call ever changes any one resource; with nobody else about it is the
  first whose plan would change it (`QuietWorld.FirstEffectiveRunChanges`), and `Groups.SecondGroupIsLost`
  shows a group that is reported as applied and is not, for any two keys that the validator accepts; the
  default policy accepts such keys (`ManagedKeys.ManagedKeysAreAccepted`).
- Under "priority" the operation of *lowest* priority decides a repeated key
  (`GroupOrder.LowestPriorityWins`), although api/v1/annotationschedulerule_types.go:72 says that higher wins.
- The two removal algorithms differ exactly when something is removed and a listed, recorded key is absent
  (`Removal.RemovalsAgreeExactly`).
- Remove restores what was there before apply only under exact conditions
  (`Removal.RemoveUndoesApplyExactly`, `Removal.GroupRemoveUndoesGroupApplyExactly`); legacy apply overwrites
  the rule's tracking list.
- The group paths do not invalidate the cache, and a write in one namespace does not invalidate entries of
  queries over all namespaces (`CacheModel.RightAfterWriteExactly`, `CacheModel.RightAfterGroupWriteExactly`,
  `Tasks.StaleExactly`).
  A selector that cannot be converted shares its cache key with the empty one
  (`CacheModel.InconvertibleSharesKey`).
- The scheduler can queue one task twice, and drops a task that replaced its rule's entry during an execution
  (`SchedulerModel.QueuedAgainExactly`, `SchedulerModel.SurvivesExactly`, and the runs
  `SchedulerModel.QueuedTwiceFromStart`, `SchedulerModel.ReplacementDroppedFromStart`).
- A datetime rule gets its remove only if the recorded execution time is the start time exactly
  (`Parser.RemoveNeedsTheExactStart`), and a remove without an apply if that time was recorded before anything
  was handed out (`Parser.PrefixFailsExactly`, `Parser.RemoveWithoutApply`).
- The jitter never varies, and with a negative maximum delay it falls back to the base delay
  (`Backoff.JitterIsOneSided`, `Backoff.AtMostMaxDelayExactly`).
- Each template pass is idempotent for inert values; the two passes together are so exactly if the result has
  no bound hole of the first pass left (`Template.TwiceIsOnceExactly`). The counterexample
  `Template.TwoPassesAreNotIdempotent` needs a template that was not validated: `ValidateTemplate` rejects it, and
  processing is idempotent on every template that `ValidateTemplate` accepts
  (`TemplateValidation.ValidatedIsIdempotent`).

## Model

| member | source | states |
|---|---|---|
| `GoStrings.SplitOfJoin` | internal/resource/manager.go:606 | splitting on a separator inverts joining with it, for parts without the separator |
| `GoStrings.TrimTight` | internal/resource/manager.go:604 | trimmed text has no trimmed character at either end |
| `GoStrings.TrimCutsExactly` | internal/resource/manager.go:604 | trimming takes cut characters off the two ends and nothing else |
| `GoStrings.ByteLengthIsEncoded` | internal/security/validator.go:85-87 | the length that the policy limits is the number of bytes in UTF-8 |
| `Validator.AnnotationValidator.ValidateAnnotationKey` | internal/security/validator.go:79-121 | a key passes exactly if the policy accepts it; otherwise exactly which check is reported: empty, too long, the first denied prefix, the missing required prefix, no allowed prefix, or bad format |
| `Validator.AcceptedIsPlain` | internal/security/validator.go:152-212 | under every prefix policy, an accepted key has no white space, no bracket and at most one slash |
| `KeyShapes.SubdomainExactly` | internal/security/validator.go:152-212 | a key has the right format if and only if it is a label of 1 to 63 lower-case letters, digits and inner hyphens, or such a label behind a slash and a domain name, or nothing, in front of it |
| `ManagedKeys.DefaultAcceptsExactly` | internal/security/validator.go:40-121 | the default policy accepts exactly the labels that begin with "managed-" behind "scheduler.k8s.io/" |
| `Tracking.GetAppliedAnnotations` | internal/resource/manager.go:681-708 | the listed keys are the non-empty trimmed keys on record |
| `Tracking.RoundTripExactly` | internal/resource/manager.go:525 | bracket-trim and split give an encoded list back if and only if the list is recordable |
| `Tracking.ValidatedKeysRoundTrip` | internal/resource/manager.go:694-707 | every list of keys that any validator accepts is read back the same by all three readers |
| `Tracking.TrackingKeyInjective` | internal/resource/manager.go:505 | two rules never share a tracking annotation |
| `Tracking.PlainIsNotTracking` | internal/resource/manager.go:976 | no plain key is the tracking annotation of a rule named namespace/name |
| `Tracking.DefaultNeverAcceptsTracking` | internal/security/validator.go:40-76 | the default policy accepts no rule's tracking annotation as a key |
| `Engine.RecordDecodes` | internal/resource/manager.go:993-997 | writing a list of plain keys gives a well-formed entry that decodes to the list |
| `Engine.DecodeIsInjective` | internal/resource/manager.go:976-985 | well-formed annotations are determined by their values and the list on record |
| `Engine.TrackRefines` | internal/resource/manager.go:973-997 | tracking a key puts it on record once, at the end, and changes nothing else |
| `Engine.TrackWritesText` | internal/resource/manager.go:973-997 | the text of the entry: a first key alone in brackets, each further one behind a space, under "scheduler.k8s.io/rule-" and the rule's ID and "-annotations" |
| `Engine.UntrackRefines` | internal/resource/manager.go:1000-1022 | untracking takes a key off the record and drops the entry with the last key |
| `Engine.OperationsRefine` | internal/resource/manager.go:865-949 | a run of group operations keeps the tracking entry well formed and does to values and record what the sequence of puts and deletes does |
| `Engine.ApplyRefines` | internal/resource/manager.go:508-526 | legacy apply overlays the values and replaces the record |
| `Engine.BatchRefines` | internal/resource/manager.go:594-658 | batch removal on the text is batch removal on values and record |
| `Engine.RemovalsRefine` | internal/resource/manager.go:1138-1147 | so is removal of one key at a time, re-encoding after each |
| `Ledgers.RemoveEachStrips` | internal/resource/manager.go:1138-1147 | removing keys in turn deletes exactly the listed keys that are present and on record |
| `Ledgers.PerformAllIsSteps` | internal/resource/manager.go:825-838 | what becomes of a key under a run of operations is decided by its own state and its own operations |
| `Ledgers.RemoveUndoesPutsExactly` | internal/resource/manager.go:1138-1147 | removal undoes a run of puts if and only if every put key was off record and absent, or protected from each put by the policy |
| `Removal.RemovalsAgreeExactly` | internal/resource/manager.go:597-665 | batch removal and one-at-a-time removal store the same map if and only if nothing is removable or every listed key on record is present |
| `Removal.RemovalFrame` | internal/resource/manager.go:608-658 | both removals delete exactly the listed keys on the rule's record and change nothing else but the rule's entry |
| `Removal.RemoveUndoesApplyExactly` | internal/resource/manager.go:508-526 | legacy remove after legacy apply restores the map, in any iteration orders, if and only if the keys and the entry were absent |
| `Removal.GroupRemoveUndoesGroupApplyExactly` | internal/resource/manager.go:904-921 | group remove after a group of applies restores the map, repeated keys and "skip" included, if and only if every key was off record and either absent or kept by "skip" from every operation on it |
| `Ownership.StepStaysInReach` | internal/resource/manager.go:904-942 | a step changes only keys that it applies and, of those it removes, keys on its own rule's record, a group's "remove" operations included; no step changes another rule's tracking entry, and all entries stay well formed |
| `Ownership.RunsKeepOwnership` | internal/resource/manager.go:904-942 | the same over runs of any number of rules: a key that no step applies, or removes while it is on its rule's record, and the record of a rule that takes no step, stay as they were |
| `Ownership.RunsKeepTrackedPresent` | internal/resource/manager.go:973-1041 | over runs of rules with disjoint keys every tracked key stays present |
| `Ownership.StepIsLocal` | internal/resource/manager.go:504-526 | a step reads and changes nothing but its own entry and plain listed keys |
| `Ownership.StepsCommute` | internal/resource/manager.go:504-526 | steps of two rules with disjoint keys commute exactly |
| `StoreRuns.TaskCommitIsStep` | internal/resource/manager.go:494-678 | every commit of a legacy call that passed its checks is an allowed step of its rule on the keys of the call |
| `StoreRuns.TaskAddsSteps` | internal/resource/manager.go:402-417 | all commits of a legacy call are explained by allowed steps of its rule, one for each |
| `StoreRuns.GroupCommitIsStep` | internal/resource/manager.go:840-846 | every commit of a group is a step of its rule or keeps the annotations |
| `StoreRuns.RemovalCommitIsStep` | internal/resource/manager.go:1138-1153 | every commit of a group's removal is a step of its rule or keeps the annotations |
| `StoreRuns.GroupsAddSteps` | internal/resource/manager.go:746-757 | all commits of a call for several groups are explained by allowed steps of its rule, one for each |
| `StoreRuns.RemovalsAddSteps` | internal/resource/manager.go:1090-1095 | so are all commits of a call that removes several groups |
| `StoreRuns.CommitIsNextState` | internal/resource/manager.go:533 | a commit leads from one state of the object's history to the next |
| `StoreRuns.StoreRunsKeepOwnership` | internal/resource/manager.go:904-942 | over states of an object that are each led to by a rule's allowed step or by another client, a key that has changed was changed by another client or by a rule that owns it at that moment |
| `StoreRuns.ServerKeepsOwnership` | internal/resource/manager.go:904-942 | the same for the history and the commits of the server, as calls have made them: no commit to the object is left out, and what no commit explains is another client's |
| `GroupOrder.AnySortGivesTheSameResult` | internal/resource/manager.go:815-841 | for every order that the unstable sort may produce: same values, same tracked keys, same decision to write, if equal priority and key mean equal operations |
| `GroupOrder.DescendingIsUnique` | internal/resource/manager.go:817-819 | a multiset of operations with distinct priorities has one descending order |
| `GroupOrder.LowestPriorityWins` | internal/resource/manager.go:957-960 | a key applied more than once gets the expanded value of a lowest-priority operation under every overriding policy, and of a highest-priority one, or its old value, under "skip" |
| `GroupOrder.TieLeavesTheValueOpen` | internal/resource/manager.go:817-819 | two applies of different values with equal key and priority may be sorted either way, with different results |
| `OperationLaws.ErrorExactly` | internal/resource/manager.go:872-896 | which error an operation has: of its key, or else of its expanded value, or else of its action |
| `OperationLaws.OperationExactly` | internal/resource/manager.go:865-949 | in terms of the operation's fields: an operation that passes stores its expanded value under its key, unless the policy is "skip" and the key is there, or removes its key if that is on record; every other annotation, and everything if it does not pass, stays |
| `OperationLaws.NewValuesPass` | internal/resource/manager.go:865-949 | whatever a run of operations newly sets has passed the checks and is the expanded value of an operation on that key |
| `GroupLaws.GroupPlanExactly` | internal/resource/manager.go:801-862 | a group writes exactly if it has an operation and all pass; what it newly sets is the expanded value of one of them |
| `GroupLaws.SuccessIsAcceptable` | internal/resource/manager.go:840-862 | a resource is a success only if every operation passes, and is written exactly if there is one |
| `GroupLaws.GroupRemovalExactly` | internal/resource/manager.go:1099-1156 | removing a group takes off exactly the keys of its operations that are on the rule's record |
| `Cluster.ApiServer.Update` | internal/resource/manager.go:533 | the answer is decided by the store when the request is served: accepted on the stored version alone, and then the commit replaces exactly the state stored at that moment; an error leaves the store as it was |
| `Cluster.ApiServer.Get` | internal/resource/manager.go:541 | overwrites the client's object with the state stored when the request is served, or reports a fault or a missing object and leaves it |
| `Stores.QuietOutlook` | internal/resource/manager.go:1044-1067 | with nobody else about, an update loop succeeds if and only if the object is there: at the first update on its stored version, at the second otherwise |
| `Stores.LoopEndsExactly` | internal/resource/manager.go:1044-1067 | an update loop succeeds if and only if one of its tries is accepted, each before it having met a conflict, and ends with a conflict if and only if all its tries have met one |
| `Manager.ThreeTries` | internal/resource/manager.go:531-574 | both loops have three tries: success at one of the three, and a conflict reported only when the third has met one |
| `Stores.UpdateIsAdjacent` | internal/resource/manager.go:533 | an accepted update and the state it replaces are neighbours in the history of the object |
| `Stores.WritesKeepAdjacent` | internal/resource/manager.go:533 | no later write of another client comes between a commit and the state it replaced |
| `Manager.Overlay` | internal/resource/manager.go:508-520 | in every iteration order the target becomes the old annotations overlaid with the rule's, and the order lists each key once |
| `Manager.ApplyRound` | internal/resource/manager.go:531-574 | one round of the apply loop: a commit that replaces the very state it was prepared from, or a conflict and a copy prepared anew from the refetched state; how the loop goes on from there |
| `Manager.ApplyAnnotationsToResource` | internal/resource/manager.go:494-579 | no lost update: whatever other clients do, nil means exactly one commit, adjacent in the object's history to the state it replaced and equal to it overlaid with the rule's annotations and entry; an error means no commit; error and number of updates are decided by the store and the script of the others; a conflict is reported only after three updates; with nobody else about it succeeds if and only if the object is there |
| `Manager.RemoveApplied` | internal/resource/manager.go:608-628 | deletes and counts exactly the listed keys that are present and on record |
| `Manager.Remaining` | internal/resource/manager.go:633-647 | the trimmed record less the listed keys, in order |
| `Manager.RemoveAnnotationsFromResource` | internal/resource/manager.go:582-678 | one update if and only if a listed key is removable, whose answer is the result; success replaces the state the client held by its batch removal; an error stores nothing |
| `Manager.TrackAnnotationApplication` | internal/resource/manager.go:973-997 | the annotations become those with the key tracked |
| `Manager.UntrackAnnotationApplication` | internal/resource/manager.go:1000-1022 | the annotations become those with the key untracked |
| `Manager.Names` | internal/resource/manager.go:1025-1041 | whether a recorded list, trimmed, names a key |
| `Manager.ApplyAnnotationOperation` | internal/resource/manager.go:865-949 | the new annotations and the whole report of an operation, errors, skips and old values included |
| `Manager.UpdateResourceWithRetry` | internal/resource/manager.go:1044-1067 | error and number of updates are decided by the store and the others; success commits the client's change if the first update is accepted and takes the version held out of date, and leaves the state as it was otherwise; a conflict is reported only after three updates; with nobody else about it succeeds if and only if the object is there |
| `Groups.RunOperations` | internal/resource/manager.go:825-838 | the sorted operations one after the other, one report each on the annotations that the earlier ones left, and an error exactly if one of them is invalid |
| `Groups.ApplyAnnotationOperationsToResource` | internal/resource/manager.go:801-862 | success if and only if every operation is valid and, if there is one, the update loop succeeds; then one commit, of their effect if the first update is accepted and of nothing otherwise; all reports and the error, also when the update fails |
| `Groups.Aggregate` | internal/resource/manager.go:777-794 | one resource's result added to the group's: counts, flags, reports, the error that is kept, and when an atomic group stops |
| `Groups.ApplyAnnotationGroup` | internal/resource/manager.go:761-798 | attempt after attempt, each as planned, with the commits of the successful ones (`Attempts.RunMeans`); the count, all reports, and the error of the first failure; success means all; an atomic group attempts just the prefix up to its first failure; with nobody else about, a quiet run, which decides exactly which attempts succeed and which change their object (`QuietWorld.QuietRunMeans`) |
| `Groups.ApplyGroupsInTurn` | internal/resource/manager.go:746-757 | of all the groups run on one snapshot at most one changes any one resource, whatever other clients do; the commits are those of the runs, in order and as planned; with nobody else about, quiet runs, which decide exactly which group changes what (`QuietWorld.QuietRunsMean`) |
| `QuietWorld.FirstEffectiveRunChanges` | internal/resource/manager.go:746-757 | with nobody else about, a group changes a resource if and only if its plan would change the snapshot and no earlier group that attempted the resource had such a plan; it reports success if and only if its operations are valid |
| `QuietWorld.QuietRunMeans` | internal/resource/manager.go:769-797 | what attempt after attempt comes to with nobody else about: exactly which succeed, which change their object, and which states are still the stored ones |
| `QuietWorld.QuietRunsMean` | internal/resource/manager.go:746-757 | the same for group after group over one snapshot |
| `ManagedKeys.ManagedKeysAreAccepted` | internal/security/validator.go:40-76 | the default policy, with which the manager is always built, accepts "scheduler.k8s.io/managed-a" and "scheduler.k8s.io/managed-b" |
| `Groups.SecondGroupIsLost` | internal/resource/manager.go:1053-1060 | two groups that set different keys of one resource, any keys that the validator accepts, are both reported as successes, and the second key is not there |
| `Groups.RemoveAnnotationKeysFromResource` | internal/resource/manager.go:1130-1156 | an error if and only if a key is removable and the update loop ends with that error; success commits the removals if the first update is accepted, and nothing otherwise |
| `Groups.RemoveInTurn` | internal/resource/manager.go:1137-1147 | the copy becomes the removals' result, and the count is positive exactly if it changed |
| `Groups.RemoveAnnotationGroup` | internal/resource/manager.go:1099-1127 | attempts every resource in turn, each as planned, and counts the successes; with nobody else about, a quiet run, which decides exactly which attempts change their object |
| `Groups.RemoveGroupsInTurn` | internal/resource/manager.go:1090-1095 | of all the groups removed from one snapshot at most one changes any one resource; with nobody else about, exactly which |
| `Groups.AttemptResource` | internal/resource/manager.go:769-775 | one resource of a group: the attempt goes as planned, is written only on success, and takes over from the newest version if it changes annotations |
| `Attempts.RunMeans` | internal/resource/manager.go:769-797 | a run of such attempts: its commits are those of the attempts, in order and each on its own resource, and every attempt that changed annotations took over from the newest version |
| `Attempts.SuccessesBound` | internal/resource/manager.go:792-794 | the count of successes equals the number of attempts exactly if all succeeded |
| `CacheModel.CacheKey` | internal/resource/cache.go:188-197 | a generated key is never empty, so that "" can stand for none |
| `CacheModel.CacheKeyInjective` | internal/resource/cache.go:188-197 | proper queries with one cache key have the same namespace, types and selector text |
| `CacheModel.InconvertibleSharesKey` | internal/resource/cache.go:189-194 | an inconvertible selector has the cache key of the empty one |
| `CacheModel.ListsExactly` | internal/resource/manager.go:150-175 | an object is listed, as it is stored, if and only if its type is supported and among the query's, its namespace fits, and its labels match the query's selector |
| `CacheModel.StoredIsBounded` | internal/resource/cache.go:101-104 | storing keeps at most max(1, maxEntries) entries |
| `CacheModel.StoredIsCoherent` | internal/resource/cache.go:95-120 | storing a fresh listing keeps every entry equal to what a listing would return now |
| `CacheModel.InvalidationRestoresCoherence` | internal/resource/cache.go:123-147 | after a write in one namespace, invalidating that namespace makes every remaining entry right again |
| `CacheModel.CacheIsTransparent` | internal/resource/manager.go:105-147 | in any run of queries, writes, expiry, eviction and invalidation a query is answered as an uncached listing would answer it at that moment, and the size bound holds |
| `Staleness.AnswersAreNotTooOld` | internal/resource/cache.go:64-92 | when anybody changes any objects and nothing is invalidated, every answer is the listing of now or one of a moment no longer ago than the time to live |
| `CacheModel.ListingsAgreeExactly` | internal/resource/manager.go:150-175 | two states of the store have the same listing for a query if and only if for each supported type the same objects are selected, in the same states |
| `CacheModel.RightAfterWriteExactly` | internal/resource/manager.go:420-423 | after a write in a namespace an accurate entry answers rightly if and only if it was invalidated, has expired, or the write left the objects that the query selects and their states |
| `CacheModel.RightAfterGroupWriteExactly` | internal/resource/manager.go:749-757 | after a group write an accurate entry answers rightly if and only if it has expired or the write left the objects that the query selects and their states |
| `Cache.CopyAll` | internal/resource/cache.go:84-88 | fresh copies with the same contents |
| `Cache.ResourceCache.GetCachedResources` | internal/resource/cache.go:64-92 | a hit exactly on an unexpired entry of the key, as fresh copies; the contents are unchanged, and hits plus misses count the lookups |
| `Cache.ResourceCache.FindOldest` | internal/resource/cache.go:200-210 | in every iteration order, an entry of minimal time, and "" exactly for an empty cache |
| `Cache.ResourceCache.EvictOldestEntry` | internal/resource/cache.go:200-216 | one oldest entry goes, if there is any, and is counted |
| `Cache.ResourceCache.CacheResources` | internal/resource/cache.go:95-120 | evicts an oldest entry exactly if the cache is full, then stores private copies, within the bound |
| `Cache.ResourceCache.KeysToInvalidate` | internal/resource/cache.go:127-139 | exactly the keys that match the namespace and the type |
| `Cache.ResourceCache.InvalidateCache` | internal/resource/cache.go:123-147 | exactly the entries that do not match survive |
| `Cache.ResourceCache.ExpiredKeys` | internal/resource/cache.go:154-160 | exactly the keys of expired entries |
| `Cache.ResourceCache.InvalidateExpiredEntries` | internal/resource/cache.go:150-168 | exactly the unexpired entries survive, and the others are counted as evictions |
| `Cache.ResourceCache.ClearCache` | internal/resource/cache.go:179-185 | no entry survives |
| `Discovery.ListOneType` | internal/resource/manager.go:150-175 | the selected objects of the store when the request is served, as fresh resources; nothing for an unsupported type or a failed request |
| `Discovery.QuietFetched` | internal/resource/manager.go:128-139 | with nobody else about the requests for the types of a query return its listing |
| `Discovery.GetMatchingResources` | internal/resource/manager.go:105-147 | the entry that is hit or what the requests return, stored in the cache; fails exactly for an inconvertible selector that misses; every resource is a state the server has been in |
| `Discovery.AnswerIsListing` | internal/resource/manager.go:105-147 | with no other writers, no faults and a coherent cache, the answer is the listing and the cache stays coherent |
| `Discovery.ListedInNamespace` | internal/resource/manager.go:155-158 | a listing in a namespace returns objects of that namespace alone |
| `Selection.AnswerIsSelected` | internal/resource/manager.go:105-147 | whatever other clients do, and through the cache too, a query is answered with states that it selects by type, namespace and labels |
| `Selection.TaskWritesSelected` | internal/resource/manager.go:376-491 | a legacy call commits to no object but those its query selects |
| `Selection.GroupsWriteSelected` | internal/resource/manager.go:726-758 | nor does a call for groups, or their removal |
| `Tasks.RunTask` | internal/resource/manager.go:376-491 | ApplyAnnotations and RemoveAnnotations: the resources are the answer to the query, each is attempted, the commits are those of the successful attempts with the task's effect; the cache is what the query left, without the entries of the namespace once a resource was attempted; which error is returned when; an empty call does nothing, and an apply with a key or a value that does not pass its check is an error and changes neither the store nor the cache; when things are settled they stay so, an apply succeeds, and a removal too if no object is listed twice |
| `CheckedValues.TaskKeepsChecked` | internal/resource/manager.go:390-393 | whatever other clients do, every value that a legacy call newly commits has passed the checks of key and value, or is a tracking entry |
| `CheckedValues.GroupsKeepChecked` | internal/resource/manager.go:872-892 | so has every value that a call for groups newly commits, expanded as it is |
| `CheckedValues.RemovalsKeepChecked` | internal/resource/manager.go:1130-1156 | the removal of groups commits no new value at all |
| `Tasks.AttemptAll` | internal/resource/manager.go:402-417 | every resource is attempted and failures are counted; with nobody else about an apply fails only on a missing object |
| `Tasks.ApplyAnnotationGroups` | internal/resource/manager.go:726-758 | the resources are the answer to the query, every group is run on them unless there is none, with its result accounted for; at most one group changes any one resource; nothing is invalidated, so that when things were settled the query's entry is wrong afterwards if and only if an attempt changed its object |
| `Tasks.RemoveAnnotationGroups` | internal/resource/manager.go:1070-1096 | the same for the removal of groups |
| `Tasks.StaleExactly` | internal/resource/manager.go:749-757 | with nobody else about, groups make the listing that they worked on wrong if and only if an attempt changed its object |
| `Parser.NextExecutionHasAction` | internal/scheduler/parser.go:276-305 | calculating fails exactly on an invalid schedule, and whenever there is a next execution there is an action for it, apply or remove |
| `Parser.ValidExactly` | internal/scheduler/parser.go:47-143 | the shapes of a valid schedule: a start, with any end behind it, or a parsing expression with an action, and nothing of the other kind |
| `Parser.CronNextExactly` | internal/scheduler/parser.go:186-202 | a valid cron schedule always hands out its own action, at the expression's next instant after the recorded execution, or after now if there is none |
| `Parser.DateTimeNextExactly` | internal/scheduler/parser.go:162-183 | apply is next exactly at startTime before the first execution, remove exactly at endTime after an execution at startTime |
| `Parser.ActionsFormPrefix` | internal/scheduler/parser.go:288-305 | over any life of a datetime rule, with increasing recorded times and executions of handed-out tasks only, the actions handed out form a prefix of apply, remove; none follows a recorded time after startTime |
| `Parser.PrefixFailsExactly` | internal/scheduler/parser.go:162-183 | of all lives with increasing recorded times, the prefix fails in exactly those in which the first query to get an action comes when the recorded time is startTime already |
| `Parser.RemoveWithoutApply` | internal/scheduler/parser.go:176 | such a life: a rule with startTime recorded before it was ever scheduled gets a remove and no apply |
| `Parser.RemoveNeedsTheExactStart` | internal/scheduler/parser.go:176 | remove is handed out if and only if the recorded time equals startTime and endTime is ahead |
| `SchedulerModel.EveryRunIsGood` | internal/scheduler/scheduler.go:277-360 | every run: queue within capacity, tokens equal to workers inside execution, first in first out, each task taken as often as executed, abandoned or in hand, all tasks installed, none early |
| `SchedulerModel.NoEarlyOrInventedExecution` | internal/scheduler/scheduler.go:325-343 | each execution starts at an event of the run, less than 60 seconds before its time at most, with the task, action, time and payload that some rule's schedule asked for at an earlier event, at the clock of that moment |
| `SchedulerModel.TaskForExactly` | internal/scheduler/scheduler.go:120-177 | the task of a rule, field by field: a cron rule's own action at the next instant, a datetime rule's apply at its start and remove at its end |
| `SchedulerModel.UncancelledExecutesAll` | internal/scheduler/scheduler.go:310-360 | without cancellation no worker leaves, and every task taken off the queue was executed or is in a worker's hands |
| `SchedulerModel.AcquiringNeverWaits` | internal/scheduler/scheduler.go:327-328 | a worker that has taken a task always finds a free slot |
| `SchedulerModel.ReleasingNeverWaits` | internal/scheduler/scheduler.go:328 | a worker that is done always finds a token to give back |
| `SchedulerModel.EntryChangesOnlyBy` | internal/scheduler/scheduler.go:142-184 | a rule's entry changes only by scheduling it with a valid schedule, by unscheduling it, or at the end of an execution with its ID, and what it becomes |
| `SchedulerModel.EntryDecidedExactly` | internal/scheduler/scheduler.go:142-184 | a rule has a task at the end of a run if and only if it had it and nothing decided the entry, or the last event to decide it scheduled the rule with that task |
| `SchedulerModel.PendingIsOffered` | internal/scheduler/scheduler.go:289-303 | between ticks the offers to the queue are the collected tasks, in order |
| `SchedulerModel.DueTaskIsNotLost` | internal/scheduler/scheduler.go:277-303 | every task whose time is less than 60 seconds away at a tick is offered; accepted or dropped, its entry stays unless something decides it |
| `SchedulerModel.QueuedAgainExactly` | internal/scheduler/scheduler.go:277-303 | a task of one tick is offered at a later tick too if and only if in between nothing decided its rule's entry, or the last event to do so scheduled the rule with the same task |
| `SchedulerModel.QueuedTwiceFromStart` | internal/scheduler/scheduler.go:282-287 | a run from the start of a scheduler in which one task is queued twice before it is executed |
| `SchedulerModel.SurvivesExactly` | internal/scheduler/scheduler.go:355-359 | a replacement is there after the end of an execution of its rule if and only if the rule was scheduled with it after that |
| `SchedulerModel.ReplacementDroppedFromStart` | internal/scheduler/scheduler.go:355-359 | a run from the start of a scheduler in which a task that replaced another during its execution is dropped without having been offered |
| `Scheduler.TimeScheduler.ScheduleRule` | internal/scheduler/scheduler.go:120-177 | takes the model's step; fails exactly on an invalid schedule, with its defect, and then changes nothing; otherwise the rule's entry, and no other, becomes the task that its schedule asks for, or goes |
| `Scheduler.TimeScheduler.UnscheduleRule` | internal/scheduler/scheduler.go:180-187 | exactly the rule's entry goes |
| `Scheduler.TimeScheduler.Start` | internal/scheduler/scheduler.go:190-210 | the first start launches one loop and ten workers; every later one fails and launches nothing |
| `Scheduler.TimeScheduler.GetNextExecutionTime` | internal/scheduler/scheduler.go:233-243 | the entry's time, or an error exactly if there is no entry |
| `Scheduler.TimeScheduler.GetScheduledTaskCount` | internal/scheduler/scheduler.go:246-251 | the number of rules with an entry |
| `Scheduler.TimeScheduler.DueTasks` | internal/scheduler/scheduler.go:278-288 | in every iteration order, each due task once and no other |
| `Scheduler.TimeScheduler.OfferTask` | internal/scheduler/scheduler.go:291-302 | a task is queued last if there is room, and dropped otherwise |
| `Scheduler.TimeScheduler.CheckAndQueueTasks` | internal/scheduler/scheduler.go:277-304 | a tick with nothing in between queues as many due tasks as fit, offers all, and touches no entry |
| `Scheduler.TimeScheduler.TakeTask` | internal/scheduler/scheduler.go:318-319 | a worker gets the oldest task of the queue |
| `Scheduler.TimeScheduler.AcquireSlot` | internal/scheduler/scheduler.go:327-328 | never waits, and at most ten slots are taken |
| `Scheduler.TimeScheduler.ExecuteTask` | internal/scheduler/scheduler.go:343 | the executor is given an installed task, unchanged, less than a minute early at most |
| `Scheduler.TimeScheduler.DeleteExecuted` | internal/scheduler/scheduler.go:355-359 | drops whatever entry the executed task's rule has |
| `Scheduler.TimeScheduler.ReleaseSlot` | internal/scheduler/scheduler.go:328 | gives one token back and never waits |
| `Backoff.JitterIsOneSided` | internal/errors/handler.go:219 | the jitter factor is -1 at every clock reading, 64-bit wrap-around included |
| `Backoff.CalculateDelay` | internal/errors/handler.go:202-228 | the delay is a function of configuration and attempt, independent of the clock |
| `Backoff.DelaysNeverShrink` | internal/errors/handler.go:207-212 | delays are non-decreasing in the attempt |
| `Backoff.AtMostMaxDelayExactly` | internal/errors/handler.go:210-226 | a delay is at most the maximum if and only if the maximum is not negative or there is no jitter |
| `Backoff.AtLeastNineTenthsExactly` | internal/errors/handler.go:217-226 | a delay is at least nine tenths of the smaller of base and maximum if and only if the maximum is not negative or there is jitter |
| `Backoff.DelaysReachTheCap` | internal/errors/handler.go:207-212 | with a factor above 1 delays stay at the cap from some attempt on |
| `Backoff.WholeDelays` | internal/errors/handler.go:202-228 | with a whole factor, the delay in closed form: the base delay times the power of the factor, up to the maximum, less the jitter |
| `Backoff.FirstDelay` | internal/errors/handler.go:207-212 | whatever the factor, the first retry waits the base delay, or the maximum if that is less |
| `Backoff.DelayFollowsGrowth` | internal/errors/handler.go:207-212 | each retry multiplies the growth by the factor, and a delay below the maximum is that growth in whole nanoseconds |
| `Retry.ShouldRetry` | internal/errors/handler.go:185-199 | retry exactly before the last attempt and for a retryable category |
| `Retry.RetryWithBackoff` | internal/errors/handler.go:231-290 | the whole trace of the loop: runs, delays, result, cancellation |
| `Retry.RetryWithBackoffAndCondition` | internal/errors/handler.go:293-347 | the same with the caller's condition |
| `Retry.LoopsAgree` | internal/errors/handler.go:231-347 | loops whose conditions agree on the failures before the last attempt have the same trace; so the two loops agree given ShouldRetry |
| `Retry.RunsAreBounded` | internal/errors/handler.go:293-347 | one to maxRetries + 1 runs, nil exactly if the last succeeded, every earlier one failed retryably, and when the loop gives up |
| `Retry.UsesEveryRunExactly` | internal/errors/handler.go:231-290 | all runs are used up if and only if each before the last failed retryably and was not cancelled |
| `Retry.TotalWaitIsBounded` | internal/errors/handler.go:270-287 | all waits of a call together take at most maxRetries times the maximum delay |
| `Retry.WaitsNeverShrink` | internal/errors/handler.go:270-287 | no wait of a call is shorter than an earlier one |
| `Scanner.ReplaceAll` | internal/templating/engine.go:73-80 | the loop computes leftmost, non-overlapping substitution |
| `Scanner.SubstituteRendersSegments` | internal/templating/engine.go:73-80 | the text is cut into characters and matches, whatever the replacement, and only matches are rewritten |
| `Scanner.SegmentsAreLeftmost` | internal/templating/engine.go:73-80 | each hole is the match at its offset, and no match begins at a kept character |
| `Template.ProcessTemplate` | internal/templating/engine.go:60-94 | the second pass over the result of the first |
| `Template.PassRewritesBoundHoles` | internal/templating/engine.go:71-91 | a pass rewrites the bound matches of the leftmost cut and keeps everything else byte for byte |
| `Rendering.MatchesExactly` | internal/templating/engine.go:71-91 | a pass matches exactly where an opening, a name without a closing brace, and the closing stand |
| `Rendering.PassIsRendered` | internal/templating/engine.go:71-91 | a pass, read off the text: each match is replaced by the value of its variable if it has one, and everything else is copied |
| `Rendering.ProcessedIsExpansion` | internal/templating/engine.go:60-94 | processing is the two readings, one after the other |
| `Rendering.BoundNameIsReplaced` | internal/templating/engine.go:60-94 | a bound name in either kind of braces comes to its value |
| `Template.UnboundIsKept` | internal/templating/engine.go:78-79 | a text with unbound matches only is kept |
| `Template.NonTemplateIsKept` | internal/templating/engine.go:247-252 | a text that is not a template is not changed |
| `Template.NoNewMatch` | internal/templating/engine.go:71-91 | with inert values, rewriting creates no match at a character where there was none |
| `Template.PassIsIdempotent` | internal/templating/engine.go:71-91 | each pass is idempotent for non-empty values free of the characters `$`, `{` and `}` |
| `Template.TwiceIsOnceExactly` | internal/templating/engine.go:60-94 | processing twice is processing once if and only if no hole of the first pass in the result is bound |
| `Template.IdempotentWithoutNesting` | internal/templating/engine.go:60-94 | processing is idempotent on every template whose unbound holes of the first pass have no opening of the second in their names |
| `Template.TwoPassesAreNotIdempotent` | internal/templating/engine.go:71-91 | a concrete template, not validated, that the two passes change again when run a second time |
| `TemplateValidation.ValidateTemplate` | internal/templating/engine.go:97-130 | passes exactly the well-formed templates; which check is reported otherwise, with the name of the first invalid match |
| `TemplateValidation.AcceptedExactly` | internal/templating/engine.go:97-130 | a template is accepted if and only if behind every opening, wherever it stands, there is a closing brace and, if the opening is closed, a valid name |
| `TemplateValidation.ValidatedIsIdempotent` | internal/templating/engine.go:97-130 | processing is idempotent on every template that the check accepts, for inert values |
| `TemplateValidation.NestedExampleIsRejected` | internal/templating/engine.go:97-130 | the check rejects the template that the passes change twice |

## Left out

- Scheduler.TimeScheduler.CheckAndQueueTasks: a tick as one uninterrupted run, because a method cannot be interleaved; SchedulerModel covers a tick with other steps between its offers.
- Groups.RemoveAnnotationGroup: reports of single operations are not modelled, because the source makes none for removals.
- The API server behind `Cluster.ApiServer` is a versioned store with the optimistic rule; admission, schemas, and fields other than labels and annotations are not modelled, and requests are atomic.
- Label matching and the canonical text of a selector are parameters; conversion of a selector is one flag.
- The cron library is a parameter: which expressions it parses, and the next instant.
- Clocks are parameters or a non-decreasing ghost clock; sleeping between update attempts is left out.
- Strings are sequences of code points, with byte lengths where the validator counts bytes; Unicode beyond the white space of TrimSpace plays no part.
- A nil annotation map is the empty map.
- Durations and the delay's floating point are integers and reals, without rounding errors.
- The content check of annotation values and the construction of template variables are parameters of the group path.
- Which category an error has is an input of the retry loops; the tables of error texts are left out.
- Error texts, logging, audit events, metrics, rate limiting, configuration loading, leader election and health checks are left out.
- Stop and restart of the scheduler are not modelled: one Start, and cancellation by the context. Stop waits with the lock held, so freedom from deadlock is not claimed.
- The scheduler's lock is not modelled: each critical section is one step.
- A task runs on the executor as one step at which its start is recorded; what it does to resources is in the other component, and the controller between them is left out.
- internal/resource/cleanup.go and internal/controller are left out: the former's recovery of rule IDs drops a part of the ID, the latter is orchestration.
- internal/errors/recovery.go and internal/security/config.go are left out: field checks with no state.
- A cache lookup and the listing behind it are one sequential run; concurrent use of the cache is not modelled.
