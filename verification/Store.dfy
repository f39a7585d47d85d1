/** The store behind the API server as a value: its objects and their versions, what other clients do
    to it between requests, and what becomes of an update. */
module Stores {
  import opened Tracking
  import opened Wrappers

  datatype ObjectKey = ObjectKey(kind: string, namespace: string, name: string)

  /** One version of an object: its annotations, and its labels for everything else in it. */
  datatype Snapshot = Snapshot(version: nat, labels: map<string, string>, annotations: Annotations)

  type Objects = map<ObjectKey, Snapshot>

  /** An object with a state of it. */
  type Item = (ObjectKey, Snapshot)

  /** Every state that an object has been in, by version. */
  type History = map<(ObjectKey, nat), Snapshot>

  /** For each object the newest version that it has ever had. */
  type Newest = map<ObjectKey, nat>

  datatype Store = Store(objects: Objects, revision: nat, history: History, newest: Newest)

  const EMPTY := Store(map[], 0, map[], map[])

  /** A write that another client commits. */
  datatype OtherWrite =
    | Put(key: ObjectKey, labels: map<string, string>, annotations: Annotations)
    | Drop(key: ObjectKey)

  /** What happens just before a request is served: writes of other clients, and possibly a fault that
      makes the request fail without any effect. */
  datatype Turn = Turn(others: seq<OtherWrite>, fault: bool)

  datatype ApiError = Conflict | NotFound | Fault

  /** An update that the resource manager has committed. */
  datatype Commit = Commit(key: ObjectKey, before: Snapshot, after: Snapshot)

  /** The store with a new version of an object; a version is never used twice. */
  function Written(s: Store, key: ObjectKey, labels: map<string, string>, annotations: Annotations): Store {
    var version := s.revision + 1;
    var snapshot := Snapshot(version, labels, annotations);
    Store(s.objects[key := snapshot], version, s.history[(key, version) := snapshot], s.newest[key := version])
  }

  function AfterWrite(s: Store, w: OtherWrite): Store {
    match w
    case Put(key, labels, annotations) => Written(s, key, labels, annotations)
    case Drop(key) => s.(objects := s.objects - {key})
  }

  function AfterWrites(s: Store, others: seq<OtherWrite>): Store
    decreases others
  {
    if others == [] then s else AfterWrites(AfterWrite(s, others[0]), others[1..])
  }

  /* The script of the turns to come; nothing happens any more when it has run out. */

  /** The store when the next request is served. */
  function Arrival(s: Store, script: seq<Turn>): Store {
    if script == [] then s else AfterWrites(s, script[0].others)
  }

  predicate Faulty(script: seq<Turn>) {
    script != [] && script[0].fault
  }

  function Rest(script: seq<Turn>): seq<Turn> {
    if script == [] then [] else script[1..]
  }

  /** No other client writes, and no request fails for a reason of its own. */
  predicate QuietScript(script: seq<Turn>) {
    forall t | t in script :: t.others == [] && !t.fault
  }

  lemma QuietArrival(s: Store, script: seq<Turn>)
    requires QuietScript(script)
    ensures Arrival(s, script) == s && !Faulty(script) && QuietScript(Rest(script))
  {
    if script != [] {
      assert script[0] in script;
    }
  }

  /* Requests. */

  function GetError(s: Store, script: seq<Turn>, key: ObjectKey): Option<ApiError> {
    if Faulty(script) then Some(Fault) else if key !in Arrival(s, script).objects then Some(NotFound) else None
  }

  /** An update is accepted on the stored version alone. */
  function UpdateError(s: Store, script: seq<Turn>, key: ObjectKey, version: nat): Option<ApiError> {
    if GetError(s, script, key).Some? then GetError(s, script, key)
    else if Arrival(s, script).objects[key].version != version then Some(Conflict)
    else None
  }

  /** The store after an accepted update; one that changes nothing makes no new version. */
  function Updated(s: Store, key: ObjectKey, labels: map<string, string>, annotations: Annotations): Store
    requires key in s.objects
  {
    if s.objects[key].labels == labels && s.objects[key].annotations == annotations then s
    else Written(s, key, labels, annotations)
  }

  /** How a loop ends that updates, and refetches after a conflict, for a number of rounds; and how many
      updates it makes. */
  datatype Outcome = Outcome(err: Option<ApiError>, updates: nat)

  function Outlook(s: Store, script: seq<Turn>, key: ObjectKey, version: nat, rounds: nat): (outcome: Outcome)
    ensures 1 <= outcome.updates <= if rounds > 1 then rounds else 1
    decreases rounds
  {
    var err := UpdateError(s, script, key, version);
    if rounds <= 1 || err != Some(Conflict) then Outcome(err, 1)
    else
      var s', script' := Arrival(s, script), Rest(script);
      if GetError(s', script', key).Some? then Outcome(GetError(s', script', key), 1)
      else
        var fetched := Arrival(s', script');
        var later := Outlook(fetched, Rest(script'), key, fetched.objects[key].version, rounds - 1);
        later.(updates := later.updates + 1)
  }

  /** A moment at which an update is about to be made: the store, what is still to happen, and the version held. */
  datatype Moment = Moment(store: Store, script: seq<Turn>, version: nat)

  /** The next try, if this one meets a conflict and the refetch finds the object. */
  function NextTry(m: Moment, key: ObjectKey): Option<Moment> {
    var s, script := Arrival(m.store, m.script), Rest(m.script);
    if UpdateError(m.store, m.script, key, m.version) != Some(Conflict) || GetError(s, script, key).Some? then None
    else Some(Moment(Arrival(s, script), Rest(script), Arrival(s, script).objects[key].version))
  }

  /** The k-th try, if there is one. */
  function Try(m: Moment, key: ObjectKey, k: nat): Option<Moment>
    requires k >= 1
    decreases k
  {
    if k == 1 then Some(m)
    else match NextTry(m, key) case None => None case Some(next) => Try(next, key, k - 1)
  }

  function TryError(m: Moment, key: ObjectKey): Option<ApiError> {
    UpdateError(m.store, m.script, key, m.version)
  }

  /** There is a k-th try, and it is accepted. */
  predicate AcceptedAt(m: Moment, key: ObjectKey, k: nat)
    requires k >= 1
  {
    Try(m, key, k).Some? && TryError(Try(m, key, k).value, key) == None
  }

  /** The loop succeeds exactly if one of its tries is accepted, and it ends with a conflict exactly if all of
      them have met one. */
  lemma {:induction false} LoopEndsExactly(m: Moment, key: ObjectKey, rounds: nat)
    requires rounds >= 1
    ensures var o := Outlook(m.store, m.script, key, m.version, rounds);
      && (o.err == None <==> exists k: nat :: 1 <= k <= rounds && AcceptedAt(m, key, k))
      && (o.err == Some(Conflict) <==>
            Try(m, key, rounds).Some? && TryError(Try(m, key, rounds).value, key) == Some(Conflict))
      && (o.err == Some(Conflict) ==> o.updates == rounds)
      && (o.err == None ==> AcceptedAt(m, key, o.updates))
    decreases rounds
  {
    var o := Outlook(m.store, m.script, key, m.version, rounds);
    assert AcceptedAt(m, key, 1) <==> TryError(m, key) == None;
    match NextTry(m, key)
    case None =>
      assert forall k: nat :: k > 1 ==> !AcceptedAt(m, key, k);
    case Some(next) =>
      assert forall k: nat :: k > 1 ==> (AcceptedAt(m, key, k) <==> AcceptedAt(next, key, k - 1));
      if rounds > 1 {
        LoopEndsExactly(next, key, rounds - 1);
        if later: nat :| 1 <= later <= rounds - 1 && AcceptedAt(next, key, later) {
          assert AcceptedAt(m, key, later + 1);
        }
      }
  }

  /** With nobody else about, the loop succeeds if and only if the object is there: at once on its stored
      version, and otherwise at the second update. */
  lemma QuietOutlook(s: Store, script: seq<Turn>, key: ObjectKey, version: nat, rounds: nat)
    requires QuietScript(script) && rounds >= 2
    ensures Outlook(s, script, key, version, rounds) ==
      if key !in s.objects then Outcome(Some(NotFound), 1)
      else Outcome(None, if s.objects[key].version == version then 1 else 2)
  {
    QuietArrival(s, script);
    QuietArrival(s, Rest(script));
    QuietArrival(s, Rest(Rest(script)));
  }

  /* What a store keeps. */

  ghost predicate Extends(earlier: History, later: History) {
    forall at | at in earlier :: at in later && later[at] == earlier[at]
  }

  ghost predicate Advances(earlier: Newest, later: Newest) {
    forall k | k in earlier :: k in later && earlier[k] <= later[k]
  }

  /** What came later. */
  ghost predicate Follows(later: Store, earlier: Store) {
    && Extends(earlier.history, later.history) && Advances(earlier.newest, later.newest)
    && later.revision >= earlier.revision
  }

  /** The stored objects are at their newest versions. */
  ghost predicate ObjectsAreNewest(s: Store) {
    forall k | k in s.objects ::
      && (k, s.objects[k].version) in s.history && s.history[(k, s.objects[k].version)] == s.objects[k]
      && k in s.newest && s.newest[k] == s.objects[k].version
  }

  /** Every state in the history bears its version, and no version is newer than the newest. */
  ghost predicate HistoryIsBounded(s: Store) {
    forall at | at in s.history :: s.history[at].version == at.1 && at.0 in s.newest && at.1 <= s.newest[at.0]
  }

  ghost predicate NewestIsBounded(s: Store) {
    forall k | k in s.newest :: s.newest[k] <= s.revision
  }

  /** Versions are never reused: each names one state of one object. */
  ghost predicate Consistent(s: Store) {
    ObjectsAreNewest(s) && HistoryIsBounded(s) && NewestIsBounded(s)
  }

  /** A commit replaced the state just before it: its two states have been in the store, and the object
      was in no state between them. */
  ghost predicate Adjacent(c: Commit, history: History) {
    && (c.key, c.before.version) in history && history[(c.key, c.before.version)] == c.before
    && (c.key, c.after.version) in history && history[(c.key, c.after.version)] == c.after
    && c.before.version <= c.after.version
    && forall v | c.before.version < v < c.after.version :: (c.key, v) !in history
  }

  lemma VersionIsNew(s: Store, key: ObjectKey)
    requires Consistent(s)
    ensures (key, s.revision + 1) !in s.history
  {
    assert key in s.newest ==> s.newest[key] <= s.revision;
  }

  lemma WriteKeepsObjects(s: Store, key: ObjectKey, labels: map<string, string>, annotations: Annotations)
    requires Consistent(s)
    ensures ObjectsAreNewest(Written(s, key, labels, annotations))
  {
    VersionIsNew(s, key);
    var w := Written(s, key, labels, annotations);
    forall k | k in w.objects
      ensures (k, w.objects[k].version) in w.history && w.history[(k, w.objects[k].version)] == w.objects[k]
      ensures k in w.newest && w.newest[k] == w.objects[k].version
    {
      if k != key {
        assert k in s.objects && w.objects[k] == s.objects[k];
      }
    }
  }

  lemma WriteKeepsHistory(s: Store, key: ObjectKey, labels: map<string, string>, annotations: Annotations)
    requires Consistent(s)
    ensures HistoryIsBounded(Written(s, key, labels, annotations))
    ensures Follows(Written(s, key, labels, annotations), s)
  {
    VersionIsNew(s, key);
    var w := Written(s, key, labels, annotations);
    forall at | at in w.history
      ensures w.history[at].version == at.1 && at.0 in w.newest && at.1 <= w.newest[at.0]
    {
      if at != (key, w.revision) {
        assert at in s.history && w.history[at] == s.history[at];
      }
    }
  }

  lemma WriteKeepsConsistent(s: Store, key: ObjectKey, labels: map<string, string>, annotations: Annotations)
    requires Consistent(s)
    ensures Consistent(Written(s, key, labels, annotations)) && Follows(Written(s, key, labels, annotations), s)
  {
    WriteKeepsObjects(s, key, labels, annotations);
    WriteKeepsHistory(s, key, labels, annotations);
  }

  lemma {:induction false} WritesKeepConsistent(s: Store, others: seq<OtherWrite>)
    requires Consistent(s)
    ensures Consistent(AfterWrites(s, others)) && Follows(AfterWrites(s, others), s)
    decreases others
  {
    if others == [] {
    } else {
      if others[0].Put? {
        WriteKeepsConsistent(s, others[0].key, others[0].labels, others[0].annotations);
      }
      WritesKeepConsistent(AfterWrite(s, others[0]), others[1..]);
    }
  }

  lemma ArrivalKeepsConsistent(s: Store, script: seq<Turn>)
    requires Consistent(s)
    ensures Consistent(Arrival(s, script)) && Follows(Arrival(s, script), s)
  {
    if script != [] {
      WritesKeepConsistent(s, script[0].others);
    }
  }

  /** What the other clients do leaves a commit adjacent: their versions are new. */
  lemma {:induction false} WritesKeepAdjacent(s: Store, others: seq<OtherWrite>, c: Commit)
    requires Consistent(s) && Adjacent(c, s.history)
    ensures Adjacent(c, AfterWrites(s, others).history)
    decreases others
  {
    if others == [] {
    } else {
      if others[0].Put? {
        WriteKeepsConsistent(s, others[0].key, others[0].labels, others[0].annotations);
        assert c.after.version <= s.newest[c.key] <= s.revision;
      }
      WritesKeepAdjacent(AfterWrite(s, others[0]), others[1..], c);
    }
  }

  /** An accepted update is adjacent to what it replaces. */
  lemma UpdateIsAdjacent(s: Store, key: ObjectKey, labels: map<string, string>, annotations: Annotations)
    requires Consistent(s) && key in s.objects
    ensures var u := Updated(s, key, labels, annotations);
      Consistent(u) && Follows(u, s) && Adjacent(Commit(key, s.objects[key], u.objects[key]), u.history)
  {
    WriteKeepsConsistent(s, key, labels, annotations);
  }

  lemma UpdateKeepsAdjacent(s: Store, key: ObjectKey, labels: map<string, string>, annotations: Annotations, c: Commit)
    requires Consistent(s) && key in s.objects && Adjacent(c, s.history)
    ensures Adjacent(c, Updated(s, key, labels, annotations).history)
  {
    assert c.after.version <= s.newest[c.key] <= s.revision;
  }

  /** An object that has had a newer version than this one. */
  ghost predicate Superseded(newest: Newest, key: ObjectKey, version: nat) {
    key in newest && version < newest[key]
  }
}
