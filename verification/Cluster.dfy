/** The API server behind the resource manager, and the objects that its clients hold. */
module Cluster {
  import opened Stores
  import opened Tracking
  import opened Wrappers

  /** An object as a client holds it. A nil annotation map is the empty map. */
  class Resource {
    const key: ObjectKey
    var version: nat
    var labels: map<string, string>
    var annotations: Annotations

    constructor (key: ObjectKey, value: Snapshot)
      ensures this.key == key && Value() == value
    {
      this.key := key;
      version, labels, annotations := value.version, value.labels, value.annotations;
    }

    function Value(): Snapshot
      reads this
    {
      Snapshot(version, labels, annotations)
    }

    method DeepCopy() returns (copy: Resource)
      ensures fresh(copy) && copy.key == key && copy.Value() == Value()
    {
      copy := new Resource(key, Value());
    }
  }

  function ItemsOf(resources: seq<Resource>): (items: seq<Item>)
    reads resources
    ensures |items| == |resources|
    ensures forall i | 0 <= i < |items| :: items[i] == (resources[i].key, resources[i].Value())
  {
    seq(|resources|, i requires 0 <= i < |resources| reads resources => (resources[i].key, resources[i].Value()))
  }

  ghost predicate Known(items: seq<Item>, history: History) {
    forall item | item in items :: (item.0, item.1.version) in history && history[(item.0, item.1.version)] == item.1
  }

  /** What was known stays known. */
  lemma KnownIsServed(server: ApiServer, r: Resource, held: seq<Item>, earlier: History)
    requires (r.key, r.Value()) in held && Known(held, earlier) && Extends(earlier, server.history)
    ensures server.Served(r)
  {
  }

  class ApiServer {
    var objects: Objects
    var revision: nat
    /** The interference that is still to come, one turn for each request; none when it runs out. */
    var script: seq<Turn>
    ghost var history: History
    ghost var newest: Newest
    ghost var commits: seq<Commit>
    ghost var updates: nat

    constructor (script: seq<Turn>)
      ensures Valid() && Now() == EMPTY && commits == [] && updates == 0 && this.script == script
    {
      objects, revision, this.script := map[], 0, script;
      history, newest, commits, updates := map[], map[], [], 0;
    }

    ghost function Now(): Store
      reads this`objects, this`revision, this`history, this`newest
    {
      Store(objects, revision, history, newest)
    }

    /** The store when the next request is served. */
    ghost function AtRequest(): Store
      reads this`objects, this`revision, this`history, this`newest, this`script
    {
      Arrival(Now(), script)
    }

    /** Versions are never reused, and no commit has overwritten a state that it did not start from. */
    ghost predicate Valid()
      reads this`objects, this`revision, this`history, this`newest, this`commits
    {
      Consistent(Now()) && forall c | c in commits :: Adjacent(c, history)
    }

    /** The client's object is a state that the server has been in. */
    ghost predicate Served(r: Resource)
      reads this`history, r
    {
      (r.key, r.version) in history && history[(r.key, r.version)] == r.Value()
    }

    /** No other client writes, and no request fails for a reason of its own. */
    ghost predicate Quiet()
      reads this`script
    {
      QuietScript(script)
    }

    /** What an update of a version would be answered next. */
    ghost function NextError(key: ObjectKey, version: nat): Option<ApiError>
      reads this`objects, this`revision, this`history, this`newest, this`script
    {
      UpdateError(Now(), script, key, version)
    }

    /** How an update loop would end. */
    ghost function LoopOutcome(key: ObjectKey, version: nat, rounds: nat): Outcome
      reads this`objects, this`revision, this`history, this`newest, this`script
    {
      Outlook(Now(), script, key, version, rounds)
    }

    method Write(key: ObjectKey, labels: map<string, string>, annotations: Annotations)
      modifies this`objects, this`revision, this`history, this`newest
      ensures Now() == Written(old(Now()), key, labels, annotations)
    {
      revision := revision + 1;
      var s := Snapshot(revision, labels, annotations);
      objects := objects[key := s];
      history := history[(key, revision) := s];
      newest := newest[key := revision];
    }

    /** Lets the other clients act before a request. */
    method PlayTurn() returns (fault: bool)
      modifies this`objects, this`revision, this`history, this`newest, this`script
      ensures Now() == old(AtRequest()) && script == Rest(old(script)) && fault == Faulty(old(script))
    {
      if script == [] {
        return false;
      }
      var others := script[0].others;
      fault := script[0].fault;
      for i := 0 to |others|
        invariant script == old(script)
        invariant AfterWrites(Now(), others[i..]) == AfterWrites(old(Now()), others)
      {
        assert others[i..][0] == others[i] && others[i..][1..] == others[i + 1..];
        match others[i]
        case Put(key, labels, annotations) => Write(key, labels, annotations);
        case Drop(key) => objects := objects - {key};
      }
      assert others[|others|..] == [];
      script := script[1..];
    }

    /** Whatever the other clients do keeps the server valid. */
    lemma ArrivalIsValid()
      requires Valid()
      ensures Consistent(AtRequest()) && Follows(AtRequest(), Now())
      ensures forall c | c in commits :: Adjacent(c, AtRequest().history)
    {
      ArrivalKeepsConsistent(Now(), script);
      forall c | c in commits
        ensures Adjacent(c, AtRequest().history)
      {
        if script != [] {
          WritesKeepAdjacent(Now(), script[0].others, c);
        }
      }
    }

    /** Overwrites the client's object with the stored one. */
    method Get(r: Resource) returns (err: Option<ApiError>)
      requires Valid()
      modifies this`objects, this`revision, this`history, this`newest, this`script, r
      ensures Valid() && Follows(Now(), old(Now()))
      ensures Now() == old(AtRequest()) && script == Rest(old(script))
      ensures err == old(GetError(Now(), script, r.key))
      ensures err == None ==> r.key in objects && r.Value() == objects[r.key] && Served(r)
      ensures err.Some? ==> r.Value() == old(r.Value())
    {
      ArrivalIsValid();
      var fault := PlayTurn();
      if fault {
        return Some(Fault);
      }
      if r.key !in objects {
        return Some(NotFound);
      }
      var s := objects[r.key];
      r.version, r.labels, r.annotations := s.version, s.labels, s.annotations;
      return None;
    }

    /** Optimistic update: it is accepted only if the client's version is the stored one when the
        request is served, and then it replaces the state stored at that moment. */
    method Update(r: Resource) returns (err: Option<ApiError>)
      requires Valid()
      modifies this, r
      ensures Valid() && Follows(Now(), old(Now()))
      ensures script == Rest(old(script)) && updates == old(updates) + 1
      ensures err == old(NextError(r.key, r.version))
      ensures err.Some? ==> Now() == old(AtRequest()) && commits == old(commits) && r.Value() == old(r.Value())
      ensures err == None ==>
        && r.key in old(AtRequest()).objects
        && Now() == Updated(old(AtRequest()), r.key, old(r.labels), old(r.annotations))
        && r.Value() == objects[r.key]
        && commits == old(commits) + [Commit(r.key, old(AtRequest()).objects[r.key], objects[r.key])]
    {
      ArrivalIsValid();
      var fault := PlayTurn();
      updates := updates + 1;
      if fault {
        return Some(Fault);
      }
      if r.key !in objects {
        return Some(NotFound);
      }
      if objects[r.key].version != r.version {
        return Some(Conflict);
      }
      CommitUpdate(r);
      return None;
    }

    method CommitUpdate(r: Resource)
      requires Valid() && r.key in objects && objects[r.key].version == r.version
      modifies this`objects, this`revision, this`history, this`newest, this`commits, r`version
      ensures Valid() && Follows(Now(), old(Now()))
      ensures Now() == Updated(old(Now()), r.key, old(r.labels), old(r.annotations)) && r.Value() == objects[r.key]
      ensures commits == old(commits) + [Commit(r.key, old(objects[r.key]), objects[r.key])]
    {
      UpdateIsAdjacent(Now(), r.key, r.labels, r.annotations);
      forall c | c in commits
        ensures Adjacent(c, Updated(Now(), r.key, r.labels, r.annotations).history)
      {
        UpdateKeepsAdjacent(Now(), r.key, r.labels, r.annotations, c);
      }
      ghost var before := objects[r.key];
      if objects[r.key] != r.Value() {
        Write(r.key, r.labels, r.annotations);
        r.version := revision;
      }
      commits := commits + [Commit(r.key, before, objects[r.key])];
    }
  }
}
