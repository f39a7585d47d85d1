/** One rule's view of a resource's annotations, free of its text encoding: the annotations proper,
    and the list of keys that the rule has on record. */
module Ledgers {
  import opened Wrappers

  datatype Ledger = Ledger(values: map<string, string>, recorded: seq<string>)

  /** What a valid group operation comes down to. */
  datatype Effect = Nothing | Put(key: string, value: string) | Delete(key: string)

  /** keys, in order, less those in gone */
  function Without(keys: seq<string>, gone: set<string>): seq<string> {
    if keys == [] then []
    else (if keys[0] in gone then [] else [keys[0]]) + Without(keys[1..], gone)
  }

  function Perform(l: Ledger, e: Effect, override: bool): Ledger {
    match e
    case Nothing => l
    case Put(key, value) =>
      if key in l.values && l.values[key] != value && !override then l
      else Ledger(l.values[key := value], if key in l.recorded then l.recorded else l.recorded + [key])
    case Delete(key) =>
      if key in l.values && key in l.recorded then Ledger(l.values - {key}, Without(l.recorded, {key})) else l
  }

  function PerformAll(l: Ledger, effects: seq<Effect>, override: bool): Ledger
    decreases effects
  {
    if effects == [] then l else PerformAll(Perform(l, effects[0], override), effects[1..], override)
  }

  function ApplyMap(l: Ledger, annotations: map<string, string>, order: seq<string>): Ledger {
    Ledger(l.values + annotations, order)
  }

  function ListedSet(keys: seq<string>): set<string> {
    set k | k in keys
  }

  /** The listed keys that a removal deletes: on record and present. */
  function Removable(l: Ledger, keys: seq<string>): set<string> {
    set k | k in keys && k in l.values && k in l.recorded
  }

  /** Batch removal: takes every listed key off the record, if it deletes anything. */
  function RemoveBatch(l: Ledger, keys: seq<string>): Ledger {
    var gone := Removable(l, keys);
    if gone == {} then l else Ledger(l.values - gone, Without(l.recorded, ListedSet(keys)))
  }

  function RemoveEach(l: Ledger, keys: seq<string>): Ledger
    decreases keys
  {
    if keys == [] then l else RemoveEach(Perform(l, Delete(keys[0]), true), keys[1..])
  }

  /* Lists. */

  lemma {:induction false} WithoutMembers(keys: seq<string>, gone: set<string>)
    ensures forall k :: k in Without(keys, gone) <==> k in keys && k !in gone
  {
    if keys == [] {
    } else {
      WithoutMembers(keys[1..], gone);
    }
  }

  lemma {:induction false} WithoutTwice(keys: seq<string>, a: set<string>, b: set<string>)
    ensures Without(Without(keys, a), b) == Without(keys, a + b)
  {
    if keys == [] {
    } else {
      WithoutTwice(keys[1..], a, b);
      var rest := Without(keys[1..], a);
      if keys[0] in a {
        assert Without(keys, a) == rest;
      } else {
        assert Without(keys, a)[1..] == rest;
      }
    }
  }

  lemma {:induction false} SameWithout(keys: seq<string>, a: set<string>, b: set<string>)
    requires forall k | k in keys :: k in a <==> k in b
    ensures Without(keys, a) == Without(keys, b)
  {
    if keys == [] {
    } else {
      SameWithout(keys[1..], a, b);
    }
  }

  lemma {:induction false} WithoutNothing(keys: seq<string>, gone: set<string>)
    requires forall k | k in keys :: k !in gone
    ensures Without(keys, gone) == keys
  {
    if keys == [] {
    } else {
      WithoutNothing(keys[1..], gone);
    }
  }

  lemma {:induction false} WithoutEverything(keys: seq<string>, gone: set<string>)
    requires forall k | k in keys :: k in gone
    ensures Without(keys, gone) == []
  {
    if keys == [] {
    } else {
      WithoutEverything(keys[1..], gone);
    }
  }

  lemma {:induction false} WithoutAppend(a: seq<string>, b: seq<string>, gone: set<string>)
    ensures Without(a + b, gone) == Without(a, gone) + Without(b, gone)
  {
    if a == [] {
      assert a + b == b;
    } else {
      assert (a + b)[1..] == a[1..] + b;
      WithoutAppend(a[1..], b, gone);
    }
  }

  /* One key of a ledger. */

  datatype KeyState = KeyState(value: Option<string>, tracked: bool)

  ghost function StateOf(l: Ledger, key: string): KeyState {
    KeyState(if key in l.values then Some(l.values[key]) else None, key in l.recorded)
  }

  function Step(s: KeyState, key: string, e: Effect, override: bool): KeyState {
    match e
    case Nothing => s
    case Put(k, value) =>
      if k != key || (s.value.Some? && s.value.value != value && !override) then s else KeyState(Some(value), true)
    case Delete(k) =>
      if k != key || s.value.None? || !s.tracked then s else KeyState(None, false)
  }

  function Steps(s: KeyState, key: string, effects: seq<Effect>, override: bool): KeyState
    decreases effects
  {
    if effects == [] then s else Steps(Step(s, key, effects[0], override), key, effects[1..], override)
  }

  lemma PerformIsStep(l: Ledger, e: Effect, override: bool, key: string)
    ensures StateOf(Perform(l, e, override), key) == Step(StateOf(l, key), key, e, override)
  {
    if e.Delete? {
      WithoutMembers(l.recorded, {e.key});
    }
  }

  /** Effects on different keys do not meet: what becomes of a key is decided by that key alone. */
  lemma {:induction false} PerformAllIsSteps(l: Ledger, effects: seq<Effect>, override: bool, key: string)
    ensures StateOf(PerformAll(l, effects, override), key) == Steps(StateOf(l, key), key, effects, override)
    decreases effects
  {
    if effects == [] {
    } else {
      PerformIsStep(l, effects[0], override, key);
      PerformAllIsSteps(Perform(l, effects[0], override), effects[1..], override, key);
    }
  }

  lemma SameStates(a: Ledger, b: Ledger)
    requires forall k :: StateOf(a, k) == StateOf(b, k)
    ensures a.values == b.values && forall k :: k in a.recorded <==> k in b.recorded
  {
    assert forall k :: (k in a.values <==> StateOf(a, k).value.Some?) && (k in a.recorded <==> StateOf(a, k).tracked);
    assert forall k :: (k in b.values <==> StateOf(b, k).value.Some?) && (k in b.recorded <==> StateOf(b, k).tracked);
    assert forall k :: k in a.values ==> StateOf(a, k).value == Some(a.values[k]);
    assert forall k :: k in b.values ==> StateOf(b, k).value == Some(b.values[k]);
  }

  /* Removal. */

  function Stripped(l: Ledger, gone: set<string>): Ledger {
    Ledger(l.values - gone, Without(l.recorded, gone))
  }

  lemma StrippedTwice(l: Ledger, a: set<string>, b: set<string>)
    ensures Stripped(Stripped(l, a), b) == Stripped(l, a + b)
  {
    WithoutTwice(l.recorded, a, b);
    assert l.values - a - b == l.values - (a + b);
  }

  /** Removing one key at a time strips exactly the removable keys. */
  lemma {:induction false} RemoveEachStrips(l: Ledger, keys: seq<string>)
    ensures RemoveEach(l, keys) == Stripped(l, Removable(l, keys))
    decreases keys
  {
    if keys == [] {
      assert Removable(l, keys) == {};
      WithoutNothing(l.recorded, {});
      assert l.values - {} == l.values;
    } else {
      var k := keys[0];
      var next := Perform(l, Delete(k), true);
      RemoveEachStrips(next, keys[1..]);
      if k in l.values && k in l.recorded {
        WithoutMembers(l.recorded, {k});
        assert Removable(l, keys) == {k} + Removable(next, keys[1..]);
        StrippedTwice(l, {k}, Removable(next, keys[1..]));
      } else {
        assert Removable(l, keys) == Removable(next, keys[1..]);
      }
    }
  }

  lemma RemovalsAgreeExactly(l: Ledger, keys: seq<string>)
    ensures RemoveBatch(l, keys) == RemoveEach(l, keys) <==>
      || Removable(l, keys) == {}
      || forall k | k in keys && k in l.recorded :: k in l.values
  {
    RemoveEachStrips(l, keys);
    var gone := Removable(l, keys);
    WithoutMembers(l.recorded, gone);
    WithoutMembers(l.recorded, ListedSet(keys));
    if gone == {} {
      WithoutNothing(l.recorded, gone);
      assert l.values - gone == l.values;
    } else if forall k | k in keys && k in l.recorded :: k in l.values {
      SameWithout(l.recorded, gone, ListedSet(keys));
    } else {
      var k :| k in keys && k in l.recorded && k !in l.values;
      assert k in Without(l.recorded, gone) && k !in Without(l.recorded, ListedSet(keys));
    }
  }

  /** Removing what a map apply has put leaves the ledger less the map's keys, with nothing on record. */
  lemma RemoveAfterApplyMap(l: Ledger, annotations: map<string, string>, order: seq<string>, keys: seq<string>)
    requires ListedSet(order) == ListedSet(keys) == annotations.Keys && annotations != map[]
    ensures RemoveBatch(ApplyMap(l, annotations, order), keys) == Ledger(l.values - annotations.Keys, [])
  {
    var applied := ApplyMap(l, annotations, order);
    assert forall k :: k in order <==> k in ListedSet(order);
    assert forall k :: k in keys <==> k in ListedSet(keys);
    assert Removable(applied, keys) == annotations.Keys;
    WithoutEverything(order, ListedSet(keys));
    assert l.values + annotations - annotations.Keys == l.values - annotations.Keys;
    var k :| k in annotations;
  }

  /* Putting and removing again. */

  predicate AllPuts(effects: seq<Effect>) {
    forall e | e in effects :: e.Put?
  }

  function PutKeys(effects: seq<Effect>): set<string> {
    set e | e in effects && e.Put? :: e.key
  }

  /** Every put on the key is skipped: it has another value already, and nothing may override it. */
  predicate AllSkipped(s: KeyState, key: string, effects: seq<Effect>, override: bool) {
    && !override && s.value.Some?
    && forall e | e in effects && e.Put? && e.key == key :: e.value != s.value.value
  }

  /** A key that is put ends up present and on record, unless it was not on record and every put on
      it is skipped. */
  lemma {:induction false} StepsOfPuts(s: KeyState, key: string, effects: seq<Effect>, override: bool)
    requires AllPuts(effects)
    ensures var after := Steps(s, key, effects, override);
      && (key !in PutKeys(effects) || AllSkipped(s, key, effects, override) ==> after == s)
      && (key in PutKeys(effects) && !(AllSkipped(s, key, effects, override) && !s.tracked) ==>
        after.value.Some? && after.tracked)
    decreases effects
  {
    if effects == [] {
    } else {
      assert effects[0] in effects;
      assert effects == [effects[0]] + effects[1..];
      StepsOfPuts(Step(s, key, effects[0], override), key, effects[1..], override);
    }
  }

  /** Puts append to the record. */
  lemma {:induction false} PutsExtendRecord(l: Ledger, effects: seq<Effect>, override: bool)
    requires AllPuts(effects)
    ensures var after := PerformAll(l, effects, override).recorded;
      l.recorded <= after && forall k | k in after[|l.recorded|..] :: k !in l.recorded
    decreases effects
  {
    if effects == [] {
    } else {
      assert effects[0] in effects;
      var next := Perform(l, effects[0], override);
      PutsExtendRecord(next, effects[1..], override);
      var after := PerformAll(l, effects, override).recorded;
      assert after[|l.recorded|..] == next.recorded[|l.recorded|..] + after[|next.recorded|..];
    }
  }

  lemma StrippedState(l: Ledger, gone: set<string>, key: string)
    ensures StateOf(Stripped(l, gone), key) == if key in gone then KeyState(None, false) else StateOf(l, key)
  {
    WithoutMembers(l.recorded, gone);
  }

  /** Removal undoes a put on a key. */
  predicate Undone(s: KeyState, key: string, effects: seq<Effect>, override: bool) {
    !s.tracked && (s.value == None || AllSkipped(s, key, effects, override))
  }

  /** What removal leaves of a key after puts. */
  lemma StateAfterRemoval(l: Ledger, effects: seq<Effect>, override: bool, keys: seq<string>, key: string)
    requires AllPuts(effects) && ListedSet(keys) == PutKeys(effects)
    ensures var applied := PerformAll(l, effects, override);
      && (StateOf(RemoveEach(applied, keys), key) == StateOf(l, key) <==>
            key !in PutKeys(effects) || Undone(StateOf(l, key), key, effects, override))
      && (key in applied.recorded && key !in l.recorded ==> key in Removable(applied, keys))
  {
    var applied := PerformAll(l, effects, override);
    RemoveEachStrips(applied, keys);
    StrippedState(applied, Removable(applied, keys), key);
    PerformAllIsSteps(l, effects, override, key);
    StepsOfPuts(StateOf(l, key), key, effects, override);
    assert key in keys <==> key in ListedSet(keys);
  }

  /** Removing undoes putting if and only if it does so key by key. */
  lemma RemoveUndoesPutsExactly(l: Ledger, effects: seq<Effect>, override: bool, keys: seq<string>)
    requires AllPuts(effects) && ListedSet(keys) == PutKeys(effects)
    ensures RemoveEach(PerformAll(l, effects, override), keys) == l <==>
      forall k | k in PutKeys(effects) :: Undone(StateOf(l, k), k, effects, override)
  {
    var applied := PerformAll(l, effects, override);
    var removed := RemoveEach(applied, keys);
    forall k {
      StateAfterRemoval(l, effects, override, keys, k);
    }
    if forall k | k in PutKeys(effects) :: Undone(StateOf(l, k), k, effects, override) {
      SameStates(removed, l);
      RecordIsRestored(l, effects, override, keys);
    }
  }

  lemma RecordIsRestored(l: Ledger, effects: seq<Effect>, override: bool, keys: seq<string>)
    requires AllPuts(effects) && ListedSet(keys) == PutKeys(effects)
    requires forall k | k in PutKeys(effects) :: k !in l.recorded
    ensures RemoveEach(PerformAll(l, effects, override), keys).recorded == l.recorded
  {
    var applied := PerformAll(l, effects, override);
    var gone := Removable(applied, keys);
    RemoveEachStrips(applied, keys);
    PutsExtendRecord(l, effects, override);
    var added := applied.recorded[|l.recorded|..];
    forall k | k in added
      ensures k in gone
    {
      StateAfterRemoval(l, effects, override, keys, k);
    }
    assert forall k | k in gone :: k in ListedSet(keys);
    assert applied.recorded == l.recorded + added;
    WithoutAppend(l.recorded, added, gone);
    WithoutNothing(l.recorded, gone);
    WithoutEverything(added, gone);
  }

  /* What each action on a ledger can reach. */

  ghost predicate SameAt(a: map<string, string>, b: map<string, string>, key: string) {
    (key in a <==> key in b) && (key in a ==> a[key] == b[key])
  }

  lemma SameEverywhere(a: map<string, string>, b: map<string, string>)
    requires forall k :: SameAt(a, b, k)
    ensures a == b
  {
    assert forall k :: SameAt(a, b, k) ==> (k in a <==> k in b);
  }

  /** Two ledgers that agree on the record and on some keys. */
  ghost predicate Alike(a: Ledger, b: Ledger, keys: set<string>) {
    a.recorded == b.recorded && forall k | k in keys :: SameAt(a.values, b.values, k)
  }

  /** Recorded keys are present. */
  predicate Present(l: Ledger) {
    forall k | k in l.recorded :: k in l.values
  }

  /** after differs from before only on the given keys, both in values and in what it adds to the record. */
  ghost predicate Reaches(before: Ledger, after: Ledger, keys: set<string>) {
    && (forall k | k !in keys :: SameAt(before.values, after.values, k))
    && (forall k | k in after.recorded :: k in before.recorded || k in keys)
  }

  function EffectKeys(effects: seq<Effect>): set<string> {
    set e | e in effects && !e.Nothing? :: e.key
  }

  /** The keys that effects may change: those that are put, and of those that are deleted the ones on
      record. */
  function ReachOf(l: Ledger, effects: seq<Effect>): set<string> {
    set e | e in effects && !e.Nothing? && (e.Put? || e.key in l.recorded) :: e.key
  }

  lemma PerformReaches(l: Ledger, e: Effect, override: bool)
    ensures Reaches(l, Perform(l, e, override), ReachOf(l, [e]))
    ensures Present(l) ==> Present(Perform(l, e, override))
  {
    assert e in [e];
    if e.Delete? {
      WithoutMembers(l.recorded, {e.key});
    }
  }

  lemma PerformIsLocal(a: Ledger, b: Ledger, e: Effect, override: bool, keys: set<string>)
    requires Alike(a, b, keys) && (e.Nothing? || e.key in keys)
    ensures Alike(Perform(a, e, override), Perform(b, e, override), keys)
  {
  }

  lemma ReachesTransitive(x: Ledger, y: Ledger, z: Ledger, a: set<string>, b: set<string>, c: set<string>)
    requires Reaches(x, y, a) && Reaches(y, z, b) && a + b <= c
    ensures Reaches(x, z, c)
  {
    forall k | k !in c
      ensures SameAt(x.values, z.values, k)
    {
      assert SameAt(x.values, y.values, k) && SameAt(y.values, z.values, k);
    }
  }

  lemma ReachOfRest(l: Ledger, effects: seq<Effect>, override: bool)
    requires effects != []
    ensures ReachOf(l, [effects[0]]) + ReachOf(Perform(l, effects[0], override), effects[1..]) <= ReachOf(l, effects)
  {
    var next := Perform(l, effects[0], override);
    PerformReaches(l, effects[0], override);
    assert effects[0] in effects && effects[0] in [effects[0]];
    forall k | k in ReachOf(next, effects[1..])
      ensures k in ReachOf(l, effects)
    {
      var e :| e in effects[1..] && !e.Nothing? && (e.Put? || e.key in next.recorded) && e.key == k;
      assert e in effects;
    }
  }

  /** Effects reach no other key, and keep recorded keys present. */
  lemma {:induction false} PerformAllReaches(l: Ledger, effects: seq<Effect>, override: bool)
    ensures Reaches(l, PerformAll(l, effects, override), ReachOf(l, effects))
    ensures Present(l) ==> Present(PerformAll(l, effects, override))
    decreases effects
  {
    if effects == [] {
    } else {
      PerformReaches(l, effects[0], override);
      var next := Perform(l, effects[0], override);
      PerformAllReaches(next, effects[1..], override);
      ReachOfRest(l, effects, override);
      ReachesTransitive(l, next, PerformAll(l, effects, override),
        ReachOf(l, [effects[0]]), ReachOf(next, effects[1..]), ReachOf(l, effects));
    }
  }

  lemma {:induction false} PerformAllIsLocal(
    a: Ledger, b: Ledger, effects: seq<Effect>, override: bool, keys: set<string>)
    requires Alike(a, b, keys) && EffectKeys(effects) <= keys
    ensures Alike(PerformAll(a, effects, override), PerformAll(b, effects, override), keys)
    decreases effects
  {
    if effects == [] {
    } else {
      assert effects[0] in effects;
      assert EffectKeys(effects[1..]) <= EffectKeys(effects);
      PerformIsLocal(a, b, effects[0], override, keys);
      PerformAllIsLocal(
        Perform(a, effects[0], override), Perform(b, effects[0], override), effects[1..], override, keys);
    }
  }

  lemma ApplyMapReaches(l: Ledger, annotations: map<string, string>, order: seq<string>)
    requires ListedSet(order) == annotations.Keys
    ensures Reaches(l, ApplyMap(l, annotations, order), annotations.Keys)
    ensures Present(ApplyMap(l, annotations, order))
  {
    assert forall k | k in order :: k in ListedSet(order);
  }

  /** A removal reaches the listed keys that are on record. */
  lemma RemovalReaches(l: Ledger, keys: seq<string>)
    ensures Reaches(l, RemoveBatch(l, keys), Removable(l, keys))
    ensures Reaches(l, RemoveEach(l, keys), Removable(l, keys))
    ensures Present(l) ==> Present(RemoveBatch(l, keys)) && Present(RemoveEach(l, keys))
  {
    RemoveEachStrips(l, keys);
    WithoutMembers(l.recorded, Removable(l, keys));
    WithoutMembers(l.recorded, ListedSet(keys));
  }

  lemma RemovalIsLocal(a: Ledger, b: Ledger, keys: seq<string>, reach: set<string>)
    requires Alike(a, b, reach) && forall k | k in keys && k in a.recorded :: k in reach
    ensures Alike(RemoveBatch(a, keys), RemoveBatch(b, keys), reach)
    ensures Alike(RemoveEach(a, keys), RemoveEach(b, keys), reach)
  {
    RemoveEachStrips(a, keys);
    RemoveEachStrips(b, keys);
    forall k | k in keys && k in a.recorded
      ensures k in a.values <==> k in b.values
    {
      assert SameAt(a.values, b.values, k);
    }
    assert Removable(a, keys) == Removable(b, keys);
  }
}
