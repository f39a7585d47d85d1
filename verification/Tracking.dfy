/** The tracking annotation: the list of keys that a rule has applied, stored as text
    (internal/resource/manager.go). */
module Tracking {
  import opened GoStrings
  import opened Validator

  type Annotations = map<string, string>

  const TRACKING_PREFIX := "scheduler.k8s.io/rule-"
  const TRACKING_SUFFIX := "-annotations"

  function TrackingKey(ruleID: string): string {
    TRACKING_PREFIX + ruleID + TRACKING_SUFFIX
  }

  /** The scheduler names a rule "namespace/name". */
  predicate NamespacedID(ruleID: string) {
    '/' in ruleID
  }

  /** The bracket-trim and split that every reader of a tracking value starts with. */
  function ParseList(value: string): (keys: seq<string>) {
    var trimmed := TrimBrackets(value);
    if trimmed == "" then [] else Split(trimmed, ' ')
  }

  function RecordedKeys(m: Annotations, ruleID: string): seq<string> {
    if TrackingKey(ruleID) in m then ParseList(m[TrackingKey(ruleID)]) else []
  }

  /** wasAnnotationAppliedByRule, as a predicate */
  predicate AppliedBy(m: Annotations, key: string, ruleID: string) {
    exists k | k in RecordedKeys(m, ruleID) :: TrimSpace(k) == key
  }

  /** GetAppliedAnnotations trims each recorded key and drops the empty ones. */
  function CleanedKeys(keys: seq<string>): seq<string> {
    if keys == [] then []
    else
      var k := TrimSpace(keys[0]);
      (if k != "" then [k] else []) + CleanedKeys(keys[1..])
  }

  lemma {:induction false} CleanedKeysAppend(keys: seq<string>, k: string)
    ensures CleanedKeys(keys + [k]) == CleanedKeys(keys) + if TrimSpace(k) != "" then [TrimSpace(k)] else []
  {
    if keys == [] {
      assert [] + [k] == [k];
    } else {
      assert (keys + [k])[1..] == keys[1..] + [k];
      CleanedKeysAppend(keys[1..], k);
    }
  }

  lemma {:induction false} CleanedKeysMembers(keys: seq<string>)
    ensures forall key :: key in CleanedKeys(keys) <==> key != "" && exists k | k in keys :: TrimSpace(k) == key
  {
    if keys == [] {
    } else {
      CleanedKeysMembers(keys[1..]);
      assert forall k :: k in keys <==> k == keys[0] || k in keys[1..];
    }
  }

  method GetAppliedAnnotations(m: Annotations, ruleID: string) returns (cleanKeys: seq<string>)
    ensures cleanKeys == CleanedKeys(RecordedKeys(m, ruleID))
    ensures forall key :: key in cleanKeys <==> key != "" && AppliedBy(m, key, ruleID)
  {
    CleanedKeysMembers(RecordedKeys(m, ruleID));
    cleanKeys := [];
    if TrackingKey(ruleID) !in m {
      return;
    }
    var trimmed := TrimBrackets(m[TrackingKey(ruleID)]);
    if trimmed == "" {
      return;
    }
    var keys := Split(trimmed, ' ');
    cleanKeys := CleanKeys(keys);
  }

  method CleanKeys(keys: seq<string>) returns (cleanKeys: seq<string>)
    ensures cleanKeys == CleanedKeys(keys)
  {
    cleanKeys := [];
    for i := 0 to |keys|
      invariant cleanKeys == CleanedKeys(keys[..i])
    {
      assert keys[..i + 1] == keys[..i] + [keys[i]];
      CleanedKeysAppend(keys[..i], keys[i]);
      var k := TrimSpace(keys[i]);
      if k != "" {
        cleanKeys := cleanKeys + [k];
      }
    }
    assert keys[..|keys|] == keys;
  }

  predicate AllClean(keys: seq<string>) {
    forall k | k in keys :: Clean(k)
  }

  predicate AllPlain(keys: seq<string>) {
    forall k | k in keys :: Plain(k)
  }

  /** A list that survives being written and read back. */
  predicate Recordable(keys: seq<string>) {
    keys == [] ||
    (&& keys != [""]
     && (forall k | k in keys :: ' ' !in k)
     && (keys[0] != "" ==> !IsBracket(keys[0][0]))
     && (var z := keys[|keys| - 1]; z != "" ==> !IsBracket(z[|z| - 1])))
  }

  lemma ParseOfFormat(keys: seq<string>)
    requires Tight(Join(keys, ' '), IsBracket)
    ensures TrimBrackets(FormatList(keys)) == Join(keys, ' ')
  {
    TrimWrapped('[', Join(keys, ' '), ']', IsBracket);
    assert ['['] + Join(keys, ' ') + [']'] == FormatList(keys);
  }

  /** The codec round trip holds exactly for recordable lists. */
  lemma RoundTripExactly(keys: seq<string>)
    ensures ParseList(FormatList(keys)) == keys <==> Recordable(keys)
  {
    if keys == [] {
      ParseOfFormat(keys);
    } else {
      JoinEnds(keys, ' ');
      if Recordable(keys) {
        ParseOfFormat(keys);
        SplitOfJoin(keys, ' ');
      }
      if ParseList(FormatList(keys)) == keys {
        var trimmed := TrimBrackets(FormatList(keys));
        JoinOfSplit(trimmed, ' ');
        SplitHasNoSeparator(trimmed, ' ');
        TrimTight(FormatList(keys), IsBracket);
      }
    }
  }

  /** Clean tokens are their own trimmed form. */
  lemma CleanIsTrimmed(k: string)
    requires Clean(k)
    ensures TrimSpace(k) == k
  {
    TrimOfTight(k, IsSpace);
  }

  /** Lists of clean tokens are read back unchanged, by the engine's readers ... */
  lemma CleanRoundTrip(keys: seq<string>)
    requires AllClean(keys)
    ensures ParseList(FormatList(keys)) == keys
  {
    assert forall k | k in keys :: Clean(k) && k != "" && k[0] in k && k[|k| - 1] in k && IsSpace(' ');
    RoundTripExactly(keys);
  }

  /** ... and by GetAppliedAnnotations. */
  lemma {:induction false} CleanedKeysOfClean(keys: seq<string>)
    requires AllClean(keys)
    ensures CleanedKeys(keys) == keys
  {
    if keys == [] {
    } else {
      CleanIsTrimmed(keys[0]);
      CleanedKeysOfClean(keys[1..]);
    }
  }

  /** The whole codec for validated keys: what a rule records, under any validator policy, is what
      GetAppliedAnnotations reports. */
  lemma ValidatedKeysRoundTrip(v: AnnotationValidator, m: Annotations, ruleID: string, keys: seq<string>)
    requires forall k | k in keys :: v.Accepts(k)
    ensures var written := m[TrackingKey(ruleID) := FormatList(keys)];
      && RecordedKeys(written, ruleID) == keys
      && CleanedKeys(RecordedKeys(written, ruleID)) == keys
      && forall k :: AppliedBy(written, k, ruleID) <==> k in keys
  {
    forall k | k in keys
      ensures Clean(k) && TrimSpace(k) == k
    {
      AcceptedIsPlain(v, k);
      CleanIsTrimmed(k);
    }
    CleanRoundTrip(keys);
    CleanedKeysOfClean(keys);
  }

  /** Two rules never share a tracking entry. */
  lemma TrackingKeyInjective(a: string, b: string)
    requires TrackingKey(a) == TrackingKey(b)
    ensures a == b
  {
    assert |a| == |b|;
    assert TrackingKey(a)[|TRACKING_PREFIX|..|TRACKING_PREFIX| + |a|] == a;
    assert TrackingKey(b)[|TRACKING_PREFIX|..|TRACKING_PREFIX| + |b|] == b;
  }

  /** A plain key is never the tracking entry of a namespaced rule: that entry has two slashes. */
  lemma PlainIsNotTracking(key: string, ruleID: string)
    requires Plain(key) && NamespacedID(ruleID)
    ensures key != TrackingKey(ruleID)
  {
    var t := TrackingKey(ruleID);
    var i :| 0 <= i < |ruleID| && ruleID[i] == '/';
    assert t[16] == '/';
    assert t[|TRACKING_PREFIX| + i] == ruleID[i];
  }

  /** Under the default policy no rule ID at all can make its tracking entry an accepted key. */
  lemma DefaultNeverAcceptsTracking(ruleID: string)
    ensures !DEFAULT_VALIDATOR.Accepts(TrackingKey(ruleID))
  {
    assert TrackingKey(ruleID)[17] == 'r';
    assert DEFAULT_VALIDATOR.requiredPrefix[17] == 'm';
  }
}
