/** The keys that the policy of the resource manager accepts (internal/security/validator.go). */
module ManagedKeys {
  import opened GoStrings
  import opened KeyShapes
  import opened Validator

  const SCHEDULER := "scheduler.k8s.io"

  /** The text begins otherwise than the required prefix does. */
  predicate BeginsOtherwise(p: string) {
    |p| >= 2 && (p[0] != 's' || p[1] != 'c' || (|p| > 11 && p[11] != '8'))
  }

  lemma DeniedBeginOtherwise()
    ensures forall p | p in DENIED_KUBERNETES :: BeginsOtherwise(p)
    ensures forall p | p in DENIED_ACCESS :: BeginsOtherwise(p)
  {
  }

  lemma DeniedResourcesBeginOtherwise()
    ensures forall p | p in DENIED_RESOURCES :: BeginsOtherwise(p)
  {
  }

  lemma DeniedComponentsBeginOtherwise()
    ensures forall p | p in DENIED_COMPONENTS :: BeginsOtherwise(p)
  {
  }

  lemma NotAPrefix(key: string, p: string)
    requires |key| > 11 && key[0] == 's' && key[1] == 'c' && key[11] == '8' && BeginsOtherwise(p)
    ensures !HasPrefix(key, p)
  {
    if |p| <= |key| {
      var front := key[..|p|];
      assert forall i | 0 <= i < |p| :: front[i] == key[i];
    }
  }

  lemma NoDeniedPrefix(v: AnnotationValidator, key: string)
    requires v.deniedPrefixes == DENIED_KUBERNETES + DENIED_RESOURCES + DENIED_ACCESS + DENIED_COMPONENTS
    requires |key| > 11 && key[0] == 's' && key[1] == 'c' && key[11] == '8'
    ensures forall p | p in v.deniedPrefixes :: !HasPrefix(key, p)
  {
    DeniedBeginOtherwise();
    DeniedResourcesBeginOtherwise();
    DeniedComponentsBeginOtherwise();
    forall p | p in v.deniedPrefixes
      ensures !HasPrefix(key, p)
    {
      NotAPrefix(key, p);
    }
  }

  lemma SchedulerIsName()
    ensures IsName(SCHEDULER) && '/' !in SCHEDULER && IsAscii(SCHEDULER) && |SCHEDULER| == 16
    ensures SCHEDULER[0] == 's' && SCHEDULER[1] == 'c' && SCHEDULER[11] == '8'
  {
  }

  lemma PrefixesByParts()
    ensures REQUIRED_PREFIX == SCHEDULER + "/" + "managed-"
    ensures SCHEDULER + "/" in ALLOWED_PREFIXES
  {
    assert ALLOWED_PREFIXES[1] == SCHEDULER + "/";
  }

  /** A text that begins with the required prefix, cut at its slash. */
  lemma CutAtSlash(key: string)
    requires HasPrefix(key, REQUIRED_PREFIX)
    ensures |key| >= 25 && key == SCHEDULER + "/" + key[17..] && HasPrefix(key[17..], "managed-")
  {
    PrefixesByParts();
    SchedulerIsName();
    var front := SCHEDULER + "/" + "managed-";
    assert forall i | 0 <= i < 25 :: key[i] == front[i];
    assert key[..17] == SCHEDULER + "/";
    assert key[17..25] == "managed-";
  }

  lemma {:induction false} ByteLengthOfParts(a: string, b: string)
    ensures ByteLength(a + b) == ByteLength(a) + ByteLength(b)
  {
    if a == "" {
      assert a + b == b;
    } else {
      assert (a + b)[1..] == a[1..] + b;
      ByteLengthOfParts(a[1..], b);
    }
  }

  lemma LabelIsAscii(name: string)
    requires IsLabel(name)
    ensures IsAscii(name)
  {
    assert forall i | 0 <= i < |name| :: name[i] in name;
  }

  lemma LengthBehind(front: string, name: string)
    requires IsAscii(front) && IsLabel(name)
    ensures ByteLength(front + name) == |front| + |name|
  {
    LabelIsAscii(name);
    ByteLengthOfAscii(front);
    ByteLengthOfAscii(name);
    ByteLengthOfParts(front, name);
  }

  lemma FrontOfManaged(front: string)
    requires front == SCHEDULER + "/"
    ensures IsAscii(front) && |front| == 17 && front[0] == 's' && front[1] == 'c' && front[11] == '8'
  {
    SchedulerIsName();
  }

  lemma AcceptedByParts(v: AnnotationValidator, key: string)
    requires key != "" && ByteLength(key) <= v.maxKeyLength && ValidDNSSubdomain(key)
    requires forall p | p in v.deniedPrefixes :: !HasPrefix(key, p)
    requires HasPrefix(key, v.requiredPrefix) && exists p :: p in v.allowedPrefixes && HasPrefix(key, p)
    ensures v.Accepts(key)
  {
  }

  /** The prefixes that the policy asks for. */
  lemma ManagedPrefixes(front: string, name: string)
    requires front == SCHEDULER + "/" && HasPrefix(name, "managed-")
    ensures HasPrefix(front + name, REQUIRED_PREFIX)
    ensures front in ALLOWED_PREFIXES && HasPrefix(front + name, front)
  {
    PrefixesByParts();
    var key := front + name;
    assert name == "managed-" + name[8..];
    assert key == REQUIRED_PREFIX + name[8..];
  }

  lemma ManagedIsAccepted(v: AnnotationValidator, front: string, name: string)
    requires v == DEFAULT_VALIDATOR && front == SCHEDULER + "/" && IsLabel(name) && HasPrefix(name, "managed-")
    ensures v.Accepts(front + name)
  {
    FrontOfManaged(front);
    LengthBehind(front, name);
    ManagedPrefixes(front, name);
    SchedulerIsName();
    SubdomainExactly(SCHEDULER, name);
    NoDeniedPrefix(v, front + name);
    AcceptedByParts(v, front + name);
  }

  lemma AcceptedIsManaged(v: AnnotationValidator, key: string)
    requires v == DEFAULT_VALIDATOR && v.Accepts(key)
    ensures |key| >= 25 && key == SCHEDULER + "/" + key[17..] && HasPrefix(key[17..], "managed-") && IsLabel(key[17..])
  {
    CutAtSlash(key);
    SchedulerIsName();
    SubdomainExactly(SCHEDULER, key[17..]);
  }

  lemma SchedulerText()
    ensures SCHEDULER + "/" == "scheduler.k8s.io/"
  {
  }

  /** The default policy in one line: the scheduler's domain, and a label of at most 63 characters that begins with
      "managed-". */
  lemma DefaultAcceptsExactly(key: string)
    ensures DEFAULT_VALIDATOR.Accepts(key) <==>
      exists name :: key == "scheduler.k8s.io/" + name && HasPrefix(name, "managed-") && IsLabel(name)
  {
    SchedulerText();
    var v := DEFAULT_VALIDATOR;
    if v.Accepts(key) {
      AcceptedIsManaged(v, key);
    }
    if name :| key == "scheduler.k8s.io/" + name && HasPrefix(name, "managed-") && IsLabel(name) {
      ManagedIsAccepted(v, SCHEDULER + "/", name);
    }
  }

  lemma ManagedLabel(c: char)
    requires IsAlphanumeric(c)
    ensures IsLabel("managed-" + [c])
  {
  }

  /** The required prefix with one more letter or digit. */
  lemma ManagedKeyIsAccepted(c: char)
    requires IsAlphanumeric(c)
    ensures DEFAULT_VALIDATOR.Accepts(REQUIRED_PREFIX + [c])
  {
    var front, name := SCHEDULER + "/", "managed-" + [c];
    ManagedLabel(c);
    ManagedIsAccepted(DEFAULT_VALIDATOR, front, name);
    PrefixesByParts();
    assert REQUIRED_PREFIX + [c] == front + name;
  }

  lemma ManagedKeysAreAccepted()
    ensures DEFAULT_VALIDATOR.Accepts("scheduler.k8s.io/managed-a")
    ensures DEFAULT_VALIDATOR.Accepts("scheduler.k8s.io/managed-b")
  {
    ManagedKeyIsAccepted('a');
    ManagedKeyIsAccepted('b');
    assert "scheduler.k8s.io/managed-a" == REQUIRED_PREFIX + ['a'];
    assert "scheduler.k8s.io/managed-b" == REQUIRED_PREFIX + ['b'];
  }
}
