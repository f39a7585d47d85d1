/** The annotation-key policy (internal/security/validator.go). */
module Validator {
  import opened GoStrings
  import opened Wrappers

  datatype KeyError =
    | EmptyKey
    | KeyTooLong
    | DeniedPrefix(prefix: string)
    | MissingRequiredPrefix
    | NoAllowedPrefix
    | BadFormat

  predicate IsLabelEdge(c: char) {
    'a' <= c <= 'z' || '0' <= c <= '9'
  }

  /** The regular expression ^[a-z0-9](M*[a-z0-9])?$, for a class M of middle characters. */
  predicate MatchesEdged(s: string, middle: char -> bool) {
    && s != ""
    && IsLabelEdge(s[0])
    && (|s| > 1 ==> IsLabelEdge(s[|s| - 1]) && forall i | 1 <= i < |s| - 1 :: middle(s[i]))
  }

  predicate ValidDNSName(name: string) {
    && 1 <= ByteLength(name) <= 253
    && MatchesEdged(name, c => IsLabelEdge(c) || c == '-' || c == '.')
    && !Contains(name, "..")
  }

  predicate ValidDNSLabel(lbl: string) {
    && 1 <= ByteLength(lbl) <= 63
    && MatchesEdged(lbl, c => IsLabelEdge(c) || c == '-')
  }

  /** validateDNSSubdomain: an optional prefix before the first slash, and a name. */
  predicate ValidDNSSubdomain(key: string) {
    var slash := IndexOf(key, '/');
    if slash < |key| then
      && (key[..slash] != "" ==> ValidDNSName(key[..slash]))
      && ValidDNSLabel(key[slash + 1..])
    else
      ValidDNSLabel(key)
  }

  /** A token of a tracking list: not empty, no white space, no bracket. */
  predicate Clean(k: string) {
    k != "" && forall c | c in k :: !IsSpace(c) && !IsBracket(c)
  }

  /** What the engine needs of an annotation key: a clean token with at most one slash. */
  predicate Plain(k: string) {
    Clean(k) && forall i, j | 0 <= i < j < |k| :: !(k[i] == '/' && k[j] == '/')
  }

  datatype AnnotationValidator = AnnotationValidator(
    allowedPrefixes: seq<string>,
    deniedPrefixes: seq<string>,
    requiredPrefix: string,
    maxKeyLength: int)
  {
    predicate Accepts(key: string) {
      && key != ""
      && ByteLength(key) <= maxKeyLength
      && (forall p | p in deniedPrefixes :: !HasPrefix(key, p))
      && HasPrefix(key, requiredPrefix)
      && (allowedPrefixes == [] || exists p | p in allowedPrefixes :: HasPrefix(key, p))
      && ValidDNSSubdomain(key)
    }

    /** The key is not empty, not too long, and has no denied prefix. */
    predicate PastDenials(key: string) {
      && key != "" && ByteLength(key) <= maxKeyLength
      && forall p | p in deniedPrefixes :: !HasPrefix(key, p)
    }

    /** Checks in the order of the source; the first failing check is reported. */
    method ValidateAnnotationKey(key: string) returns (err: Option<KeyError>)
      ensures err == None <==> Accepts(key)
      ensures err == Some(EmptyKey) <==> key == ""
      ensures key != "" ==> (err == Some(KeyTooLong) <==> ByteLength(key) > maxKeyLength)
      ensures err.Some? && err.value.DeniedPrefix? ==>
        exists i :: 0 <= i < |deniedPrefixes| && err.value.prefix == deniedPrefixes[i]
                 && HasPrefix(key, deniedPrefixes[i])
                 && forall j | 0 <= j < i :: !HasPrefix(key, deniedPrefixes[j])
      ensures key != "" && ByteLength(key) <= maxKeyLength && (exists p | p in deniedPrefixes :: HasPrefix(key, p))
        ==> err.Some? && err.value.DeniedPrefix?
      ensures err == Some(MissingRequiredPrefix) <==>
        PastDenials(key) && !HasPrefix(key, requiredPrefix)
      ensures err == Some(NoAllowedPrefix) <==>
        && PastDenials(key) && HasPrefix(key, requiredPrefix)
        && allowedPrefixes != [] && !(exists p | p in allowedPrefixes :: HasPrefix(key, p))
      ensures err == Some(BadFormat) <==>
        && PastDenials(key) && HasPrefix(key, requiredPrefix)
        && (allowedPrefixes == [] || exists p | p in allowedPrefixes :: HasPrefix(key, p))
        && !ValidDNSSubdomain(key)
    {
      if key == "" {
        return Some(EmptyKey);
      }
      if ByteLength(key) > maxKeyLength {
        return Some(KeyTooLong);
      }
      for i := 0 to |deniedPrefixes|
        invariant forall j | 0 <= j < i :: !HasPrefix(key, deniedPrefixes[j])
      {
        if HasPrefix(key, deniedPrefixes[i]) {
          return Some(DeniedPrefix(deniedPrefixes[i]));
        }
      }
      if requiredPrefix != "" && !HasPrefix(key, requiredPrefix) {
        return Some(MissingRequiredPrefix);
      }
      if |allowedPrefixes| > 0 {
        var allowed := false;
        for i := 0 to |allowedPrefixes|
          invariant !allowed
          invariant forall j | 0 <= j < i :: !HasPrefix(key, allowedPrefixes[j])
        {
          if HasPrefix(key, allowedPrefixes[i]) {
            allowed := true;
            break;
          }
        }
        if !allowed {
          return Some(NoAllowedPrefix);
        }
      }
      if !ValidDNSSubdomain(key) {
        return Some(BadFormat);
      }
      return None;
    }
  }

  const ALLOWED_PREFIXES := ["app.kubernetes.io/", "scheduler.k8s.io/", "example.com/"]

  const REQUIRED_PREFIX := "scheduler.k8s.io/managed-"

  const DENIED_KUBERNETES :=
    ["kubernetes.io/", "k8s.io/", "kubectl.kubernetes.io/", "node.kubernetes.io/", "volume.kubernetes.io/"]

  const DENIED_RESOURCES := [
    "service.kubernetes.io/", "endpoints.kubernetes.io/", "endpointslice.kubernetes.io/", "networking.kubernetes.io/",
    "policy/", "security.kubernetes.io/"]

  const DENIED_ACCESS := [
    "admission.kubernetes.io/", "authorization.kubernetes.io/", "authentication.kubernetes.io/",
    "rbac.authorization.kubernetes.io/"]

  const DENIED_COMPONENTS := [
    "apiserver.kubernetes.io/", "controller.kubernetes.io/", "scheduler.kubernetes.io/", "kubelet.kubernetes.io/",
    "kube-proxy.kubernetes.io/", "cloud.kubernetes.io/", "cluster-autoscaler.kubernetes.io/",
    "node-restriction.kubernetes.io/"]

  /** NewAnnotationValidator: the policy the resource manager is built with. */
  const DEFAULT_VALIDATOR := AnnotationValidator(
    ALLOWED_PREFIXES,
    DENIED_KUBERNETES + DENIED_RESOURCES + DENIED_ACCESS + DENIED_COMPONENTS,
    REQUIRED_PREFIX,
    253)

  lemma EdgedCharacters(s: string, middle: char -> bool)
    requires MatchesEdged(s, middle)
    ensures forall i | 0 <= i < |s| :: IsLabelEdge(s[i]) || middle(s[i])
  {
  }

  /** Whatever the prefixes, every accepted key is a clean token with at most one slash. */
  lemma AcceptedIsPlain(v: AnnotationValidator, key: string)
    requires v.Accepts(key)
    ensures Plain(key)
  {
    var slash := IndexOf(key, '/');
    var lbl := if slash < |key| then key[slash + 1..] else key;
    EdgedCharacters(lbl, c => IsLabelEdge(c) || c == '-');
    if slash < |key| {
      if key[..slash] != "" {
        EdgedCharacters(key[..slash], c => IsLabelEdge(c) || c == '-' || c == '.');
      }
      assert forall i | 0 <= i < slash :: key[i] == key[..slash][i];
      assert forall i | slash < i < |key| :: key[i] == lbl[i - slash - 1];
    }
  }
}
