/** What an annotation key must look like, character by character (internal/security/validator.go). */
module KeyShapes {
  import opened GoStrings
  import opened Validator

  predicate IsAscii(s: string) {
    forall i | 0 <= i < |s| :: s[i] < '\U{0080}'
  }

  lemma {:induction false} ByteLengthOfAscii(s: string)
    requires IsAscii(s)
    ensures ByteLength(s) == |s|
  {
    if s == "" {
    } else {
      ByteLengthOfAscii(s[1..]);
    }
  }

  predicate IsAlphanumeric(c: char) {
    'a' <= c <= 'z' || '0' <= c <= '9'
  }

  /** One to 63 lower-case letters, digits and hyphens, with no hyphen at either end. */
  predicate IsLabel(s: string) {
    && 1 <= |s| <= 63
    && (forall c | c in s :: IsAlphanumeric(c) || c == '-')
    && s[0] != '-' && s[|s| - 1] != '-'
  }

  /** One to 253 such characters and dots, with none of the two at either end, and no two dots in a row. */
  predicate IsName(s: string) {
    && 1 <= |s| <= 253
    && (forall c | c in s :: IsAlphanumeric(c) || c == '-' || c == '.')
    && s[0] !in {'-', '.'} && s[|s| - 1] !in {'-', '.'}
    && forall i | 0 <= i < |s| - 1 :: !(s[i] == '.' && s[i + 1] == '.')
  }

  lemma EdgedExactly(s: string, middle: char -> bool)
    requires forall c :: IsLabelEdge(c) ==> middle(c)
    ensures MatchesEdged(s, middle) <==>
      s != "" && (forall c | c in s :: middle(c)) && IsAlphanumeric(s[0]) && IsAlphanumeric(s[|s| - 1])
  {
    if s != "" && (forall c | c in s :: middle(c)) {
      assert forall i | 0 <= i < |s| :: s[i] in s;
    }
  }

  lemma LabelExactly(s: string)
    ensures ValidDNSLabel(s) <==> IsLabel(s)
  {
    var middle := (c: char) => IsLabelEdge(c) || c == '-';
    EdgedExactly(s, middle);
    if s != "" && forall c | c in s :: middle(c) {
      assert forall i | 0 <= i < |s| :: s[i] in s;
      ByteLengthOfAscii(s);
    }
    assert ValidDNSLabel(s) <==> 1 <= ByteLength(s) <= 63 && MatchesEdged(s, middle);
  }

  lemma DotsExactly(s: string)
    ensures Contains(s, "..") <==> exists i | 0 <= i < |s| - 1 :: s[i] == '.' && s[i + 1] == '.'
  {
    if i :| 0 <= i < |s| - 1 && s[i] == '.' && s[i + 1] == '.' {
      assert s[i..i + 2] == "..";
      assert HasPartAt(s, "..", i);
    }
    if i :| 0 <= i <= |s| && HasPartAt(s, "..", i) {
      assert s[i..i + 2][0] == s[i] && s[i..i + 2][1] == s[i + 1];
    }
  }

  lemma NameExactly(s: string)
    ensures ValidDNSName(s) <==> IsName(s)
  {
    var middle := (c: char) => IsLabelEdge(c) || c == '-' || c == '.';
    EdgedExactly(s, middle);
    DotsExactly(s);
    if s != "" && forall c | c in s :: middle(c) {
      assert forall i | 0 <= i < |s| :: s[i] in s;
      ByteLengthOfAscii(s);
    }
    assert ValidDNSName(s) <==> 1 <= ByteLength(s) <= 253 && MatchesEdged(s, middle) && !Contains(s, "..");
  }

  /** A key is a label, or a label behind a slash and, in front of the slash, a name or nothing. */
  lemma SubdomainExactly(prefix: string, name: string)
    requires '/' !in prefix
    ensures ValidDNSSubdomain(prefix + "/" + name) <==> (prefix == "" || IsName(prefix)) && IsLabel(name)
    ensures ValidDNSSubdomain(prefix) <==> IsLabel(prefix)
  {
    var key := prefix + "/" + name;
    IndexOfIsFirst(key, '/', |prefix|);
    assert key[..|prefix|] == prefix && key[|prefix| + 1..] == name;
    IndexOfIsFirst(prefix, '/', |prefix|);
    NameExactly(prefix);
    LabelExactly(name);
    LabelExactly(prefix);
  }
}
