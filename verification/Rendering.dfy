/** What a template value comes to, in terms of the text alone (internal/templating/engine.go). */
module Rendering {
  import opened GoStrings
  import opened Scanner
  import opened Template

  /** The text between the braces of a match. */
  predicate IsMatchOf(p: Pass, match_: string, name: string) {
    && name != "" && '}' !in name
    && match_ == (if p.Dollar? then "${" + name + "}" else "{{" + name + "}}")
  }

  /** A pass matches at the start of a text exactly where an opening, a name without a closing brace, and the
      closing are. */
  lemma MatchesExactly(p: Pass, s: string, n: nat)
    requires 0 < n <= |s|
    ensures MatchLength(p, s) == n <==> exists name :: IsMatchOf(p, s[..n], name)
  {
    if MatchLength(p, s) == n {
      MatchHasName(p, s);
    }
    if name :| IsMatchOf(p, s[..n], name) {
      NameMatches(p, s, n, name);
    }
  }

  lemma MatchHasName(p: Pass, s: string)
    requires MatchLength(p, s) > 0
    ensures var n := MatchLength(p, s); IsMatchOf(p, s[..n], if p.Dollar? then s[2..n - 1] else s[2..n - 2])
  {
    var n := MatchLength(p, s);
    var close := IndexOf(s[2..], '}');
    var name := if p.Dollar? then s[2..n - 1] else s[2..n - 2];
    assert |name| == close && name == s[2..][..close];
    assert s[2 + close] == s[2..][close];
    assert forall i | 0 <= i < close :: name[i] == s[2..][i];
    if p.Dollar? {
      assert s[..n] == "${" + name + "}";
    } else {
      assert s[..n] == "{{" + name + "}}";
    }
  }

  lemma NameMatches(p: Pass, s: string, n: nat, name: string)
    requires 0 < n <= |s| && IsMatchOf(p, s[..n], name)
    ensures MatchLength(p, s) == n
  {
    var front := s[..n];
    assert forall i | 0 <= i < n :: s[i] == front[i];
    assert forall i | 0 <= i < |name| :: s[2..][i] == front[2 + i] == name[i];
    assert s[2..][|name|] == front[2 + |name|] == '}';
    IndexOfIsFirst(s[2..], '}', |name|);
  }

  ghost predicate MatchesAt(p: Pass, s: string, n: nat, name: string) {
    0 < n <= |s| && IsMatchOf(p, s[..n], name)
  }

  /** A match is replaced by the value of its variable, if it has one; in double braces the name is trimmed. */
  function Filled(p: Pass, text: string, name: string, vars: Variables): string {
    var variable := if p.Brace? then TrimSpace(name) else name;
    if variable in vars then vars[variable] else text
  }

  /** A pass, read off the text: a match is replaced as a whole, and any other character is copied. */
  ghost function Rendered(p: Pass, s: string, vars: Variables): string
    decreases |s|
  {
    if s == "" then ""
    else if exists n: nat, name :: MatchesAt(p, s, n, name) then
      var n: nat, name :| MatchesAt(p, s, n, name);
      Filled(p, s[..n], name, vars) + Rendered(p, s[n..], vars)
    else
      [s[0]] + Rendered(p, s[1..], vars)
  }

  lemma RenderedAtMatch(p: Pass, s: string, n: nat, name: string, vars: Variables)
    requires MatchesAt(p, s, n, name)
    ensures Rendered(p, s, vars) == Filled(p, s[..n], name, vars) + Rendered(p, s[n..], vars)
  {
    forall m: nat, other | MatchesAt(p, s, m, other)
      ensures m == n && other == name
    {
      NameMatches(p, s, m, other);
      NameMatches(p, s, n, name);
      NameOfMatch(p, s[..n], name);
      NameOfMatch(p, s[..n], other);
    }
  }

  lemma {:induction false} PassIsRendered(p: Pass, s: string, vars: Variables)
    ensures RunPass(p, s, vars) == Rendered(p, s, vars)
    decreases |s|
  {
    if s == "" {
    } else if MatchLength(p, s) > 0 {
      var n := MatchLength(p, s);
      var name := if p.Dollar? then s[2..n - 1] else s[2..n - 2];
      MatchHasName(p, s);
      RenderedAtMatch(p, s, n, name, vars);
      NameOfMatch(p, s[..n], name);
      PassIsRendered(p, s[n..], vars);
    } else {
      forall n: nat, name
        ensures !MatchesAt(p, s, n, name)
      {
        if MatchesAt(p, s, n, name) {
          NameMatches(p, s, n, name);
        }
      }
      PassIsRendered(p, s[1..], vars);
    }
  }

  lemma NameOfMatch(p: Pass, text: string, name: string)
    requires IsMatchOf(p, text, name)
    ensures MatchName(p, text) == if p.Brace? then TrimSpace(name) else name
    ensures name == if p.Dollar? then text[2..|text| - 1] else text[2..|text| - 2]
  {
    assert name == if p.Dollar? then text[2..|text| - 1] else text[2..|text| - 2];
  }

  /** Both passes: first the names in "${...}", then those in double braces. */
  ghost function Expansion(s: string, vars: Variables): string {
    Rendered(Brace, Rendered(Dollar, s, vars), vars)
  }

  lemma ProcessedIsExpansion(s: string, vars: Variables)
    ensures Processed(s, vars) == Expansion(s, vars)
  {
    PassIsRendered(Dollar, s, vars);
    PassIsRendered(Brace, Rendered(Dollar, s, vars), vars);
  }

  /** A bound name is replaced by its value, in either kind of braces. */
  lemma BoundNameIsReplaced(name: string, vars: Variables)
    requires name != "" && TrimSpace(name) == name && forall c | c in name :: c !in {'$', '{', '}'}
    requires name in vars && Inert(vars[name])
    ensures Expansion("${" + name + "}", vars) == vars[name]
    ensures Expansion("{{" + name + "}}", vars) == vars[name]
  {
    WholeMatch(Dollar, "${" + name + "}", name, vars);
    WholeMatch(Brace, "{{" + name + "}}", name, vars);
    NoOpening("{{" + name + "}}", vars);
    NothingToMatch(Brace, vars[name], vars);
    PassIsRendered(Brace, vars[name], vars);
  }

  lemma WholeMatch(p: Pass, text: string, name: string, vars: Variables)
    requires IsMatchOf(p, text, name)
    ensures Rendered(p, text, vars) == Filled(p, text, name, vars)
  {
    var n := |text|;
    assert text[..n] == text && text[n..] == "";
    RenderedAtMatch(p, text, n, name, vars);
  }

  /** Without a dollar sign the first pass has nothing to do. */
  lemma NoOpening(s: string, vars: Variables)
    requires '$' !in s
    ensures Rendered(Dollar, s, vars) == s
  {
    PassIsRendered(Dollar, s, vars);
    forall i | 0 <= i < |s|
      ensures MatchLength(Dollar, s[i..]) == 0
    {
      assert s[i..][0] == s[i];
    }
    NoMatchIsKept(Dollar, s, vars);
  }
}
