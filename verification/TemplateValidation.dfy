/** The check that templates must pass before a rule is scheduled, and what it is worth
    (internal/templating/engine.go). */
module TemplateValidation {
  import opened GoStrings
  import opened Scanner
  import opened Template
  import opened Wrappers

  datatype TemplateError = UnmatchedOpening | EmptyName | InvalidName(name: string)

  /** The length of the match at the start of s of \$\{[^}]*\} or \{\{[^}]*\}\}: here the name may be empty. */
  function AnyLength(p: Pass, s: string): (n: nat)
    ensures n <= |s|
    ensures n > 0 ==> n >= if p.Dollar? then 3 else 4
  {
    if |s| < 2 then 0
    else
      var close := IndexOf(s[2..], '}');
      match p
      case Dollar =>
        if s[0] == '$' && s[1] == '{' && close < |s| - 2 then close + 3 else 0
      case Brace =>
        if s[0] == '{' && s[1] == '{' && close < |s| - 3 && s[close + 3] == '}' then close + 4 else 0
  }

  function AnyMatcherOf(p: Pass): Matcher {
    s => AnyLength(p, s)
  }

  /** The name as it stands between the braces. */
  function RawName(p: Pass, text: string): string {
    match p
    case Dollar => if |text| >= 3 then text[2..|text| - 1] else ""
    case Brace => if |text| >= 4 then text[2..|text| - 2] else ""
  }

  /** extractVariableName */
  function VariableName(p: Pass, text: string): string {
    TrimSpace(RawName(p, text))
  }

  predicate IsNameChar(c: char) {
    'a' <= c <= 'z' || 'A' <= c <= 'Z' || '0' <= c <= '9' || c in {'.', '_', '-'}
  }

  /** validateVariableName */
  predicate IsVariableName(name: string) {
    name != "" && forall c | c in name :: IsNameChar(c)
  }

  /** The white space of a regular expression. */
  predicate IsBlank(c: char) {
    c in {' ', '\t', '\n', '\r', '\U{000C}'}
  }

  predicate Opens(p: Pass, s: string) {
    |s| >= 2 && s[0] == (if p.Dollar? then '$' else '{') && s[1] == '{'
  }

  predicate HasUnmatchedOpening(s: string) {
    exists i | 0 <= i < |s| :: (Opens(Dollar, s[i..]) || Opens(Brace, s[i..])) && '}' !in s[i + 2..]
  }

  predicate IsEmptyMatch(p: Pass, s: string) {
    AnyLength(p, s) > 0 && forall c | c in RawName(p, s[..AnyLength(p, s)]) :: IsBlank(c)
  }

  predicate HasEmptyName(p: Pass, s: string) {
    exists i | 0 <= i < |s| :: IsEmptyMatch(p, s[i..])
  }

  /** All matches in a text, as FindAllString gives them. */
  function FindAll(p: Pass, s: string): seq<string> {
    HolesOf(Segments(AnyMatcherOf(p), s))
  }

  function HolesOf(segments: seq<Segment>): (holes: seq<string>)
    ensures forall segment :: segment in segments && segment.hole ==> segment.text in holes
  {
    if segments == [] then []
    else (if segments[0].hole then [segments[0].text] else []) + HolesOf(segments[1..])
  }

  predicate HasNames(p: Pass, matches: seq<string>) {
    forall m | m in matches :: IsVariableName(VariableName(p, m))
  }

  /** What ValidateTemplate accepts. */
  predicate IsWellFormed(s: string) {
    s == "" ||
    (&& !HasUnmatchedOpening(s)
     && !HasEmptyName(Dollar, s) && !HasEmptyName(Brace, s)
     && HasNames(Dollar, FindAll(Dollar, s)) && HasNames(Brace, FindAll(Brace, s)))
  }

  /** The name is not valid, and is that of the first such match. */
  predicate IsFirstInvalid(p: Pass, matches: seq<string>, name: string) {
    exists i | 0 <= i < |matches| ::
      name == VariableName(p, matches[i]) && !IsVariableName(name) && HasNames(p, matches[..i])
  }

  method ValidateTemplate(template: string) returns (err: Option<TemplateError>)
    ensures err == None <==> IsWellFormed(template)
    ensures err == Some(UnmatchedOpening) <==> HasUnmatchedOpening(template)
    ensures err == Some(EmptyName) <==>
      !HasUnmatchedOpening(template) && (HasEmptyName(Dollar, template) || HasEmptyName(Brace, template))
    ensures err.Some? && err.value.InvalidName? ==>
      || IsFirstInvalid(Dollar, FindAll(Dollar, template), err.value.name)
      || (HasNames(Dollar, FindAll(Dollar, template))
        && IsFirstInvalid(Brace, FindAll(Brace, template), err.value.name))
  {
    if template == "" {
      return None;
    }
    if HasUnmatchedOpening(template) {
      return Some(UnmatchedOpening);
    }
    if HasEmptyName(Dollar, template) || HasEmptyName(Brace, template) {
      return Some(EmptyName);
    }
    err := FirstInvalidName(Dollar, FindAll(Dollar, template));
    if err == None {
      err := FirstInvalidName(Brace, FindAll(Brace, template));
    }
  }

  method FirstInvalidName(p: Pass, matches: seq<string>) returns (err: Option<TemplateError>)
    ensures err == None <==> HasNames(p, matches)
    ensures err.Some? ==> err.value.InvalidName? && IsFirstInvalid(p, matches, err.value.name)
  {
    for i := 0 to |matches|
      invariant HasNames(p, matches[..i])
    {
      assert matches[i] in matches && matches[..i + 1] == matches[..i] + [matches[i]];
      if !IsVariableName(VariableName(p, matches[i])) {
        return Some(InvalidName(VariableName(p, matches[i])));
      }
    }
    assert matches[..|matches|] == matches;
    return None;
  }

  /** Without empty names the two kinds of match are the same. */
  lemma SameMatches(s: string, i: nat)
    requires i < |s| && !HasEmptyName(Dollar, s)
    ensures MatchLength(Dollar, s[i..]) == AnyLength(Dollar, s[i..])
  {
    assert !IsEmptyMatch(Dollar, s[i..]);
    assert |s[i..]| >= 3 ==> RawName(Dollar, s[i..][..3]) == "";
  }

  lemma {:induction false} TrimLeftKeeps(s: string, cut: char -> bool, c: char)
    requires c in s && !cut(c)
    ensures c in TrimLeft(s, cut)
  {
    if !cut(s[0]) {
    } else {
      TrimLeftKeeps(s[1..], cut, c);
    }
  }

  lemma {:induction false} TrimRightKeeps(s: string, cut: char -> bool, c: char)
    requires c in s && !cut(c)
    ensures c in TrimRight(s, cut)
  {
    if !cut(s[|s| - 1]) {
    } else {
      assert s == s[..|s| - 1] + [s[|s| - 1]];
      TrimRightKeeps(s[..|s| - 1], cut, c);
    }
  }

  /** A name that is valid when trimmed has no brace, trimmed or not. */
  lemma ValidNameHasNoOpening(p: Pass, text: string)
    requires IsVariableName(VariableName(p, text))
    ensures '{' !in RawName(p, text) && !HasOpening(RawName(p, text))
  {
    var name := RawName(p, text);
    if '{' in name {
      TrimLeftKeeps(name, IsSpace, '{');
      TrimRightKeeps(TrimLeft(name, IsSpace), IsSpace, '{');
    }
  }

  lemma WellFormedIsNotNested(s: string, vars: Variables)
    requires IsWellFormed(s)
    ensures NothingNested(s, vars)
  {
    if s != "" {
      forall i | 0 <= i < |s|
        ensures Found(MatcherOf(Dollar), s[i..]) == Found(AnyMatcherOf(Dollar), s[i..])
      {
        SameMatches(s, i);
      }
      SameSegments(MatcherOf(Dollar), AnyMatcherOf(Dollar), s);
      forall segment | segment in Segments(MatcherOf(Dollar), s) && segment.hole
        ensures !HasOpening(MatchName(Dollar, segment.text))
      {
        assert segment.text in FindAll(Dollar, s);
        ValidNameHasNoOpening(Dollar, segment.text);
      }
    }
  }

  /** The guard is enough: processing a template that has passed the check is idempotent. */
  lemma ValidatedIsIdempotent(s: string, vars: Variables)
    requires AllInert(vars) && IsWellFormed(s)
    ensures Processed(Processed(s, vars), vars) == Processed(s, vars)
  {
    WellFormedIsNotNested(s, vars);
    IdempotentWithoutNesting(s, vars);
  }

  /** The template that the passes change twice does not pass the check. */
  lemma NestedExampleIsRejected()
    ensures !IsWellFormed("${x{{b}}}")
  {
    if IsWellFormed("${x{{b}}}") {
      ValidatedIsIdempotent("${x{{b}}}", EXAMPLE);
      TwoPassesAreNotIdempotent();
    }
  }

  /* The check opening by opening. */

  /** A character of a name, by its code: a digit, a letter, or one of hyphen, dot and underscore. */
  predicate IsNameCode(n: int) {
    48 <= n <= 57 || 65 <= n <= 90 || 97 <= n <= 122 || n in {45, 46, 95}
  }

  predicate IsNameText(name: string) {
    name != "" && forall c | c in name :: IsNameCode(c as int)
  }

  lemma NamesExactly(name: string)
    ensures IsVariableName(name) <==> IsNameText(name)
  {
    forall c: char
      ensures IsNameChar(c) <==> IsNameCode(c as int)
    {
    }
  }

  /** White space, by its code: tab, line feed, form feed, carriage return and space. */
  lemma BlanksExactly(c: char)
    ensures IsBlank(c) <==> c as int in {9, 10, 12, 13, 32}
  {
  }

  /** What stands behind an opening: a closing brace somewhere; and, if the opening is closed, a name that is valid when
      trimmed. */
  predicate GoodOpening(p: Pass, s: string)
    requires Opens(p, s)
  {
    var close := IndexOf(s[2..], '}');
    && close < |s| - 2
    && (p.Dollar? || (close < |s| - 3 && s[close + 3] == '}') ==> IsNameText(TrimSpace(s[2..close + 2])))
  }

  predicate AllOpeningsGood(p: Pass, s: string) {
    forall i | 0 <= i < |s| && Opens(p, s[i..]) :: GoodOpening(p, s[i..])
  }

  lemma MatchOpens(p: Pass, s: string)
    requires AnyLength(p, s) > 0
    ensures var n := AnyLength(p, s); var close := IndexOf(s[2..], '}');
      && Opens(p, s) && n == close + (if p.Dollar? then 3 else 4) && RawName(p, s[..n]) == s[2..close + 2]
      && '}' !in RawName(p, s[..n]) && forall i | close + 2 <= i < n :: s[i] == '}'
  {
    var n, close := AnyLength(p, s), IndexOf(s[2..], '}');
    assert s[2..][close] == s[close + 2];
    assert forall i | 0 <= i < close :: s[2..close + 2][i] == s[2..][i];
    match p
    case Dollar => assert n == close + 3 && s[..n][2..n - 1] == s[2..close + 2];
    case Brace => assert n == close + 4 && s[..n][2..n - 2] == s[2..close + 2];
  }

  /** Inside a match with a valid name there is no further opening. */
  lemma NothingOpensInside(p: Pass, s: string, i: nat)
    requires 0 < i < AnyLength(p, s) && '{' !in RawName(p, s[..AnyLength(p, s)])
    ensures !Opens(p, s[i..])
  {
    var n, close := AnyLength(p, s), IndexOf(s[2..], '}');
    MatchOpens(p, s);
    var name := s[2..close + 2];
    assert forall j | 0 <= j < close :: name[j] == s[j + 2];
  }

  /** The first place, and the place where the search goes on. */
  lemma FirstFound(p: Pass, s: string)
    requires s != ""
    ensures var n := AnyLength(p, s);
      FindAll(p, s) == if n > 0 then [s[..n]] + FindAll(p, s[n..]) else FindAll(p, s[1..])
  {
  }

  function Step(p: Pass, s: string): (step: nat)
    requires s != ""
    ensures 0 < step <= |s|
  {
    if AnyLength(p, s) > 0 then AnyLength(p, s) else 1
  }

  lemma FoundLater(p: Pass, s: string)
    requires s != ""
    ensures forall m | m in FindAll(p, s[Step(p, s)..]) :: m in FindAll(p, s)
    ensures AnyLength(p, s) > 0 ==> s[..AnyLength(p, s)] in FindAll(p, s)
  {
    FirstFound(p, s);
  }

  lemma NamesLater(p: Pass, s: string, rest: string)
    requires s != "" && rest == s[Step(p, s)..] && HasNames(p, FindAll(p, s))
    ensures HasNames(p, FindAll(p, rest))
    ensures AnyLength(p, s) > 0 ==> IsVariableName(VariableName(p, s[..AnyLength(p, s)]))
  {
    FoundLater(p, s);
  }

  lemma StillFound(p: Pass, s: string, rest: string, m: string)
    requires s != "" && rest == s[Step(p, s)..] && m in FindAll(p, rest)
    ensures m in FindAll(p, s)
  {
    FoundLater(p, s);
  }

  lemma FoundHereOrLater(p: Pass, s: string, rest: string, m: string)
    requires s != "" && rest == s[Step(p, s)..] && m in FindAll(p, s)
    ensures (AnyLength(p, s) > 0 && m == s[..AnyLength(p, s)]) || m in FindAll(p, rest)
  {
    FirstFound(p, s);
  }

  lemma NothingFoundInEmpty(p: Pass)
    ensures FindAll(p, "") == []
  {
  }

  lemma SuffixOfSuffix(s: string, from: nat, step: nat)
    requires from + step <= |s|
    ensures s[from..][step..] == s[from + step..]
  {
  }

  /** The text of the match at a place. */
  function MatchAt(p: Pass, s: string, i: nat): string
    requires i <= |s|
  {
    s[i..][..AnyLength(p, s[i..])]
  }

  /** A match is not inside one that is found, if that has a valid name. */
  lemma NotInside(p: Pass, s: string, i: nat)
    requires 0 < i < |s| && AnyLength(p, s[i..]) > 0
    requires AnyLength(p, s) > 0 ==> IsVariableName(VariableName(p, s[..AnyLength(p, s)]))
    ensures Step(p, s) <= i
  {
    MatchOpens(p, s[i..]);
    if i < AnyLength(p, s) {
      ValidNameHasNoOpening(p, s[..AnyLength(p, s)]);
      NothingOpensInside(p, s, i);
    }
  }

  /** When all matches found from a place on have valid names, there is no other match behind it. */
  lemma {:induction false} MatchIsFound(p: Pass, s: string, from: nat, i: nat)
    requires from <= i < |s| && AnyLength(p, s[i..]) > 0 && HasNames(p, FindAll(p, s[from..]))
    ensures MatchAt(p, s, i) in FindAll(p, s[from..])
    decreases |s| - from
  {
    var t := s[from..];
    if i == from {
      FoundLater(p, t);
    } else {
      var step := Step(p, t);
      var next := from + step;
      SuffixOfSuffix(s, from, step);
      SuffixOfSuffix(s, from, i - from);
      NamesLater(p, t, s[next..]);
      NotInside(p, t, i - from);
      MatchIsFound(p, s, next, i);
      StillFound(p, t, s[next..], MatchAt(p, s, i));
    }
  }

  /** Everything found from a place on is a match at some place behind it. */
  lemma {:induction false} FoundIsMatch(p: Pass, s: string, from: nat, m: string) returns (i: nat)
    requires from <= |s| && m in FindAll(p, s[from..])
    ensures from <= i < |s| && AnyLength(p, s[i..]) > 0 && MatchAt(p, s, i) == m
    decreases |s| - from
  {
    var t := s[from..];
    NothingFoundInEmpty(p);
    var next := from + Step(p, t);
    SuffixOfSuffix(s, from, Step(p, t));
    FoundHereOrLater(p, t, s[next..], m);
    if AnyLength(p, t) > 0 && m == t[..AnyLength(p, t)] {
      i := from;
    } else {
      i := FoundIsMatch(p, s, next, m);
    }
  }

  lemma {:induction false} TrimOfBlank(s: string)
    requires forall c | c in s :: IsSpace(c)
    ensures TrimSpace(s) == ""
  {
    if s == "" {
    } else {
      TrimOfBlank(s[1..]);
    }
  }

  /** A match is a good opening exactly if its name is valid. */
  lemma MatchIsGood(p: Pass, s: string)
    requires AnyLength(p, s) > 0
    ensures Opens(p, s) && (GoodOpening(p, s) <==> IsVariableName(VariableName(p, s[..AnyLength(p, s)])))
  {
    MatchOpens(p, s);
    NamesExactly(VariableName(p, s[..AnyLength(p, s)]));
  }

  /** An opening that is no match is good exactly if a closing brace follows. */
  lemma NoMatchIsGood(p: Pass, s: string)
    requires AnyLength(p, s) == 0 && Opens(p, s)
    ensures GoodOpening(p, s) <==> '}' in s[2..]
  {
  }

  lemma AcceptedIsGood(p: Pass, s: string)
    requires !HasUnmatchedOpening(s) && HasNames(p, FindAll(p, s))
    ensures AllOpeningsGood(p, s)
  {
    assert s[0..] == s;
    forall i: nat | i < |s| && Opens(p, s[i..])
      ensures GoodOpening(p, s[i..])
    {
      assert s[i..][2..] == s[i + 2..];
      if AnyLength(p, s[i..]) > 0 {
        MatchIsFound(p, s, 0, i);
        MatchIsGood(p, s[i..]);
      } else {
        NoMatchIsGood(p, s[i..]);
      }
    }
  }

  lemma GoodHasNames(p: Pass, s: string)
    requires AllOpeningsGood(p, s)
    ensures HasNames(p, FindAll(p, s))
  {
    assert s[0..] == s;
    forall m | m in FindAll(p, s)
      ensures IsVariableName(VariableName(p, m))
    {
      var i := FoundIsMatch(p, s, 0, m);
      MatchIsGood(p, s[i..]);
    }
  }

  lemma GoodIsNotEmpty(p: Pass, s: string)
    requires AnyLength(p, s) > 0 && Opens(p, s) && GoodOpening(p, s)
    ensures !IsEmptyMatch(p, s)
  {
    MatchIsGood(p, s);
    var name := RawName(p, s[..AnyLength(p, s)]);
    if forall c | c in name :: IsBlank(c) {
      TrimOfBlank(name);
    }
  }

  lemma GoodHasNoEmptyName(p: Pass, s: string)
    requires AllOpeningsGood(p, s)
    ensures !HasEmptyName(p, s)
  {
    forall i: nat | i < |s|
      ensures !IsEmptyMatch(p, s[i..])
    {
      if AnyLength(p, s[i..]) > 0 {
        MatchOpens(p, s[i..]);
        GoodIsNotEmpty(p, s[i..]);
      }
    }
  }

  lemma GoodIsClosed(p: Pass, s: string, i: nat)
    requires AllOpeningsGood(p, s) && i < |s| && Opens(p, s[i..])
    ensures '}' in s[i + 2..]
  {
    assert GoodOpening(p, s[i..]);
    assert s[i..][2..] == s[i + 2..];
  }

  /** A template is accepted if and only if every opening in it, of either kind and wherever it stands, is good. */
  lemma AcceptedExactly(s: string)
    ensures IsWellFormed(s) <==> AllOpeningsGood(Dollar, s) && AllOpeningsGood(Brace, s)
  {
    if IsWellFormed(s) {
      if s != "" {
        AcceptedIsGood(Dollar, s);
        AcceptedIsGood(Brace, s);
      }
    }
    if AllOpeningsGood(Dollar, s) && AllOpeningsGood(Brace, s) {
      GoodHasNames(Dollar, s);
      GoodHasNames(Brace, s);
      GoodHasNoEmptyName(Dollar, s);
      GoodHasNoEmptyName(Brace, s);
      forall i: nat | i < |s| && (Opens(Dollar, s[i..]) || Opens(Brace, s[i..]))
        ensures '}' in s[i + 2..]
      {
        GoodIsClosed(if Opens(Dollar, s[i..]) then Dollar else Brace, s, i);
      }
    }
  }
}
