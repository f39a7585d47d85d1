/** Variable substitution in annotation values (internal/templating/engine.go). */
module Template {
  import opened GoStrings
  import opened Scanner

  type Variables = map<string, string>

  /** The two passes of ProcessTemplate, one for each regular expression. */
  datatype Pass = Dollar | Brace

  /** The length of the match at the start of s; 0 if there is none.
      Dollar is \$\{([^}]+)\} and Brace is \{\{([^}]+)\}\}. */
  function MatchLength(p: Pass, s: string): (n: nat)
    ensures n <= |s|
  {
    if |s| < 2 then 0
    else
      var close := IndexOf(s[2..], '}');
      match p
      case Dollar =>
        if s[0] == '$' && s[1] == '{' && 1 <= close < |s| - 2 then close + 3 else 0
      case Brace =>
        if s[0] == '{' && s[1] == '{' && 1 <= close < |s| - 3 && s[close + 3] == '}' then close + 4 else 0
  }

  /** The variable name inside a match; only the second pass trims it. */
  function MatchName(p: Pass, text: string): string {
    match p
    case Dollar => if |text| >= 3 then text[2..|text| - 1] else ""
    case Brace => if |text| >= 4 then TrimSpace(text[2..|text| - 2]) else ""
  }

  function Replacement(p: Pass, text: string, vars: Variables): string {
    var name := MatchName(p, text);
    if name in vars then vars[name] else text
  }

  function MatcherOf(p: Pass): Matcher {
    s => MatchLength(p, s)
  }

  function RewriterOf(p: Pass, vars: Variables): Rewriter {
    text => Replacement(p, text, vars)
  }

  function RunPass(p: Pass, s: string, vars: Variables): string {
    Substitute(MatcherOf(p), RewriterOf(p, vars), s)
  }

  function Processed(template: string, vars: Variables): string {
    RunPass(Brace, RunPass(Dollar, template, vars), vars)
  }

  method ProcessTemplate(template: string, vars: Variables) returns (result: string)
    ensures result == Processed(template, vars)
  {
    if template == "" {
      return "";
    }
    result := template;
    result := ReplaceAll(MatcherOf(Dollar), RewriterOf(Dollar, vars), result);
    result := ReplaceAll(MatcherOf(Brace), RewriterOf(Brace, vars), result);
  }

  predicate HasMatch(p: Pass, s: string) {
    exists i | 0 <= i <= |s| :: MatchLength(p, s[i..]) > 0
  }

  predicate IsTemplate(s: string) {
    HasMatch(Dollar, s) || HasMatch(Brace, s)
  }

  /** A pass rewrites the holes of its leftmost cut whose name is bound, and nothing else: each other
      hole and each literal is kept byte for byte. */
  lemma PassRewritesBoundHoles(p: Pass, s: string, vars: Variables)
    ensures var cut := Segments(MatcherOf(p), s);
      && Flatten(cut) == s
      && RunPass(p, s, vars) == Render(cut, RewriterOf(p, vars))
      && forall i | 0 <= i < |cut| ::
           var before := |Flatten(cut[..i])|;
           && before <= |s|
           && MatchLength(p, s[before..]) == (if cut[i].hole then |cut[i].text| else 0)
           && (MatchName(p, cut[i].text) !in vars ==> RewriterOf(p, vars)(cut[i].text) == cut[i].text)
  {
    SubstituteRendersSegments(MatcherOf(p), RewriterOf(p, vars), s);
    var cut := Segments(MatcherOf(p), s);
    forall i | 0 <= i < |cut|
      ensures var before := |Flatten(cut[..i])|;
        && before <= |s|
        && MatchLength(p, s[before..]) == (if cut[i].hole then |cut[i].text| else 0)
    {
      SegmentsAreLeftmost(MatcherOf(p), s, i);
    }
  }

  /** A pass whose matches are all unbound leaves the text byte for byte. */
  lemma UnboundIsKept(p: Pass, s: string, vars: Variables)
    requires forall segment | segment in Segments(MatcherOf(p), s) && segment.hole ::
      MatchName(p, segment.text) !in vars
    ensures RunPass(p, s, vars) == s
  {
    KeptHoles(MatcherOf(p), RewriterOf(p, vars), s);
  }

  /** The guard that callers use: text that is not a template is not changed. */
  lemma NonTemplateIsKept(s: string, vars: Variables)
    requires !IsTemplate(s)
    ensures Processed(s, vars) == s
  {
    NoMatchIsKept(Dollar, s, vars);
    NoMatchIsKept(Brace, s, vars);
  }

  /** A pass copies the characters at which nothing matches. */
  lemma LiteralPass(p: Pass, s: string, n: nat, vars: Variables)
    requires n <= |s| && forall i | 0 <= i < n :: MatchLength(p, s[i..]) == 0
    ensures RunPass(p, s, vars) == s[..n] + RunPass(p, s[n..], vars)
  {
    LiteralRun(MatcherOf(p), RewriterOf(p, vars), s, n);
  }

  lemma NoMatchIsKept(p: Pass, s: string, vars: Variables)
    requires forall i | 0 <= i < |s| :: MatchLength(p, s[i..]) == 0
    ensures RunPass(p, s, vars) == s
  {
    LiteralRun(MatcherOf(p), RewriterOf(p, vars), s, |s|);
    assert s[..|s|] == s;
  }

  /* Idempotence of each pass. */

  predicate Inert(value: string) {
    value != "" && forall c | c in value :: c !in {'$', '{', '}'}
  }

  predicate AllInert(vars: Variables) {
    forall name | name in vars :: Inert(vars[name])
  }

  /** Without a closing brace there is no match. */
  lemma NothingToMatch(p: Pass, s: string, vars: Variables)
    requires '}' !in s
    ensures RunPass(p, s, vars) == s
  {
    forall i | 0 <= i < |s|
      ensures MatchLength(p, s[i..]) == 0
    {
      assert |s[i..]| >= 2 ==> IndexOf(s[i..][2..], '}') == |s[i..]| - 2;
    }
    NoMatchIsKept(p, s, vars);
  }

  /** The match at the start of a text is decided by the characters it covers. */
  lemma MatchIsLocal(p: Pass, s: string, t: string)
    requires MatchLength(p, s) > 0
    ensures MatchLength(p, s[..MatchLength(p, s)] + t) == MatchLength(p, s)
  {
    var n := MatchLength(p, s);
    var w := s[..n] + t;
    var close := IndexOf(s[2..], '}');
    assert forall j | 0 <= j <= close :: w[2..][j] == s[2..][j];
    IndexOfIsFirst(w[2..], '}', close);
  }

  /** Text in which nothing opens is copied. */
  lemma NothingOpens(p: Pass, v: string, t: string, vars: Variables)
    requires forall c | c in v :: c !in {'$', '{'}
    ensures RunPass(p, v + t, vars) == v + RunPass(p, t, vars)
  {
    var s := v + t;
    forall i | 0 <= i < |v|
      ensures MatchLength(p, s[i..]) == 0
    {
      assert s[i..][0] == v[i] && v[i] in v;
    }
    LiteralRun(MatcherOf(p), RewriterOf(p, vars), s, |v|);
    assert s[..|v|] == v && s[|v|..] == t;
  }

  /** The first character of a pass's output, for inert values. */
  lemma HeadOfPass(p: Pass, s: string, vars: Variables)
    requires AllInert(vars) && s != ""
    ensures var out := RunPass(p, s, vars);
      && out != ""
      && (MatchLength(p, s) == 0 ==> out == [s[0]] + RunPass(p, s[1..], vars))
      && (MatchLength(p, s) > 0 ==> out[0] == s[0] || out[0] !in {'$', '{', '}'})
  {
    var n := MatchLength(p, s);
    if n > 0 {
      var v := Replacement(p, s[..n], vars);
      assert RunPass(p, s, vars) == v + RunPass(p, s[n..], vars);
      assert v == s[..n] || (Inert(v) && v[0] in v);
    }
  }

  /** "{" in front of a brace match is a brace match too. */
  lemma MatchExtendsLeft(s: string)
    requires |s| >= 2 && s[0] == '{' && MatchLength(Brace, s[1..]) > 0
    ensures MatchLength(Brace, s) > 0
  {
    var t := s[1..];
    var close := IndexOf(t[2..], '}');
    assert s[2] == t[1] == '{' && s[close + 3] == t[close + 2] == '}';
    assert forall j | 1 <= j <= close + 1 :: s[2..][j] == t[2..][j - 1];
    IndexOfIsFirst(s[2..], '}', close + 1);
  }

  /** Copying a character in front of rewritten text creates no match. */
  lemma NoNewMatch(p: Pass, s: string, vars: Variables)
    requires AllInert(vars) && s != "" && MatchLength(p, s) == 0
    ensures MatchLength(p, [s[0]] + RunPass(p, s[1..], vars)) == 0
  {
    var t := s[1..];
    var rewritten := RunPass(p, t, vars);
    var out := [s[0]] + rewritten;
    if t == "" {
    } else if s[0] != (if p.Dollar? then '$' else '{') {
    } else {
      HeadOfPass(p, t, vars);
      assert out[1] == rewritten[0];
      if rewritten[0] == '{' {
        if p.Brace? && MatchLength(p, t) > 0 {
          MatchExtendsLeft(s);
          assert false;
        }
        var u := s[2..];
        assert t[1..] == u;
        assert out == [s[0]] + (['{'] + RunPass(p, u, vars));
        assert s == [s[0]] + (['{'] + u);
        NoNewMatchInside(p, s[0], u, vars);
      }
    }
  }

  /** The same, behind an opening that s[0] and "{" make. */
  lemma NoNewMatchInside(p: Pass, first: char, u: string, vars: Variables)
    requires AllInert(vars) && first == (if p.Dollar? then '$' else '{')
    requires MatchLength(p, [first] + (['{'] + u)) == 0
    ensures MatchLength(p, [first] + (['{'] + RunPass(p, u, vars))) == 0
  {
    var before := [first] + (['{'] + u);
    var rest := RunPass(p, u, vars);
    var after := [first] + (['{'] + rest);
    assert before[2..] == u && after[2..] == rest;
    var close := IndexOf(u, '}');
    if close == |u| {
      assert '}' !in u;
      NothingToMatch(p, u, vars);
    } else if close == 0 {
      HeadOfPass(p, u, vars);
      assert rest[0] == '}';
    } else {
      assert p.Brace?;
      LoneClosing(u);
      ClosingStaysAlone(u, vars);
      LoneClosing(rest);
    }
  }

  /** Behind "{{", a name is a match of the second pass if and only if the brace that closes it is followed by
      another. */
  lemma LoneClosing(u: string)
    ensures var close := IndexOf(u, '}');
      0 < close < |u| ==>
        (MatchLength(Brace, ['{'] + (['{'] + u)) == 0 <==> !(close + 1 < |u| && u[close + 1] == '}'))
  {
    var s := ['{'] + (['{'] + u);
    assert s[2..] == u;
    assert forall i | 0 <= i < |u| :: s[i + 2] == u[i];
  }

  /** The second pass leaves the first closing brace where it is, and as lone as it was. */
  lemma ClosingStaysAlone(u: string, vars: Variables)
    requires AllInert(vars)
    requires var close := IndexOf(u, '}'); close < |u| && (close + 1 < |u| ==> u[close + 1] != '}')
    ensures var close := IndexOf(u, '}'); var rest := RunPass(Brace, u, vars);
      close < |rest| && IndexOf(rest, '}') == close && (close + 1 < |rest| ==> rest[close + 1] != '}')
  {
    var close, rest := IndexOf(u, '}'), RunPass(Brace, u, vars);
    UnclosedBraceRun(u, vars);
    assert forall j | 0 <= j <= close :: rest[j] == u[j];
    IndexOfIsFirst(rest, '}', close);
    if close + 1 < |u| {
      HeadOfPass(Brace, u[close + 1..], vars);
    }
  }

  /** A text whose first closing brace stands alone does not begin with a match of the second pass. */
  lemma LoneBraceIsNoMatch(s: string, close: nat)
    requires close < |s| && s[close] == '}' && forall j | 0 <= j < close :: s[j] != '}'
    requires close + 1 < |s| ==> s[close + 1] != '}'
    ensures MatchLength(Brace, s) == 0
  {
    if close >= 2 {
      IndexOfIsFirst(s[2..], '}', close - 2);
    }
  }

  lemma NoMatchBeforeLoneBrace(u: string, close: nat, i: nat)
    requires i <= close < |u| && u[close] == '}' && forall j | 0 <= j < close :: u[j] != '}'
    requires close + 1 < |u| ==> u[close + 1] != '}'
    ensures MatchLength(Brace, u[i..]) == 0
  {
    var s := u[i..];
    assert forall j | 0 <= j < |s| :: s[j] == u[i + j];
    LoneBraceIsNoMatch(s, close - i);
  }

  /** Up to a lone closing brace the second pass only copies. */
  lemma UnclosedBraceRun(u: string, vars: Variables)
    requires var close := IndexOf(u, '}'); close < |u| && (close + 1 < |u| ==> u[close + 1] != '}')
    ensures var close := IndexOf(u, '}');
      RunPass(Brace, u, vars) == u[..close + 1] + RunPass(Brace, u[close + 1..], vars)
  {
    var close := IndexOf(u, '}');
    var n: nat := close + 1;
    forall i | 0 <= i < n
      ensures MatchLength(Brace, u[i..]) == 0
    {
      NoMatchBeforeLoneBrace(u, close, i);
    }
    LiteralPass(Brace, u, n, vars);
  }

  /** Each pass is idempotent when no value can take part in a match. */
  lemma PassIsIdempotent(p: Pass, s: string, vars: Variables)
    requires AllInert(vars)
    ensures RunPass(p, RunPass(p, s, vars), vars) == RunPass(p, s, vars)
  {
    var m, r := MatcherOf(p), RewriterOf(p, vars);
    forall s, t | Found(m, s) > 0
      ensures Found(m, s[..Found(m, s)] + t) == Found(m, s)
    {
      MatchIsLocal(p, s, t);
    }
    forall s, t | Found(m, s) > 0
      ensures var v := r(s[..Found(m, s)]);
        v == s[..Found(m, s)] || Substitute(m, r, v + t) == v + Substitute(m, r, t)
    {
      var v := r(s[..Found(m, s)]);
      if v != s[..Found(m, s)] {
        assert Inert(v);
        NothingOpens(p, v, t, vars);
      }
    }
    forall s | s != "" && Found(m, s) == 0
      ensures Found(m, [s[0]] + Substitute(m, r, s[1..])) == 0
    {
      NoNewMatch(p, s, vars);
    }
    SubstituteIsIdempotent(m, r, s);
  }

  /* The two passes together. */

  /** A hole of a pass that the variables would rewrite. */
  predicate SomeHoleIsBound(p: Pass, s: string, vars: Variables) {
    exists segment | segment in Segments(MatcherOf(p), s) :: segment.hole && MatchName(p, segment.text) in vars
  }

  function CountOf(c: char, s: string): nat {
    if s == "" then 0 else (if s[0] == c then 1 else 0) + CountOf(c, s[1..])
  }

  lemma {:induction false} CountOfConcat(c: char, s: string, t: string)
    ensures CountOf(c, s + t) == CountOf(c, s) + CountOf(c, t)
  {
    if s == "" {
      assert s + t == t;
    } else {
      assert (s + t)[1..] == s[1..] + t;
      CountOfConcat(c, s[1..], t);
    }
  }

  lemma {:induction false} CountOfNone(c: char, s: string)
    requires c !in s
    ensures CountOf(c, s) == 0
  {
    if s == "" {
    } else {
      CountOfNone(c, s[1..]);
    }
  }

  lemma CountOfSome(c: char, s: string)
    requires s != "" && s[|s| - 1] == c
    ensures CountOf(c, s) > 0
  {
    assert s == s[..|s| - 1] + [c];
    CountOfConcat(c, s[..|s| - 1], [c]);
    assert CountOf(c, [c]) == 1;
  }

  /** A match ends with a closing brace. */
  lemma MatchEndsClosed(p: Pass, s: string)
    requires MatchLength(p, s) > 0
    ensures s[MatchLength(p, s) - 1] == '}'
  {
  }

  /** One step of a pass. */
  lemma PassStep(p: Pass, s: string, vars: Variables)
    requires s != ""
    ensures var n := MatchLength(p, s);
      RunPass(p, s, vars) ==
        if n > 0 then Replacement(p, s[..n], vars) + RunPass(p, s[n..], vars) else [s[0]] + RunPass(p, s[1..], vars)
  {
  }

  lemma Regroup(a: string, b: string, c: string)
    ensures a + (b + c) == a + b + c
  {
  }

  /** With inert values a pass makes no closing brace, and takes one away with each bound hole. */
  lemma {:induction false} PassTakesClosings(p: Pass, s: string, vars: Variables)
    requires AllInert(vars)
    ensures CountOf('}', RunPass(p, s, vars)) <= CountOf('}', s)
    ensures SomeHoleIsBound(p, s, vars) ==> CountOf('}', RunPass(p, s, vars)) < CountOf('}', s)
    decreases |s|
  {
    if s == "" {
    } else {
      var n := MatchLength(p, s);
      var step := if n > 0 then n else 1;
      PassTakesClosings(p, s[step..], vars);
      CountOfStep(p, s, vars);
      HeadTakesClosings(p, s, vars);
      if SomeHoleIsBound(p, s, vars) {
        FirstOrLaterHole(p, s, vars);
      }
    }
  }

  lemma CountOfSplit(c: char, s: string, n: nat)
    requires n <= |s|
    ensures CountOf(c, s) == CountOf(c, s[..n]) + CountOf(c, s[n..])
  {
    CountOfConcat(c, s[..n], s[n..]);
    assert s == s[..n] + s[n..];
  }

  lemma CountOfStep(p: Pass, s: string, vars: Variables)
    requires s != ""
    ensures var n := MatchLength(p, s); var step := if n > 0 then n else 1;
      var head := if n > 0 then Replacement(p, s[..n], vars) else [s[0]];
      && CountOf('}', RunPass(p, s, vars)) == CountOf('}', head) + CountOf('}', RunPass(p, s[step..], vars))
      && CountOf('}', s) == CountOf('}', s[..step]) + CountOf('}', s[step..])
  {
    var n := MatchLength(p, s);
    var step := if n > 0 then n else 1;
    var head := if n > 0 then Replacement(p, s[..n], vars) else [s[0]];
    PassStep(p, s, vars);
    CountOfConcat('}', head, RunPass(p, s[step..], vars));
    CountOfSplit('}', s, step);
  }

  lemma FirstOrLaterHole(p: Pass, s: string, vars: Variables)
    requires s != "" && SomeHoleIsBound(p, s, vars)
    ensures var n := MatchLength(p, s);
      (n > 0 && MatchName(p, s[..n]) in vars) || SomeHoleIsBound(p, s[if n > 0 then n else 1..], vars)
  {
    var n := MatchLength(p, s);
    var all := Segments(MatcherOf(p), s);
    var segment :| segment in all && segment.hole && MatchName(p, segment.text) in vars;
    assert all[1..] == Segments(MatcherOf(p), s[if n > 0 then n else 1..]);
    assert segment == all[0] || segment in all[1..];
  }

  lemma HeadTakesClosings(p: Pass, s: string, vars: Variables)
    requires AllInert(vars) && s != ""
    ensures var n := MatchLength(p, s);
      if n > 0 && MatchName(p, s[..n]) in vars then CountOf('}', Replacement(p, s[..n], vars)) < CountOf('}', s[..n])
      else if n > 0 then Replacement(p, s[..n], vars) == s[..n]
      else s[..1] == [s[0]]
  {
    var n := MatchLength(p, s);
    if n > 0 && MatchName(p, s[..n]) in vars {
      MatchEndsClosed(p, s);
      CountOfSome('}', s[..n]);
      CountOfNone('}', Replacement(p, s[..n], vars));
    }
  }

  /** Processing a second time changes nothing if and only if, after the first time, no hole of the first
      pass is bound. */
  lemma TwiceIsOnceExactly(s: string, vars: Variables)
    requires AllInert(vars)
    ensures var once := Processed(s, vars);
      Processed(once, vars) == once <==> !SomeHoleIsBound(Dollar, once, vars)
  {
    var once := Processed(s, vars);
    var again := RunPass(Dollar, once, vars);
    if SomeHoleIsBound(Dollar, once, vars) {
      PassTakesClosings(Dollar, once, vars);
      PassTakesClosings(Brace, again, vars);
    } else {
      UnboundIsKept(Dollar, once, vars);
      PassIsIdempotent(Brace, RunPass(Dollar, s, vars), vars);
    }
  }

  /* A condition on the template itself. */

  predicate HasOpening(name: string) {
    exists i | 0 <= i < |name| - 1 :: name[i] == '{' && name[i + 1] == '{'
  }

  /** Every hole of the first pass that the variables leave has a name in which no hole of the second pass
      can begin. */
  predicate NothingNested(s: string, vars: Variables) {
    forall segment | segment in Segments(MatcherOf(Dollar), s) && segment.hole
      && MatchName(Dollar, segment.text) !in vars ::
      !HasOpening(MatchName(Dollar, segment.text))
  }

  /** The same of a text in which no hole of the first pass is bound. */
  predicate Finished(s: string, vars: Variables)
    decreases |s|
  {
    if s == "" then true
    else
      var n := MatchLength(Dollar, s);
      if n > 0 then
        var name := MatchName(Dollar, s[..n]);
        name !in vars && !HasOpening(name) && Finished(s[n..], vars)
      else Finished(s[1..], vars)
  }

  lemma {:induction false} FinishedIsFixed(s: string, vars: Variables)
    requires Finished(s, vars)
    ensures RunPass(Dollar, s, vars) == s
    decreases |s|
  {
    if s == "" {
    } else {
      var n := MatchLength(Dollar, s);
      var step := if n > 0 then n else 1;
      FinishedIsFixed(s[step..], vars);
      assert s == s[..step] + s[step..] && s[..1] == [s[0]];
    }
  }

  /** Characters that are not "$" open no hole of the first pass. */
  lemma {:induction false} FinishedBehindValue(v: string, t: string, vars: Variables)
    requires '$' !in v
    ensures Finished(v + t, vars) <==> Finished(t, vars)
  {
    if v == "" {
      assert v + t == t;
    } else {
      assert (v + t)[0] == v[0] && v[0] in v && (v + t)[1..] == v[1..] + t;
      FinishedBehindValue(v[1..], t, vars);
    }
  }

  /** The first pass, with nothing nested, leaves a finished text. */
  lemma {:induction false} FirstPassFinishes(s: string, vars: Variables)
    requires AllInert(vars) && NothingNested(s, vars)
    ensures Finished(RunPass(Dollar, s, vars), vars)
    decreases |s|
  {
    if s == "" {
    } else {
      var n := MatchLength(Dollar, s);
      var step := if n > 0 then n else 1;
      var rest := RunPass(Dollar, s[step..], vars);
      assert Segments(MatcherOf(Dollar), s)[1..] == Segments(MatcherOf(Dollar), s[step..]);
      assert NothingNested(s[step..], vars) by {
        assert forall g | g in Segments(MatcherOf(Dollar), s[step..]) :: g in Segments(MatcherOf(Dollar), s);
      }
      FirstPassFinishes(s[step..], vars);
      if n == 0 {
        NoNewMatch(Dollar, s, vars);
        assert ([s[0]] + rest)[1..] == rest;
      } else {
        var name := MatchName(Dollar, s[..n]);
        if name in vars {
          FinishedBehindValue(vars[name], rest, vars);
        } else {
          assert Segments(MatcherOf(Dollar), s)[0] == Segment(s[..n], true);
          MatchIsLocal(Dollar, s, rest);
          assert (s[..n] + rest)[..n] == s[..n] && (s[..n] + rest)[n..] == rest;
        }
      }
    }
  }

  /* A closing brace is a boundary for the first pass: a hole has just one, at its end. */

  lemma MatchBeforeBoundary(x: string, y: string)
    requires x != "" && x[|x| - 1] == '}'
    ensures MatchLength(Dollar, x + y) == MatchLength(Dollar, x) <= |x|
  {
    if |x| >= 3 {
      assert (x + y)[2..] == x[2..] + y;
      var close := IndexOf(x[2..], '}');
      assert x[2..][|x| - 3] == '}';
      IndexOfIsFirst((x + y)[2..], '}', close);
    } else if |x + y| >= 2 && |x| == 2 {
      assert (x + y)[1] == '}';
    }
  }

  lemma {:induction false} BoundaryOfPass(x: string, y: string, vars: Variables)
    requires x != "" ==> x[|x| - 1] == '}'
    ensures RunPass(Dollar, x + y, vars) == RunPass(Dollar, x, vars) + RunPass(Dollar, y, vars)
    decreases |x|
  {
    if x == "" {
      assert x + y == y;
    } else {
      MatchBeforeBoundary(x, y);
      var n := MatchLength(Dollar, x);
      var step := if n > 0 then n else 1;
      assert (x + y)[..step] == x[..step] && (x + y)[step..] == x[step..] + y;
      BoundaryOfPass(x[step..], y, vars);
      PassStep(Dollar, x, vars);
      PassStep(Dollar, x + y, vars);
      Regroup(
        if n > 0 then Replacement(Dollar, x[..n], vars) else [x[0]],
        RunPass(Dollar, x[step..], vars), RunPass(Dollar, y, vars));
    }
  }

  lemma {:induction false} BoundaryOfFinished(x: string, y: string, vars: Variables)
    requires x != "" ==> x[|x| - 1] == '}'
    ensures Finished(x + y, vars) <==> Finished(x, vars) && Finished(y, vars)
    decreases |x|
  {
    if x == "" {
      assert x + y == y;
    } else {
      MatchBeforeBoundary(x, y);
      var n := MatchLength(Dollar, x);
      var step := if n > 0 then n else 1;
      assert (x + y)[..step] == x[..step] && (x + y)[step..] == x[step..] + y;
      BoundaryOfFinished(x[step..], y, vars);
    }
  }

  /* The second pass leaves a finished text finished. */

  /** What the second pass puts for a hole of its own. */
  lemma BracePassOnMatch(s: string, vars: Variables)
    requires MatchLength(Brace, s) > 0
    ensures var n := MatchLength(Brace, s); var r := Replacement(Brace, s[..n], vars);
      && RunPass(Brace, s, vars) == r + RunPass(Brace, s[n..], vars)
      && s == s[..n] + s[n..] && s[..n] != "" && s[n - 1] == '}'
      && (r == s[..n] || (MatchName(Brace, s[..n]) in vars && r == vars[MatchName(Brace, s[..n])]))
  {
    MatchEndsClosed(Brace, s);
  }

  /** A text that begins with a match of the second pass. */
  lemma MatchedHeadStaysFixed(s: string, vars: Variables)
    requires AllInert(vars) && Finished(s, vars) && MatchLength(Brace, s) > 0
    requires var n := MatchLength(Brace, s);
      RunPass(Dollar, RunPass(Brace, s[n..], vars), vars) == RunPass(Brace, s[n..], vars)
    ensures RunPass(Dollar, RunPass(Brace, s, vars), vars) == RunPass(Brace, s, vars)
  {
    BracePassOnMatch(s, vars);
    var n := MatchLength(Brace, s);
    var r, rest := Replacement(Brace, s[..n], vars), RunPass(Brace, s[n..], vars);
    if r == s[..n] {
      BoundaryOfFinished(s[..n], s[n..], vars);
      FinishedIsFixed(s[..n], vars);
      BoundaryOfPass(s[..n], rest, vars);
    } else {
      assert Inert(r);
      NothingOpens(Dollar, r, rest, vars);
    }
  }

  lemma FinishedTail(s: string, n: nat, vars: Variables)
    requires Finished(s, vars) && 0 < n <= |s| && s[n - 1] == '}'
    ensures Finished(s[..n], vars) && Finished(s[n..], vars)
  {
    assert s == s[..n] + s[n..];
    BoundaryOfFinished(s[..n], s[n..], vars);
  }

  /** In a hole of the first pass without an opening in its name, a hole of the second can begin nowhere but
      behind the "$". */
  lemma NoBraceMatchInHole(s: string, i: nat)
    requires MatchLength(Dollar, s) > 0 && i < MatchLength(Dollar, s) && i != 1
    requires !HasOpening(MatchName(Dollar, s[..MatchLength(Dollar, s)]))
    ensures MatchLength(Brace, s[i..]) == 0
  {
    var n := MatchLength(Dollar, s);
    var name := MatchName(Dollar, s[..n]);
    assert s[n - 1] == '}' && s[0] == '$';
    assert forall j | 2 <= j < n - 1 :: name[j - 2] == s[j];
    assert forall j | 0 <= j < |name| - 1 :: !(name[j] == '{' && name[j + 1] == '{');
    assert 2 <= i < n - 2 ==> !(name[i - 2] == '{' && name[i - 1] == '{');
    assert i + 1 < |s| ==> s[i..][0] == s[i] && s[i..][1] == s[i + 1];
  }

  /** A text that begins with a hole of the first pass, in which no hole of the second begins. */
  lemma KeptHoleStaysFixed(s: string, vars: Variables)
    requires AllInert(vars) && Finished(s, vars) && MatchLength(Dollar, s) > 0 && MatchLength(Brace, s[1..]) == 0
    requires var n := MatchLength(Dollar, s);
      RunPass(Dollar, RunPass(Brace, s[n..], vars), vars) == RunPass(Brace, s[n..], vars)
    ensures RunPass(Dollar, RunPass(Brace, s, vars), vars) == RunPass(Brace, s, vars)
  {
    var n := MatchLength(Dollar, s);
    MatchEndsClosed(Dollar, s);
    FinishedTail(s, n, vars);
    FinishedIsFixed(s[..n], vars);
    forall i | 0 <= i < n
      ensures Found(MatcherOf(Brace), s[i..]) == 0
    {
      if i != 1 {
        NoBraceMatchInHole(s, i);
      }
    }
    LiteralRun(MatcherOf(Brace), RewriterOf(Brace, vars), s, n);
    BoundaryOfPass(s[..n], RunPass(Brace, s[n..], vars), vars);
  }

  /** A text that begins with a hole of the first pass, behind whose "$" a hole of the second begins. */
  lemma OverlaidHoleStaysFixed(s: string, vars: Variables)
    requires AllInert(vars) && Finished(s, vars) && MatchLength(Dollar, s) > 0 && MatchLength(Brace, s[1..]) > 0
    requires var k := 1 + MatchLength(Brace, s[1..]);
      RunPass(Dollar, RunPass(Brace, s[k..], vars), vars) == RunPass(Brace, s[k..], vars)
    ensures RunPass(Dollar, RunPass(Brace, s, vars), vars) == RunPass(Brace, s, vars)
  {
    var m := MatchLength(Brace, s[1..]);
    BracePassOnMatch(s[1..], vars);
    assert s[1..][m..] == s[1 + m..] && s[1..][..m] == s[1..1 + m] && s[m] == s[1..][m - 1];
    PassStep(Brace, s, vars);
    OverlaidHeadStaysFixed(s, m, Replacement(Brace, s[1..1 + m], vars), RunPass(Brace, s[1 + m..], vars), vars);
  }

  lemma OverlaidHeadStaysFixed(s: string, m: nat, r: string, rest: string, vars: Variables)
    requires Finished(s, vars) && 0 < m < |s| && s[m] == '}' && RunPass(Dollar, rest, vars) == rest
    requires r == s[1..1 + m] || Inert(r)
    ensures RunPass(Dollar, [s[0]] + (r + rest), vars) == [s[0]] + (r + rest)
  {
    Regroup([s[0]], r, rest);
    if r == s[1..1 + m] {
      assert [s[0]] + r == s[..1 + m];
      FixedBehindBoundary(s, 1 + m, rest, vars);
    } else {
      DollarBeforeInert(s[0], r, rest, vars);
    }
  }

  lemma FixedBehindBoundary(s: string, n: nat, rest: string, vars: Variables)
    requires Finished(s, vars) && 0 < n <= |s| && s[n - 1] == '}' && RunPass(Dollar, rest, vars) == rest
    ensures RunPass(Dollar, s[..n] + rest, vars) == s[..n] + rest
  {
    FinishedTail(s, n, vars);
    FinishedIsFixed(s[..n], vars);
    BoundaryOfPass(s[..n], rest, vars);
  }

  lemma DollarBeforeInert(first: char, v: string, t: string, vars: Variables)
    requires Inert(v)
    ensures RunPass(Dollar, [first] + v + t, vars) == [first] + v + RunPass(Dollar, t, vars)
  {
    var s := [first] + v + t;
    assert s[1] == v[0] && v[0] in v && s[1..] == v + t;
    NothingOpens(Dollar, v, t, vars);
    PassStep(Dollar, s, vars);
    Regroup([first], v, RunPass(Dollar, t, vars));
  }

  /** A character at which neither pass finds a hole. */
  lemma LiteralStaysFixed(s: string, vars: Variables)
    requires AllInert(vars) && s != "" && MatchLength(Dollar, s) == 0 && MatchLength(Brace, s) == 0
    requires RunPass(Dollar, RunPass(Brace, s[1..], vars), vars) == RunPass(Brace, s[1..], vars)
    ensures RunPass(Dollar, RunPass(Brace, s, vars), vars) == RunPass(Brace, s, vars)
  {
    var rest := RunPass(Brace, s[1..], vars);
    PassStep(Brace, s, vars);
    NoDollarMatchBeforeBraces(s, vars);
    PassStep(Dollar, [s[0]] + rest, vars);
    assert ([s[0]] + rest)[1..] == rest;
  }

  /** The second pass behind a character makes no match of the first pass at it. */
  lemma NoDollarMatchBeforeBraces(s: string, vars: Variables)
    requires AllInert(vars) && s != "" && MatchLength(Dollar, s) == 0
    ensures MatchLength(Dollar, [s[0]] + RunPass(Brace, s[1..], vars)) == 0
  {
    var t := s[1..];
    var rest := RunPass(Brace, t, vars);
    var out := [s[0]] + rest;
    if t == "" {
    } else {
      HeadOfPass(Brace, t, vars);
      assert out[1] == rest[0];
      if s[0] == '$' && rest[0] == '{' {
        assert t[0] == '{' && s[1] == '{';
        NoDollarMatchBehindOpening(s, vars);
      }
    }
  }

  lemma NoDollarMatchBehindOpening(s: string, vars: Variables)
    requires AllInert(vars) && |s| >= 2 && s[0] == '$' && s[1] == '{' && MatchLength(Dollar, s) == 0
    ensures MatchLength(Dollar, [s[0]] + RunPass(Brace, s[1..], vars)) == 0
  {
    var t := s[1..];
    assert t[1..] == s[2..];
    var close := IndexOf(s[2..], '}');
    if close == |s[2..]| {
      assert '}' !in t by {
        assert forall i | 0 < i < |t| :: t[i] == s[2..][i - 1];
      }
      NothingToMatch(Brace, t, vars);
      assert [s[0]] + t == s;
    } else {
      assert close == 0 && s[2] == '}';
      PassStep(Brace, t, vars);
      PassStep(Brace, t[1..], vars);
      var out := [s[0]] + RunPass(Brace, t, vars);
      assert MatchLength(Brace, t) == 0 && MatchLength(Brace, t[1..]) == 0;
      assert out[2] == '}';
      assert out[2..][0] == '}';
    }
  }

  /** The second pass leaves a finished text finished: the first pass finds nothing to do in it. */
  lemma {:induction false} SecondPassKeepsFixed(s: string, vars: Variables)
    requires AllInert(vars) && Finished(s, vars)
    ensures RunPass(Dollar, RunPass(Brace, s, vars), vars) == RunPass(Brace, s, vars)
    decreases |s|
  {
    if s == "" {
    } else if MatchLength(Brace, s) > 0 {
      var n := MatchLength(Brace, s);
      MatchEndsClosed(Brace, s);
      FinishedTail(s, n, vars);
      SecondPassKeepsFixed(s[n..], vars);
      MatchedHeadStaysFixed(s, vars);
    } else if MatchLength(Dollar, s) > 0 && MatchLength(Brace, s[1..]) == 0 {
      SecondPassKeepsFixed(s[MatchLength(Dollar, s)..], vars);
      KeptHoleStaysFixed(s, vars);
    } else if MatchLength(Dollar, s) > 0 {
      var k := 1 + MatchLength(Brace, s[1..]);
      MatchEndsClosed(Brace, s[1..]);
      FinishedTail(s, k, vars);
      SecondPassKeepsFixed(s[k..], vars);
      OverlaidHoleStaysFixed(s, vars);
    } else {
      SecondPassKeepsFixed(s[1..], vars);
      LiteralStaysFixed(s, vars);
    }
  }

  /** The whole of ProcessTemplate is idempotent on a template with nothing nested, which can be seen
      before the call. */
  lemma IdempotentWithoutNesting(s: string, vars: Variables)
    requires AllInert(vars) && NothingNested(s, vars)
    ensures Processed(Processed(s, vars), vars) == Processed(s, vars)
  {
    var first := RunPass(Dollar, s, vars);
    FirstPassFinishes(s, vars);
    SecondPassKeepsFixed(first, vars);
    PassIsIdempotent(Brace, first, vars);
  }

  const EXAMPLE: Variables := map["b" := "1", "x1" := "z"]

  /** The two passes together are not idempotent, even for inert values: a name that the first pass
      could not bind can be completed by the second. */
  lemma TwoPassesAreNotIdempotent()
    ensures AllInert(EXAMPLE)
    ensures Processed("${x{{b}}}", EXAMPLE) == "${x1}"
    ensures Processed("${x1}", EXAMPLE) == "z"
  {
    FirstRun();
    SecondRun();
  }

  lemma FirstRun()
    ensures Processed("${x{{b}}}", EXAMPLE) == "${x1}"
  {
    FirstPassOfFirstRun();
    SecondPassOfFirstRun();
  }

  lemma FirstPassOfFirstRun()
    ensures RunPass(Dollar, "${x{{b}}}", EXAMPLE) == "${x{{b}}}"
  {
    var name := "x{{b";
    assert "${x{{b}}}" == Opening(Dollar) + name + Closing(Dollar) + "}}";
    OneMatch(Dollar, name, "}}", EXAMPLE);
    assert |name| == 4 && name !in EXAMPLE;
  }

  lemma SecondPassOfFirstRun()
    ensures RunPass(Brace, "${x{{b}}}", EXAMPLE) == "${x1}"
  {
    var hole := Opening(Brace) + "b" + Closing(Brace);
    OneMatch(Brace, "b", "}", EXAMPLE);
    assert TrimSpace("b") == "b";
    NoMatchBeforeName("x", hole + "}", EXAMPLE);
    assert "${x{{b}}}" == "${" + "x" + (hole + "}");
    assert "${x1}" == "${" + "x" + ("1" + "}");
  }

  /** In the second pass nothing opens at "${" and a plain name. */
  lemma NoMatchBeforeName(name: string, t: string, vars: Variables)
    requires name != "" && forall c | c in name :: c != '{'
    ensures RunPass(Brace, "${" + name + t, vars) == "${" + name + RunPass(Brace, t, vars)
  {
    var s := "${" + name + t;
    forall i | 0 <= i < |name| + 2
      ensures MatchLength(Brace, s[i..]) == 0
    {
      if i >= 2 {
        assert s[i..][0] == s[i] == name[i - 2] && name[i - 2] in name;
      } else {
        assert s[2] == name[0] && name[0] in name;
        assert s[i..][1 - i] == s[1] && s[i..][2 - i] == s[2];
      }
    }
    LiteralRun(MatcherOf(Brace), RewriterOf(Brace, vars), s, |name| + 2);
    assert s[..|name| + 2] == "${" + name && s[|name| + 2..] == t;
  }

  lemma SecondRun()
    ensures Processed("${x1}", EXAMPLE) == "z"
  {
    assert "${x1}" == Opening(Dollar) + "x1" + Closing(Dollar) + "";
    OneMatch(Dollar, "x1", "", EXAMPLE);
    assert "x1" in EXAMPLE;
    NothingOpens(Brace, "z", "", EXAMPLE);
    assert "z" + "" == "z";
  }

  function Opening(p: Pass): string {
    if p.Dollar? then "${" else "{{"
  }

  function Closing(p: Pass): string {
    if p.Dollar? then "}" else "}}"
  }

  /** A name between an opening and its closing, followed by text in which nothing opens. */
  lemma OneMatch(p: Pass, name: string, tail: string, vars: Variables)
    requires name != "" && '}' !in name && forall c | c in tail :: c !in {'$', '{'}
    ensures var hole := Opening(p) + name + Closing(p);
      RunPass(p, hole + tail, vars) == Replacement(p, hole, vars) + tail
    ensures MatchName(p, Opening(p) + name + Closing(p)) == (if p.Dollar? then name else TrimSpace(name))
  {
    var hole := Opening(p) + name + Closing(p);
    IndexOfIsFirst(hole[2..], '}', |name|);
    assert MatchLength(p, hole) == |hole|;
    assert hole[2..2 + |name|] == name;
    var s := hole + tail;
    MatchIsLocal(p, hole, tail);
    assert hole[..|hole|] == hole && s[..|hole|] == hole && s[|hole|..] == tail;
    NothingOpens(p, tail, "", vars);
    assert tail + "" == tail;
  }
}
