/** Leftmost, non-overlapping substitution, as a regular expression's ReplaceAllStringFunc does it,
    for any matcher and any replacement. */
module Scanner {

  /** The length of the match that begins at the start of a text; 0 if there is none. */
  type Matcher = string -> nat

  type Rewriter = string -> string

  function Found(m: Matcher, s: string): (n: nat)
    ensures n <= |s|
  {
    if m(s) <= |s| then m(s) else 0
  }

  function Substitute(m: Matcher, r: Rewriter, s: string): string {
    if s == "" then ""
    else
      var n := Found(m, s);
      if n > 0 then r(s[..n]) + Substitute(m, r, s[n..])
      else [s[0]] + Substitute(m, r, s[1..])
  }

  /** One step of a substitution at an offset. */
  lemma SubstituteAt(m: Matcher, r: Rewriter, s: string, i: nat)
    requires i < |s|
    ensures var n := Found(m, s[i..]);
      && i + n <= |s|
      && Substitute(m, r, s[i..]) ==
           if n > 0 then r(s[i..i + n]) + Substitute(m, r, s[i + n..]) else [s[i]] + Substitute(m, r, s[i + 1..])
  {
    var n := Found(m, s[i..]);
    assert s[i..][..n] == s[i..i + n] && s[i..][n..] == s[i + n..] && s[i..][1..] == s[i + 1..];
  }

  method ReplaceAll(m: Matcher, r: Rewriter, s: string) returns (result: string)
    ensures result == Substitute(m, r, s)
  {
    result := "";
    var i := 0;
    while i < |s|
      invariant 0 <= i <= |s|
      invariant result + Substitute(m, r, s[i..]) == Substitute(m, r, s)
    {
      result, i := ReplaceNext(m, r, s, i, result);
    }
    assert s[i..] == "";
  }

  /** Copies a character, or rewrites the match that begins there. */
  method ReplaceNext(m: Matcher, r: Rewriter, s: string, i: nat, done: string) returns (result: string, next: nat)
    requires i < |s|
    ensures i < next <= |s|
    ensures result + Substitute(m, r, s[next..]) == done + Substitute(m, r, s[i..])
  {
    SubstituteAt(m, r, s, i);
    var n := Found(m, s[i..]);
    if n > 0 {
      result, next := done + r(s[i..i + n]), i + n;
    } else {
      result, next := done + [s[i]], i + 1;
    }
  }

  /* What a substitution does, stated without its recursion. */

  /** A piece of the text: a single character, or a match (a hole). */
  datatype Segment = Segment(text: string, hole: bool)

  function Segments(m: Matcher, s: string): seq<Segment> {
    if s == "" then []
    else
      var n := Found(m, s);
      if n > 0 then [Segment(s[..n], true)] + Segments(m, s[n..])
      else [Segment([s[0]], false)] + Segments(m, s[1..])
  }

  function Flatten(segments: seq<Segment>): string {
    if segments == [] then "" else segments[0].text + Flatten(segments[1..])
  }

  function Render(segments: seq<Segment>, r: Rewriter): string {
    if segments == [] then ""
    else
      (if segments[0].hole then r(segments[0].text) else segments[0].text) + Render(segments[1..], r)
  }

  /** The text is cut into characters and holes, in a way that does not depend on the replacement,
      and nothing but holes is rewritten. */
  lemma {:induction false} SubstituteRendersSegments(m: Matcher, r: Rewriter, s: string)
    ensures Flatten(Segments(m, s)) == s
    ensures Substitute(m, r, s) == Render(Segments(m, s), r)
  {
    if s == "" {
    } else {
      var n := Found(m, s);
      SubstituteRendersSegments(m, r, s[if n > 0 then n else 1..]);
      assert s == s[..n] + s[n..] && s == [s[0]] + s[1..];
    }
  }

  /** The cut is determined by the matches at the offsets of the text. */
  lemma {:induction false} SameSegments(m: Matcher, n: Matcher, s: string)
    requires forall i | 0 <= i < |s| :: Found(m, s[i..]) == Found(n, s[i..])
    ensures Segments(m, s) == Segments(n, s)
    decreases |s|
  {
    if s == "" {
    } else {
      assert s[0..] == s;
      var step := if Found(m, s) > 0 then Found(m, s) else 1;
      forall i | 0 <= i < |s[step..]|
        ensures Found(m, s[step..][i..]) == Found(n, s[step..][i..])
      {
        assert s[step..][i..] == s[step + i..];
      }
      SameSegments(m, n, s[step..]);
    }
  }

  lemma FlattenAfterFirst(first: Segment, rest: seq<Segment>, i: nat)
    requires 0 < i <= |rest| + 1
    ensures |Flatten(([first] + rest)[..i])| == |first.text| + |Flatten(rest[..i - 1])|
  {
    assert ([first] + rest)[..i][1..] == rest[..i - 1];
  }

  /** The cut is leftmost: a hole is the match at its offset, and no match begins at a literal. */
  lemma {:induction false} SegmentsAreLeftmost(m: Matcher, s: string, i: nat)
    requires i < |Segments(m, s)|
    ensures var before := |Flatten(Segments(m, s)[..i])|; var segment := Segments(m, s)[i];
      && before + |segment.text| <= |s|
      && segment.text == s[before..before + |segment.text|]
      && segment.text != ""
      && Found(m, s[before..]) == (if segment.hole then |segment.text| else 0)
  {
    var all := Segments(m, s);
    var n := Found(m, s);
    var step := if n > 0 then n else 1;
    if i == 0 {
      assert s[0..] == s;
    } else {
      SegmentsAreLeftmost(m, s[step..], i - 1);
      var rest := Segments(m, s[step..]);
      var before := |Flatten(rest[..i - 1])|;
      FlattenAfterFirst(all[0], rest, i);
      assert all == [all[0]] + rest;
      assert s[step..][before..] == s[step + before..];
    }
  }

  /** If every hole is rewritten to itself, the text is kept byte for byte. */
  lemma KeptHoles(m: Matcher, r: Rewriter, s: string)
    requires forall segment | segment in Segments(m, s) && segment.hole :: r(segment.text) == segment.text
    ensures Substitute(m, r, s) == s
  {
    SubstituteRendersSegments(m, r, s);
    RenderKept(Segments(m, s), r);
  }

  lemma {:induction false} RenderKept(segments: seq<Segment>, r: Rewriter)
    requires forall segment | segment in segments && segment.hole :: r(segment.text) == segment.text
    ensures Render(segments, r) == Flatten(segments)
  {
    if segments == [] {
    } else {
      RenderKept(segments[1..], r);
    }
  }

  /** Characters at which no match begins are copied. */
  lemma {:induction false} LiteralRun(m: Matcher, r: Rewriter, s: string, n: nat)
    requires n <= |s| && forall i | 0 <= i < n :: Found(m, s[i..]) == 0
    ensures Substitute(m, r, s) == s[..n] + Substitute(m, r, s[n..])
  {
    if n == 0 {
    } else {
      assert s[0..] == s;
      forall i | 0 <= i < n - 1
        ensures Found(m, s[1..][i..]) == 0
      {
        assert s[1..][i..] == s[i + 1..];
      }
      LiteralRun(m, r, s[1..], n - 1);
      assert s[1..][n - 1..] == s[n..] && [s[0]] + s[1..][..n - 1] == s[..n];
    }
  }

  /* Idempotence, from three facts about the matcher and the replacement. */

  /** A match is decided by the characters it covers. */
  ghost predicate Local(m: Matcher) {
    forall s, t :: Found(m, s) > 0 ==> Found(m, s[..Found(m, s)] + t) == Found(m, s)
  }

  /** What a match is rewritten to either is the match itself, or is copied by another pass. */
  ghost predicate Settled(m: Matcher, r: Rewriter) {
    forall s, t :: Found(m, s) > 0 ==>
      var v := r(s[..Found(m, s)]);
      v == s[..Found(m, s)] || Substitute(m, r, v + t) == v + Substitute(m, r, t)
  }

  /** Rewriting what follows an unmatched character creates no match at that character. */
  ghost predicate CreatesNoMatch(m: Matcher, r: Rewriter) {
    forall s :: s != "" && Found(m, s) == 0 ==> Found(m, [s[0]] + Substitute(m, r, s[1..])) == 0
  }

  lemma {:induction false} SubstituteIsIdempotent(m: Matcher, r: Rewriter, s: string)
    requires Local(m) && Settled(m, r) && CreatesNoMatch(m, r)
    ensures Substitute(m, r, Substitute(m, r, s)) == Substitute(m, r, s)
    decreases |s|
  {
    if s == "" {
    } else {
      var n := Found(m, s);
      var step := if n > 0 then n else 1;
      var rest := Substitute(m, r, s[step..]);
      SubstituteIsIdempotent(m, r, s[step..]);
      if n == 0 {
        assert ([s[0]] + rest)[1..] == rest;
      } else {
        var v := r(s[..n]);
        if v == s[..n] {
          var out := s[..n] + rest;
          assert Found(m, out) == n;
          assert out[..n] == s[..n] && out[n..] == rest;
        }
      }
    }
  }
}
