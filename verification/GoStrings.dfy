/** The string operations of Go's standard library that the annotation engine uses.
    A string is the sequence of code points of valid UTF-8 text; ByteLength is Go's `len`. */
module GoStrings {

  predicate IsBracket(c: char) {
    c == '[' || c == ']'
  }

  /** unicode.IsSpace: the code points with the White_Space property. */
  predicate IsSpace(c: char) {
    || '\U{0009}' <= c <= '\U{000D}'
    || c in {' ', '\U{0085}', '\U{00A0}', '\U{1680}', '\U{2028}', '\U{2029}', '\U{202F}', '\U{205F}', '\U{3000}'}
    || '\U{2000}' <= c <= '\U{200A}'
  }

  /** The same, one by one. */
  lemma SpacesExactly(c: char)
    ensures IsSpace(c) <==> c in {
      '\t', '\n', '\U{000B}', '\U{000C}', '\r', ' ', '\U{0085}', '\U{00A0}', '\U{1680}', '\U{2000}', '\U{2001}',
      '\U{2002}', '\U{2003}', '\U{2004}', '\U{2005}', '\U{2006}', '\U{2007}', '\U{2008}', '\U{2009}', '\U{200A}',
      '\U{2028}', '\U{2029}', '\U{202F}', '\U{205F}', '\U{3000}'}
  {
  }

  function ByteLength(s: string): (n: nat)
    ensures n >= |s|
  {
    if s == "" then 0
    else
      var c := s[0];
      (if c < '\U{0080}' then 1 else if c < '\U{0800}' then 2 else if c < '\U{10000}' then 3 else 4)
      + ByteLength(s[1..])
  }

  /** The bytes of a character in UTF-8: a lead byte that tells how many there are, and six bits in each other. */
  function Utf8(c: char): (bytes: seq<int>)
    ensures 1 <= |bytes| <= 4 && forall i | 1 <= i < |bytes| :: 0x80 <= bytes[i] < 0xC0
    ensures match |bytes|
      case 1 => 0 <= bytes[0] < 0x80
      case 2 => 0xC0 <= bytes[0] < 0xE0
      case 3 => 0xE0 <= bytes[0] < 0xF0
      case 4 => 0xF0 <= bytes[0] < 0xF8
  {
    var n := c as int;
    if n < 0x80 then [n]
    else if n < 0x800 then [0xC0 + n / 0x40, 0x80 + n % 0x40]
    else if n < 0x10000 then [0xE0 + n / 0x1000, 0x80 + n / 0x40 % 0x40, 0x80 + n % 0x40]
    else [0xF0 + n / 0x40000, 0x80 + n / 0x1000 % 0x40, 0x80 + n / 0x40 % 0x40, 0x80 + n % 0x40]
  }

  function Encoded(s: string): seq<int> {
    if s == "" then [] else Utf8(s[0]) + Encoded(s[1..])
  }

  lemma {:induction false} ByteLengthIsEncoded(s: string)
    ensures ByteLength(s) == |Encoded(s)|
  {
    if s == "" {
    } else {
      ByteLengthIsEncoded(s[1..]);
    }
  }

  predicate HasPrefix(s: string, prefix: string) {
    prefix <= s
  }

  predicate HasPartAt(s: string, part: string, i: nat) {
    i + |part| <= |s| && s[i..i + |part|] == part
  }

  /** strings.Contains */
  predicate Contains(s: string, part: string) {
    exists i | 0 <= i <= |s| :: HasPartAt(s, part, i)
  }

  /** The index of the first c in s, or |s|. */
  function IndexOf(s: string, c: char): (i: nat)
    ensures i <= |s| && forall j | 0 <= j < i :: s[j] != c
    ensures i < |s| ==> s[i] == c
  {
    if s == "" || s[0] == c then 0 else 1 + IndexOf(s[1..], c)
  }

  lemma IndexOfIsFirst(s: string, c: char, i: nat)
    requires i <= |s| && (i < |s| ==> s[i] == c) && forall j | 0 <= j < i :: s[j] != c
    ensures IndexOf(s, c) == i
  {
  }

  function TrimLeft(s: string, cut: char -> bool): string {
    if s != "" && cut(s[0]) then TrimLeft(s[1..], cut) else s
  }

  function TrimRight(s: string, cut: char -> bool): string {
    if s != "" && cut(s[|s| - 1]) then TrimRight(s[..|s| - 1], cut) else s
  }

  /** strings.TrimFunc, of which strings.Trim and strings.TrimSpace are instances. */
  function Trim(s: string, cut: char -> bool): string {
    TrimRight(TrimLeft(s, cut), cut)
  }

  /** strings.Trim(s, "[]") */
  function TrimBrackets(s: string): string {
    Trim(s, IsBracket)
  }

  function TrimSpace(s: string): string {
    Trim(s, IsSpace)
  }

  /** strings.Split with a one-character separator: never an empty list. */
  function Split(s: string, sep: char): (parts: seq<string>)
    ensures |parts| >= 1
  {
    if s == "" then [""]
    else
      var rest := Split(s[1..], sep);
      if s[0] == sep then [""] + rest else [[s[0]] + rest[0]] + rest[1..]
  }

  function Join(parts: seq<string>, sep: char): string {
    if parts == [] then ""
    else if |parts| == 1 then parts[0]
    else parts[0] + [sep] + Join(parts[1..], sep)
  }

  /** fmt.Sprintf("%v", parts) for a []string. */
  function FormatList(parts: seq<string>): string {
    "[" + Join(parts, ' ') + "]"
  }

  /** Nothing to cut at either end. */
  predicate Tight(s: string, cut: char -> bool) {
    s == "" || (!cut(s[0]) && !cut(s[|s| - 1]))
  }

  lemma {:induction false} TrimLeftTight(s: string, cut: char -> bool)
    ensures var t := TrimLeft(s, cut); t == "" || !cut(t[0])
    ensures |TrimLeft(s, cut)| <= |s|
    ensures TrimLeft(s, cut) == s[|s| - |TrimLeft(s, cut)|..]
  {
    if s == "" || !cut(s[0]) {
    } else {
      TrimLeftTight(s[1..], cut);
    }
  }

  lemma {:induction false} TrimRightTight(s: string, cut: char -> bool)
    ensures var t := TrimRight(s, cut); t == "" || !cut(t[|t| - 1])
    ensures |TrimRight(s, cut)| <= |s|
    ensures TrimRight(s, cut) == s[..|TrimRight(s, cut)|]
  {
    if s == "" || !cut(s[|s| - 1]) {
    } else {
      TrimRightTight(s[..|s| - 1], cut);
    }
  }

  /** What trimming leaves has nothing left to trim. */
  lemma TrimTight(s: string, cut: char -> bool)
    ensures Tight(Trim(s, cut), cut)
  {
    TrimLeftTight(s, cut);
    TrimRightTight(TrimLeft(s, cut), cut);
  }

  predicate AllCut(s: string, cut: char -> bool) {
    forall c | c in s :: cut(c)
  }

  lemma {:induction false} TrimLeftCuts(s: string, cut: char -> bool)
    ensures var i := |s| - |TrimLeft(s, cut)|; 0 <= i <= |s| && AllCut(s[..i], cut)
  {
    TrimLeftTight(s, cut);
    if s == "" || !cut(s[0]) {
    } else {
      TrimLeftCuts(s[1..], cut);
      var i := |s| - |TrimLeft(s, cut)|;
      assert s[..i] == [s[0]] + s[1..][..i - 1];
    }
  }

  lemma {:induction false} TrimRightCuts(s: string, cut: char -> bool)
    ensures |TrimRight(s, cut)| <= |s| && AllCut(s[|TrimRight(s, cut)|..], cut)
  {
    TrimRightTight(s, cut);
    if s == "" || !cut(s[|s| - 1]) {
    } else {
      TrimRightCuts(s[..|s| - 1], cut);
      var n := |TrimRight(s, cut)|;
      assert s[n..] == s[..|s| - 1][n..] + [s[|s| - 1]];
    }
  }

  /** Trimming takes cut characters off the ends and nothing else. */
  lemma TrimCutsExactly(s: string, cut: char -> bool) returns (i: nat, j: nat)
    ensures i <= j <= |s| && Trim(s, cut) == s[i..j] && Tight(s[i..j], cut)
    ensures AllCut(s[..i], cut) && AllCut(s[j..], cut)
  {
    var l := TrimLeft(s, cut);
    TrimTight(s, cut);
    TrimLeftTight(s, cut);
    TrimLeftCuts(s, cut);
    TrimRightTight(l, cut);
    TrimRightCuts(l, cut);
    i := |s| - |l|;
    j := i + |TrimRight(l, cut)|;
    assert l[..j - i] == s[i..j] && l[j - i..] == s[j..];
  }

  lemma TrimOfTight(s: string, cut: char -> bool)
    requires Tight(s, cut)
    ensures Trim(s, cut) == s
  {
  }

  /** Trimming removes one cut character on each side of a tight text. */
  lemma TrimWrapped(left: char, s: string, right: char, cut: char -> bool)
    requires cut(left) && cut(right) && Tight(s, cut)
    ensures Trim([left] + s + [right], cut) == s
  {
    var w := [left] + s + [right];
    assert w[1..] == s + [right];
    assert TrimLeft(w, cut) == TrimLeft(s + [right], cut);
    if s == "" {
      assert s + [right] == [right];
      assert TrimLeft([right], cut) == TrimLeft([right][1..], cut) == "";
    } else {
      assert TrimLeft(s + [right], cut) == s + [right];
      assert (s + [right])[..|s + [right]| - 1] == s;
      assert TrimRight(s + [right], cut) == TrimRight(s, cut);
    }
  }

  lemma {:induction false} JoinOfSplit(s: string, sep: char)
    ensures Join(Split(s, sep), sep) == s
  {
    if s == "" {
    } else {
      JoinOfSplit(s[1..], sep);
      var rest := Split(s[1..], sep);
      if s[0] == sep {
        assert ([""] + rest)[1..] == rest;
      } else {
        assert ([[s[0]] + rest[0]] + rest[1..])[1..] == rest[1..];
      }
    }
  }

  lemma {:induction false} SplitHasNoSeparator(s: string, sep: char)
    ensures forall part | part in Split(s, sep) :: sep !in part
  {
    if s == "" {
    } else {
      SplitHasNoSeparator(s[1..], sep);
    }
  }

  lemma {:induction false} SplitOne(s: string, sep: char)
    requires sep !in s
    ensures Split(s, sep) == [s]
  {
    if s == "" {
    } else {
      SplitOne(s[1..], sep);
      assert [s[0]] + s[1..] == s;
    }
  }

  lemma {:induction false} SplitAtSeparator(s: string, sep: char, t: string)
    requires sep !in s
    ensures Split(s + [sep] + t, sep) == [s] + Split(t, sep)
  {
    var w := s + [sep] + t;
    if s == "" {
      assert w[1..] == t;
    } else {
      SplitAtSeparator(s[1..], sep, t);
      assert w[1..] == s[1..] + [sep] + t;
      assert [s[0]] + s[1..] == s;
      assert ([s[1..]] + Split(t, sep))[1..] == Split(t, sep);
    }
  }

  lemma {:induction false} SplitOfJoin(parts: seq<string>, sep: char)
    requires parts != [] && forall part | part in parts :: sep !in part
    ensures Split(Join(parts, sep), sep) == parts
  {
    if |parts| == 1 {
      SplitOne(parts[0], sep);
    } else {
      SplitOfJoin(parts[1..], sep);
      SplitAtSeparator(parts[0], sep, Join(parts[1..], sep));
    }
  }

  /** One more part stands behind a separator. */
  lemma {:induction false} JoinGrows(parts: seq<string>, part: string, sep: char)
    ensures Join(parts + [part], sep) == if parts == [] then part else Join(parts, sep) + [sep] + part
  {
    if |parts| == 0 {
      assert parts + [part] == [part];
    } else if |parts| == 1 {
      assert (parts + [part])[1..] == [part];
    } else {
      assert (parts + [part])[0] == parts[0] && (parts + [part])[1..] == parts[1..] + [part];
      JoinGrows(parts[1..], part, sep);
    }
  }

  /** Where a join of parts begins and ends. */
  lemma {:induction false} JoinEnds(parts: seq<string>, sep: char)
    requires parts != []
    ensures Join(parts, sep) == "" <==> parts == [""]
    ensures Join(parts, sep) != "" ==>
      var j := Join(parts, sep);
      && j[0] == (if parts[0] == "" then sep else parts[0][0])
      && j[|j| - 1] == (var z := parts[|parts| - 1]; if z == "" then sep else z[|z| - 1])
  {
    if |parts| <= 1 {
    } else {
      JoinEnds(parts[1..], sep);
    }
  }
}
