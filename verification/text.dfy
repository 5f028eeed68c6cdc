/** The slice of Python's `str` behaviour the bots rely on: whitespace
    stripping, `split`, `split()`, `splitlines()`, `partition`-like first-match
    splitting, substring tests, case mapping and decimal rendering. */
module Text {
  import opened Wrappers

  /** Python's `str.isspace()`; the regex class `\s` on `str` patterns matches
      exactly the same characters. */
  predicate IsSpace(c: char) {
    || c == ' '
    || ('\t' <= c <= '\r')
    || ('\U{1c}' <= c <= '\U{1f}')
    || c == '\U{85}' || c == '\U{a0}' || c == '\U{1680}'
    || ('\U{2000}' <= c <= '\U{200a}')
    || c == '\U{2028}' || c == '\U{2029}' || c == '\U{202f}' || c == '\U{205f}'
    || c == '\U{3000}'
  }

  /** The characters at which Python's `str.splitlines()` ends a line
      ("\r\n" counts as one boundary). */
  predicate IsLineBreak(c: char) {
    || ('\n' <= c <= '\r')
    || ('\U{1c}' <= c <= '\U{1e}')
    || c == '\U{85}' || c == '\U{2028}' || c == '\U{2029}'
  }

  ghost predicate NoBreak(s: string) {
    forall i :: 0 <= i < |s| ==> !IsLineBreak(s[i])
  }

  ghost predicate NoSpace(s: string) {
    forall i :: 0 <= i < |s| ==> !IsSpace(s[i])
  }

  ghost predicate AllSpace(s: string) {
    forall i :: 0 <= i < |s| ==> IsSpace(s[i])
  }

  /** Python's `s.startswith(p)`. */
  predicate StartsWith(s: string, p: string) {
    |p| <= |s| && s[..|p|] == p
  }

  /** Python's `s.endswith(p)`. */
  predicate EndsWith(s: string, p: string) {
    |p| <= |s| && s[|s| - |p|..] == p
  }

  ghost predicate OccursAt(s: string, p: string, i: int) {
    0 <= i && i + |p| <= |s| && s[i..i + |p|] == p
  }

  lemma OccursShift(s: string, p: string, i: int)
    requires |s| > 0 && 0 <= i
    ensures OccursAt(s[1..], p, i) <==> OccursAt(s, p, i + 1)
  {
    if i + |p| <= |s[1..]| {
      assert s[1..][i..i + |p|] == s[i + 1..i + 1 + |p|];
    }
  }

  /** Python's `p in s` on two strings: substring containment. */
  predicate Contains(s: string, p: string)
    ensures Contains(s, p) <==> exists i :: OccursAt(s, p, i)
    decreases |s|
  {
    if StartsWith(s, p) then
      assert OccursAt(s, p, 0);
      true
    else if |p| < |s| then
      var rest := Contains(s[1..], p);
      assert rest ==> exists i :: OccursAt(s, p, i) by {
        if rest {
          var i :| OccursAt(s[1..], p, i);
          OccursShift(s, p, i);
        }
      }
      assert (exists i :: OccursAt(s, p, i)) ==> rest by {
        if exists i :: OccursAt(s, p, i) {
          var i :| OccursAt(s, p, i);
          assert i != 0;
          OccursShift(s, p, i - 1);
        }
      }
      rest
    else
      false
  }

  /** Python's `s.lstrip()`. */
  function LStrip(s: string): (r: string)
    ensures |r| <= |s| && r == s[|s| - |r|..]
    ensures AllSpace(s[..|s| - |r|])
    ensures r == [] || !IsSpace(r[0])
    ensures s == [] || !IsSpace(s[0]) ==> r == s
  {
    if s != [] && IsSpace(s[0]) then
      var r := LStrip(s[1..]);
      assert s[..|s| - |r|] == [s[0]] + s[1..][..|s| - 1 - |r|];
      r
    else s
  }

  /** Python's `s.rstrip()`. */
  function RStrip(s: string): (r: string)
    ensures |r| <= |s| && r == s[..|r|]
    ensures AllSpace(s[|r|..])
    ensures r == [] || !IsSpace(r[|r| - 1])
    ensures s != [] && !IsSpace(s[0]) ==> r != []
  {
    if s != [] && IsSpace(s[|s| - 1]) then
      var r := RStrip(s[..|s| - 1]);
      assert s[|r|..] == s[..|s| - 1][|r|..] + [s[|s| - 1]];
      r
    else s
  }

  /** Python's `s.strip()`: what is left once leading and trailing
      whitespace is gone. */
  function Strip(s: string): (r: string)
    ensures r == [] <==> AllSpace(s)
    ensures r == [] || (!IsSpace(r[0]) && !IsSpace(r[|r| - 1]))
    ensures (s == [] || (!IsSpace(s[0]) && !IsSpace(s[|s| - 1]))) ==> r == s
    ensures |r| <= |s|
  {
    var l := LStrip(s);
    assert l == [] ==> s[..|s| - |l|] == s;
    assert l != [] ==> l[0] == s[|s| - |l|];
    RStrip(l)
  }

  /** Stripping a trimmed text with one trailing whitespace character
      removes just that character. */
  lemma StripTrailing(a: string, c: char)
    requires a != [] && !IsSpace(a[0]) && !IsSpace(a[|a| - 1]) && IsSpace(c)
    ensures Strip(a + [c]) == a
  {
    var s := a + [c];
    assert LStrip(s) == s;
    assert s[..|s| - 1] == a;
    assert RStrip(s) == RStrip(a);
  }

  /** Stripping a trimmed text with one leading whitespace character
      removes just that character. */
  lemma StripLeading(c: char, a: string)
    requires a != [] && !IsSpace(a[0]) && !IsSpace(a[|a| - 1]) && IsSpace(c)
    ensures Strip([c] + a) == a
  {
    var s := [c] + a;
    assert s[1..] == a;
    assert LStrip(s) == LStrip(a) == a;
  }

  /** Index of the first `c` in `s`, as Python's `s.find(c)` but absent
      instead of -1. */
  function IndexOf(s: string, c: char): (r: Option<nat>)
    ensures r.None? <==> c !in s
    ensures r.Some? ==> r.value < |s| && s[r.value] == c && c !in s[..r.value]
  {
    if s == [] then None
    else if s[0] == c then Some(0)
    else
      match IndexOf(s[1..], c)
      case None => None
      case Some(i) =>
        assert s[..i + 1] == [s[0]] + s[1..][..i];
        Some(i + 1)
  }

  /** `IndexOf` finds the occurrence that has no other before it. */
  lemma IndexOfIs(s: string, c: char, k: nat)
    requires k < |s| && s[k] == c && c !in s[..k]
    ensures IndexOf(s, c) == Some(k)
  {
  }

  /** Joins pieces with one separator character between neighbours: the
      inverse of `SplitOn`. */
  function Join(ps: seq<string>, c: char): string {
    if |ps| == 0 then []
    else if |ps| == 1 then ps[0]
    else ps[0] + [c] + Join(ps[1..], c)
  }

  /** Python's `s.split(c)` for a one-character separator: never empty, and
      rejoining the pieces gives `s` back. */
  function SplitOn(s: string, c: char): (r: seq<string>)
    ensures |r| >= 1
    ensures Join(r, c) == s
    ensures forall i :: 0 <= i < |r| ==> c !in r[i]
    decreases |s|
  {
    match IndexOf(s, c)
    case None => [s]
    case Some(i) =>
      var rest := SplitOn(s[i + 1..], c);
      assert ([s[..i]] + rest)[1..] == rest;
      assert s == s[..i] + [c] + s[i + 1..];
      [s[..i]] + rest
  }

  /** Splitting a joined sequence gives the pieces back when no piece holds
      the separator. */
  lemma {:induction false} SplitOnJoin(ps: seq<string>, c: char)
    requires |ps| >= 1
    requires forall i :: 0 <= i < |ps| ==> c !in ps[i]
    ensures SplitOn(Join(ps, c), c) == ps
  {
    if |ps| > 1 {
      var s := Join(ps, c);
      assert s == ps[0] + [c] + Join(ps[1..], c);
      assert s[..|ps[0]|] == ps[0];
      assert s[|ps[0]| + 1..] == Join(ps[1..], c);
      assert c !in s[..|ps[0]|];
      IndexOfIs(s, c, |ps[0]|);
      SplitOnJoin(ps[1..], c);
    } else {
      assert Join(ps, c) == ps[0];
    }
  }

  /** A joined string ends with its last piece. */
  lemma {:induction false} JoinSuffix(ps: seq<string>, c: char)
    requires |ps| >= 1
    ensures var j := Join(ps, c); var l := ps[|ps| - 1];
            |l| <= |j| && j[|j| - |l|..] == l
  {
    if |ps| > 1 {
      JoinSuffix(ps[1..], c);
      assert Join(ps, c) == ps[0] + [c] + Join(ps[1..], c);
    }
  }

  /** Appending a piece appends the separator and the piece. */
  lemma {:induction false} JoinSnoc(ps: seq<string>, q: string, c: char)
    requires |ps| >= 1
    ensures Join(ps + [q], c) == Join(ps, c) + [c] + q
  {
    if |ps| > 1 {
      assert (ps + [q])[1..] == ps[1..] + [q];
      JoinSnoc(ps[1..], q, c);
    }
  }

  /** Every character of a joined string is the separator or comes from a
      piece. */
  lemma {:induction false} JoinChars(ps: seq<string>, c: char, x: char)
    requires x in Join(ps, c)
    ensures x == c || exists i :: 0 <= i < |ps| && x in ps[i]
  {
    if |ps| > 1 {
      assert Join(ps, c) == ps[0] + [c] + Join(ps[1..], c);
      if x != c && x !in ps[0] {
        JoinChars(ps[1..], c, x);
        var i :| 0 <= i < |ps[1..]| && x in ps[1..][i];
        assert x in ps[i + 1];
      }
    }
  }

  /** Splits at the first `c`, as `s.split(c, 1)` does when `c in s`;
      absent when `c` does not occur. */
  function SplitFirst(s: string, c: char): (r: Option<(string, string)>)
    ensures r.None? <==> c !in s
    ensures r.Some? ==> s == r.value.0 + [c] + r.value.1 && c !in r.value.0
  {
    match IndexOf(s, c)
    case None => None
    case Some(i) =>
      assert s == s[..i] + [c] + s[i + 1..];
      Some((s[..i], s[i + 1..]))
  }

  /** `SplitFirst` cuts at the first occurrence and nowhere else. */
  lemma SplitFirstIs(a: string, c: char, b: string)
    requires c !in a
    ensures SplitFirst(a + [c] + b, c) == Some((a, b))
  {
    var s := a + [c] + b;
    assert s[|a|] == c && s[..|a|] == a;
    var r := SplitFirst(s, c);
    assert IndexOf(s, c) == Some(|a|);
    assert s[|a| + 1..] == b;
  }

  /** Every character of a piece occurs in the joined string. */
  lemma {:induction false} JoinHasPieceChars(ps: seq<string>, c: char, i: int, x: char)
    requires 0 <= i < |ps| && x in ps[i]
    ensures x in Join(ps, c)
  {
    if |ps| > 1 {
      assert Join(ps, c) == ps[0] + [c] + Join(ps[1..], c);
      if i > 0 {
        JoinHasPieceChars(ps[1..], c, i - 1, x);
      }
    }
  }

  /** Every piece occurs in the joined string. */
  lemma {:induction false} JoinHasPiece(ps: seq<string>, c: char, i: int)
    requires 0 <= i < |ps|
    ensures exists k :: OccursAt(Join(ps, c), ps[i], k)
  {
    JoinPrefix(ps, c);
    if i == 0 {
      assert OccursAt(Join(ps, c), ps[0], 0);
    } else {
      var s := Join(ps, c);
      var rest := Join(ps[1..], c);
      assert s == ps[0] + [c] + rest;
      JoinHasPiece(ps[1..], c, i - 1);
      var k :| OccursAt(rest, ps[1..][i - 1], k);
      var n := |ps[0]| + 1;
      assert s[n..] == rest;
      assert s[n + k..n + k + |ps[i]|] == rest[k..k + |ps[i]|];
      assert OccursAt(s, ps[i], n + k);
    }
  }

  /** The longest prefix of `s` without whitespace. */
  function Word(s: string): (w: string)
    ensures |w| <= |s| && w == s[..|w|]
    ensures NoSpace(w)
    ensures |w| == |s| || IsSpace(s[|w|])
  {
    if s == [] || IsSpace(s[0]) then []
    else
      var rest := Word(s[1..]);
      assert [s[0]] + rest == s[..|rest| + 1];
      [s[0]] + rest
  }

  /** Python's `s.split()` with no argument: the maximal runs of
      non-whitespace characters, in order. */
  function SplitWhitespace(s: string): (r: seq<string>)
    ensures forall i :: 0 <= i < |r| ==> r[i] != [] && NoSpace(r[i])
    decreases |s|
  {
    if s == [] then []
    else if IsSpace(s[0]) then SplitWhitespace(s[1..])
    else
      var w := Word(s);
      [w] + SplitWhitespace(s[|w|..])
  }

  /** `Word` stops exactly at the first whitespace character. */
  lemma {:induction false} WordIs(t: string, k: nat)
    requires k <= |t| && NoSpace(t[..k])
    requires k == |t| || IsSpace(t[k])
    ensures Word(t) == t[..k]
  {
    if k > 0 {
      assert t[0] == t[..k][0];
      assert t[1..][..k - 1] == t[..k][1..];
      WordIs(t[1..], k - 1);
      assert t[..k] == [t[0]] + t[1..][..k - 1];
    }
  }

  /** A joined sequence begins with its first piece. */
  lemma {:induction false} JoinPrefix(ps: seq<string>, c: char)
    requires |ps| >= 1
    ensures |ps[0]| <= |Join(ps, c)| && Join(ps, c)[..|ps[0]|] == ps[0]
  {
    if |ps| > 1 {
      assert Join(ps, c) == ps[0] + ([c] + Join(ps[1..], c));
    }
  }

  /** A leading word is split off as the first field. */
  lemma SplitWhitespaceCons(f: string, rest: string)
    requires f != [] && NoSpace(f)
    requires rest == [] || IsSpace(rest[0])
    ensures SplitWhitespace(f + rest) == [f] + SplitWhitespace(rest)
  {
    var s := f + rest;
    assert s[0] == f[0];
    assert s[..|f|] == f;
    WordIs(s, |f|);
    assert s[|f|..] == rest;
  }

  /** Splitting a joined sequence of two or more fields splits off the first. */
  lemma SplitWhitespaceJoinStep(fs: seq<string>)
    requires |fs| > 1 && fs[0] != [] && NoSpace(fs[0]) && fs[1] != []
    ensures SplitWhitespace(Join(fs, ' ')) == [fs[0]] + SplitWhitespace(Join(fs[1..], ' '))
  {
    var j := Join(fs[1..], ' ');
    var rest := [' '] + j;
    assert Join(fs, ' ') == fs[0] + rest;
    SplitWhitespaceCons(fs[0], rest);
    JoinPrefix(fs[1..], ' ');
    assert j[0] == fs[1][0];
    assert rest[1..] == j;
  }

  /** A single field splits to itself. */
  lemma SplitWhitespaceSingle(fs: seq<string>)
    requires |fs| == 1 && fs[0] != [] && NoSpace(fs[0])
    ensures SplitWhitespace(Join(fs, ' ')) == fs
  {
    var f := fs[0];
    assert Join(fs, ' ') == f;
    assert f[..|f|] == f;
    WordIs(f, |f|);
    assert f[|f|..] == [];
    assert SplitWhitespace([]) == [];
  }

  /** Whitespace splitting undoes joining with single spaces, provided every
      field is non-empty and holds no whitespace. */
  lemma {:induction false} SplitWhitespaceJoin(fs: seq<string>)
    requires forall i :: 0 <= i < |fs| ==> fs[i] != [] && NoSpace(fs[i])
    ensures SplitWhitespace(Join(fs, ' ')) == fs
  {
    if |fs| == 0 {
      assert Join(fs, ' ') == [];
      assert SplitWhitespace([]) == [];
    } else if |fs| == 1 {
      SplitWhitespaceSingle(fs);
    } else {
      SplitWhitespaceJoinStep(fs);
      SplitWhitespaceJoin(fs[1..]);
      assert fs == [fs[0]] + fs[1..];
    }
  }

  /** Index of the first line boundary in `s`. */
  function BreakIndex(s: string): (r: Option<nat>)
    ensures r.None? ==> NoBreak(s)
    ensures r.Some? ==> r.value < |s| && IsLineBreak(s[r.value]) && NoBreak(s[..r.value])
  {
    if s == [] then None
    else if IsLineBreak(s[0]) then Some(0)
    else
      match BreakIndex(s[1..])
      case None => None
      case Some(i) =>
        assert s[..i + 1] == [s[0]] + s[1..][..i];
        Some(i + 1)
  }

  /** `BreakIndex` finds exactly the first line boundary. */
  lemma {:induction false} BreakIndexIs(s: string, k: nat)
    requires k < |s| && IsLineBreak(s[k]) && NoBreak(s[..k])
    ensures BreakIndex(s) == Some(k)
  {
    if k > 0 {
      assert s[0] == s[..k][0];
      assert s[1..][..k - 1] == s[..k][1..];
      BreakIndexIs(s[1..], k - 1);
    }
  }

  /** Python's `s.splitlines()`: the lines without their terminators, no
      trailing empty line after a final terminator, none at all for "". */
  function SplitLines(s: string): (r: seq<string>)
    ensures forall i :: 0 <= i < |r| ==> NoBreak(r[i])
    ensures s == [] <==> r == []
    decreases |s|
  {
    if s == [] then []
    else
      match BreakIndex(s)
      case None => [s]
      case Some(i) =>
        var next := if s[i] == '\r' && i + 1 < |s| && s[i + 1] == '\n' then i + 2 else i + 1;
        [s[..i]] + SplitLines(s[next..])
  }

  /** The lines of a blank text are blank. */
  lemma {:induction false} SplitLinesBlank(s: string)
    requires AllSpace(s)
    ensures forall i :: 0 <= i < |SplitLines(s)| ==> AllSpace(SplitLines(s)[i])
    decreases |s|
  {
    if s != [] {
      match BreakIndex(s)
      case None =>
      case Some(i) =>
        var next := if s[i] == '\r' && i + 1 < |s| && s[i + 1] == '\n' then i + 2 else i + 1;
        assert AllSpace(s[next..]);
        SplitLinesBlank(s[next..]);
        assert SplitLines(s) == [s[..i]] + SplitLines(s[next..]);
    }
  }

  /** Splitting lines undoes joining with "\n" when no line holds a
      boundary and the last line is not empty. */
  lemma {:induction false} SplitLinesJoin(ls: seq<string>)
    requires forall i :: 0 <= i < |ls| ==> NoBreak(ls[i])
    requires |ls| == 0 || ls[|ls| - 1] != []
    ensures SplitLines(Join(ls, '\n')) == ls
  {
    if |ls| == 0 {
    } else if |ls| == 1 {
      assert Join(ls, '\n') == ls[0];
    } else {
      var s := Join(ls, '\n');
      assert s == ls[0] + ['\n'] + Join(ls[1..], '\n');
      assert s[..|ls[0]|] == ls[0];
      assert s[|ls[0]|] == '\n';
      BreakIndexIs(s, |ls[0]|);
      assert s[|ls[0]| + 1..] == Join(ls[1..], '\n');
      SplitLinesJoin(ls[1..]);
    }
  }

  predicate IsAsciiLetter(c: char) {
    ('a' <= c <= 'z') || ('A' <= c <= 'Z')
  }

  function UpperChar(c: char): char {
    if 'a' <= c <= 'z' then (c as int - 32) as char else c
  }

  function LowerChar(c: char): char {
    if 'A' <= c <= 'Z' then (c as int + 32) as char else c
  }

  /** Python's `s.upper()` on ASCII letters. */
  function Upper(s: string): (r: string)
    ensures |r| == |s|
    ensures forall i :: 0 <= i < |s| ==> r[i] == UpperChar(s[i])
  {
    if s == [] then [] else [UpperChar(s[0])] + Upper(s[1..])
  }

  /** Python's `s.lower()` on ASCII letters. */
  function Lower(s: string): (r: string)
    ensures |r| == |s|
    ensures forall i :: 0 <= i < |s| ==> r[i] == LowerChar(s[i])
  {
    if s == [] then [] else [LowerChar(s[0])] + Lower(s[1..])
  }

  /** Python's `s.replace(a, b)` for single characters. */
  function Replace(s: string, a: char, b: char): (r: string)
    ensures |r| == |s|
    ensures forall i :: 0 <= i < |s| ==> r[i] == (if s[i] == a then b else s[i])
  {
    if s == [] then [] else [if s[0] == a then b else s[0]] + Replace(s[1..], a, b)
  }

  /** What `str.title()` puts at position `i`: a letter is upper-cased when
      the character before it is not a letter, lower-cased otherwise. */
  function TitleCharAt(s: string, i: nat): char
    requires i < |s|
  {
    if !IsAsciiLetter(s[i]) then s[i]
    else if i > 0 && IsAsciiLetter(s[i - 1]) then LowerChar(s[i])
    else UpperChar(s[i])
  }

  function TitleFrom(s: string, prevCased: bool): (r: string)
    ensures |r| == |s|
    ensures |s| > 0 ==> r[0] == (if !IsAsciiLetter(s[0]) then s[0]
                                 else if prevCased then LowerChar(s[0]) else UpperChar(s[0]))
    ensures forall i :: 0 < i < |s| ==> r[i] == TitleCharAt(s, i)
  {
    if s == [] then []
    else
      var c := if !IsAsciiLetter(s[0]) then s[0]
               else if prevCased then LowerChar(s[0]) else UpperChar(s[0]);
      var rest := TitleFrom(s[1..], IsAsciiLetter(s[0]));
      assert forall i :: 0 < i < |s| ==> ([c] + rest)[i] == TitleCharAt(s, i) by {
        forall i | 0 < i < |s| ensures ([c] + rest)[i] == TitleCharAt(s, i) {
          if i > 1 {
            assert TitleCharAt(s[1..], i - 1) == TitleCharAt(s, i);
          }
        }
      }
      [c] + rest
  }

  /** Python's `s.title()` on ASCII letters. */
  function Title(s: string): (r: string)
    ensures |r| == |s|
    ensures forall i :: 0 <= i < |s| ==> r[i] == TitleCharAt(s, i)
  {
    TitleFrom(s, false)
  }

  /** Python's `s.capitalize()` on ASCII letters: first character upper-cased,
      every other one lower-cased. */
  function Capitalize(s: string): (r: string)
    ensures |r| == |s|
    ensures |s| > 0 ==> r[0] == UpperChar(s[0])
    ensures forall i :: 0 < i < |s| ==> r[i] == LowerChar(s[i])
  {
    if s == [] then [] else [UpperChar(s[0])] + Lower(s[1..])
  }

  /** Title-casing is idempotent: a title-cased string is its own title. */
  lemma TitleIdempotent(s: string)
    ensures Title(Title(s)) == Title(s)
  {
    var t := Title(s);
    forall i | 0 <= i < |s| ensures Title(t)[i] == t[i] {
      assert IsAsciiLetter(t[i]) == IsAsciiLetter(s[i]);
      if i > 0 {
        assert IsAsciiLetter(t[i - 1]) == IsAsciiLetter(s[i - 1]);
      }
    }
  }

  function DigitChar(d: nat): char
    requires d < 10
  {
    ('0' as int + d) as char
  }

  ghost predicate AllDigits(s: string) {
    forall i :: 0 <= i < |s| ==> '0' <= s[i] <= '9'
  }

  /** The number a string of decimal digits denotes. */
  function DigitsValue(s: string): nat
    requires AllDigits(s)
  {
    if s == [] then 0 else DigitsValue(s[..|s| - 1]) * 10 + (s[|s| - 1] as int - '0' as int)
  }

  /** Python's `str(n)` for a natural number: decimal digits without a
      leading zero, denoting `n`. */
  function NatToString(n: nat): (r: string)
    ensures |r| >= 1 && AllDigits(r)
    ensures |r| == 1 || r[0] != '0'
    ensures DigitsValue(r) == n
  {
    if n < 10 then [DigitChar(n)]
    else
      var prefix := NatToString(n / 10);
      var r := prefix + [DigitChar(n % 10)];
      assert r[..|r| - 1] == prefix;
      r
  }
}
