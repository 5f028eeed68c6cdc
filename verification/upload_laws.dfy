/** What the upload splitting promises: every non-blank line becomes
    exactly one entry named after its line number, the names never clash,
    file extensions come apart as `os.path.splitext` takes them, and kept
    zip members carry a cookie-file type. */
module UploadLaws {
  import opened Wrappers
  import opened Text
  import opened Upload

  /** Each non-blank line `k` becomes the entry named after line number
      `k + 1`, holding the stripped line. */
  lemma LineBecomesEntry(prefix: string, suffix: string, kind: string, lines: seq<string>, k: nat)
    requires k < |lines| && Strip(lines[k]) != []
    ensures FileEntry(PartName(prefix, k + 1, suffix), Strip(lines[k]), kind) in LineEntries(prefix, suffix, kind, lines)
  {
    NumberedComplete(lines, Strip, 0, k);
    var ps := Parts(lines);
    var j :| 0 <= j < |ps| && ps[j] == (k + 1, Strip(lines[k]));
    assert LineEntries(prefix, suffix, kind, lines)[j] == FileEntry(PartName(prefix, k + 1, suffix), Strip(lines[k]), kind);
  }

  /** Each entry is a non-blank line, stripped, named after its line
      number. */
  lemma EntryIsLine(prefix: string, suffix: string, kind: string, lines: seq<string>, j: nat)
    requires j < |LineEntries(prefix, suffix, kind, lines)|
    ensures exists k :: 0 <= k < |lines| && Strip(lines[k]) != [] &&
              LineEntries(prefix, suffix, kind, lines)[j] == FileEntry(PartName(prefix, k + 1, suffix), Strip(lines[k]), kind)
  {
    var p := Parts(lines)[j];
    assert p.1 == Strip(lines[p.0 - 1]) && p.1 != [];
    assert LineEntries(prefix, suffix, kind, lines)[j] == FileEntry(PartName(prefix, p.0, suffix), p.1, kind);
  }

  /** Different numbers give different part names. */
  lemma PartNameInjective(prefix: string, m: nat, n: nat, suffix: string)
    requires PartName(prefix, m, suffix) == PartName(prefix, n, suffix)
    ensures m == n
  {
    var x := prefix + "-part";
    var s := PartName(prefix, m, suffix);
    var a := NatToString(m);
    var b := NatToString(n);
    assert s == x + a + suffix;
    assert s == x + b + suffix;
    assert |a| == |b|;
    assert a == s[|x|..|x| + |a|];
    assert b == s[|x|..|x| + |b|];
  }

  /** No two entries of one upload share a name. */
  lemma EntryNamesDistinct(prefix: string, suffix: string, kind: string, lines: seq<string>, a: nat, b: nat)
    requires a < b < |LineEntries(prefix, suffix, kind, lines)|
    ensures LineEntries(prefix, suffix, kind, lines)[a].name != LineEntries(prefix, suffix, kind, lines)[b].name
  {
    NumberedOrdered(lines, Strip, 0);
    var ps := Parts(lines);
    assert ps[a].0 < ps[b].0;
    if LineEntries(prefix, suffix, kind, lines)[a].name == LineEntries(prefix, suffix, kind, lines)[b].name {
      PartNameInjective(prefix, ps[a].0, ps[b].0, suffix);
    }
  }

  /** A file name that is a dot and a word has no extension. */
  lemma DotFileHasNoExtension(word: string)
    requires '.' !in word && '/' !in word
    ensures SplitExt("." + word) == ("." + word, [])
  {
    var p := "." + word;
    assert p[1..] == word;
    LastIndexOfIs(p, '.', 0);
    assert '/' !in p;
  }

  /** "cookies.TXT" is accepted as a text upload. */
  lemma UpperCaseExtension()
    ensures Extension("cookies.TXT") == ".txt"
  {
    SplitExtOf("cookies", "TXT", 0);
    assert "cookies" + "." + "TXT" == "cookies.TXT";
    assert Lower(".TXT") == ".txt";
  }

  /** A zip member with a cookie-file name has type "txt" or "json", in some letter case. */
  lemma KeptMemberKind(path: string)
    requires CookieMember(path)
    ensures Lower(MemberKind(path)) == "txt" || Lower(MemberKind(path)) == "json"
  {
    if EndsWith(Lower(path), ".txt") {
      TxtKind(path);
    } else {
      JsonKind(path);
    }
  }

  lemma TxtKind(path: string)
    requires EndsWith(Lower(path), ".txt")
    ensures Lower(MemberKind(path)) == "txt"
  {
    var t := "txt";
    assert forall i :: 0 <= i < |t| ==> 'a' <= t[i] <= 'z';
    assert "." + t == ".txt";
    SuffixKind(path, t);
  }

  lemma JsonKind(path: string)
    requires EndsWith(Lower(path), ".json")
    ensures Lower(MemberKind(path)) == "json"
  {
    var t := "json";
    assert forall i :: 0 <= i < |t| ==> 'a' <= t[i] <= 'z';
    assert "." + t == ".json";
    SuffixKind(path, t);
  }

  /** When the lower-cased path ends in "." and a lower-case word, its type
      is that word in the path's own case. */
  lemma SuffixKind(path: string, w: string)
    requires forall i :: 0 <= i < |w| ==> 'a' <= w[i] <= 'z'
    requires EndsWith(Lower(path), "." + w)
    ensures Lower(MemberKind(path)) == w
  {
    var d := |path| - |w| - 1;
    DotBefore(path, w);
    NoDotAfter(path, w);
    KindIsTail(path, d);
    TailOfSuffix(Lower(path), w);
  }

  /** The lower-cased type is the lower-cased text after the last '.'. */
  lemma KindIsTail(path: string, d: nat)
    requires d < |path| && path[d] == '.' && forall i :: d < i < |path| ==> path[i] != '.'
    ensures Lower(MemberKind(path)) == Lower(path)[d + 1..]
  {
    KindAt(path, d);
    LowerTail(path, d + 1);
  }

  /** The type is what follows the last '.'. */
  lemma KindAt(path: string, d: nat)
    requires d < |path| && path[d] == '.' && forall i :: d < i < |path| ==> path[i] != '.'
    ensures MemberKind(path) == path[d + 1..]
  {
    var tail := path[d + 1..];
    assert forall j :: 0 <= j < |tail| ==> tail[j] == path[d + 1 + j];
    LastIndexOfIs(path, '.', d);
  }

  /** A text ending in "." and a word ends in the word. */
  lemma TailOfSuffix(s: string, w: string)
    requires EndsWith(s, "." + w)
    ensures s[|s| - |w|..] == w
  {
    assert s[|s| - |w|..] == s[|s| - |"." + w|..][1..];
  }

  /** The character before the word is a '.'. */
  lemma DotBefore(path: string, w: string)
    requires EndsWith(Lower(path), "." + w)
    ensures |w| < |path| && path[|path| - |w| - 1] == '.'
  {
    var t := "." + w;
    LowerDot(path, Lower(path), t, |path| - |t|);
  }

  /** No character of the word's span is a '.'. */
  lemma NoDotAfter(path: string, w: string)
    requires forall i :: 0 <= i < |w| ==> 'a' <= w[i] <= 'z'
    requires EndsWith(Lower(path), "." + w)
    ensures forall i :: |path| - |w| <= i < |path| ==> path[i] != '.'
  {
    NoDotAfterChars(path, Lower(path), "." + w);
  }

  /** The same, for any text `lp` that lower-cases `path` position by
      position. */
  lemma NoDotAfterChars(path: string, lp: string, t: string)
    requires |lp| == |path| && forall i :: 0 <= i < |path| ==> lp[i] == LowerChar(path[i])
    requires |t| >= 1 && forall j :: 1 <= j < |t| ==> 'a' <= t[j] <= 'z'
    requires EndsWith(lp, t)
    ensures forall i :: |path| - |t| + 1 <= i < |path| ==> path[i] != '.'
  {
    forall i | |path| - |t| + 1 <= i < |path| ensures path[i] != '.' {
      LowerDot(path, lp, t, i);
    }
  }

  /** Where the lower-cased text ends in `t`, a position of the original is
      a '.' exactly when `t` has a '.' there. */
  lemma LowerDot(path: string, lp: string, t: string, i: nat)
    requires |lp| == |path| && |t| <= |lp| && lp[|lp| - |t|..] == t
    requires |lp| - |t| <= i < |lp| && lp[i] == LowerChar(path[i])
    ensures path[i] == '.' <==> t[i - (|lp| - |t|)] == '.'
  {
    assert lp[i] == lp[|lp| - |t|..][i - (|lp| - |t|)];
    LowerCharDot(path[i]);
  }

  /** Only '.' lower-cases to '.'. */
  lemma LowerCharDot(c: char)
    ensures LowerChar(c) == '.' <==> c == '.'
  {
  }

  /** Lower-casing commutes with taking a tail. */
  lemma LowerTail(s: string, j: nat)
    requires j <= |s|
    ensures Lower(s[j..]) == Lower(s)[j..]
  {
  }
}
