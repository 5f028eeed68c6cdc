/** How an upload becomes the cookie files that are checked: the file-name
    helpers of `os.path`, bot7.py's per-line splitting of a text upload or
    pasted message, and the zip-member filter shared by bot.py and
    bot7.py. Downloading and unzipping are outside the model: a zip archive
    is given as its list of (path, text) members. */
module Upload {
  import opened Wrappers
  import opened Text

  /** `TELEGRAM_MAX_LINES`: the most lines bot7.py splits. */
  const MaxLines := 4096

  /** Index of the last occurrence of `c` in `s`. */
  function LastIndexOf(s: string, c: char): (r: Option<nat>)
    ensures r.None? <==> c !in s
    ensures r.Some? ==> r.value < |s| && s[r.value] == c && c !in s[r.value + 1..]
  {
    if s == [] then None
    else if s[|s| - 1] == c then Some(|s| - 1)
    else
      var r := LastIndexOf(s[..|s| - 1], c);
      assert s == s[..|s| - 1] + [s[|s| - 1]];
      if r.Some? then
        assert s[r.value + 1..] == s[..|s| - 1][r.value + 1..] + [s[|s| - 1]];
        r
      else r
  }

  /** `LastIndexOf` finds the occurrence that has no other after it. */
  lemma LastIndexOfIs(s: string, c: char, k: nat)
    requires k < |s| && s[k] == c && c !in s[k + 1..]
    ensures LastIndexOf(s, c) == Some(k)
  {
  }

  /** `os.path.basename`: what follows the last '/'. */
  function BaseName(p: string): (r: string)
    ensures '/' !in r && EndsWith(p, r)
    ensures '/' in p ==> '/' == p[|p| - |r| - 1]
  {
    match LastIndexOf(p, '/')
    case None => p
    case Some(i) => p[i + 1..]
  }

  /** `os.path.splitext` on POSIX paths: the extension starts at the last
      '.' of the base name, unless every character before it in the base
      name is a '.' too (".bashrc" has no extension). */
  function SplitExt(p: string): (r: (string, string))
    ensures r.0 + r.1 == p
    ensures r.1 != [] ==> r.1[0] == '.' && '.' !in r.1[1..] && '/' !in r.1
  {
    var sep: int := match LastIndexOf(p, '/') case None => -1 case Some(i) => i;
    match LastIndexOf(p, '.')
    case None => (p, [])
    case Some(d) =>
      if sep < d && exists k :: sep + 1 <= k < d && p[k] != '.' then
        assert '/' !in p[d..] by {
          if sep >= 0 {
            assert forall j :: d <= j < |p| ==> p[j] == p[sep + 1..][j - sep - 1];
          }
        }
        (p[..d], p[d..])
      else (p, [])
  }

  /** A root whose base name has something other than dots, followed by a
      '.' and a word without '.' or '/', splits back into those two. */
  lemma SplitExtOf(root: string, word: string, k: nat)
    requires '.' !in word && '/' !in word
    requires k < |root| && root[k] != '.' && root[k] != '/' && '/' !in root[k..]
    ensures SplitExt(root + "." + word) == (root, "." + word)
  {
    var p := root + "." + word;
    var d := |root|;
    assert p[d + 1..] == word;
    LastIndexOfIs(p, '.', d);
    assert p[k] == root[k];
    assert p[..d] == root && p[d..] == "." + word;
  }

  /** `ext.lower()`: the lower-cased extension of a file name. */
  function Extension(filename: string): string {
    Lower(SplitExt(filename).1)
  }

  // ---------------------------------------------------------------------
  // Entries

  /** A cookie file to check: its name, its text and its type hint. */
  datatype FileEntry = FileEntry(name: string, content: string, kind: string)

  /** What an upload leads to: a refusal, or the files scheduled for
      checking. */
  datatype Upload = TooManyLines(count: nat) | Unsupported | NoCookieFiles | Scheduled(files: seq<FileEntry>)

  /** `s.lstrip('.')`. */
  function LStripDots(s: string): (r: string)
    ensures |r| <= |s| && r == s[|s| - |r|..]
    ensures r == [] || r[0] != '.'
  {
    if s != [] && s[0] == '.' then
      var r := LStripDots(s[1..]);
      assert s[1..][|s| - 1 - |r|..] == s[|s| - |r|..];
      r
    else s
  }

  /** `f"{prefix}-part{n}{suffix}"`. */
  function PartName(prefix: string, n: nat, suffix: string): string {
    prefix + "-part" + NatToString(n) + suffix
  }

  /** The non-empty images under `f` of the elements from index `i` on,
      each with its 1-based position; elements with an empty image keep
      their number. */
  function NumberedFrom(xs: seq<string>, f: string -> string, i: nat): (r: seq<(nat, string)>)
    requires i <= |xs|
    ensures |r| <= |xs| - i
    ensures forall j :: 0 <= j < |r| ==> i < r[j].0 <= |xs| && r[j].1 == f(xs[r[j].0 - 1]) && r[j].1 != []
    decreases |xs| - i
  {
    if i == |xs| then []
    else
      var rest := NumberedFrom(xs, f, i + 1);
      var e := f(xs[i]);
      if e == [] then rest else [(i + 1, e)] + rest
  }

  /** The numbers rise strictly. */
  lemma {:induction false} NumberedOrdered(xs: seq<string>, f: string -> string, i: nat)
    requires i <= |xs|
    ensures forall a, b :: 0 <= a < b < |NumberedFrom(xs, f, i)| ==>
              NumberedFrom(xs, f, i)[a].0 < NumberedFrom(xs, f, i)[b].0
    decreases |xs| - i
  {
    if i < |xs| {
      NumberedOrdered(xs, f, i + 1);
    }
  }

  /** Every element with a non-empty image is numbered. */
  lemma {:induction false} NumberedComplete(xs: seq<string>, f: string -> string, i: nat, k: nat)
    requires i <= k < |xs| && f(xs[k]) != []
    ensures (k + 1, f(xs[k])) in NumberedFrom(xs, f, i)
    decreases |xs| - i
  {
    if i < k {
      NumberedComplete(xs, f, i + 1, k);
    }
  }

  /** The non-blank lines, stripped, each with its 1-based line number. */
  function Parts(lines: seq<string>): seq<(nat, string)> {
    NumberedFrom(lines, Strip, 0)
  }

  /** One entry per non-blank line, named after its line number. */
  function LineEntries(prefix: string, suffix: string, kind: string, lines: seq<string>): (r: seq<FileEntry>)
    ensures |r| == |Parts(lines)|
    ensures forall j :: 0 <= j < |r| ==>
              r[j] == FileEntry(PartName(prefix, Parts(lines)[j].0, suffix), Parts(lines)[j].1, kind)
  {
    var ps := Parts(lines);
    seq(|ps|, j requires 0 <= j < |ps| => FileEntry(PartName(prefix, ps[j].0, suffix), ps[j].1, kind))
  }

  /** bot7.py's treatment of a text: refused when it has more than
      `MaxLines` lines, split into its non-blank lines otherwise. */
  function SplitText(prefix: string, suffix: string, kind: string, raw: string): (r: Upload)
    ensures r.TooManyLines? <==> |SplitLines(raw)| > MaxLines
    ensures r.TooManyLines? ==> r.count == |SplitLines(raw)|
    ensures r.Scheduled? ==> r.files == LineEntries(prefix, suffix, kind, SplitLines(raw))
  {
    var lines := SplitLines(raw);
    if |lines| > MaxLines then TooManyLines(|lines|) else Scheduled(LineEntries(prefix, suffix, kind, lines))
  }

  // ---------------------------------------------------------------------
  // Zip members

  /** Members macOS adds to archives: under `__MACOSX/`, or with a base
      name starting with "._". */
  predicate SkippedMember(path: string) {
    StartsWith(path, "__MACOSX/") || StartsWith(BaseName(path), "._")
  }

  /** Members whose name ends in ".txt" or ".json", in any case. */
  predicate CookieMember(path: string) {
    EndsWith(Lower(path), ".txt") || EndsWith(Lower(path), ".json")
  }

  /** `path.split('.')[-1]`: what follows the last '.'. */
  function MemberKind(path: string): (r: string)
    ensures '.' !in r && EndsWith(path, r)
  {
    match LastIndexOf(path, '.')
    case None => path
    case Some(i) => path[i + 1..]
  }

  /** The entry of a member. */
  function MemberEntry(m: (string, string)): FileEntry {
    FileEntry(m.0, m.1, MemberKind(m.0))
  }

  /** The filter of `handle_document`. */
  predicate KeptPath(path: string) {
    !SkippedMember(path) && CookieMember(path)
  }

  predicate KeptMember(m: (string, string)) {
    KeptPath(m.0)
  }

  /** The elements from index `i` on that `keep` accepts, in order. */
  function FilterFrom<T>(xs: seq<T>, keep: T -> bool, i: nat): (r: seq<T>)
    requires i <= |xs|
    ensures |r| <= |xs| - i
    ensures forall x :: x in r ==> keep(x) && x in xs[i..]
    ensures forall k :: i <= k < |xs| && keep(xs[k]) ==> xs[k] in r
    decreases |xs| - i
  {
    if i == |xs| then []
    else
      var rest := FilterFrom(xs, keep, i + 1);
      assert xs[i..] == [xs[i]] + xs[i + 1..];
      if keep(xs[i]) then [xs[i]] + rest else rest
  }

  /** The images under `f` of the elements `keep` accepts, in order. */
  function MapFilter<T, U>(xs: seq<T>, keep: T -> bool, f: T -> U): (r: seq<U>)
    ensures forall y :: y in r ==> exists x :: x in xs && keep(x) && y == f(x)
    ensures forall x :: x in xs && keep(x) ==> f(x) in r
  {
    var kept := FilterFrom(xs, keep, 0);
    assert xs[0..] == xs;
    var r := seq(|kept|, j requires 0 <= j < |kept| => f(kept[j]));
    assert forall x :: x in xs && keep(x) ==> f(x) in r by {
      forall x | x in xs && keep(x) ensures f(x) in r {
        var j :| 0 <= j < |kept| && kept[j] == x;
        assert r[j] == f(x);
      }
    }
    assert forall y :: y in r ==> exists x :: x in xs && keep(x) && y == f(x) by {
      forall y | y in r ensures exists x :: x in xs && keep(x) && y == f(x) {
        var j :| 0 <= j < |r| && r[j] == y;
        assert kept[j] in kept;
      }
    }
    r
  }

  /** The kept members, in archive order, each with its type. */
  function ZipEntries(members: seq<(string, string)>): (r: seq<FileEntry>)
    ensures forall e :: e in r ==> exists m :: m in members && KeptPath(m.0) && e == MemberEntry(m)
    ensures forall m :: m in members && KeptPath(m.0) ==> MemberEntry(m) in r
  {
    MapFilter(members, KeptMember, MemberEntry)
  }

  /** Files to schedule, or the "no cookie files" reply when there are
      none. */
  function Schedule(files: seq<FileEntry>): (r: Upload)
    ensures r.NoCookieFiles? <==> files == []
    ensures r.Scheduled? ==> r.files == files
  {
    if files == [] then NoCookieFiles else Scheduled(files)
  }

  // ---------------------------------------------------------------------
  // Handlers

  /** bot7.py's `handle_document`: a ".txt"/".json" document is split into
      its lines, a ".zip" archive into its cookie members, anything else
      is refused. */
  function DocumentSplit(filename: string, raw: string, members: seq<(string, string)>): (r: Upload)
    ensures r.Unsupported? <==> Extension(filename) !in {".txt", ".json", ".zip"}
    ensures r.TooManyLines? <==> Extension(filename) in {".txt", ".json"} && |SplitLines(raw)| > MaxLines
    ensures r.Scheduled? && Extension(filename) in {".txt", ".json"} ==>
              r.files == LineEntries(filename, Extension(filename), LStripDots(Extension(filename)), SplitLines(raw))
    ensures Extension(filename) == ".zip" ==> r == Schedule(ZipEntries(members))
  {
    var ext := Extension(filename);
    if ext == ".txt" || ext == ".json" then
      match SplitText(filename, ext, LStripDots(ext), raw)
      case Scheduled(files) => Schedule(files)
      case other => other
    else if ext == ".zip" then Schedule(ZipEntries(members))
    else Unsupported
  }

  /** bot7.py's `handle_text`: a pasted message split into its lines, named
      "paste-part<n>.txt". An empty result schedules nothing and sends no
      reply. */
  function PasteSplit(raw: string): (r: Upload)
    ensures r.TooManyLines? || r.Scheduled?
    ensures r.TooManyLines? <==> |SplitLines(raw)| > MaxLines
    ensures r.Scheduled? ==> r.files == LineEntries("paste", ".txt", "txt", SplitLines(raw))
  {
    SplitText("paste", ".txt", "txt", raw)
  }

  /** bot.py's `handle_document`: a ".txt"/".json" document is one whole
      file, a ".zip" archive its cookie members. */
  function DocumentWhole(filename: string, raw: string, members: seq<(string, string)>): (r: Upload)
    ensures r.Unsupported? <==> Extension(filename) !in {".txt", ".json", ".zip"}
    ensures !r.TooManyLines?
    ensures Extension(filename) in {".txt", ".json"} ==>
              r == Scheduled([FileEntry(filename, raw, LStripDots(Extension(filename)))])
  {
    var ext := Extension(filename);
    if ext == ".txt" || ext == ".json" then Scheduled([FileEntry(filename, raw, LStripDots(ext))])
    else if ext == ".zip" then Schedule(ZipEntries(members))
    else Unsupported
  }
}
