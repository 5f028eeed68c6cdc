/** Properties of the `parse_cookies` chains: what each accepts, in which
    order the strategies win, and the round trips from the formats a
    browser export writes. */
module CookieLaws {
  import opened Wrappers
  import opened Text
  import opened Json
  import opened CookieParse

  // ---------------------------------------------------------------------
  // Reference: the dict of a list of pairs

  /** A pair read as a row that is exactly that pair. */
  function AsRow(p: Pair): Option<Pair> {
    Some(p)
  }

  /** `dict(pairs)`: each name maps to the value of its last pair. */
  function PairsMap(ps: seq<Pair>): CookieMap {
    Gather(ps, AsRow)
  }

  /** `PairsMap` holds exactly the names of the pairs, each with the value of
      its last occurrence. */
  lemma PairsMapContents(ps: seq<Pair>)
    ensures forall k :: k in PairsMap(ps) <==> exists i :: 0 <= i < |ps| && ps[i].0 == k
    ensures forall i :: 0 <= i < |ps| && (forall j :: i < j < |ps| ==> ps[j].0 != ps[i].0) ==>
                        PairsMap(ps)[ps[i].0] == ps[i].1
  {
    forall i | 0 <= i < |ps| ensures Yields(ps, AsRow, i, ps[i].0) {
    }
    forall i | 0 <= i < |ps| && (forall j :: i < j < |ps| ==> ps[j].0 != ps[i].0)
      ensures PairsMap(ps)[ps[i].0] == ps[i].1
    {
      assert LastYield(ps, AsRow, i, ps[i].0);
    }
  }

  /** Two loops whose rows produce the same pairs, position by position,
      build the same dict. */
  lemma {:induction false} GatherSame<S, T>(xs: seq<S>, f: S -> Option<Pair>, ys: seq<T>, g: T -> Option<Pair>)
    requires |xs| == |ys|
    requires forall i :: 0 <= i < |xs| ==> f(xs[i]) == g(ys[i])
    ensures Gather(xs, f) == Gather(ys, g)
    decreases |xs|
  {
    if xs != [] {
      GatherSame(xs[..|xs| - 1], f, ys[..|ys| - 1], g);
    }
  }

  /** A loop none of whose rows produces a pair builds the empty dict. */
  lemma GatherNothing<T>(xs: seq<T>, f: T -> Option<Pair>)
    requires forall i :: 0 <= i < |xs| ==> f(xs[i]).None?
    ensures Gather(xs, f) == map[]
  {
    var m := Gather(xs, f);
    forall k ensures k !in m {
      assert forall i :: !Yields(xs, f, i, k);
    }
    assert m.Keys == {};
  }

  // ---------------------------------------------------------------------
  // Blank uploads

  /** The pieces of a blank text are blank. */
  lemma SplitOnBlank(s: string, c: char)
    requires AllSpace(s)
    ensures forall i :: 0 <= i < |SplitOn(s, c)| ==> AllSpace(SplitOn(s, c)[i])
  {
    var ps := SplitOn(s, c);
    forall i, j | 0 <= i < |ps| && 0 <= j < |ps[i]| ensures IsSpace(ps[i][j]) {
      JoinHasPieceChars(ps, c, i, ps[i][j]);
    }
  }

  /** No session-cookie assignment occurs in a blank text. */
  lemma BlankHasNoAssignment(text: string, key: string)
    requires AllSpace(text) && key != []
    ensures forall i :: !AssignmentAt(text, key, i)
  {
    forall i | 0 <= i && i + |key| < |text| ensures text[i..i + |key|][0] == text[i] {
    }
  }

  /** bot.py and bot2.py guard the `;` strategy with `text.strip()`; on a
      blank text it would find nothing anyway, so the guard changes no
      result. */
  lemma BlankGuardRedundant(text: string)
    requires AllSpace(text)
    ensures SemicolonPairs(text) == map[]
  {
    var parts := SplitOn(text, ';');
    SplitOnBlank(text, ';');
    forall i | 0 <= i < |parts| ensures SemicolonRow(parts[i]).None? {
      assert Strip(parts[i]) == [];
    }
    GatherNothing(parts, SemicolonRow);
  }

  /** No Netscape reader finds a row in a blank text. */
  lemma BlankHasNoRows(text: string)
    requires AllSpace(text)
    ensures Gather(SplitLines(text), NetscapeRowLoose) == map[]
    ensures Gather(SplitLines(text), NetscapeRowTab) == map[]
    ensures Gather(SplitLines(text), ServiceNetscapeRow) == map[]
  {
    var lines := SplitLines(text);
    SplitLinesBlank(text);
    forall i | 0 <= i < |lines|
      ensures NetscapeRowLoose(lines[i]).None? && NetscapeRowTab(lines[i]).None?
      ensures ServiceNetscapeRow(lines[i]).None?
    {
      assert Strip(lines[i]) == [];
    }
    GatherNothing(lines, NetscapeRowLoose);
    GatherNothing(lines, NetscapeRowTab);
    GatherNothing(lines, ServiceNetscapeRow);
  }

  /** A blank upload gives an empty dict in every chain, unless the JSON
      library decodes it to a list (`json.loads` raises on blank text). */
  lemma BlankUpload(text: string, hint: string, dec: Decoder)
    requires AllSpace(text)
    requires !(dec(text).Some? && dec(text).value.JArray?)
    ensures ParseFive(DirectScan, text, hint, dec) == Cookies(map[])
    ensures ParseFive(SessionScan, text, hint, dec) == Cookies(map[])
    ensures ParseThree(text, hint, dec) == Cookies(map[])
    ensures ParseService(text, dec) == map[]
  {
    BlankHasNoAssignment(text, SecureTag);
    BlankHasNoRows(text);
    BlankGuardRedundant(text);
    assert '|' !in text;
    var fallback := SplitOn(Replace(text, '\n', ';'), ';');
    forall i | 0 <= i < |fallback| ensures ServicePairRow(fallback[i]).None? {
      assert '=' !in Replace(text, '\n', ';');
      if '=' in fallback[i] {
        JoinHasPieceChars(fallback, ';', i, '=');
      }
    }
    GatherNothing(fallback, ServicePairRow);
  }

  // ---------------------------------------------------------------------
  // Strategy 1 on a header that lists SecureNetflixId first

  /** A cookie value of the regex class `[^\s;]+`. */
  ghost predicate ValueText(v: string) {
    v != [] && forall i :: 0 <= i < |v| ==> IsValueChar(v[i])
  }

  /** The greedy capture stops exactly where the value characters do. */
  lemma {:induction false} ValueRunIs(v: string, rest: string)
    requires forall i :: 0 <= i < |v| ==> IsValueChar(v[i])
    requires rest == [] || !IsValueChar(rest[0])
    ensures ValueRun(v + rest) == v
  {
    if v != [] {
      assert (v + rest)[1..] == v[1..] + rest;
      ValueRunIs(v[1..], rest);
    }
  }

  /** `SecureNetflixId=v; NetflixId=w`, a header in the order some browser
      extensions export it. */
  function SecureFirstHeader(v: string, w: string): string {
    SecureTag + v + "; " + PlainTag + w
  }

  /** Where the pieces of the header lie. */
  lemma HeaderLayout(v: string, w: string)
    ensures var s := SecureFirstHeader(v, w);
            && |s| == 28 + |v| + |w|
            && s[..16] == SecureTag && s[16..16 + |v|] == v && s[16 + |v|..18 + |v|] == "; "
            && s[18 + |v|..28 + |v|] == PlainTag && s[28 + |v|..] == w
            && s[16..] == v + ("; " + PlainTag + w)
  {
  }

  /** No `NetflixId=` match starts inside the word `Secure`. */
  lemma NoPlainInSecure(s: string)
    requires |s| >= 16 && s[..16] == SecureTag
    ensures forall j :: 0 <= j < 6 ==> !AssignmentAt(s, PlainTag, j)
  {
    forall j | 0 <= j < 6 ensures !AssignmentAt(s, PlainTag, j) {
      assert s[j] == s[..16][j] == SecureTag[j];
      assert s[j..j + 10][0] == s[j];
    }
  }

  /** Between the secure value and the standalone assignment there is no `=`
      that could end a `NetflixId=` match. */
  lemma NoPlainInMiddle(v: string, w: string, j: int)
    requires '=' !in v && 7 <= j < 18 + |v|
    ensures !AssignmentAt(SecureFirstHeader(v, w), PlainTag, j)
  {
    var s := SecureFirstHeader(v, w);
    HeaderLayout(v, w);
    if j + 10 < |s| {
      assert s[j..j + 10][9] == s[j + 9];
      if j + 9 < 16 + |v| {
        assert s[j + 9] == s[16..16 + |v|][j - 7];
      } else if j + 9 < 18 + |v| {
        assert s[j + 9] == s[16 + |v|..18 + |v|][j - 7 - |v|];
      } else {
        assert s[j + 9] == s[18 + |v|..28 + |v|][j - 9 - |v|];
      }
    }
  }

  /** On that header both searches of strategy 1 report the secure value:
      the leftmost `SecureNetflixId=` match is at 0. */
  lemma SecureFirstSecureValue(v: string, w: string)
    requires ValueText(v) && ValueText(w)
    ensures FindAssignment(SecureFirstHeader(v, w), SecureTag) == Some(v)
  {
    var s := SecureFirstHeader(v, w);
    HeaderLayout(v, w);
    assert s[16] == s[16..16 + |v|][0];
    assert AssignmentAt(s, SecureTag, 0);
    var r := FindAssignment(s, SecureTag);
    var i :| FirstAssignment(s, SecureTag, i) && r.value == ValueRun(s[i + 16..]);
    assert i == 0;
    ValueRunIs(v, "; " + PlainTag + w);
  }

  /** The strategy 1 of bot7.py and bot6.py as written reads the value of
      `SecureNetflixId` as `NetflixId` too, because `NetflixId=` first
      matches inside `SecureNetflixId=`. */
  lemma AsWrittenMisreadsNetflixId(v: string, w: string)
    requires ValueText(v) && ValueText(w)
    ensures DirectScan(SecureFirstHeader(v, w)) == Some(map[NetflixId := v, SecureNetflixId := v])
  {
    var s := SecureFirstHeader(v, w);
    SecureFirstSecureValue(v, w);
    HeaderLayout(v, w);
    assert s[16] == s[16..16 + |v|][0];
    assert AssignmentAt(s, SecureTag, 0);
    SecureContainsPlain(s, 0);
    NoPlainInSecure(s);
    var r := FindAssignment(s, PlainTag);
    var i :| FirstAssignment(s, PlainTag, i) && r.value == ValueRun(s[i + 10..]);
    assert i == 6;
    ValueRunIs(v, "; " + PlainTag + w);
  }

  /** The first standalone `NetflixId=` of the header is the second
      assignment. */
  lemma StandaloneIsSecond(v: string, w: string)
    requires ValueText(v) && ValueText(w) && '=' !in v
    ensures StandaloneAt(SecureFirstHeader(v, w), PlainTag, 18 + |v|)
    ensures forall j :: 0 <= j < 18 + |v| ==> !StandaloneAt(SecureFirstHeader(v, w), PlainTag, j)
  {
    var s := SecureFirstHeader(v, w);
    HeaderLayout(v, w);
    var p := 18 + |v|;
    assert s[p + 10] == s[p + 10..][0] && s[p - 1] == s[16 + |v|..p][1];
    NoPlainInSecure(s);
    assert s[5] == s[..16][5];
    forall j | 0 <= j < p ensures !StandaloneAt(s, PlainTag, j) {
      if 7 <= j {
        NoPlainInMiddle(v, w, j);
      }
    }
  }

  /** The corrected strategy 1 reads each cookie from its own assignment
      (for a secure value without `=`, so that no `NetflixId=` hides in it). */
  lemma CorrectedReadsNetflixId(v: string, w: string)
    requires ValueText(v) && ValueText(w) && '=' !in v
    ensures SessionScan(SecureFirstHeader(v, w)) == Some(map[NetflixId := w, SecureNetflixId := v])
  {
    SecureFirstSecureValue(v, w);
    StandaloneValue(v, w);
  }

  /** The standalone search on that header reports w. */
  lemma StandaloneValue(v: string, w: string)
    requires ValueText(v) && ValueText(w) && '=' !in v
    ensures FindStandaloneFrom(SecureFirstHeader(v, w), PlainTag, 0) == Some(w)
  {
    var s := SecureFirstHeader(v, w);
    StandaloneIsSecond(v, w);
    var r := FindStandaloneFrom(s, PlainTag, 0);
    var i :| 0 <= i && StandaloneAt(s, PlainTag, i) && (forall j :: 0 <= j < i ==> !StandaloneAt(s, PlainTag, j))
             && r.value == ValueRun(s[i + 10..]);
    assert i == 18 + |v|;
    HeaderTail(v, w);
    ValueRunIs(w, []);
    assert w + [] == w;
  }

  /** The header ends with w. */
  lemma HeaderTail(v: string, w: string)
    ensures SecureFirstHeader(v, w)[28 + |v|..] == w
  {
    HeaderLayout(v, w);
  }

  // ---------------------------------------------------------------------
  // Round trip: a JSON export

  /** The object a browser extension exports for one cookie. */
  function CookieObject(p: Pair): Json {
    JObject(map["name" := JString(p.0), "value" := JString(p.1)])
  }

  /** The exported list of cookie objects. */
  function CookieArray(ps: seq<Pair>): Json {
    JArray(seq(|ps|, i requires 0 <= i < |ps| => CookieObject(ps[i])))
  }

  /** Decoding an exported list gives the cookies back in every chain, the
      last of two cookies with one name winning; in bot7.py and bot6.py,
      whichever strategy 1 they run, once that strategy is silent. */
  lemma JsonRoundTrip(ps: seq<Pair>, text: string, hint: string, dec: Decoder, scan: string -> Option<CookieMap>)
    requires dec(text) == Some(CookieArray(ps))
    requires JsonGate(text, hint)
    ensures scan(text).None? ==> ParseFive(scan, text, hint, dec) == Cookies(PairsMap(ps))
    ensures ParseThree(text, hint, dec) == Cookies(PairsMap(ps))
    ensures ParseService(text, dec) == PairsMap(ps)
  {
    var items := CookieArray(ps).items;
    forall i | 0 <= i < |items|
      ensures JsonCookieRow(items[i]) == AsRow(ps[i])
      ensures !RaisesInDictBuild(items[i]) && !RaisesInServiceBuild(items[i])
    {
      assert items[i] == CookieObject(ps[i]);
    }
    GatherSame(items, JsonCookieRow, ps, AsRow);
  }

  // ---------------------------------------------------------------------
  // Round trip: a Netscape cookie file

  /** The seven fields of a Netscape row: domain, subdomain flag, path,
      secure flag, expiry, name and value. */
  function ExportFields(domain: string, p: Pair): seq<string> {
    [domain, "TRUE", "/", "FALSE", "0", p.0, p.1]
  }

  /** One row of a Netscape cookie file. */
  function TabRow(domain: string, p: Pair): string {
    Join(ExportFields(domain, p), '\t')
  }

  /** A cookie file: one row per cookie. */
  function NetscapeExport(domain: string, ps: seq<Pair>): string {
    Join(seq(|ps|, i requires 0 <= i < |ps| => TabRow(domain, ps[i])), '\n')
  }

  /** A field that holds neither a tab nor a line break. */
  ghost predicate FieldText(s: string) {
    forall i :: 0 <= i < |s| ==> s[i] != '\t' && !IsLineBreak(s[i])
  }

  /** A domain that starts the row with a visible, non-comment character. */
  ghost predicate ExportDomain(d: string) {
    d != [] && !IsSpace(d[0]) && d[0] != '#' && FieldText(d)
  }

  /** A cookie whose value ends the row with a visible character. */
  ghost predicate ExportPair(p: Pair) {
    FieldText(p.0) && FieldText(p.1) && p.1 != [] && !IsSpace(p.1[|p.1| - 1])
  }

  /** A row starts with its domain, ends with its value, has no line break,
      and its tab fields are the seven fields. */
  lemma TabRowShape(d: string, p: Pair)
    requires ExportDomain(d) && ExportPair(p)
    ensures var row := TabRow(d, p);
            && row != [] && row[0] == d[0] && !IsSpace(row[|row| - 1]) && NoBreak(row)
            && SplitOn(row, '\t') == ExportFields(d, p)
  {
    var fs := ExportFields(d, p);
    var row := Join(fs, '\t');
    JoinPrefix(fs, '\t');
    JoinSuffix(fs, '\t');
    assert row[0] == row[..|d|][0];
    assert row[|row| - 1] == row[|row| - |p.1|..][|p.1| - 1];
    forall i | 0 <= i < |fs| ensures FieldText(fs[i]) {
    }
    forall k | 0 <= k < |row| ensures !IsLineBreak(row[k]) {
      JoinChars(fs, '\t', row[k]);
    }
    SplitOnJoin(fs, '\t');
  }

  /** A row whose first character is not `#` is neither a comment nor an
      HttpOnly row. */
  lemma NotComment(line: string)
    requires line != [] && line[0] != '#'
    ensures !StartsWith(line, "#") && !StartsWith(line, HttpOnlyPrefix)
  {
    assert line[..1][0] == line[0];
    assert HttpOnlyPrefix[0] == '#';
    if |line| >= 10 {
      assert line[..10][0] == line[0];
    }
  }

  /** A trimmed, non-comment row with seven or more tab fields is read
      from its sixth and seventh fields by every reader. */
  lemma TrimmedRowRead(line: string, b: bool)
    requires Strip(line) == line && line != [] && line[0] != '#'
    requires |SplitOn(line, '\t')| >= 7
    ensures NetscapeRow(line, b) == Some((SplitOn(line, '\t')[5], SplitOn(line, '\t')[6]))
    ensures ServiceNetscapeRow(line) == Some((SplitOn(line, '\t')[5], SplitOn(line, '\t')[6]))
  {
    NotComment(line);
  }

  /** Every reader takes name and value back from a row. */
  lemma TabRowRead(d: string, p: Pair)
    requires ExportDomain(d) && ExportPair(p)
    ensures NetscapeRowTab(TabRow(d, p)) == Some(p)
    ensures NetscapeRowLoose(TabRow(d, p)) == Some(p)
    ensures ServiceNetscapeRow(TabRow(d, p)) == Some(p)
  {
    var row := TabRow(d, p);
    TabRowShape(d, p);
    assert Strip(row) == row;
    TrimmedRowRead(row, true);
    TrimmedRowRead(row, false);
  }

  /** The rows of a cookie file, one per cookie. */
  function ExportRows(d: string, ps: seq<Pair>): seq<string> {
    seq(|ps|, i requires 0 <= i < |ps| => TabRow(d, ps[i]))
  }

  /** `splitlines` gives the rows back, and each reader reads them as the
      cookies. */
  lemma ExportRowsRead(d: string, ps: seq<Pair>)
    requires ExportDomain(d) && forall i :: 0 <= i < |ps| ==> ExportPair(ps[i])
    ensures SplitLines(NetscapeExport(d, ps)) == ExportRows(d, ps)
    ensures Gather(ExportRows(d, ps), NetscapeRowTab) == PairsMap(ps)
    ensures Gather(ExportRows(d, ps), NetscapeRowLoose) == PairsMap(ps)
    ensures Gather(ExportRows(d, ps), ServiceNetscapeRow) == PairsMap(ps)
  {
    var rows := ExportRows(d, ps);
    assert NetscapeExport(d, ps) == Join(rows, '\n');
    forall i | 0 <= i < |rows|
      ensures NoBreak(rows[i]) && rows[i] != []
      ensures NetscapeRowTab(rows[i]) == AsRow(ps[i]) && NetscapeRowLoose(rows[i]) == AsRow(ps[i])
      ensures ServiceNetscapeRow(rows[i]) == AsRow(ps[i])
    {
      TabRowShape(d, ps[i]);
      TabRowRead(d, ps[i]);
    }
    SplitLinesJoin(rows);
    GatherSame(rows, NetscapeRowTab, ps, AsRow);
    GatherSame(rows, NetscapeRowLoose, ps, AsRow);
    GatherSame(rows, ServiceNetscapeRow, ps, AsRow);
  }

  /** `NetflixId=` assignments spell out `SecureNetflixId`. */
  lemma AssignmentSpellsName(s: string, i: int)
    requires AssignmentAt(s, SecureTag, i)
    ensures OccursAt(s, SecureNetflixId, i)
  {
    assert s[i..i + 15] == s[i..i + 16][..15];
  }

  /** In bot7.py and bot6.py, as written or corrected, a text without a
      `SecureNetflixId=` assignment and without `|` that is not a JSON list
      skips strategies 1 to 3: the Netscape rows decide, and the `;` pairs
      when there are none. */
  lemma FiveWithoutSession(text: string, hint: string, dec: Decoder)
    requires forall i :: !AssignmentAt(text, SecureTag, i)
    requires '|' !in text
    requires !(dec(text).Some? && dec(text).value.JArray?)
    ensures var rows := Gather(SplitLines(text), NetscapeRowLoose);
            && ParseFive(DirectScan, text, hint, dec) == (if rows != map[] then Cookies(rows) else Cookies(SemicolonPairs(text)))
            && ParseFive(SessionScan, text, hint, dec) == (if rows != map[] then Cookies(rows) else Cookies(SemicolonPairs(text)))
  {
  }

  /** A text that never mentions `SecureNetflixId` has no assignment of it. */
  lemma NoNameNoAssignment(text: string)
    requires !Contains(text, SecureNetflixId)
    ensures forall i :: !AssignmentAt(text, SecureTag, i)
  {
    forall i ensures !AssignmentAt(text, SecureTag, i) {
      if AssignmentAt(text, SecureTag, i) {
        AssignmentSpellsName(text, i);
      }
    }
  }

  /** A text without `=` has no assignment of `SecureNetflixId`. */
  lemma NoEqualsNoAssignment(text: string)
    requires '=' !in text
    ensures forall i :: !AssignmentAt(text, SecureTag, i)
  {
    forall i | 0 <= i && i + 16 < |text| ensures !AssignmentAt(text, SecureTag, i) {
      assert text[i..i + 16][15] == text[i + 15];
      assert text[i + 15] in text;
    }
  }

  /** Every chain reads a cookie file back. In bot7.py and bot6.py, as
      written or corrected, this holds for every file whose fields carry
      neither `=` nor `|`, as a Netflix export does (its session cookies
      included): strategies 1 and 3 then cannot fire. */
  lemma NetscapeRoundTrip(d: string, ps: seq<Pair>, hint: string, dec: Decoder)
    requires ExportDomain(d) && ps != [] && forall i :: 0 <= i < |ps| ==> ExportPair(ps[i])
    requires !(dec(NetscapeExport(d, ps)).Some? && dec(NetscapeExport(d, ps)).value.JArray?)
    ensures ParseThree(NetscapeExport(d, ps), hint, dec) == Cookies(PairsMap(ps))
    ensures ParseService(NetscapeExport(d, ps), dec) == PairsMap(ps)
    ensures PlainExport(d, ps) ==> ParseFive(DirectScan, NetscapeExport(d, ps), hint, dec) == Cookies(PairsMap(ps))
    ensures PlainExport(d, ps) ==> ParseFive(SessionScan, NetscapeExport(d, ps), hint, dec) == Cookies(PairsMap(ps))
  {
    var text := NetscapeExport(d, ps);
    ExportRowsRead(d, ps);
    PairsMapContents(ps);
    assert ps[0].0 in PairsMap(ps);
    if PlainExport(d, ps) {
      NotInFixedFields('=');
      NotInFixedFields('|');
      ExportLacks(d, ps, '=');
      ExportLacks(d, ps, '|');
      FiveReadsRows(text, hint, dec);
    }
  }

  /** In bot7.py and bot6.py, as written or corrected, a text without `=`
      and `|` that is not a JSON list is read by its Netscape rows when it
      has any. */
  lemma FiveReadsRows(text: string, hint: string, dec: Decoder)
    requires '=' !in text && '|' !in text
    requires !(dec(text).Some? && dec(text).value.JArray?)
    requires Gather(SplitLines(text), NetscapeRowLoose) != map[]
    ensures ParseFive(DirectScan, text, hint, dec) == Cookies(Gather(SplitLines(text), NetscapeRowLoose))
    ensures ParseFive(SessionScan, text, hint, dec) == Cookies(Gather(SplitLines(text), NetscapeRowLoose))
  {
    NoEqualsNoAssignment(text);
    FiveWithoutSession(text, hint, dec);
  }

  /** No field of the file holds `=` or `|`. */
  ghost predicate PlainExport(d: string, ps: seq<Pair>) {
    '=' !in d && '|' !in d && forall i :: 0 <= i < |ps| ==> '=' !in ps[i].0 + ps[i].1 && '|' !in ps[i].0 + ps[i].1
  }

  /** `=` and `|` occur in no fixed field and are no separator. */
  lemma NotInFixedFields(x: char)
    requires x == '=' || x == '|'
    ensures x !in "TRUE/FALSE0" && x != '\t' && x != '\n'
  {
  }

  /** A character that no field holds and that is no separator does not
      occur in the file. */
  lemma ExportLacks(d: string, ps: seq<Pair>, x: char)
    requires x !in d && x !in "TRUE/FALSE0" && x != '\t' && x != '\n'
    requires forall i :: 0 <= i < |ps| ==> x !in ps[i].0 + ps[i].1
    ensures x !in NetscapeExport(d, ps)
  {
    var rows := ExportRows(d, ps);
    assert NetscapeExport(d, ps) == Join(rows, '\n');
    forall i | 0 <= i < |rows| ensures x !in rows[i] {
      RowLacks(d, ps[i], x);
    }
    if x in Join(rows, '\n') {
      JoinChars(rows, '\n', x);
    }
  }

  lemma RowLacks(d: string, p: Pair, x: char)
    requires x !in d && x !in "TRUE/FALSE0" && x != '\t' && x !in p.0 + p.1
    ensures x !in TabRow(d, p)
  {
    var fs := ExportFields(d, p);
    forall k | 0 <= k < |fs| ensures x !in fs[k] {
      if k == 1 { assert forall c :: c in "TRUE" ==> c in "TRUE/FALSE0"; }
      if k == 2 { assert forall c :: c in "/" ==> c in "TRUE/FALSE0"; }
      if k == 3 { assert forall c :: c in "FALSE" ==> c in "TRUE/FALSE0"; }
      if k == 4 { assert forall c :: c in "0" ==> c in "TRUE/FALSE0"; }
      if k == 5 { assert forall c :: c in p.0 ==> c in p.0 + p.1; }
      if k == 6 { assert forall c :: c in p.1 ==> c in p.0 + p.1; }
    }
    if x in Join(fs, '\t') {
      JoinChars(fs, '\t', x);
    }
  }

  // ---------------------------------------------------------------------
  // Rows the readers disagree on

  /** A Netscape row written with single spaces instead of tabs. */
  function SpaceRow(domain: string, p: Pair): string {
    Join(ExportFields(domain, p), ' ')
  }

  /** Only bot7.py and bot6.py fall back to whitespace splitting: their
      reader takes a space-separated row, the others find a single field. */
  lemma SpaceRowOnlyLoose(d: string, p: Pair)
    requires d != [] && d[0] != '#' && NoSpace(d)
    requires p.0 != [] && NoSpace(p.0) && p.1 != [] && NoSpace(p.1)
    ensures NetscapeRowLoose(SpaceRow(d, p)) == Some(p)
    ensures NetscapeRowTab(SpaceRow(d, p)).None?
    ensures ServiceNetscapeRow(SpaceRow(d, p)).None?
  {
    var fs := ExportFields(d, p);
    var row := Join(fs, ' ');
    forall i | 0 <= i < |fs| ensures fs[i] != [] && NoSpace(fs[i]) {
    }
    SplitWhitespaceJoin(fs);
    JoinPrefix(fs, ' ');
    JoinSuffix(fs, ' ');
    assert row[0] == row[..|d|][0];
    assert row[|row| - 1] == row[|row| - |p.1|..][|p.1| - 1];
    assert Strip(row) == row;
    NotComment(row);
    forall k | 0 <= k < |row| ensures row[k] != '\t' {
      JoinChars(fs, ' ', row[k]);
    }
    assert Join([row], '\t') == row;
    SplitOnJoin([row], '\t');
  }

  /** The HttpOnly marker in front of a row. */
  function HttpOnlyRow(domain: string, p: Pair): string {
    HttpOnlyPrefix + TabRow(domain, p)
  }

  /** An HttpOnly row is never skipped. */
  lemma MarkedNotSkipped(line: string)
    requires StartsWith(line, HttpOnlyPrefix)
    ensures !SkippedRow(line)
  {
    assert line != [];
  }

  /** A trimmed HttpOnly row is read from the tab fields after the marker. */
  lemma MarkedRowRead(line: string, b: bool)
    requires Strip(line) == line && StartsWith(line, HttpOnlyPrefix) && !SkippedRow(line)
    requires |SplitOn(line[|HttpOnlyPrefix|..], '\t')| >= 7
    ensures var fs := SplitOn(line[|HttpOnlyPrefix|..], '\t');
            NetscapeRow(line, b) == Some((fs[5], fs[6]))
  {
  }

  /** Marking a trimmed row keeps it trimmed, and the marker comes off
      again. */
  lemma MarkedLine(row: string)
    requires row != [] && !IsSpace(row[|row| - 1])
    ensures var line := HttpOnlyPrefix + row;
            && Strip(line) == line && StartsWith(line, HttpOnlyPrefix) && StartsWith(line, "#")
            && line[|HttpOnlyPrefix|..] == row
  {
    var line := HttpOnlyPrefix + row;
    assert line[0] == '#';
    assert line[|line| - 1] == row[|row| - 1];
  }

  /** The bots read an HttpOnly row without its marker; service.py skips it
      as a comment. */
  lemma HttpOnlyRowRead(d: string, p: Pair)
    requires ExportDomain(d) && ExportPair(p)
    ensures NetscapeRowTab(HttpOnlyRow(d, p)) == Some(p)
    ensures NetscapeRowLoose(HttpOnlyRow(d, p)) == Some(p)
    ensures ServiceNetscapeRow(HttpOnlyRow(d, p)).None?
  {
    var line := HttpOnlyRow(d, p);
    TabRowShape(d, p);
    MarkedLine(TabRow(d, p));
    MarkedNotSkipped(line);
    MarkedRowRead(line, true);
    MarkedRowRead(line, false);
  }

  /** The fields of a row without its value. */
  function SixFields(domain: string, name: string): seq<string> {
    [domain, "TRUE", "/", "FALSE", "0", name]
  }

  /** A row with an empty value is the six other fields and a trailing
      tab. */
  lemma EmptyValueJoin(d: string, n: string)
    ensures TabRow(d, (n, "")) == Join(SixFields(d, n), '\t') + ['\t']
    ensures Join(SixFields(d, n) + [""], '\t') == Join(SixFields(d, n), '\t') + ['\t']
  {
    assert ExportFields(d, (n, "")) == SixFields(d, n) + [""];
    JoinSnoc(SixFields(d, n), "", '\t');
  }

  /** The six fields start with the domain and end with the name. */
  lemma SixEnds(d: string, n: string)
    requires d != [] && n != []
    ensures var a := Join(SixFields(d, n), '\t');
            a != [] && a[0] == d[0] && a[|a| - 1] == n[|n| - 1]
  {
    var six := SixFields(d, n);
    var a := Join(six, '\t');
    JoinPrefix(six, '\t');
    JoinSuffix(six, '\t');
    assert a[0] == a[..|d|][0];
    assert a[|a| - 1] == a[|a| - |n|..][|n| - 1];
  }

  /** Tab-splitting gives the six fields back, and a seventh empty one after
      the trailing tab. */
  lemma SixSplit(d: string, n: string)
    requires FieldText(d) && FieldText(n)
    ensures SplitOn(Join(SixFields(d, n), '\t'), '\t') == SixFields(d, n)
    ensures SplitOn(Join(SixFields(d, n) + [""], '\t'), '\t') == SixFields(d, n) + [""]
  {
    var six := SixFields(d, n);
    forall i | 0 <= i < |six + [""]| ensures '\t' !in (six + [""])[i] {
    }
    SplitOnJoin(six, '\t');
    SplitOnJoin(six + [""], '\t');
  }

  /** A cookie with an empty value: the bots strip the trailing tab and find
      six fields, so they lose it; service.py does not strip and keeps it. */
  lemma EmptyValueRow(d: string, n: string)
    requires ExportDomain(d) && FieldText(n) && n != [] && !IsSpace(n[|n| - 1])
    ensures NetscapeRowTab(TabRow(d, (n, ""))).None?
    ensures ServiceNetscapeRow(TabRow(d, (n, ""))) == Some((n, ""))
  {
    var a := Join(SixFields(d, n), '\t');
    var row := TabRow(d, (n, ""));
    EmptyValueJoin(d, n);
    SixEnds(d, n);
    SixSplit(d, n);
    StripTrailing(a, '\t');
    NotComment(a);
    assert row[0] == a[0];
    NotComment(row);
  }

  // ---------------------------------------------------------------------
  // Round trip: a `Cookie:` header

  /** `name=value`. */
  function PairText(p: Pair): string {
    p.0 + "=" + p.1
  }

  /** The pairs joined with `;`, as a `Cookie:` header without spaces. */
  function CookieHeader(ps: seq<Pair>): string {
    Join(seq(|ps|, i requires 0 <= i < |ps| => PairText(ps[i])), ';')
  }

  /** A cookie a header can carry: a visible name without `=`, and neither
      half holding whitespace or `;`. */
  ghost predicate HeaderPair(p: Pair) {
    p.0 != [] && NoSpace(p.0) && NoSpace(p.1) && '=' !in p.0 && ';' !in p.0 && ';' !in p.1
  }

  /** A text without whitespace has no `splitlines` boundary, no tab and
      at most one `split()` word. */
  lemma NoSpaceText(s: string)
    requires NoSpace(s)
    ensures NoBreak(s) && '\t' !in s
    ensures SplitOn(s, '\t') == [s]
    ensures |SplitWhitespace(s)| <= 1
  {
    assert Join([s], '\t') == s;
    SplitOnJoin([s], '\t');
    if s == [] {
      assert SplitWhitespace(s) == [];
    } else {
      assert Join([s], ' ') == s;
      SplitWhitespaceSingle([s]);
    }
  }

  /** A body without whitespace has at most one field. */
  lemma NoSpaceFields(body: string, b: bool)
    requires NoSpace(body)
    ensures |RowFields(body, b)| <= 1
  {
    NoSpaceText(body);
  }

  /** No Netscape reader finds a row in a line without whitespace. */
  lemma NoSpaceRowNone(line: string, b: bool)
    requires NoSpace(line)
    ensures NetscapeRow(line, b).None? && ServiceNetscapeRow(line).None?
  {
    NoSpaceText(line);
    if line != [] {
      assert Strip(line) == line;
      var body := RowBody(line);
      assert NoSpace(body);
      NoSpaceFields(body, b);
    }
  }

  /** A text without whitespace is one line. */
  lemma NoSpaceLines(text: string)
    requires NoSpace(text)
    ensures SplitLines(text) == if text == [] then [] else [text]
  {
    NoSpaceText(text);
    if text != [] {
      assert Join([text], '\n') == text;
      SplitLinesJoin([text]);
    }
  }

  /** A text without whitespace yields no Netscape rows. */
  lemma NoSpaceNoRows(text: string)
    requires NoSpace(text)
    ensures Gather(SplitLines(text), NetscapeRowLoose) == map[]
    ensures Gather(SplitLines(text), NetscapeRowTab) == map[]
    ensures Gather(SplitLines(text), ServiceNetscapeRow) == map[]
  {
    NoSpaceLines(text);
    var lines := SplitLines(text);
    NoSpaceRowNone(text, true);
    NoSpaceRowNone(text, false);
    assert forall i :: 0 <= i < |lines| ==> lines[i] == text;
    assert NetscapeRowLoose(text).None? && NetscapeRowTab(text).None?;
    GatherNothing(lines, NetscapeRowLoose);
    GatherNothing(lines, NetscapeRowTab);
    GatherNothing(lines, ServiceNetscapeRow);
  }

  /** A pair's text has no whitespace and no `;`. */
  lemma PairTextShape(p: Pair)
    requires HeaderPair(p)
    ensures PairText(p) == p.0 + ['='] + p.1
    ensures NoSpace(PairText(p)) && ';' !in PairText(p) && Strip(PairText(p)) == PairText(p)
  {
    var t := PairText(p);
    assert t == p.0 + ['='] + p.1;
    forall k | 0 <= k < |t| ensures !IsSpace(t[k]) && t[k] != ';' {
      if k < |p.0| {
        assert t[k] == p.0[k];
      } else if k > |p.0| {
        assert t[k] == p.1[k - |p.0| - 1];
      }
    }
  }

  /** Both `;`-segment readers take a pair back from its text. */
  lemma PairTextRead(p: Pair)
    requires HeaderPair(p)
    ensures SemicolonRow(PairText(p)) == Some(p) && ServicePairRow(PairText(p)) == Some(p)
    ensures NoSpace(PairText(p)) && ';' !in PairText(p)
  {
    PairTextShape(p);
    assert Strip(p.0) == p.0 && Strip(p.1) == p.1;
    SplitFirstIs(p.0, '=', p.1);
  }

  /** The header has no whitespace, and its `;` segments are the pairs'
      texts. */
  lemma HeaderShape(ps: seq<Pair>)
    requires ps != [] && forall i :: 0 <= i < |ps| ==> HeaderPair(ps[i])
    ensures NoSpace(CookieHeader(ps)) && CookieHeader(ps) != []
    ensures SplitOn(CookieHeader(ps), ';') == seq(|ps|, i requires 0 <= i < |ps| => PairText(ps[i]))
  {
    var parts := seq(|ps|, i requires 0 <= i < |ps| => PairText(ps[i]));
    var text := Join(parts, ';');
    forall i | 0 <= i < |parts| ensures NoSpace(parts[i]) && ';' !in parts[i] {
      PairTextRead(ps[i]);
    }
    forall k | 0 <= k < |text| ensures !IsSpace(text[k]) {
      JoinChars(parts, ';', text[k]);
    }
    JoinPrefix(parts, ';');
    SplitOnJoin(parts, ';');
  }

  /** Both `;` strategies read a header back. */
  lemma HeaderPairsRead(ps: seq<Pair>)
    requires ps != [] && forall i :: 0 <= i < |ps| ==> HeaderPair(ps[i])
    ensures SemicolonPairs(CookieHeader(ps)) == PairsMap(ps)
    ensures Gather(SplitOn(Replace(CookieHeader(ps), '\n', ';'), ';'), ServicePairRow) == PairsMap(ps)
  {
    var text := CookieHeader(ps);
    var parts := seq(|ps|, i requires 0 <= i < |ps| => PairText(ps[i]));
    HeaderShape(ps);
    forall i | 0 <= i < |parts| ensures SemicolonRow(parts[i]) == AsRow(ps[i]) && ServicePairRow(parts[i]) == AsRow(ps[i]) {
      PairTextRead(ps[i]);
    }
    assert Replace(text, '\n', ';') == text;
    GatherSame(parts, SemicolonRow, ps, AsRow);
    GatherSame(parts, ServicePairRow, ps, AsRow);
  }

  /** Every chain reads a `Cookie:` header back when it is not a JSON list.
      In bot7.py and bot6.py strategy 1 decides a header with a
      `SecureNetflixId=` assignment (`HeaderSecureDecides`); one without
      it, and without `|`, is read back in both editions. */
  lemma HeaderRoundTrip(ps: seq<Pair>, hint: string, dec: Decoder)
    requires ps != [] && forall i :: 0 <= i < |ps| ==> HeaderPair(ps[i])
    requires !(dec(CookieHeader(ps)).Some? && dec(CookieHeader(ps)).value.JArray?)
    ensures ParseThree(CookieHeader(ps), hint, dec) == Cookies(PairsMap(ps))
    ensures ParseService(CookieHeader(ps), dec) == PairsMap(ps)
    ensures (forall i :: !AssignmentAt(CookieHeader(ps), SecureTag, i)) && '|' !in CookieHeader(ps) ==>
              ParseFive(DirectScan, CookieHeader(ps), hint, dec) == Cookies(PairsMap(ps)) &&
              ParseFive(SessionScan, CookieHeader(ps), hint, dec) == Cookies(PairsMap(ps))
  {
    var text := CookieHeader(ps);
    HeaderShape(ps);
    HeaderPairsRead(ps);
    NoSpaceNoRows(text);
    assert Strip(text) == text;
    if (forall i :: !AssignmentAt(text, SecureTag, i)) && '|' !in text {
      FiveWithoutSession(text, hint, dec);
    }
  }

  /** A header carrying a `SecureNetflixId` cookie with a value is decided
      by strategy 1 of bot7.py and bot6.py as written: it yields the two
      session cookies and drops every other cookie of the header. */
  lemma HeaderSecureDecides(ps: seq<Pair>, k: int, hint: string, dec: Decoder)
    requires 0 <= k < |ps| && forall i :: 0 <= i < |ps| ==> HeaderPair(ps[i])
    requires ps[k].0 == SecureNetflixId && ps[k].1 != []
    ensures DirectScan(CookieHeader(ps)).Some?
    ensures ParseFive(DirectScan, CookieHeader(ps), hint, dec).Cookies?
    ensures ParseFive(DirectScan, CookieHeader(ps), hint, dec).m.Keys == {NetflixId, SecureNetflixId}
  {
    HeaderSecureAssignment(ps, k);
  }

  /** Such a header holds a `SecureNetflixId=` assignment where that
      cookie's pair occurs. */
  lemma HeaderSecureAssignment(ps: seq<Pair>, k: int)
    requires 0 <= k < |ps| && forall i :: 0 <= i < |ps| ==> HeaderPair(ps[i])
    requires ps[k].0 == SecureNetflixId && ps[k].1 != []
    ensures exists j :: AssignmentAt(CookieHeader(ps), SecureTag, j)
  {
    var p := ps[k];
    assert HeaderPair(p);
    assert IsValueChar(p.1[0]) by { assert p.1[0] in p.1; }
    NameAssignment(p.0, p.1);
    SecureTagSpelled();
    var parts := seq(|ps|, i requires 0 <= i < |ps| => PairText(ps[i]));
    assert parts[k] == p.0 + "=" + p.1;
    JoinHasPiece(parts, ';', k);
    var j :| OccursAt(CookieHeader(ps), parts[k], j);
    AssignmentInside(CookieHeader(ps), parts[k], j, SecureTag);
  }

  lemma SecureTagSpelled()
    ensures SecureTag == SecureNetflixId + "="
  {
  }

  /** `name=value` with a value starting with a value character is an
      assignment of `name=` at its start. */
  lemma NameAssignment(n: string, v: string)
    requires v != [] && IsValueChar(v[0])
    ensures AssignmentAt(n + "=" + v, n + "=", 0)
  {
    var t := n + "=" + v;
    assert t[..|n| + 1] == n + "=";
    assert t[|n| + 1] == v[0];
  }

  /** An assignment at the start of a piece is an assignment where the
      piece occurs. */
  lemma AssignmentInside(s: string, t: string, j: int, key: string)
    requires OccursAt(s, t, j) && AssignmentAt(t, key, 0)
    ensures AssignmentAt(s, key, j)
  {
    assert s[j..j + |key|] == s[j..j + |t|][..|key|];
    assert s[j + |key|] == s[j..j + |t|][|key|];
  }

  // ---------------------------------------------------------------------
  // A text holding only `SecureNetflixId=v`

  /** `SecureNetflixId=v`: the secure cookie alone, without `NetflixId`. */
  function LoneSecure(v: string): string {
    SecureTag + v
  }

  /** Strategy 1 of bot7.py and bot6.py as written reports both session
      cookies for it, `NetflixId` with the secure value. */
  lemma LoneSecureAsWritten(v: string)
    requires ValueText(v)
    ensures DirectScan(LoneSecure(v)) == Some(map[NetflixId := v, SecureNetflixId := v])
  {
    var s := LoneSecure(v);
    assert s[..16] == SecureTag && s[16..] == v + [];
    assert s[16] == v[0];
    assert AssignmentAt(s, SecureTag, 0);
    SecureContainsPlain(s, 0);
    NoPlainInSecure(s);
    var r := FindAssignment(s, PlainTag);
    var i :| FirstAssignment(s, PlainTag, i) && r.value == ValueRun(s[i + 10..]);
    assert i == 6;
    ValueRunIs(v, []);
  }

  /** No standalone `NetflixId=` occurs in it: the only match of
      `NetflixId=` continues the word `Secure`. */
  lemma LoneSecureNoStandalone(v: string)
    requires ValueText(v) && '=' !in v
    ensures forall i :: !StandaloneAt(LoneSecure(v), PlainTag, i)
  {
    var s := LoneSecure(v);
    assert s[..16] == SecureTag && s[16..] == v;
    NoPlainInSecure(s);
    SecureTagLetter();
    forall i | 6 <= i ensures !StandaloneAt(s, PlainTag, i) {
      if i == 6 {
        assert s[5] == s[..16][5];
      } else if i + 10 < |s| {
        assert s[i..i + 10][9] == s[i + 9];
        assert s[i + 9] == s[16..][i - 7];
      }
    }
  }

  lemma SecureTagLetter()
    ensures IsWordChar(SecureTag[5])
  {
  }

  /** Its `;` reading is the secure cookie alone. */
  lemma LoneSecurePairs(v: string)
    requires ValueText(v)
    ensures NoSpace(LoneSecure(v))
    ensures '|' !in v ==> '|' !in LoneSecure(v)
    ensures SemicolonPairs(LoneSecure(v)) == map[SecureNetflixId := v]
  {
    var p := (SecureNetflixId, v);
    SecureNameShape();
    assert HeaderPair(p);
    SecureTagSpelled();
    assert CookieHeader([p]) == PairText(p) == LoneSecure(v);
    HeaderShape([p]);
    HeaderPairsRead([p]);
    PairsMapContents([p]);
    if '|' !in v {
      assert '|' !in SecureTag;
      assert LoneSecure(v) == SecureTag + v;
    }
  }

  lemma SecureNameShape()
    ensures SecureNetflixId != [] && NoSpace(SecureNetflixId)
    ensures '=' !in SecureNetflixId && ';' !in SecureNetflixId && '|' !in SecureTag
  {
  }

  /** On `SecureNetflixId=v` the two editions of bot7.py and bot6.py part:
      as written both session cookies come out with the value v, corrected
      strategy 1 stays silent and the `;` strategy reports the secure
      cookie alone. */
  lemma LoneSecureParsed(v: string, hint: string, dec: Decoder)
    requires ValueText(v) && '=' !in v && '|' !in v
    requires !(dec(LoneSecure(v)).Some? && dec(LoneSecure(v)).value.JArray?)
    ensures ParseFive(DirectScan, LoneSecure(v), hint, dec) == Cookies(map[NetflixId := v, SecureNetflixId := v])
    ensures SessionScan(LoneSecure(v)).None?
    ensures ParseFive(SessionScan, LoneSecure(v), hint, dec) == Cookies(map[SecureNetflixId := v])
  {
    LoneSecureAsWritten(v);
    LoneSecureNoStandalone(v);
    LoneSecurePairs(v);
    FiveReadsPairs(SessionScan, LoneSecure(v), hint, dec);
  }

  /** A text without whitespace and `|` that strategy 1 and the JSON
      strategy pass over is read by its `;` pairs. */
  lemma FiveReadsPairs(scan: string -> Option<CookieMap>, text: string, hint: string, dec: Decoder)
    requires scan(text).None? && NoSpace(text) && '|' !in text
    requires !(dec(text).Some? && dec(text).value.JArray?)
    ensures ParseFive(scan, text, hint, dec) == Cookies(SemicolonPairs(text))
  {
    NoSpaceNoRows(text);
  }

  /** The input `SecureNetflixId=abc`. */
  lemma LoneSecureExample(hint: string, dec: Decoder)
    requires !(dec("SecureNetflixId=abc").Some? && dec("SecureNetflixId=abc").value.JArray?)
    ensures ParseFive(DirectScan, "SecureNetflixId=abc", hint, dec) == Cookies(map[NetflixId := "abc", SecureNetflixId := "abc"])
    ensures ParseFive(SessionScan, "SecureNetflixId=abc", hint, dec) == Cookies(map[SecureNetflixId := "abc"])
  {
    assert LoneSecure("abc") == "SecureNetflixId=abc";
    assert ValueText("abc");
    LoneSecureParsed("abc", hint, dec);
  }

  // ---------------------------------------------------------------------
  // Round trip through the `|` strategy

  /** A cookie a `|`-separated line can carry: no whitespace, no `=` in
      the name and no `|` in either half. */
  ghost predicate PipePair(p: Pair) {
    NoSpace(p.0) && NoSpace(p.1) && '=' !in p.0 && '|' !in p.0 && '|' !in p.1
  }

  /** The pairs written `name=value|name=value|...`. */
  function PipeText(ps: seq<Pair>): string {
    Join(seq(|ps|, i requires 0 <= i < |ps| => PairText(ps[i])), '|')
  }

  /** A pair's text has no whitespace and no `|`. */
  lemma PipeTextShape(p: Pair)
    requires PipePair(p)
    ensures PairText(p) == p.0 + ['='] + p.1
    ensures NoSpace(PairText(p)) && '|' !in PairText(p) && Strip(PairText(p)) == PairText(p)
  {
    var t := PairText(p);
    assert t == p.0 + ['='] + p.1;
    forall k | 0 <= k < |t| ensures !IsSpace(t[k]) && t[k] != '|' {
      if k < |p.0| {
        assert t[k] == p.0[k];
      } else if k > |p.0| {
        assert t[k] == p.1[k - |p.0| - 1];
      }
    }
  }

  /** A `|` segment reader takes a pair back from its text. */
  lemma PipePairRead(p: Pair)
    requires PipePair(p)
    ensures PipeRow(PairText(p)) == Some(p) && '|' !in PairText(p)
  {
    PipeTextShape(p);
    assert Strip(p.0) == p.0 && Strip(p.1) == p.1;
    SplitFirstIs(p.0, '=', p.1);
  }

  /** A piece that begins with a name puts that name where it occurs. */
  lemma OccursPrefix(s: string, t: string, n: string, j: int)
    requires OccursAt(s, t, j) && |n| <= |t| && t[..|n|] == n
    ensures OccursAt(s, n, j)
  {
    assert s[j..j + |n|] == s[j..j + |t|][..|n|];
  }

  /** A cookie's name occurs in the `|` text. */
  lemma PipeHasName(ps: seq<Pair>, a: int)
    requires 0 <= a < |ps|
    ensures Contains(PipeText(ps), ps[a].0)
  {
    var parts := seq(|ps|, i requires 0 <= i < |ps| => PairText(ps[i]));
    assert parts[a] == ps[a].0 + "=" + ps[a].1;
    assert parts[a][..|ps[a].0|] == ps[a].0;
    JoinHasPiece(parts, '|', a);
    var j :| OccursAt(PipeText(ps), parts[a], j);
    OccursPrefix(PipeText(ps), parts[a], ps[a].0, j);
  }

  /** The segment loop of strategy 3 rebuilds the pairs' dict. */
  lemma PipeCookiesRead(ps: seq<Pair>)
    requires ps != [] && forall i :: 0 <= i < |ps| ==> PipePair(ps[i])
    ensures PipeCookies(PipeText(ps)) == PairsMap(ps)
  {
    var parts := seq(|ps|, i requires 0 <= i < |ps| => PairText(ps[i]));
    forall i | 0 <= i < |parts| ensures PipeRow(parts[i]) == AsRow(ps[i]) && '|' !in parts[i] {
      PipePairRead(ps[i]);
    }
    SplitOnJoin(parts, '|');
    GatherSame(parts, PipeRow, ps, AsRow);
  }

  /** Two or more pieces are joined with at least one separator. */
  lemma JoinHasSeparator(ps: seq<string>, c: char)
    requires |ps| >= 2
    ensures c in Join(ps, c)
  {
    var s := Join(ps, c);
    assert s == ps[0] + [c] + Join(ps[1..], c);
    assert s[|ps[0]|] == c;
  }

  /** Strategy 3 of bot7.py and bot6.py reads a `|` line back when it holds
      both session cookies. */
  lemma PipeRoundTrip(ps: seq<Pair>, a: int, b: int)
    requires forall i :: 0 <= i < |ps| ==> PipePair(ps[i])
    requires 0 <= a < |ps| && 0 <= b < |ps| && ps[a].0 == NetflixId && ps[b].0 == SecureNetflixId
    ensures PipeScan(PipeText(ps)) == Some(PairsMap(ps))
  {
    var parts := seq(|ps|, i requires 0 <= i < |ps| => PairText(ps[i]));
    assert a != b;
    JoinHasSeparator(parts, '|');
    PipeHasName(ps, a);
    PipeHasName(ps, b);
    PipeCookiesRead(ps);
    PairsMapContents(ps);
  }

  /** When strategy 1 and the JSON strategy stay silent, such a line is
      read back by the five-strategy chain. */
  lemma PipeLineParsed(ps: seq<Pair>, a: int, b: int, scan: string -> Option<CookieMap>, hint: string, dec: Decoder)
    requires forall i :: 0 <= i < |ps| ==> PipePair(ps[i])
    requires 0 <= a < |ps| && 0 <= b < |ps| && ps[a].0 == NetflixId && ps[b].0 == SecureNetflixId
    requires scan(PipeText(ps)).None?
    requires !(dec(PipeText(ps)).Some? && dec(PipeText(ps)).value.JArray?)
    ensures ParseFive(scan, PipeText(ps), hint, dec) == Cookies(PairsMap(ps))
  {
    PipeRoundTrip(ps, a, b);
  }

  // ---------------------------------------------------------------------
  // Strategy 1 on a `|` line

  /** `NetflixId=a|SecureNetflixId=b`: the `|` format without spaces. */
  function PipeLine(a: string, b: string): string {
    PlainTag + a + "|" + SecureTag + b
  }

  /** The characters of `SecureNetflixId=`: all value characters, the
      only `=` last, preceded by `d`. */
  lemma SecureTagChars()
    ensures forall k :: 0 <= k < 16 ==> IsValueChar(SecureTag[k])
    ensures forall k :: 0 <= k < 15 ==> SecureTag[k] != '='
    ensures SecureTag[14] == 'd' && SecureTag[15] == '='
  {
  }

  /** Where the pieces of the line lie. */
  lemma PipeLineLayout(a: string, b: string)
    ensures var s := PipeLine(a, b);
            && |s| == 27 + |a| + |b|
            && s[..10] == PlainTag && s[10..10 + |a|] == a && s[10 + |a|] == '|'
            && s[11 + |a|..27 + |a|] == SecureTag && s[27 + |a|..] == b
            && s[10..] == a + "|" + SecureTag + b
  {
  }

  /** What follows `NetflixId=` on the line is one run of value
      characters: `|` is one of them. */
  lemma PipeLineTail(a: string, b: string)
    requires ValueText(a) && ValueText(b)
    ensures ValueText(a + "|" + SecureTag + b)
  {
    var t := a + "|" + SecureTag + b;
    SecureTagChars();
    forall k | 0 <= k < |t| ensures IsValueChar(t[k]) {
      if k < |a| {
        assert t[k] == a[k];
      } else if k == |a| {
        assert t[k] == '|';
      } else if k < |a| + 17 {
        assert t[k] == SecureTag[k - |a| - 1];
      } else {
        assert t[k] == b[k - |a| - 17];
      }
    }
  }

  /** A text that starts with `NetflixId=` followed only by value
      characters: both `NetflixId` searches report the whole rest. */
  lemma LeadingCapture(rest: string)
    requires ValueText(rest)
    ensures FindAssignment(PlainTag + rest, PlainTag) == Some(rest)
    ensures FindStandaloneFrom(PlainTag + rest, PlainTag, 0) == Some(rest)
  {
    var s := PlainTag + rest;
    assert s[..10] == PlainTag && s[10..] == rest + [];
    assert s[10] == rest[0];
    ValueRunIs(rest, []);
  }

  /** No `SecureNetflixId=` match starts before the one after `|`. */
  lemma PipeLineNoEarlySecure(a: string, b: string, j: int)
    requires ValueText(b) && '=' !in a && 0 <= j < 11 + |a|
    ensures !AssignmentAt(PipeLine(a, b), SecureTag, j)
  {
    var s := PipeLine(a, b);
    PipeLineLayout(a, b);
    SecureTagChars();
    if j + 16 < |s| {
      assert s[j..j + 16][15] == s[j + 15];
      if j + 15 < 10 + |a| {
        assert s[j + 15] == s[10..10 + |a|][j + 5];
      } else if j + 15 > 10 + |a| {
        assert s[j + 15] == s[11 + |a|..27 + |a|][j + 4 - |a|];
      }
    }
  }

  /** The `SecureNetflixId` search reports b. */
  lemma PipeLineSecureValue(a: string, b: string)
    requires ValueText(a) && ValueText(b) && '=' !in a
    ensures FindAssignment(PipeLine(a, b), SecureTag) == Some(b)
  {
    var s := PipeLine(a, b);
    var p := 11 + |a|;
    PipeLineLayout(a, b);
    assert s[p + 16] == s[27 + |a|..][0];
    assert AssignmentAt(s, SecureTag, p);
    forall j | 0 <= j < p ensures !AssignmentAt(s, SecureTag, j) {
      PipeLineNoEarlySecure(a, b, j);
    }
    var r := FindAssignment(s, SecureTag);
    var i :| FirstAssignment(s, SecureTag, i) && r.value == ValueRun(s[i + 16..]);
    assert i == p;
    ValueRunIs(b, []);
    assert b + [] == b;
  }

  /** Strategy 1 of bot7.py and bot6.py, as written and corrected alike,
      fires on a `|` line without spaces: `NetflixId` receives the rest of
      the line, `|SecureNetflixId=b` included. */
  lemma PipeLineScans(a: string, b: string)
    requires ValueText(a) && ValueText(b) && '=' !in a
    ensures var m := map[NetflixId := a + "|" + SecureTag + b, SecureNetflixId := b];
            DirectScan(PipeLine(a, b)) == Some(m) && SessionScan(PipeLine(a, b)) == Some(m)
  {
    var s := PipeLine(a, b);
    var rest := a + "|" + SecureTag + b;
    assert s == PlainTag + rest;
    PipeLineTail(a, b);
    LeadingCapture(rest);
    PipeLineSecureValue(a, b);
  }

  /** So the five-strategy chain never reaches the `|` strategy on such a
      line, in either edition. */
  lemma PipeLineAsWritten(a: string, b: string, hint: string, dec: Decoder)
    requires ValueText(a) && ValueText(b) && '=' !in a
    ensures var m := map[NetflixId := a + "|" + SecureTag + b, SecureNetflixId := b];
            ParseFive(DirectScan, PipeLine(a, b), hint, dec) == Cookies(m) &&
            ParseFive(SessionScan, PipeLine(a, b), hint, dec) == Cookies(m)
  {
    PipeLineScans(a, b);
  }

  /** The input `NetflixId=a|SecureNetflixId=b`. */
  lemma PipeLineExample(hint: string, dec: Decoder)
    ensures ParseFive(DirectScan, "NetflixId=a|SecureNetflixId=b", hint, dec)
            == Cookies(map[NetflixId := "a|SecureNetflixId=b", SecureNetflixId := "b"])
    ensures ParseFive(SessionScan, "NetflixId=a|SecureNetflixId=b", hint, dec)
            == Cookies(map[NetflixId := "a|SecureNetflixId=b", SecureNetflixId := "b"])
  {
    assert PipeLine("a", "b") == "NetflixId=a|SecureNetflixId=b";
    assert "a" + "|" + SecureTag + "b" == "a|SecureNetflixId=b";
    assert ValueText("a") && ValueText("b");
    PipeLineAsWritten("a", "b", hint, dec);
  }

  // ---------------------------------------------------------------------
  // Round trip through the `|` strategy, with spaces around `=`

  /** `name = value`. */
  function SpacedText(p: Pair): string {
    p.0 + " = " + p.1
  }

  /** The pairs written `name = value|name = value|...`. */
  function SpacedPipeText(ps: seq<Pair>): string {
    Join(seq(|ps|, i requires 0 <= i < |ps| => SpacedText(ps[i])), '|')
  }

  /** A cookie such a line can carry: a name and a value, both non-empty,
      without whitespace, `=` or `|`. */
  ghost predicate SpacedPair(p: Pair) {
    p.0 != [] && p.1 != [] && NoSpace(p.0) && NoSpace(p.1)
    && '=' !in p.0 && '=' !in p.1 && '|' !in p.0 && '|' !in p.1
  }

  /** Every `=` has a space before it. */
  ghost predicate SpaceBeforeEquals(s: string) {
    forall k :: 0 <= k < |s| && s[k] == '=' ==> 0 < k && s[k - 1] == ' '
  }

  /** The pair's text holds no `|`, its only `=` follows a space, and it
      is already trimmed. */
  lemma SpacedTextShape(p: Pair)
    requires SpacedPair(p)
    ensures SpacedText(p) == (p.0 + [' ']) + ['='] + ([' '] + p.1)
    ensures '|' !in SpacedText(p) && SpaceBeforeEquals(SpacedText(p))
    ensures Strip(SpacedText(p)) == SpacedText(p)
  {
    var t := SpacedText(p);
    var n := |p.0|;
    assert t == (p.0 + [' ']) + ['='] + ([' '] + p.1);
    forall k | 0 <= k < |t| ensures t[k] != '|' && (t[k] == '=' ==> k == n + 1) {
      if k < n {
        assert t[k] == p.0[k];
      } else if k > n + 2 {
        assert t[k] == p.1[k - n - 3];
      }
    }
    assert p.0[0] in p.0 && p.1[|p.1| - 1] in p.1;
  }

  /** The `|` segment reader takes the pair back from its text. */
  lemma SpacedPairRead(p: Pair)
    requires SpacedPair(p)
    ensures '|' !in SpacedText(p) && SpaceBeforeEquals(SpacedText(p))
    ensures PipeRow(SpacedText(p)) == Some(p)
  {
    SpacedTextShape(p);
    assert '=' !in p.0 + [' '];
    SplitFirstIs(p.0 + [' '], '=', [' '] + p.1);
    assert p.1[0] in p.1 && p.0[|p.0| - 1] in p.0;
    assert p.0[0] in p.0 && p.1[|p.1| - 1] in p.1;
    StripTrailing(p.0, ' ');
    StripLeading(' ', p.1);
  }

  /** Joining with a separator other than `=` keeps every `=` after a
      space. */
  lemma {:induction false} JoinSpaceBeforeEquals(ps: seq<string>, c: char)
    requires c != '=' && forall i :: 0 <= i < |ps| ==> SpaceBeforeEquals(ps[i])
    ensures SpaceBeforeEquals(Join(ps, c))
  {
    if |ps| > 1 {
      var s := Join(ps, c);
      var rest := Join(ps[1..], c);
      JoinSpaceBeforeEquals(ps[1..], c);
      assert s == ps[0] + [c] + rest;
      forall k | 0 <= k < |s| && s[k] == '=' ensures 0 < k && s[k - 1] == ' ' {
        var h := |ps[0]|;
        if k < h {
          assert s[k] == ps[0][k];
          assert s[k - 1] == ps[0][k - 1];
        } else if k > h {
          assert s[k] == rest[k - h - 1];
          if k - h - 1 > 0 {
            assert s[k - 1] == rest[k - h - 2];
          }
        }
      }
    }
  }

  /** A text whose every `=` follows a space has no `SecureNetflixId=`
      match: there the `=` follows `d`. */
  lemma SpacedNoAssignment(s: string)
    requires SpaceBeforeEquals(s)
    ensures forall i :: !AssignmentAt(s, SecureTag, i)
  {
    SecureTagChars();
    forall i | 0 <= i && i + 16 < |s| ensures !AssignmentAt(s, SecureTag, i) {
      assert s[i..i + 16][15] == s[i + 15];
      assert s[i..i + 16][14] == s[i + 14];
    }
  }

  /** The line has no `SecureNetflixId=` match, so neither edition's
      strategy 1 fires. */
  lemma SpacedScansSilent(ps: seq<Pair>)
    requires forall i :: 0 <= i < |ps| ==> SpacedPair(ps[i])
    ensures DirectScan(SpacedPipeText(ps)).None? && SessionScan(SpacedPipeText(ps)).None?
  {
    var parts := seq(|ps|, i requires 0 <= i < |ps| => SpacedText(ps[i]));
    forall i | 0 <= i < |parts| ensures SpaceBeforeEquals(parts[i]) {
      SpacedPairRead(ps[i]);
    }
    JoinSpaceBeforeEquals(parts, '|');
    SpacedNoAssignment(SpacedPipeText(ps));
  }

  /** The segment loop of strategy 3 rebuilds the pairs' dict. */
  lemma SpacedCookiesRead(ps: seq<Pair>)
    requires ps != [] && forall i :: 0 <= i < |ps| ==> SpacedPair(ps[i])
    ensures PipeCookies(SpacedPipeText(ps)) == PairsMap(ps)
  {
    var parts := seq(|ps|, i requires 0 <= i < |ps| => SpacedText(ps[i]));
    forall i | 0 <= i < |parts| ensures PipeRow(parts[i]) == AsRow(ps[i]) && '|' !in parts[i] {
      SpacedPairRead(ps[i]);
    }
    SplitOnJoin(parts, '|');
    GatherSame(parts, PipeRow, ps, AsRow);
  }

  /** A cookie's name occurs in the spaced line. */
  lemma SpacedHasName(ps: seq<Pair>, a: int)
    requires 0 <= a < |ps|
    ensures Contains(SpacedPipeText(ps), ps[a].0)
  {
    var parts := seq(|ps|, i requires 0 <= i < |ps| => SpacedText(ps[i]));
    assert parts[a] == ps[a].0 + " = " + ps[a].1;
    assert parts[a][..|ps[a].0|] == ps[a].0;
    JoinHasPiece(parts, '|', a);
    var j :| OccursAt(SpacedPipeText(ps), parts[a], j);
    OccursPrefix(SpacedPipeText(ps), parts[a], ps[a].0, j);
  }

  /** Strategy 3 reads the spaced line back when it holds both session
      cookies. */
  lemma SpacedPipeScan(ps: seq<Pair>, a: int, b: int)
    requires forall i :: 0 <= i < |ps| ==> SpacedPair(ps[i])
    requires 0 <= a < |ps| && 0 <= b < |ps| && ps[a].0 == NetflixId && ps[b].0 == SecureNetflixId
    ensures PipeScan(SpacedPipeText(ps)) == Some(PairsMap(ps))
  {
    var parts := seq(|ps|, i requires 0 <= i < |ps| => SpacedText(ps[i]));
    assert a != b;
    JoinHasSeparator(parts, '|');
    SpacedHasName(ps, a);
    SpacedHasName(ps, b);
    SpacedCookiesRead(ps);
    PairsMapContents(ps);
  }

  /** In bot7.py and bot6.py, as written and corrected, a `|` line with
      spaces around each `=` that holds both session cookies and is not a
      JSON list parses back to the dict of its pairs: strategy 1 passes
      over it and strategy 3 reads it. */
  lemma SpacedPipeRoundTrip(ps: seq<Pair>, a: int, b: int, hint: string, dec: Decoder)
    requires forall i :: 0 <= i < |ps| ==> SpacedPair(ps[i])
    requires 0 <= a < |ps| && 0 <= b < |ps| && ps[a].0 == NetflixId && ps[b].0 == SecureNetflixId
    requires !(dec(SpacedPipeText(ps)).Some? && dec(SpacedPipeText(ps)).value.JArray?)
    ensures ParseFive(DirectScan, SpacedPipeText(ps), hint, dec) == Cookies(PairsMap(ps))
    ensures ParseFive(SessionScan, SpacedPipeText(ps), hint, dec) == Cookies(PairsMap(ps))
  {
    SpacedScansSilent(ps);
    SpacedPipeScan(ps, a, b);
  }
}
