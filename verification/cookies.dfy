/** `parse_cookies`: from an uploaded text blob (and the file type the upload
    declared) to a cookie-name to cookie-value map. The source carries three
    generations of this parser:
      - the five-strategy chain of bot7.py and bot6.py,
      - the three-strategy chain of bot.py and bot2.py,
      - the looser chain of service.py.
    Each strategy below is one branch of those functions; the chains at the
    end of the module put them in the source's order. */
module CookieParse {
  import opened Wrappers
  import opened Text
  import opened Json

  type CookieMap = map<string, string>
  type Pair = (string, string)

  /** The two session cookies that identify a signed-in account. */
  const NetflixId := "NetflixId"
  const SecureNetflixId := "SecureNetflixId"

  /** The assignments the direct scan searches for. */
  const PlainTag := "NetflixId="
  const SecureTag := "SecureNetflixId="

  /** Marker of a Netscape row for an HttpOnly cookie. */
  const HttpOnlyPrefix := "#HttpOnly_"

  /** What `parse_cookies` hands back: a map, or an exception that escaped it. */
  datatype Parsed = Cookies(m: CookieMap) | Raised

  /** The verdict of one strategy: fall through, stop with a map, or raise. */
  datatype Step = Continue | Done(m: CookieMap) | Crash

  // ---------------------------------------------------------------------
  // Filling a dict in a loop

  /** Element `i` of `xs` produces a pair whose name is `k`. */
  ghost predicate Yields<T>(xs: seq<T>, f: T -> Option<Pair>, i: int, k: string) {
    0 <= i < |xs| && f(xs[i]).Some? && f(xs[i]).value.0 == k
  }

  /** Element `i` is the last element of `xs` producing name `k`. */
  ghost predicate LastYield<T>(xs: seq<T>, f: T -> Option<Pair>, i: int, k: string) {
    Yields(xs, f, i, k) && forall j :: i < j < |xs| ==> !Yields(xs, f, j, k)
  }

  /** The dict a loop `for x in xs: if (p := f(x)): d[p.name] = p.value`
      builds: a name is present iff some element produced it, and it holds
      the value of the last element that did. */
  function Gather<T>(xs: seq<T>, f: T -> Option<Pair>): (m: CookieMap)
    ensures forall k :: k in m <==> exists i :: Yields(xs, f, i, k)
    ensures forall i, k :: LastYield(xs, f, i, k) ==> k in m && m[k] == f(xs[i]).value.1
    decreases |xs|
  {
    if xs == [] then map[]
    else
      var init := xs[..|xs| - 1];
      var m := Gather(init, f);
      assert forall i, k :: 0 <= i < |init| ==> (Yields(init, f, i, k) <==> Yields(xs, f, i, k));
      match f(xs[|xs| - 1])
      case None =>
        assert forall i, k :: LastYield(xs, f, i, k) ==> LastYield(init, f, i, k);
        m
      case Some(p) =>
        var m' := m[p.0 := p.1];
        assert forall i, k :: LastYield(xs, f, i, k) ==> k in m' && m'[k] == f(xs[i]).value.1 by {
          forall i, k | LastYield(xs, f, i, k) ensures k in m' && m'[k] == f(xs[i]).value.1 {
            if i < |xs| - 1 {
              assert !Yields(xs, f, |xs| - 1, k);
              assert LastYield(init, f, i, k);
            }
          }
        }
        m'
  }

  // ---------------------------------------------------------------------
  // Strategy 1 (bot7.py, bot6.py): `NetflixId=` and `SecureNetflixId=` anywhere

  /** A character of the regex class `[^\s;]`. */
  predicate IsValueChar(c: char) {
    !IsSpace(c) && c != ';'
  }

  /** The greedy capture `([^\s;]+)`: the longest prefix of value characters. */
  function ValueRun(s: string): (v: string)
    ensures |v| <= |s| && v == s[..|v|]
    ensures forall i :: 0 <= i < |v| ==> IsValueChar(v[i])
    ensures |v| == |s| || !IsValueChar(s[|v|])
  {
    if s == [] || !IsValueChar(s[0]) then []
    else
      var rest := ValueRun(s[1..]);
      assert [s[0]] + rest == s[..|rest| + 1];
      [s[0]] + rest
  }

  /** The pattern `key([^\s;]+)` matches at position `i` of `s`. */
  ghost predicate AssignmentAt(s: string, key: string, i: int) {
    0 <= i && i + |key| < |s| && s[i..i + |key|] == key && IsValueChar(s[i + |key|])
  }

  /** `i` is the leftmost match, the one `re.search` reports. */
  ghost predicate FirstAssignment(s: string, key: string, i: int) {
    AssignmentAt(s, key, i) && forall j :: 0 <= j < i ==> !AssignmentAt(s, key, j)
  }

  lemma AssignmentShift(s: string, key: string, i: int)
    requires |s| > 0 && 0 <= i
    ensures AssignmentAt(s[1..], key, i) <==> AssignmentAt(s, key, i + 1)
  {
    if i + |key| < |s| - 1 {
      assert s[1..][i..i + |key|] == s[i + 1..i + 1 + |key|];
    }
  }

  /** What `re.search(key + r'([^\s;]+)', s)` reports: absent when nothing
      matches, else the capture of the leftmost match. */
  ghost predicate SearchResult(s: string, key: string, r: Option<string>) {
    && (r.None? <==> forall i :: !AssignmentAt(s, key, i))
    && (r.Some? ==> exists i :: FirstAssignment(s, key, i) && r.value == ValueRun(s[i + |key|..]))
  }

  /** A search that fails at position 0 reports what the search of the rest
      reports. */
  lemma SearchStep(s: string, key: string, r: Option<string>)
    requires |s| > |key| && !(s[..|key|] == key && IsValueChar(s[|key|]))
    requires SearchResult(s[1..], key, r)
    ensures SearchResult(s, key, r)
  {
    assert !AssignmentAt(s, key, 0);
    if r.None? {
      forall i | 0 < i ensures !AssignmentAt(s, key, i) {
        AssignmentShift(s, key, i - 1);
      }
    } else {
      var i :| FirstAssignment(s[1..], key, i) && r.value == ValueRun(s[1..][i + |key|..]);
      AssignmentShift(s, key, i);
      forall j | 0 < j < i + 1 ensures !AssignmentAt(s, key, j) {
        AssignmentShift(s, key, j - 1);
      }
      assert s[1..][i + |key|..] == s[i + 1 + |key|..];
      assert FirstAssignment(s, key, i + 1);
    }
  }

  /** `re.search(key + r'([^\s;]+)', s).group(1)`, absent when nothing
      matches. */
  function FindAssignment(s: string, key: string): (r: Option<string>)
    ensures r.None? <==> forall i :: !AssignmentAt(s, key, i)
    ensures r.Some? ==> exists i :: FirstAssignment(s, key, i) && r.value == ValueRun(s[i + |key|..])
    decreases |s|
  {
    if |s| <= |key| then None
    else if s[..|key|] == key && IsValueChar(s[|key|]) then
      assert FirstAssignment(s, key, 0);
      Some(ValueRun(s[|key|..]))
    else
      var r := FindAssignment(s[1..], key);
      SearchStep(s, key, r);
      r
  }

  /** Every `SecureNetflixId=` match carries a `NetflixId=` match six
      characters further on. */
  lemma SecureContainsPlain(s: string, i: int)
    requires AssignmentAt(s, SecureTag, i)
    ensures AssignmentAt(s, PlainTag, i + 6)
  {
    assert SecureTag[6..] == PlainTag;
    assert s[i + 6..i + 16] == s[i..i + 16][6..];
  }

  /** Strategy 1. It fires exactly when `SecureNetflixId=` is followed by a
      value character somewhere, because that match always contains a
      `NetflixId=` match too, and it then yields exactly the two session
      cookies, each holding the capture of its search's leftmost match. */
  function DirectScan(s: string): (r: Option<CookieMap>)
    ensures r.Some? <==> exists i :: AssignmentAt(s, SecureTag, i)
    ensures r.Some? ==> r.value.Keys == {NetflixId, SecureNetflixId}
    ensures r.Some? ==> FindAssignment(s, PlainTag) == Some(r.value[NetflixId])
    ensures r.Some? ==> FindAssignment(s, SecureTag) == Some(r.value[SecureNetflixId])
  {
    var plain := FindAssignment(s, PlainTag);
    var secure := FindAssignment(s, SecureTag);
    assert secure.Some? ==> plain.Some? by {
      if secure.Some? {
        var i :| AssignmentAt(s, SecureTag, i);
        SecureContainsPlain(s, i);
      }
    }
    if plain.Some? && secure.Some? then
      assert |NetflixId| != |SecureNetflixId|;
      Some(map[NetflixId := plain.value, SecureNetflixId := secure.value])
    else
      None
  }

  /** A character of the regex class `\w` on ASCII text. */
  predicate IsWordChar(c: char) {
    IsAsciiLetter(c) || '0' <= c <= '9' || c == '_'
  }

  /** A match of `key([^\s;]+)` at `i` that does not continue a longer
      name: the pattern `\bkey([^\s;]+)`. */
  ghost predicate StandaloneAt(s: string, key: string, i: int) {
    AssignmentAt(s, key, i) && (i == 0 || !IsWordChar(s[i - 1]))
  }

  /** The capture of the leftmost match of `\bkey([^\s;]+)` at or after
      position `k`. */
  function FindStandaloneFrom(s: string, key: string, k: nat): (r: Option<string>)
    ensures r.None? <==> forall i :: k <= i ==> !StandaloneAt(s, key, i)
    ensures r.Some? ==> exists i :: k <= i && StandaloneAt(s, key, i)
                                    && (forall j :: k <= j < i ==> !StandaloneAt(s, key, j))
                                    && r.value == ValueRun(s[i + |key|..])
    decreases |s| - k
  {
    if k + |key| >= |s| then None
    else if s[k..k + |key|] == key && IsValueChar(s[k + |key|]) && (k == 0 || !IsWordChar(s[k - 1])) then
      assert StandaloneAt(s, key, k);
      Some(ValueRun(s[k + |key|..]))
    else
      assert !StandaloneAt(s, key, k);
      FindStandaloneFrom(s, key, k + 1)
  }

  /** A standalone `NetflixId=` match never lies inside a `SecureNetflixId=`
      match: the letter before it would be the `e` of `Secure`. */
  lemma StandaloneNotInsideSecure(s: string, i: int)
    requires StandaloneAt(s, PlainTag, i)
    ensures !(6 <= i && AssignmentAt(s, SecureTag, i - 6))
  {
    if 6 <= i && i + 10 <= |s| {
      assert s[i - 6..i + 10][5] == s[i - 1];
    }
  }

  /** What the standalone search reports comes from a standalone match. */
  lemma StandaloneCapture(s: string, v: string)
    requires FindStandaloneFrom(s, PlainTag, 0) == Some(v)
    ensures exists i :: StandaloneAt(s, PlainTag, i) && !(6 <= i && AssignmentAt(s, SecureTag, i - 6))
                        && v == ValueRun(s[i + |PlainTag|..])
  {
    var i :| 0 <= i && StandaloneAt(s, PlainTag, i) && v == ValueRun(s[i + |PlainTag|..]);
    StandaloneNotInsideSecure(s, i);
  }

  /** Strategy 1 as evidently intended: `NetflixId` is read from a
      standalone `NetflixId=` assignment, so its value never comes out of a
      `SecureNetflixId=` assignment. */
  function SessionScan(s: string): (r: Option<CookieMap>)
    ensures r.Some? <==> (exists i :: StandaloneAt(s, PlainTag, i)) && (exists i :: AssignmentAt(s, SecureTag, i))
    ensures r.Some? ==> r.value.Keys == {NetflixId, SecureNetflixId}
    ensures r.Some? ==> exists i :: StandaloneAt(s, PlainTag, i) && !(6 <= i && AssignmentAt(s, SecureTag, i - 6))
                                    && r.value[NetflixId] == ValueRun(s[i + |PlainTag|..])
    ensures r.Some? ==> r.value[SecureNetflixId] == FindAssignment(s, SecureTag).value
  {
    var plain := FindStandaloneFrom(s, PlainTag, 0);
    var secure := FindAssignment(s, SecureTag);
    if plain.Some? && secure.Some? then
      StandaloneCapture(s, plain.value);
      Some(map[NetflixId := plain.value, SecureNetflixId := secure.value])
    else
      None
  }

  // ---------------------------------------------------------------------
  // Strategy 2: a JSON array of {name, value} objects

  /** The JSON branch is tried when the declared type lower-cases to "json"
      or the text, left-stripped, starts with `[`. */
  predicate JsonGate(text: string, hint: string) {
    Lower(hint) == "json" || StartsWith(LStrip(text), "[")
  }

  /** A JSON cookie object: a dict with a string `name` and a string `value`. */
  function JsonCookieRow(c: Json): Option<Pair> {
    if c.JObject? && "name" in c.fields && "value" in c.fields
       && c.fields["name"].JString? && c.fields["value"].JString?
    then Some((c.fields["name"].s, c.fields["value"].s))
    else None
  }

  /** An element on which `{c['name']: c['value'] for c in arr if
      isinstance(c, dict) and 'name' in c and 'value' in c}` raises: a dict
      whose `name` cannot be a key. */
  predicate RaisesInDictBuild(c: Json) {
    c.JObject? && "name" in c.fields && "value" in c.fields && Unhashable(c.fields["name"])
  }

  /** Strategy 2 as bot7.py, bot6.py, bot2.py and bot.py write it. Once the
      gate is open and the text decodes to a list, the branch never falls
      through, even for an empty list; a decode error falls through; the
      `TypeError` of an unhashable name escapes, since only
      `JSONDecodeError` is caught. */
  function JsonStep(text: string, hint: string, dec: Decoder): (r: Step)
    ensures r != Continue <==> JsonGate(text, hint) && dec(text).Some? && dec(text).value.JArray?
    ensures r.Crash? <==> JsonGate(text, hint) && dec(text).Some? && dec(text).value.JArray?
                          && exists i :: 0 <= i < |dec(text).value.items| && RaisesInDictBuild(dec(text).value.items[i])
    ensures r.Done? ==> forall k :: k in r.m <==> exists i :: Yields(dec(text).value.items, JsonCookieRow, i, k)
    ensures r.Done? ==> forall i, k :: LastYield(dec(text).value.items, JsonCookieRow, i, k) ==>
                          r.m[k] == JsonCookieRow(dec(text).value.items[i]).value.1
  {
    if !JsonGate(text, hint) then Continue
    else
      match dec(text)
      case Some(JArray(items)) =>
        if exists i :: 0 <= i < |items| && RaisesInDictBuild(items[i]) then Crash
        else Done(Gather(items, JsonCookieRow))
      case _ => Continue
  }

  /** An element on which service.py's `{c["name"]: c["value"] for c in arr
      if "name" in c and "value" in c}` raises. Without the `isinstance`
      test, `in` is a substring test on a string, a membership test on a
      list and a `TypeError` on a number, boolean or null; subscripting a
      string or list with "name" raises too. */
  predicate RaisesInServiceBuild(c: Json) {
    match c
    case JObject(f) => "name" in f && "value" in f && Unhashable(f["name"])
    case JString(s) => Contains(s, "name") && Contains(s, "value")
    case JArray(xs) => JString("name") in xs && JString("value") in xs
    case _ => true
  }

  /** Strategy 2 as service.py writes it: tried whatever the file type, and
      any exception falls through. */
  function ServiceJsonStep(text: string, dec: Decoder): (r: Option<CookieMap>)
    ensures r.Some? <==> dec(text).Some? && dec(text).value.JArray?
                         && forall i :: 0 <= i < |dec(text).value.items| ==> !RaisesInServiceBuild(dec(text).value.items[i])
    ensures r.Some? ==> forall k :: k in r.value <==> exists i :: Yields(dec(text).value.items, JsonCookieRow, i, k)
    ensures r.Some? ==> forall i, k :: LastYield(dec(text).value.items, JsonCookieRow, i, k) ==>
                          r.value[k] == JsonCookieRow(dec(text).value.items[i]).value.1
  {
    match dec(text)
    case Some(JArray(items)) =>
      if exists i :: 0 <= i < |items| && RaisesInServiceBuild(items[i]) then None
      else Some(Gather(items, JsonCookieRow))
    case _ => None
  }

  // ---------------------------------------------------------------------
  // Strategy 3 (bot7.py, bot6.py): `name=value` segments separated by `|`

  /** One `|`-segment: stripped, split at its first `=`, both halves stripped. */
  function PipeRow(part: string): Option<Pair> {
    match SplitFirst(Strip(part), '=')
    case None => None
    case Some((n, v)) => Some((Strip(n), Strip(v)))
  }

  /** The gate of strategy 3: the text holds `|` and both identifiers. */
  predicate PipeGate(text: string) {
    '|' in text && Contains(text, NetflixId) && Contains(text, SecureNetflixId)
  }

  /** The dict the segment loop of strategy 3 builds: every name a segment
      gave, with the value of the last such segment (`Gather`). */
  function PipeCookies(text: string): CookieMap {
    Gather(SplitOn(text, '|'), PipeRow)
  }

  /** Strategy 3: tried only when the gate is open, kept exactly when both
      session cookies came out of the segments. */
  function PipeScan(text: string): (r: Option<CookieMap>)
    ensures r.Some? <==> PipeGate(text) && NetflixId in PipeCookies(text) && SecureNetflixId in PipeCookies(text)
    ensures r.Some? ==> r.value == PipeCookies(text)
  {
    if PipeGate(text) then
      var m := PipeCookies(text);
      if NetflixId in m && SecureNetflixId in m then Some(m) else None
    else
      None
  }

  // ---------------------------------------------------------------------
  // Strategy 4: Netscape cookie-file rows

  /** A stripped row that the loop skips: empty, or a `#` comment that is
      not an HttpOnly row. */
  predicate SkippedRow(line: string) {
    line == [] || (StartsWith(line, "#") && !StartsWith(line, HttpOnlyPrefix))
  }

  /** A row without its HttpOnly marker. */
  function RowBody(line: string): string {
    if StartsWith(line, HttpOnlyPrefix) then line[|HttpOnlyPrefix|..] else line
  }

  /** The fields of a row body: split on tabs and, with `spaceFallback`,
      re-split on whitespace when that gave fewer than seven. */
  function RowFields(body: string, spaceFallback: bool): (fs: seq<string>)
    ensures !spaceFallback ==> fs == SplitOn(body, '\t')
  {
    var tabs := SplitOn(body, '\t');
    if spaceFallback && |tabs| < 7 then SplitWhitespace(body) else tabs
  }

  /** The sixth and seventh fields are name and value. */
  function FieldsPair(fields: seq<string>): (r: Option<Pair>)
    ensures r.Some? <==> |fields| >= 7
  {
    if |fields| >= 7 then Some((fields[5], fields[6])) else None
  }

  /** One Netscape row: stripped; empty rows and comments skipped; the
      HttpOnly marker removed; the sixth and seventh fields are name and
      value. */
  function NetscapeRow(raw: string, spaceFallback: bool): (r: Option<Pair>)
    ensures r.Some? ==> !SkippedRow(Strip(raw))
  {
    var line := Strip(raw);
    if SkippedRow(line) then None else FieldsPair(RowFields(RowBody(line), spaceFallback))
  }

  /** The row reader of bot7.py and bot6.py (tab, then whitespace). */
  function NetscapeRowLoose(raw: string): Option<Pair> {
    NetscapeRow(raw, true)
  }

  /** The row reader of bot.py and bot2.py (tab only). */
  function NetscapeRowTab(raw: string): Option<Pair> {
    NetscapeRow(raw, false)
  }

  /** The row reader of service.py: rows are not stripped, every `#` row is
      skipped, tab-separated only. */
  function ServiceNetscapeRow(line: string): (r: Option<Pair>)
    ensures r.Some? ==> !StartsWith(line, "#") && Strip(line) != []
  {
    if StartsWith(line, "#") || Strip(line) == [] then None
    else FieldsPair(SplitOn(line, '\t'))
  }

  // ---------------------------------------------------------------------
  // Strategy 5: `name=value` pairs separated by `;`

  /** One `;`-segment of bot7.py, bot6.py, bot2.py and bot.py: stripped, then
      split at its first `=`; name and value are not stripped again. */
  function SemicolonRow(part: string): Option<Pair> {
    match SplitFirst(Strip(part), '=')
    case None => None
    case Some((n, v)) => Some((n, v))
  }

  /** One segment of service.py's fallback: split at its first `=`, then
      name and value stripped. */
  function ServicePairRow(part: string): Option<Pair> {
    match SplitFirst(part, '=')
    case None => None
    case Some((n, v)) => Some((Strip(n), Strip(v)))
  }

  function SemicolonPairs(text: string): CookieMap {
    Gather(SplitOn(text, ';'), SemicolonRow)
  }

  // ---------------------------------------------------------------------
  // The three chains

  /** `parse_cookies` of bot7.py and bot6.py, for a given strategy 1: the
      code as written uses `DirectScan`, the corrected code `SessionScan`.
      The first strategy that yields decides. */
  function ParseFive(scan: string -> Option<CookieMap>, text: string, hint: string, dec: Decoder): (r: Parsed)
    ensures scan(text).Some? ==> r == Cookies(scan(text).value)
    ensures r.Raised? <==> scan(text).None? && JsonStep(text, hint, dec).Crash?
    ensures scan(text).None? && JsonStep(text, hint, dec).Done? ==> r == Cookies(JsonStep(text, hint, dec).m)
    ensures scan(text).None? && JsonStep(text, hint, dec).Continue? && PipeScan(text).Some? ==> r == Cookies(PipeScan(text).value)
  {
    match scan(text)
    case Some(m) => Cookies(m)
    case None =>
      match JsonStep(text, hint, dec)
      case Crash => Raised
      case Done(m) => Cookies(m)
      case Continue =>
        match PipeScan(text)
        case Some(m) => Cookies(m)
        case None =>
          var rows := Gather(SplitLines(text), NetscapeRowLoose);
          if rows != map[] then Cookies(rows) else Cookies(SemicolonPairs(text))
  }

  /** `parse_cookies` of bot.py and bot2.py. */
  function ParseThree(text: string, hint: string, dec: Decoder): (r: Parsed)
    ensures r.Raised? <==> JsonStep(text, hint, dec).Crash?
  {
    match JsonStep(text, hint, dec)
    case Crash => Raised
    case Done(m) => Cookies(m)
    case Continue =>
      var rows := Gather(SplitLines(text), NetscapeRowTab);
      if rows == map[] && Strip(text) != [] then Cookies(SemicolonPairs(text)) else Cookies(rows)
  }

  /** `parse_cookies` of service.py; it never raises. */
  function ParseService(text: string, dec: Decoder): (r: CookieMap)
    ensures ServiceJsonStep(text, dec).Some? ==> r == ServiceJsonStep(text, dec).value
  {
    match ServiceJsonStep(text, dec)
    case Some(m) => m
    case None =>
      var rows := Gather(SplitLines(text), ServiceNetscapeRow);
      if rows != map[] then rows
      else Gather(SplitOn(Replace(text, '\n', ';'), ';'), ServicePairRow)
  }
}
