/** What service.py's aggregation promises: the code is the last one seen,
    the GUIDs form a set, names fall back to GUIDs, dates keep their
    order, the latest date is the maximum, and the rendered code and name
    lines can be read back. */
module ServiceLaws {
  import opened Wrappers
  import opened Text
  import opened Json
  import opened CookieParse
  import opened Service

  /** Every `authCode` match, in the order the responses arrived. */
  function AllCodes(rs: seq<AccountResponse>): seq<string> {
    if rs == [] then []
    else (if rs[0].AccountBody? then rs[0].codes else []) + AllCodes(rs[1..])
  }

  /** Every `guid` match, in order. */
  function AllGuids(rs: seq<AccountResponse>): seq<string> {
    if rs == [] then []
    else (if rs[0].AccountBody? then rs[0].guids else []) + AllGuids(rs[1..])
  }

  /** The captured code is the last `authCode` match over all responses,
      or the starting value when there is none. */
  lemma {:induction false} CaptureCodeIsLast(rs: seq<AccountResponse>, code: Option<string>)
    ensures AllCodes(rs) == [] ==> CaptureCode(rs, code) == code
    ensures AllCodes(rs) != [] ==> CaptureCode(rs, code) == Some(AllCodes(rs)[|AllCodes(rs)| - 1])
    decreases |rs|
  {
    if rs != [] {
      var next := if rs[0].AccountBody? && rs[0].codes != [] then Some(rs[0].codes[|rs[0].codes| - 1]) else code;
      CaptureCodeIsLast(rs[1..], next);
      var here := if rs[0].AccountBody? then rs[0].codes else [];
      assert AllCodes(rs) == here + AllCodes(rs[1..]);
    }
  }

  /** The GUIDs collected are exactly the GUIDs matched, each once. */
  lemma {:induction false} CollectGuidsIsSet(rs: seq<AccountResponse>, acc: set<string>)
    ensures CollectGuids(rs, acc) == acc + (set g | g in AllGuids(rs))
    decreases |rs|
  {
    if rs == [] {
      assert (set g | g in AllGuids(rs)) == {};
    } else {
      var here := if rs[0].AccountBody? then rs[0].guids else [];
      var next := if rs[0].AccountBody? then acc + (set g | g in rs[0].guids) else acc;
      assert next == acc + (set g | g in here);
      CollectGuidsIsSet(rs[1..], next);
      assert AllGuids(rs) == here + AllGuids(rs[1..]);
      assert (set g | g in AllGuids(rs)) == (set g | g in here) + (set g | g in AllGuids(rs[1..]));
    }
  }

  /** Every `date` match of the readable responses, in order. */
  function AllProfileDates(rs: seq<ProfileResponse>): seq<nat> {
    if rs == [] then []
    else (if rs[0].ProfileBody? then rs[0].dates else []) + AllProfileDates(rs[1..])
  }

  /** Every `profileName` match of the readable responses, in order. */
  function AllProfileNames(rs: seq<ProfileResponse>): seq<string> {
    if rs == [] then []
    else (if rs[0].ProfileBody? then rs[0].names else []) + AllProfileNames(rs[1..])
  }

  /** Names whose decoding never raises. */
  ghost predicate Decodable(names: seq<string>, unescape: string -> Option<string>) {
    forall i :: 0 <= i < |names| ==> unescape(names[i]).Some?
  }

  lemma DecodableSplit(a: seq<string>, b: seq<string>, unescape: string -> Option<string>)
    requires Decodable(a + b, unescape)
    ensures Decodable(a, unescape) && Decodable(b, unescape)
  {
    assert forall i :: 0 <= i < |a| ==> a[i] == (a + b)[i];
    assert forall i :: 0 <= i < |b| ==> b[i] == (a + b)[|a| + i];
  }

  /** One readable response whose names all decode: its last name wins and
      its dates are appended. */
  lemma HandleAll(state: (Option<string>, seq<nat>), r: ProfileResponse, unescape: string -> Option<string>)
    requires r.ProfileBody? && Decodable(r.names, unescape)
    ensures Handle(state, r, unescape).1 == state.1 + r.dates
    ensures r.names == [] ==> Handle(state, r, unescape).0 == state.0
    ensures r.names != [] ==> Handle(state, r, unescape).0 == unescape(r.names[|r.names| - 1])
  {
  }

  /** When no name fails to decode, a profile page collects every date
      it saw, in order. */
  lemma {:induction false} ObserveDates(rs: seq<ProfileResponse>, state: (Option<string>, seq<nat>),
                                        unescape: string -> Option<string>)
    requires Decodable(AllProfileNames(rs), unescape)
    ensures Observe(rs, state, unescape).1 == state.1 + AllProfileDates(rs)
    decreases |rs|
  {
    if rs != [] {
      var names := if rs[0].ProfileBody? then rs[0].names else [];
      var dates := if rs[0].ProfileBody? then rs[0].dates else [];
      assert AllProfileNames(rs) == names + AllProfileNames(rs[1..]);
      DecodableSplit(names, AllProfileNames(rs[1..]), unescape);
      var mid := Handle(state, rs[0], unescape);
      if rs[0].ProfileBody? {
        HandleAll(state, rs[0], unescape);
      }
      assert mid.1 == state.1 + dates;
      ObserveDates(rs[1..], mid, unescape);
      assert AllProfileDates(rs) == dates + AllProfileDates(rs[1..]);
      assert state.1 + dates + AllProfileDates(rs[1..]) == state.1 + (dates + AllProfileDates(rs[1..]));
    }
  }

  /** When no name fails to decode, a profile page's name is the last name
      seen, decoded, or the starting one when there is none. */
  lemma {:induction false} ObserveName(rs: seq<ProfileResponse>, state: (Option<string>, seq<nat>),
                                       unescape: string -> Option<string>)
    requires Decodable(AllProfileNames(rs), unescape)
    ensures AllProfileNames(rs) == [] ==> Observe(rs, state, unescape).0 == state.0
    ensures AllProfileNames(rs) != [] ==>
              Observe(rs, state, unescape).0 == unescape(AllProfileNames(rs)[|AllProfileNames(rs)| - 1])
    decreases |rs|
  {
    if rs != [] {
      var names := if rs[0].ProfileBody? then rs[0].names else [];
      var rest := AllProfileNames(rs[1..]);
      assert AllProfileNames(rs) == names + rest;
      DecodableSplit(names, rest, unescape);
      var mid := Handle(state, rs[0], unescape);
      if rs[0].ProfileBody? {
        HandleAll(state, rs[0], unescape);
      }
      ObserveName(rs[1..], mid, unescape);
      if rest == [] && names != [] {
        assert AllProfileNames(rs) == names;
      } else if rest != [] {
        assert AllProfileNames(rs)[|AllProfileNames(rs)| - 1] == rest[|rest| - 1];
      }
    }
  }

  /** A profile page on which no name was found is listed by its GUID. */
  lemma NameFallsBack(guid: string, rs: seq<ProfileResponse>, unescape: string -> Option<string>)
    requires AllProfileNames(rs) == []
    ensures ProfileResult(guid, rs, unescape).0 == guid
    ensures ProfileResult(guid, rs, unescape).1 == AllProfileDates(rs)
  {
    ObserveDates(rs, (None, []), unescape);
    ObserveName(rs, (None, []), unescape);
  }

  /** A profile page whose names all decode is listed under the last one,
      decoded, unless that is empty. */
  lemma LastNameWins(guid: string, rs: seq<ProfileResponse>, unescape: string -> Option<string>, name: string)
    requires AllProfileNames(rs) != [] && Decodable(AllProfileNames(rs), unescape)
    requires unescape(AllProfileNames(rs)[|AllProfileNames(rs)| - 1]) == Some(name) && name != []
    ensures ProfileResult(guid, rs, unescape).0 == name
  {
    ObserveName(rs, (None, []), unescape);
  }

  /** Without a service code the cookie is invalid, whatever profiles were
      found, once every page has loaded. */
  lemma InvalidWithoutCode(text: string, dec: Decoder, account: CookieMap -> Visit<seq<AccountResponse>>,
                           profile: string -> Visit<seq<ProfileResponse>>, enumerate: set<string> -> seq<string>,
                           unescape: string -> Option<string>)
    requires ParseService(text, dec) != map[]
    requires account(ParseService(text, dec)).Loaded?
    requires AllCodes(account(ParseService(text, dec)).value) == []
    requires forall g :: profile(g).Loaded?
    ensures ServiceCheck(text, dec, account, profile, enumerate, unescape) == InvalidCookie
  {
    CaptureCodeIsLast(account(ParseService(text, dec)).value, None);
  }

  /** A valid outcome carries the last code seen, one name per listed
      GUID in listing order, and the latest date over all profiles. */
  lemma ValidSummary(text: string, dec: Decoder, account: CookieMap -> Visit<seq<AccountResponse>>,
                     profile: string -> Visit<seq<ProfileResponse>>, enumerate: set<string> -> seq<string>,
                     unescape: string -> Option<string>)
    requires ServiceCheck(text, dec, account, profile, enumerate, unescape).Valid?
    ensures var rs := account(ParseService(text, dec)).value;
            var gs := enumerate(CollectGuids(rs, {}));
            var o := ServiceCheck(text, dec, account, profile, enumerate, unescape);
            AllCodes(rs) != [] && o.code == AllCodes(rs)[|AllCodes(rs)| - 1] &&
            |o.names| == |gs| &&
            (forall i :: 0 <= i < |gs| ==> o.names[i] == ProfileResult(gs[i], profile(gs[i]).value, unescape).0)
    ensures var rs := account(ParseService(text, dec)).value;
            var gs := enumerate(CollectGuids(rs, {}));
            var results := VisitProfiles(gs, profile, unescape);
            results.Loaded? && ServiceCheck(text, dec, account, profile, enumerate, unescape).latest == Latest(AllDates(results.value))
  {
    CaptureCodeIsLast(account(ParseService(text, dec)).value, None);
  }

  /** The summary's date is the latest over every profile's dates, and
      absent exactly when no profile showed one. */
  lemma LatestOverProfiles(results: seq<(string, seq<nat>)>)
    ensures Latest(AllDates(results)).None? <==> forall i :: 0 <= i < |results| ==> results[i].1 == []
    ensures Latest(AllDates(results)).Some? ==>
              (exists i :: 0 <= i < |results| && Latest(AllDates(results)).value in results[i].1) &&
              forall i, j :: 0 <= i < |results| && 0 <= j < |results[i].1| ==> results[i].1[j] <= Latest(AllDates(results)).value
  {
    var all := AllDates(results);
    if all != [] {
      assert all[0] in all;
    }
  }

  /** The rendered code reads back as the code. */
  lemma CodeTextRead(code: string)
    requires |code| >= 3
    ensures CodeText(code)[3] == '-'
    ensures CodeText(code)[..3] + CodeText(code)[4..] == code
  {
  }

  /** A numbered line reads back as its number and its name: the digits
      before the first '.' denote the number, and the name follows ". ". */
  lemma NumberedNameRead(names: seq<string>, i: nat)
    requires i < |names|
    ensures var l := NumberedNames(names)[i];
            var k := |NatToString(i + 1)|;
            k + 2 <= |l| && IndexOf(l, '.') == Some(k) && AllDigits(l[..k]) && DigitsValue(l[..k]) == i + 1 &&
            l[k..k + 2] == ". " && l[k + 2..] == names[i]
  {
    var d := NatToString(i + 1);
    var l := NumberedNames(names)[i];
    assert l == d + ". " + names[i];
    assert l[..|d|] == d;
    assert l[|d|] == '.';
    IndexOfIs(l, '.', |d|);
  }
}
