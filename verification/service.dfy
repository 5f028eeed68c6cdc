/** service.py's `process_file`: load the account page with the parsed
    cookies, collect the service code and the profile GUIDs from the
    responses the page receives, visit each profile's viewing history,
    and summarise. The browser is outside the model: a visit is given as
    what its responses held, or as a time-out or another failure. */
module Service {
  import opened Wrappers
  import opened Text
  import opened Json
  import opened CookieParse

  /** A response seen while the account page loads: one whose text could
      not be read, or the `authCode` digit strings and `guid` strings the
      patterns matched in it, in order. */
  datatype AccountResponse = AccountUnreadable | AccountBody(codes: seq<string>, guids: seq<string>)

  /** A response seen while a profile page loads: unreadable, or the
      `profileName` strings and `date` numbers matched in it, in order. */
  datatype ProfileResponse = ProfileUnreadable | ProfileBody(names: seq<string>, dates: seq<nat>)

  /** A page visit: the responses it saw, or the exception that ended it. */
  datatype Visit<T> = Loaded(value: T) | TimedOut | Failed

  /** The reply service.py sends. */
  datatype Outcome = NoCookies | ScrapeTimedOut | ScrapeFailed | InvalidCookie
                   | Valid(code: string, names: seq<string>, latest: Option<nat>)

  // ---------------------------------------------------------------------
  // The account page

  /** `on_resp` over the responses in order: each `authCode` match
      overwrites the code. */
  function CaptureCode(rs: seq<AccountResponse>, code: Option<string>): (r: Option<string>)
    ensures r.None? ==> code.None?
    decreases |rs|
  {
    if rs == [] then code
    else
      var next := if rs[0].AccountBody? && rs[0].codes != [] then Some(rs[0].codes[|rs[0].codes| - 1]) else code;
      CaptureCode(rs[1..], next)
  }

  /** `on_resp` over the responses in order: each `guid` match is added to
      the set. */
  function CollectGuids(rs: seq<AccountResponse>, acc: set<string>): (r: set<string>)
    ensures acc <= r
    decreases |rs|
  {
    if rs == [] then acc
    else
      var next := if rs[0].AccountBody? then acc + (set g | g in rs[0].guids) else acc;
      CollectGuids(rs[1..], next)
  }

  // ---------------------------------------------------------------------
  // Profile pages

  /** The `profileName` loop of `ph`: each name is decoded with
      `unicode_escape` and overwrites the last one. A decode that raises
      ends the handler for that response, keeping the names decoded
      before it; the second component tells whether every decode
      succeeded. */
  function DecodeNames(names: seq<string>, prof: Option<string>, unescape: string -> Option<string>): (r: (Option<string>, bool))
    ensures r.1 <==> forall i :: 0 <= i < |names| ==> unescape(names[i]).Some?
    ensures r.1 && names != [] ==> r.0 == unescape(names[|names| - 1])
    ensures names == [] ==> r == (prof, true)
    decreases |names|
  {
    if names == [] then (prof, true)
    else
      match unescape(names[0])
      case None => (prof, false)
      case Some(p) =>
        assert forall i :: 1 <= i < |names| ==> names[i] == names[1..][i - 1];
        DecodeNames(names[1..], Some(p), unescape)
  }

  /** `ph` for one response: the name loop, then, unless a decode raised,
      the dates appended in order. */
  function Handle(state: (Option<string>, seq<nat>), r: ProfileResponse, unescape: string -> Option<string>): (s: (Option<string>, seq<nat>))
    ensures r.ProfileUnreadable? ==> s == state
    ensures |state.1| <= |s.1| && s.1[..|state.1|] == state.1
  {
    match r
    case ProfileUnreadable => state
    case ProfileBody(names, dates) =>
      var (prof, ok) := DecodeNames(names, state.0, unescape);
      if ok then (prof, state.1 + dates) else (prof, state.1)
  }

  /** `ph` over all responses of one profile page. */
  function Observe(rs: seq<ProfileResponse>, state: (Option<string>, seq<nat>), unescape: string -> Option<string>): (s: (Option<string>, seq<nat>))
    ensures |state.1| <= |s.1| && s.1[..|state.1|] == state.1
    decreases |rs|
  {
    if rs == [] then state
    else
      var mid := Handle(state, rs[0], unescape);
      var s := Observe(rs[1..], mid, unescape);
      assert s.1[..|state.1|] == s.1[..|mid.1|][..|state.1|];
      s
  }

  /** `fetch_profile`: `prof or guid` and the dates seen. The name is the
      last one the page showed, unless there was none or it was empty,
      since an empty string is falsy; then it is the GUID. */
  function ProfileResult(guid: string, rs: seq<ProfileResponse>, unescape: string -> Option<string>): (r: (string, seq<nat>))
    ensures var o := Observe(rs, (None, []), unescape).0;
            && (o.Some? && o.value != [] ==> r.0 == o.value)
            && (o.None? || o.value == [] ==> r.0 == guid)
    ensures r.1 == Observe(rs, (None, []), unescape).1
  {
    var (prof, dates) := Observe(rs, (None, []), unescape);
    (if prof.Some? && prof.value != [] then prof.value else guid, dates)
  }

  /** The profile visits in the given order; the first that ends in an
      exception ends the whole fan-out. */
  function VisitProfiles(gs: seq<string>, profile: string -> Visit<seq<ProfileResponse>>,
                         unescape: string -> Option<string>): (r: Visit<seq<(string, seq<nat>)>>)
    ensures r.Loaded? <==> forall i :: 0 <= i < |gs| ==> profile(gs[i]).Loaded?
    ensures r.Loaded? ==> |r.value| == |gs|
    ensures r.Loaded? ==> forall i :: 0 <= i < |gs| ==> r.value[i] == ProfileResult(gs[i], profile(gs[i]).value, unescape)
    decreases |gs|
  {
    if gs == [] then Loaded([])
    else
      assert forall i :: 1 <= i < |gs| ==> gs[i] == gs[1..][i - 1];
      match profile(gs[0])
      case TimedOut => TimedOut
      case Failed => Failed
      case Loaded(rs) =>
        match VisitProfiles(gs[1..], profile, unescape)
        case Loaded(rest) => Loaded([ProfileResult(gs[0], rs, unescape)] + rest)
        case TimedOut => TimedOut
        case Failed => Failed
  }

  // ---------------------------------------------------------------------
  // Summary

  /** `[ms for _, ds in results for ms in ds]`. */
  function AllDates(results: seq<(string, seq<nat>)>): (r: seq<nat>)
    ensures forall i, j :: 0 <= i < |results| && 0 <= j < |results[i].1| ==> results[i].1[j] in r
    ensures forall x :: x in r ==> exists i :: 0 <= i < |results| && x in results[i].1
  {
    if results == [] then []
    else
      var rest := AllDates(results[1..]);
      assert forall i :: 1 <= i < |results| ==> results[i] == results[1..][i - 1];
      results[0].1 + rest
  }

  /** The latest timestamp, absent when there is none. */
  function Latest(ds: seq<nat>): (r: Option<nat>)
    ensures r.None? <==> ds == []
    ensures r.Some? ==> r.value in ds && forall x :: x in ds ==> x <= r.value
  {
    if ds == [] then None
    else
      match Latest(ds[1..])
      case None => Some(ds[0])
      case Some(m) =>
        assert forall x :: x in ds ==> x == ds[0] || x in ds[1..];
        Some(if ds[0] >= m then ds[0] else m)
  }

  /** `f"{code[:3]}-{code[3:]}"`. */
  function CodeText(code: string): (r: string)
    ensures |r| == |code| + 1
    ensures var k := if |code| < 3 then |code| else 3; r[k] == '-' && r[..k] + r[k + 1..] == code
  {
    var k := if |code| < 3 then |code| else 3;
    code[..k] + "-" + code[k..]
  }

  /** `f"{i}. {n}"` for the names, numbered from 1. */
  function NumberedNames(names: seq<string>): (r: seq<string>)
    ensures |r| == |names|
  {
    seq(|names|, i requires 0 <= i < |names| => NatToString(i + 1) + ". " + names[i])
  }

  /** service.py's `process_file`. `account` is the account-page visit
      with the cookies set; `enumerate` is the order in which the GUID set
      is iterated. */
  function ServiceCheck(text: string, dec: Decoder,
                        account: CookieMap -> Visit<seq<AccountResponse>>,
                        profile: string -> Visit<seq<ProfileResponse>>,
                        enumerate: set<string> -> seq<string>,
                        unescape: string -> Option<string>): (r: Outcome)
    ensures r.NoCookies? <==> ParseService(text, dec) == map[]
    ensures r.Valid? ==> account(ParseService(text, dec)).Loaded?
    ensures r.Valid? ==> Some(r.code) == CaptureCode(account(ParseService(text, dec)).value, None)
  {
    var cookies := ParseService(text, dec);
    if cookies == map[] then NoCookies
    else
      match account(cookies)
      case TimedOut => ScrapeTimedOut
      case Failed => ScrapeFailed
      case Loaded(rs) =>
        var code := CaptureCode(rs, None);
        var guids := CollectGuids(rs, {});
        match VisitProfiles(enumerate(guids), profile, unescape)
        case TimedOut => ScrapeTimedOut
        case Failed => ScrapeFailed
        case Loaded(results) =>
          if code.None? then InvalidCookie
          else Valid(code.value, seq(|results|, i requires 0 <= i < |results| => results[i].0), Latest(AllDates(results)))
  }
}
