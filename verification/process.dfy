/** `process_file` of the four bots: parse the cookie text, keep the
    session cookies (bot6.py, bot7.py), ask the account page whether they
    still work, and build the report. The network is a `Fetch` function
    from the cookie jar and a URL to the outcome of one GET; the account
    page's fields are read from the body by a `lookups` function. */
module Process {
  import opened Wrappers
  import opened Text
  import opened Json
  import opened CookieParse
  import opened Account

  const RootUrl := "https://www.netflix.com"
  const AccountUrl := "https://www.netflix.com/account"

  /** One GET: the final URL after redirects and the body, a transport
      error (`httpx.HTTPError`), or any other exception. */
  datatype Http = Response(url: string, body: string) | HttpError | OtherError

  type Fetch = (CookieMap, string) -> Http

  /** What `process_file` ends with. `Crashed` is an exception escaping
      the task. */
  datatype Verdict = FormatIncorrect | MissingSession | Invalid | Working(lines: seq<string>) | Crashed

  /** The session cookies: the parsed map restricted to the two keys. */
  function SessionCookies(m: CookieMap): (r: CookieMap)
    ensures r.Keys == m.Keys * {NetflixId, SecureNetflixId}
    ensures forall k :: k in r ==> r[k] == m[k]
    ensures r == map[] <==> NetflixId !in m && SecureNetflixId !in m
  {
    var r := map k | k in m && (k == NetflixId || k == SecureNetflixId) :: m[k];
    assert NetflixId in m ==> NetflixId in r;
    assert SecureNetflixId in m ==> SecureNetflixId in r;
    r
  }

  /** Whether the final URL is the account page. */
  predicate OnAccountPage(url: string) {
    StartsWith(url, AccountUrl)
  }

  /** bot6.py and bot7.py: a GET of the home page, then of the account
      page, with the session cookies. A transport error means invalid with
      an empty body; any other exception escapes. */
  function SessionCheck(fetch: Fetch, session: CookieMap): (r: Outcome<(bool, string)>)
    ensures r.Raises? <==> fetch(session, RootUrl).OtherError? ||
                           (fetch(session, RootUrl).Response? && fetch(session, AccountUrl).OtherError?)
    ensures r.Ok? && r.value.0 <==> fetch(session, RootUrl).Response? && fetch(session, AccountUrl).Response? &&
                                     OnAccountPage(fetch(session, AccountUrl).url)
    ensures r.Ok? && !(fetch(session, RootUrl).Response? && fetch(session, AccountUrl).Response?) ==> r.value == (false, [])
    ensures r.Ok? && fetch(session, RootUrl).Response? && fetch(session, AccountUrl).Response? ==>
              r.value.1 == fetch(session, AccountUrl).body
  {
    match fetch(session, RootUrl)
    case OtherError => Raises
    case HttpError => Ok((false, []))
    case Response(_, _) =>
      match fetch(session, AccountUrl)
      case OtherError => Raises
      case HttpError => Ok((false, []))
      case Response(url, body) => Ok((OnAccountPage(url), body))
  }

  /** bot.py and bot2.py: one GET of the account page with every parsed
      cookie; any exception means invalid with an empty body. */
  function PlainCheck(fetch: Fetch, cookies: CookieMap): (r: (bool, string))
    ensures r.0 <==> fetch(cookies, AccountUrl).Response? && OnAccountPage(fetch(cookies, AccountUrl).url)
    ensures !fetch(cookies, AccountUrl).Response? ==> r == (false, [])
    ensures fetch(cookies, AccountUrl).Response? ==> r.1 == fetch(cookies, AccountUrl).body
  {
    match fetch(cookies, AccountUrl)
    case Response(url, body) => (OnAccountPage(url), body)
    case _ => (false, [])
  }

  /** The report for a valid check, `Invalid` otherwise. */
  function Conclude(v: Variant, e: Edition, valid: bool, html: string, lookups: string -> Lookups, ext: Externals): (r: Verdict)
    ensures r.Invalid? <==> !valid
    ensures r.Crashed? <==> valid && Report(v, e, lookups(html), ext).Raises?
    ensures r.Working? ==> r.lines == Report(v, e, lookups(html), ext).value
  {
    if !valid then Invalid
    else
      match Report(v, e, lookups(html), ext)
      case Raises => Crashed
      case Ok(lines) => Working(lines)
  }

  /** Everything after parsing, for a parsed map. */
  function Decide(v: Variant, e: Edition, m: CookieMap, fetch: Fetch, lookups: string -> Lookups, ext: Externals): (r: Verdict)
    ensures r.FormatIncorrect? <==> m == map[]
    ensures r.MissingSession? <==> (v == Bot6 || v == Bot7) && m != map[] && SessionCookies(m) == map[]
  {
    if m == map[] then FormatIncorrect
    else if v == Bot6 || v == Bot7 then
      var session := SessionCookies(m);
      if session == map[] then MissingSession
      else
        match SessionCheck(fetch, session)
        case Raises => Crashed
        case Ok((valid, html)) => Conclude(v, e, valid, html, lookups, ext)
    else
      var (valid, html) := PlainCheck(fetch, m);
      Conclude(v, e, valid, html, lookups, ext)
  }

  /** Strategy 1 of bot6.py and bot7.py: the direct scan as written, the
      standalone scan corrected. */
  function Strategy1(e: Edition): string -> Option<CookieMap> {
    if e == AsWritten then DirectScan else SessionScan
  }

  /** The parser each bot uses. */
  function ParseFor(v: Variant, e: Edition, text: string, hint: string, dec: Decoder): Parsed {
    if v == Bot6 || v == Bot7 then ParseFive(Strategy1(e), text, hint, dec) else ParseThree(text, hint, dec)
  }

  /** `process_file`. */
  function Check(v: Variant, e: Edition, text: string, hint: string, dec: Decoder, fetch: Fetch,
                 lookups: string -> Lookups, ext: Externals): (r: Verdict)
    ensures r.FormatIncorrect? <==> ParseFor(v, e, text, hint, dec) == Cookies(map[])
    ensures ParseFor(v, e, text, hint, dec).Raised? ==> r.Crashed?
    ensures r.MissingSession? ==> v == Bot6 || v == Bot7
    ensures ParseFor(v, e, text, hint, dec).Cookies? ==> r == Decide(v, e, ParseFor(v, e, text, hint, dec).m, fetch, lookups, ext)
  {
    match ParseFor(v, e, text, hint, dec)
    case Raised => Crashed
    case Cookies(m) => Decide(v, e, m, fetch, lookups, ext)
  }
}
