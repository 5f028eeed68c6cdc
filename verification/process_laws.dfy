/** What `process_file` promises about the session filter, the validity
    test and the way the bots treat errors. */
module ProcessLaws {
  import opened Wrappers
  import opened Text
  import opened Json
  import opened CookieParse
  import opened Account
  import opened AccountLaws
  import opened Process

  /** One session cookie is enough to pass the filter. */
  lemma OneKeyIsEnough(m: CookieMap)
    requires NetflixId in m && SecureNetflixId !in m
    ensures SessionCookies(m) == map[NetflixId := m[NetflixId]]
  {
    assert SessionCookies(m).Keys == {NetflixId};
  }

  /** bot6.py and bot7.py decide on the session cookies alone: two parsed
      maps with the same session cookies get the same verdict. */
  lemma OnlySessionCookiesMatter(v: Variant, e: Edition, m1: CookieMap, m2: CookieMap, fetch: Fetch,
                                 lookups: string -> Lookups, ext: Externals)
    requires v == Bot6 || v == Bot7
    requires m1 != map[] && m2 != map[] && SessionCookies(m1) == SessionCookies(m2)
    ensures Decide(v, e, m1, fetch, lookups, ext) == Decide(v, e, m2, fetch, lookups, ext)
  {
  }

  /** The check is a prefix test: a redirect to the login page is invalid,
      and so is any URL shorter than the account page's. */
  lemma ShortUrlInvalid(url: string)
    requires |url| < |AccountUrl|
    ensures !OnAccountPage(url)
  {
  }

  /** A redirect to the login page makes the cookies invalid in every
      bot. */
  lemma LoginRedirectInvalid(v: Variant, e: Edition, m: CookieMap, fetch: Fetch, lookups: string -> Lookups, ext: Externals, body: string)
    requires m != map[] && SessionCookies(m) != map[]
    requires forall jar, u :: fetch(jar, u) == Response("https://www.netflix.com/login", body)
    ensures Decide(v, e, m, fetch, lookups, ext) == Invalid
  {
    ShortUrlInvalid("https://www.netflix.com/login");
  }

  /** The bots differ on an exception that is not a transport error while
      fetching the account page: bot.py and bot2.py call the cookies
      invalid, bot6.py and bot7.py let it escape. */
  lemma OtherErrorsDiffer(v: Variant, e: Edition, m: CookieMap, fetch: Fetch, lookups: string -> Lookups, ext: Externals)
    requires m != map[] && SessionCookies(m) != map[]
    requires forall jar :: fetch(jar, RootUrl).Response? && fetch(jar, AccountUrl) == OtherError
    ensures (v == Bot || v == Bot2) ==> Decide(v, e, m, fetch, lookups, ext) == Invalid
    ensures (v == Bot6 || v == Bot7) ==> Decide(v, e, m, fetch, lookups, ext) == Crashed
  {
    assert fetch(SessionCookies(m), RootUrl).Response?;
    assert fetch(m, AccountUrl) == OtherError;
  }

  /** A transport error makes the cookies invalid in every bot. */
  lemma TransportErrorInvalid(v: Variant, e: Edition, m: CookieMap, fetch: Fetch, lookups: string -> Lookups, ext: Externals)
    requires m != map[] && SessionCookies(m) != map[]
    requires forall jar, u :: fetch(jar, u) == HttpError
    ensures Decide(v, e, m, fetch, lookups, ext) == Invalid
  {
    assert fetch(SessionCookies(m), RootUrl) == HttpError;
    assert fetch(m, AccountUrl) == HttpError;
  }

  /** A working verdict always carries the report, which starts with its
      header. */
  lemma WorkingHasHeader(v: Variant, e: Edition, text: string, hint: string, dec: Decoder, fetch: Fetch,
                         lookups: string -> Lookups, ext: Externals)
    requires Check(v, e, text, hint, dec, fetch, lookups, ext).Working?
    ensures Check(v, e, text, hint, dec, fetch, lookups, ext).lines[0] == ReportHeader
  {
  }

  /** A JSON upload holding an empty list is "format incorrect" in every
      bot, whatever else the text holds, unless bot6.py's or bot7.py's
      direct scan already found the session cookies. */
  lemma EmptyJsonList(v: Variant, e: Edition, text: string, hint: string, dec: Decoder, fetch: Fetch,
                      lookups: string -> Lookups, ext: Externals)
    requires JsonGate(text, hint) && dec(text) == Some(JArray([]))
    requires (v == Bot6 || v == Bot7) ==> Strategy1(e)(text).None?
    ensures Check(v, e, text, hint, dec, fetch, lookups, ext) == FormatIncorrect
  {
    assert JsonStep(text, hint, dec) == Done(Gather([], JsonCookieRow));
    assert Gather([], JsonCookieRow) == map[];
  }

  /** bot.py and bot2.py never send the "missing session cookies" reply: a
      map without the session keys goes to the account page as it is. */
  lemma NoSessionFilterInOldBots(v: Variant, e: Edition, m: CookieMap, fetch: Fetch, lookups: string -> Lookups, ext: Externals)
    requires v == Bot || v == Bot2
    requires m != map[]
    ensures !Decide(v, e, m, fetch, lookups, ext).MissingSession?
    ensures Decide(v, e, m, fetch, lookups, ext) == Conclude(v, e, PlainCheck(fetch, m).0, PlainCheck(fetch, m).1, lookups, ext)
  {
  }

  /** bot7.py as written crashes on every working cookie whose account
      page carries the signup country, instead of sending the report. */
  lemma AsWrittenCountryCrashes(m: CookieMap, fetch: Fetch, lookups: string -> Lookups, ext: Externals,
                                url: string, body: string)
    requires SessionCookies(m) != map[]
    requires fetch(SessionCookies(m), RootUrl).Response?
    requires fetch(SessionCookies(m), AccountUrl) == Response(url, body) && OnAccountPage(url)
    requires lookups(body).country.Some?
    ensures Decide(Bot7, AsWritten, m, fetch, lookups, ext) == Crashed
  {
    assert m != map[];
    CountryAsWrittenCrashes(lookups(body), ext, lookups(body).country.value);
  }

  /** The corrected bot7.py sends a report with the country line for the
      same cookie, when the code is known and nothing else raises. */
  lemma CorrectedCountryReported(m: CookieMap, fetch: Fetch, lookups: string -> Lookups, ext: Externals,
                                 url: string, body: string, code: string, name: string)
    requires SessionCookies(m) != map[]
    requires fetch(SessionCookies(m), RootUrl).Response?
    requires fetch(SessionCookies(m), AccountUrl) == Response(url, body) && OnAccountPage(url)
    requires lookups(body).country == Some(code) && ext.countryName(code) == Some(name)
    requires Report(Bot7, Corrected, lookups(body), ext).Ok?
    ensures Decide(Bot7, Corrected, m, fetch, lookups, ext).Working?
    ensures Line("Country", "(" + code + ") " + name) in Decide(Bot7, Corrected, m, fetch, lookups, ext).lines
  {
    assert m != map[];
    CountryShown(Bot7, Corrected, lookups(body), ext, code, name);
  }
}
