/** The account report a bot sends back for a working cookie: the billing
    lines of `extract_netflix_account_info`, then one "Label: value" line per
    account field that was found, in a fixed order. The account page's
    regular expressions are not modelled: `Lookups` holds what each pattern
    captured. The library calls the report makes (country and language
    names, `unicode_escape` decoding, date formatting) are `Externals`. */
module Account {
  import opened Wrappers
  import opened Text

  /** The bots whose reports differ: bot.py, bot2.py, bot6.py, bot7.py. */
  datatype Variant = Bot | Bot2 | Bot6 | Bot7

  /** Where the source has a defect, the model follows either the code as
      written or the code as evidently intended: bot7.py's country step
      here, strategy 1 of bot6.py and bot7.py in the parser. */
  datatype Edition = AsWritten | Corrected

  /** What each field pattern captured on the account page, absent when it
      did not match. The `(true|false)` captures are booleans. */
  datatype Lookups = Lookups(
    thirdParty: Option<bool>,
    thirdPartyMethod: Option<string>,
    card: Option<(string, string)>,
    cardType: Option<string>,
    canChangePlan: Option<bool>,
    onHold: Option<bool>,
    plan: Option<string>,
    membership: Option<string>,
    country: Option<string>,
    firstName: Option<string>,
    email: Option<string>,
    phone: Option<string>,
    memberSince: Option<nat>,
    nextBilling: Option<string>,
    extraMember: Option<bool>,
    language: Option<string>)

  /** The library calls, `None` where the library raises:
      - `countryName`: the `name` of `pycountry.countries.get(alpha_2=code)`,
        which raises `AttributeError` on an unknown code;
      - `languageName`: `langcodes.Language.get(code).display_name()`;
      - `unescape`: `bytes(s, 'utf-8').decode('unicode_escape')`;
      - `formatDate`: the UTC date of a millisecond timestamp, formatted. */
  datatype Externals = Externals(
    countryName: string -> Option<string>,
    languageName: string -> string,
    unescape: string -> Option<string>,
    formatDate: nat -> Option<string>)

  // ---------------------------------------------------------------------
  // Billing: `extract_netflix_account_info`

  const InfoHeader := "Account info"

  /** `s.replace('_', ' ')`. */
  function Spaced(s: string): string {
    Replace(s, '_', ' ')
  }

  /** `s.replace('_', ' ').upper()`, the rendering of payment methods. */
  function Shout(s: string): string {
    Upper(Spaced(s))
  }

  /** `s.replace('*', '•')`, the rendering of a masked card number. */
  function Bulleted(s: string): string {
    Replace(s, '*', '•')
  }

  /** The third-party branch returns: the flag is `true` and a payment
      method was found. */
  predicate ThirdPartyBilled(l: Lookups) {
    l.thirdParty == Some(true) && l.thirdPartyMethod.Some?
  }

  /** The three-line billing summary, or `None`; it raises only while
      decoding the card's display text. */
  function AccountInfo(l: Lookups, ext: Externals): (r: Outcome<Option<string>>)
    ensures r.Raises? <==> !ThirdPartyBilled(l) && l.card.Some? && ext.unescape(l.card.value.1).None?
    ensures r == Ok(None) <==> !ThirdPartyBilled(l) && l.card.None?
    ensures r.Ok? && r.value.Some? ==> StartsWith(r.value.value, InfoHeader + "\nBilled: ")
  {
    if ThirdPartyBilled(l) then
      Ok(Some(InfoHeader + "\nBilled: " + "Third party" + "\nUsing: " + Shout(l.thirdPartyMethod.value)))
    else
      match l.card
      case None => Ok(None)
      case Some((payment, displayRaw)) =>
        match ext.unescape(displayRaw)
        case None => Raises
        case Some(display) =>
          var kind := l.cardType.GetOr(payment);
          Ok(Some(InfoHeader + "\nBilled: " + Shout(payment) + "\nUsing: " + Shout(kind) + " " + Bulleted(display)))
  }

  /** `info.splitlines()[1:] if info else []`: the summary without its
      header line. */
  function BilledUsing(info: Option<string>): (r: seq<string>)
    ensures info.None? || info.value == [] ==> r == []
  {
    if info.Some? && info.value != [] then SplitLines(info.value)[1..] else []
  }

  // ---------------------------------------------------------------------
  // Field renderings

  /** Python's `x if x else None` on an optional string: empty strings are
      false and drop their line. */
  function Truthy(o: Option<string>): (r: Option<string>)
    ensures r.Some? <==> o.Some? && o.value != []
    ensures r.Some? ==> r == o
  {
    if o.Some? && o.value != [] then o else None
  }

  /** The text a `(true|false)` pattern captures. */
  function BoolText(b: bool): string {
    if b then "true" else "false"
  }

  /** `m.group(1).capitalize()` on a `(true|false)` capture. */
  function Capitalized(b: bool): (r: string)
    ensures r == (if b then "True" else "False")
  {
    Capitalize(BoolText(b))
  }

  /** `"Active" if hold == "False" else "On Hold"`. */
  function PlanStatus(hold: bool): string {
    if Capitalized(hold) == "False" then "Active" else "On Hold"
  }

  /** `m.replace('_', ' ').title()`, the rendering of the membership status. */
  function MembershipText(m: string): string {
    Title(Spaced(m))
  }

  /** An optional capture decoded with `unicode_escape`. */
  function Unescaped(o: Option<string>, ext: Externals): (r: Outcome<Option<string>>)
    ensures o.None? ==> r == Ok(None)
    ensures o.Some? ==> (r.Raises? <==> ext.unescape(o.value).None?)
    ensures r.Ok? && o.Some? ==> r.value == ext.unescape(o.value)
  {
    match o
    case None => Ok(None)
    case Some(s) =>
      match ext.unescape(s)
      case None => Raises
      case Some(t) => Ok(Some(t))
  }

  /** `(code) Name` for a two-letter country code, as bot.py, bot2.py and
      bot6.py compute it; an unknown code makes `.name` raise. */
  function CountryText(code: Option<string>, ext: Externals): (r: Outcome<Option<string>>)
    ensures code.None? ==> r == Ok(None)
    ensures code.Some? ==> (r.Raises? <==> ext.countryName(code.value).None?)
  {
    match code
    case None => Ok(None)
    case Some(c) =>
      match ext.countryName(c)
      case None => Raises
      case Some(n) => Ok(Some("(" + c + ") " + n))
  }

  /** bot7.py's country step: its pattern has no capture group, so
      `group(1)` raises whenever the field is there. */
  function CountryAsWritten(code: Option<string>): (r: Outcome<Option<string>>)
    ensures r.Raises? <==> code.Some?
  {
    if code.Some? then Raises else Ok(None)
  }

  /** The formatted signup date; formatting a timestamp out of range
      raises. */
  function SignupText(ms: Option<nat>, ext: Externals): (r: Outcome<Option<string>>)
    ensures ms.None? ==> r == Ok(None)
    ensures ms.Some? ==> (r.Raises? <==> ext.formatDate(ms.value).None?)
  {
    match ms
    case None => Ok(None)
    case Some(t) =>
      match ext.formatDate(t)
      case None => Raises
      case Some(d) => Ok(Some(d))
  }

  /** Truthiness applied inside an outcome. */
  function TruthyOutcome(o: Outcome<Option<string>>): (r: Outcome<Option<string>>)
    ensures r.Raises? <==> o.Raises?
    ensures r.Ok? ==> r.value == Truthy(o.value)
  {
    match o
    case Raises => Raises
    case Ok(x) => Ok(Truthy(x))
  }

  // ---------------------------------------------------------------------
  // The report lines

  const ReportHeader := "Account Information:"

  /** The labels of the optional lines, in report order. */
  function Labels(v: Variant): (r: seq<string>)
    ensures |r| == 12
  {
    ["Country", "Membership status", "Plan status", "Plan details", "Can change plan",
     "Next payment", "Signup D&T", if v == Bot then "Extra Member" else "Extra Slots",
     "Mail", "Phone", "Name", "Display Language"]
  }

  /** The "Can change plan" value: absent from bot.py's report, "Unknown"
      by default in bot2.py's, shown only when found in bot6.py's and
      bot7.py's. */
  function ChangePlanValue(v: Variant, l: Lookups): Option<string> {
    match v
    case Bot => None
    case Bot2 => Some(if l.canChangePlan.Some? then Capitalized(l.canChangePlan.value) else "Unknown")
    case _ => if l.canChangePlan.Some? then Some(Capitalized(l.canChangePlan.value)) else None
  }

  /** The extra-member value: "Yes"/"No" in bot.py, the capitalised flag
      elsewhere. */
  function ExtraValue(v: Variant, l: Lookups): Option<string> {
    match l.extraMember
    case None => None
    case Some(b) => Some(if v == Bot then (if Capitalized(b) == "True" then "Yes" else "No") else Capitalized(b))
  }

  /** The name value: raw in bot.py, `unicode_escape`-decoded when non-empty
      elsewhere. */
  function NameValue(v: Variant, l: Lookups, ext: Externals): Outcome<Option<string>> {
    if v == Bot || Truthy(l.firstName).None? then Ok(Truthy(l.firstName))
    else TruthyOutcome(Unescaped(l.firstName, ext))
  }

  /** The plan value: raw in bot6.py and bot7.py, decoded in bot.py and
      bot2.py. */
  function PlanValue(v: Variant, l: Lookups, ext: Externals): Outcome<Option<string>> {
    if v == Bot6 || v == Bot7 then Ok(Truthy(l.plan)) else TruthyOutcome(Unescaped(l.plan, ext))
  }

  function MembershipValue(l: Lookups): Option<string> {
    if l.membership.Some? then Truthy(Some(MembershipText(l.membership.value))) else None
  }

  function StatusValue(l: Lookups): Option<string> {
    if l.onHold.Some? then Some(PlanStatus(l.onHold.value)) else None
  }

  function LanguageValue(l: Lookups, ext: Externals): Option<string> {
    if l.language.Some? then Truthy(Some(ext.languageName(l.language.value))) else None
  }

  /** The country value: bot7.py as written raises whenever the field
      matched; the other bots, and bot7.py corrected, render the code. */
  function CountryValue(v: Variant, e: Edition, l: Lookups, ext: Externals): Outcome<Option<string>> {
    if v == Bot7 && e == AsWritten then CountryAsWritten(l.country) else TruthyOutcome(CountryText(l.country, ext))
  }

  /** The value of each optional line, in `Labels` order; a value is
      `Raises` when computing it raises. */
  function Fields(v: Variant, e: Edition, l: Lookups, ext: Externals): (r: seq<Outcome<Option<string>>>)
    ensures |r| == 12
  {
    [CountryValue(v, e, l, ext),
     Ok(MembershipValue(l)),
     Ok(StatusValue(l)),
     PlanValue(v, l, ext),
     Ok(ChangePlanValue(v, l)),
     TruthyOutcome(Unescaped(l.nextBilling, ext)),
     TruthyOutcome(SignupText(l.memberSince, ext)),
     Ok(ExtraValue(v, l)),
     TruthyOutcome(Unescaped(l.email, ext)),
     TruthyOutcome(Unescaped(l.phone, ext)),
     NameValue(v, l, ext),
     Ok(LanguageValue(l, ext))]
  }

  /** All values, or `Raises` when any computation raises. */
  function Collect(os: seq<Outcome<Option<string>>>): (r: Outcome<seq<Option<string>>>)
    ensures r.Raises? <==> exists i :: 0 <= i < |os| && os[i].Raises?
    ensures r.Ok? ==> |r.value| == |os| && forall i :: 0 <= i < |os| ==> os[i] == Ok(r.value[i])
  {
    if os == [] then Ok([])
    else
      match Collect(os[1..])
      case Raises => Raises
      case Ok(rest) =>
        match os[0]
        case Raises => Raises
        case Ok(x) =>
          assert forall i :: 1 <= i < |os| ==> os[i] == os[1..][i - 1];
          Ok([x] + rest)
  }

  /** A labelled value. */
  type Entry = (string, Option<string>)

  /** `f"{label}: {value}"`. */
  function Line(name: string, value: string): string {
    name + ": " + value
  }

  /** The lines of the entries that have a value, in entry order. */
  function Present(es: seq<Entry>): (r: seq<string>)
    ensures |r| <= |es|
    ensures forall i :: 0 <= i < |es| && es[i].1.Some? ==> Line(es[i].0, es[i].1.value) in r
    ensures forall j :: 0 <= j < |r| ==> exists i :: 0 <= i < |es| && es[i].1.Some? && r[j] == Line(es[i].0, es[i].1.value)
  {
    if es == [] then []
    else
      var rest := Present(es[1..]);
      assert forall i :: 1 <= i < |es| ==> es[i] == es[1..][i - 1];
      if es[0].1.Some? then [Line(es[0].0, es[0].1.value)] + rest else rest
  }

  /** Pairs labels with values. */
  function Entries(labels: seq<string>, vals: seq<Option<string>>): (r: seq<Entry>)
    requires |labels| == |vals|
    ensures |r| == |labels|
    ensures forall i :: 0 <= i < |r| ==> r[i] == (labels[i], vals[i])
  {
    seq(|labels|, i requires 0 <= i < |labels| => (labels[i], vals[i]))
  }

  /** The `section` list of `process_file`: the header, the billing lines,
      then a line for each field that has a value. Any exception raised on
      the way escapes. */
  function Report(v: Variant, e: Edition, l: Lookups, ext: Externals): (r: Outcome<seq<string>>)
    ensures r.Raises? <==> AccountInfo(l, ext).Raises? || exists i :: 0 <= i < 12 && Fields(v, e, l, ext)[i].Raises?
    ensures r.Ok? ==> |r.value| >= 1 && r.value[0] == ReportHeader
    ensures r.Ok? ==> AccountInfo(l, ext).Ok? &&
                      var b := BilledUsing(AccountInfo(l, ext).value);
                      1 + |b| <= |r.value| && r.value[..1 + |b|] == [ReportHeader] + b
    ensures r.Ok? ==> forall i :: 0 <= i < 12 && Fields(v, e, l, ext)[i].Ok? && Fields(v, e, l, ext)[i].value.Some? ==>
                        Line(Labels(v)[i], Fields(v, e, l, ext)[i].value.value) in r.value
    ensures r.Ok? ==> forall j :: 1 + |BilledUsing(AccountInfo(l, ext).value)| <= j < |r.value| ==>
                        ShownAt(v, e, l, ext, r.value[j])
  {
    match AccountInfo(l, ext)
    case Raises => Raises
    case Ok(info) =>
      var fs := Fields(v, e, l, ext);
      match Collect(fs)
      case Raises => Raises
      case Ok(vals) =>
        var es := Entries(Labels(v), vals);
        var b := BilledUsing(info);
        var p := Present(es);
        var r := [ReportHeader] + b + p;
        assert forall x :: x in p ==> x in r;
        forall j | 1 + |b| <= j < |r| ensures ShownAt(v, e, l, ext, r[j]) {
          assert r[j] == p[j - 1 - |b|];
          var i :| 0 <= i < |es| && es[i].1.Some? && p[j - 1 - |b|] == Line(es[i].0, es[i].1.value);
          assert fs[i] == Ok(vals[i]);
        }
        Ok(r)
  }

  /** `x` is the line of some field that has a value. */
  ghost predicate ShownAt(v: Variant, e: Edition, l: Lookups, ext: Externals, x: string) {
    exists i :: 0 <= i < 12 && Fields(v, e, l, ext)[i].Ok? && Fields(v, e, l, ext)[i].value.Some?
                && x == Line(Labels(v)[i], Fields(v, e, l, ext)[i].value.value)
  }
}
