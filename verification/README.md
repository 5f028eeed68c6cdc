# nfcookiebot core, modelled in Dafny

nfcookiebot is a set of Telegram bots that check Netflix cookies. A user
uploads a cookie blob: a text or JSON file, a zip of such files, or a pasted
message. The bot parses it into a name→value cookie map and asks Netflix
whether the cookies still open the account page. For working cookies it
replies with an account report: billing, plan, country, contact details and
so on. There are four generations of the bot (`bot.py`, `bot2.py`, `bot6.py`,
`bot7.py`). A separate `service.py` drives a headless browser to read the
account's service code and its profiles' viewing history.

This project models the pure logic around that I/O:

- **Cookie parsers** (`cookies.dfy`, laws in `cookie_laws.dfy`). These are
  the three `parse_cookies` chains:
  - the five-strategy chain of `bot7.py` and `bot6.py`;
  - the three-strategy chain of `bot.py` and `bot2.py`;
  - the looser chain of `service.py`.

  Python's `str` operations they use are modelled exactly in `text.dfy`:
  - `isspace`;
  - `splitlines`;
  - `split` with and without a separator;
  - `strip`;
  - `title` and `capitalize` on ASCII letters.

  A JSON decode is a parameter returning the decoded value or `None`
  (`json.dfy`). A loop that builds a dict is the generic `Gather`.
- **Validity check and session filter** (`process.dfy`, laws in
  `process_laws.dfy`).
  - Each HTTP GET is a parameter: a final URL and body, a transport error,
    or another exception.
  - Validity is the prefix test on the final URL.
  - An exception that escapes `process_file` is the `Crashed` verdict.
- **Account report** (`account.dfy`, laws in `account_laws.dfy`).
  - The regex lookups on the account page are an input record of optional
    captures.
  - `pycountry`, `unicode_escape` and the date formatter are parameters
    that may fail. Failing stands for Python raising. `langcodes` is a
    parameter that always answers.
  - The report is an `Outcome`: its lines, or `Raises` when any step
    raised.
- **Upload splitting** (`upload.dfy`, laws in `upload_laws.dfy`). This
  covers:
  - the 4096-line limit;
  - one entry per non-blank line;
  - the zip member filter;
  - the `.txt`/`.json`/`.zip` dispatch of `bot7.py` and `bot.py`.
- **service.py's aggregation** (`service.dfy`, laws in
  `service_laws.dfy`).
  - The browser's responses are given as the pattern matches they held.
  - The code is the last `authCode` seen.
  - GUIDs are collected into a set.
  - A profile is named by its last decoded `profileName`, or by its GUID.
  - The latest activity is the maximum timestamp.
  - The code renders as `first3-rest`.

`wrappers.dfy` holds `Option` and `Outcome`, the latter standing for "a value
or a Python exception".

bot7.py carries two defects (see "## Findings"). Every operation they touch
takes an `Edition`: `AsWritten` is the code as it stands, `Corrected` the
evidently intended code. `Process.Check(v, AsWritten, ...)` is `process_file`
as written. `Process.Check(v, Corrected, ...)` applies both corrections:
- strategy 1 of bot7.py and bot6.py becomes `CookieParse.SessionScan`
  instead of `CookieParse.DirectScan` (`Process.Strategy1`);
- bot7.py's country step becomes the one of bot6.py (`Account.CountryValue`).

The other three bots do not depend on the edition.

`service.py:263` gathers the profile visits without `return_exceptions`, so
one profile page that times out or fails ends the whole check, with the
time-out or error reply. No partial result is produced. `Service.VisitProfiles`
models it that way.

## Model

| member | source | states |
|---|---|---|
| Text.Strip | bot7.py:87 | `strip()` is empty exactly when the text is all Python whitespace; otherwise it starts and ends with a non-whitespace character; a text already trimmed is unchanged |
| Text.LStrip | bot7.py:71 | `lstrip()` removes a whitespace-only prefix and leaves a text that is empty or starts with non-whitespace |
| Text.SplitOn | bot7.py:102 | `split('\t')` is never empty, no piece holds the separator, and joining the pieces with the separator gives the text back |
| Text.SplitOnJoin | bot7.py:86 | splitting a joined sequence of separator-free pieces gives the pieces back |
| Text.SplitFirst | bot7.py:89 | `split('=', 1)` applies exactly when '=' occurs; it cuts at the first '=' so that name + '=' + value is the text |
| Text.SplitWhitespace | bot7.py:104 | `split()` yields non-empty fields that hold no whitespace |
| Text.SplitWhitespaceJoin | bot7.py:104 | `split()` undoes joining non-empty whitespace-free fields with single spaces |
| Text.SplitLines | bot7.py:96 | `splitlines()` yields lines without any line boundary, and nothing exactly for the empty text |
| Text.SplitLinesJoin | bot7.py:96 | `splitlines()` undoes joining break-free lines with "\n" when the last line is non-empty |
| Text.SplitLinesBlank | bot.py:59 | every line of a blank text is blank |
| Text.Contains | bot7.py:84 | substring containment holds exactly when the pattern occurs at some position |
| Text.Upper | bot7.py:133 | `upper()` maps each character by itself, keeping the length |
| Text.Lower | bot7.py:71 | `lower()` maps each character by itself, keeping the length |
| Text.Replace | bot6.py:142 | `replace` of one character rewrites exactly the positions holding it |
| Text.Title | bot6.py:379 | `title()` upper-cases a letter that follows a non-letter and lower-cases one that follows a letter |
| Text.TitleIdempotent | bot6.py:379 | title-casing a title-cased text changes nothing |
| Text.Capitalize | bot6.py:367 | `capitalize()` upper-cases the first character and lower-cases the rest |
| Text.IndexOf | service.py:305 | the first occurrence of a character: absent exactly when it does not occur, and none precedes it |
| Text.NatToString | service.py:310 | `str(n)` is a non-empty digit string without a leading zero that denotes `n` |
| CookieParse.Gather | bot7.py:95-108 | the dict built by the row loop holds a name exactly when some row yields it, with the value of the last row that does |
| CookieParse.ValueRun | bot7.py:62 | the capture `([^\s;]+)` is the longest prefix of value characters |
| CookieParse.FindAssignment | bot7.py:62-63 | `re.search(key([^\s;]+))` finds nothing exactly when no position matches; otherwise it reports the greedy value of the leftmost match |
| CookieParse.SecureContainsPlain | bot7.py:62-63 | every `SecureNetflixId=` match contains a `NetflixId=` match six characters later |
| CookieParse.DirectScan | bot7.py:61-67 | strategy 1 as written fires exactly when `SecureNetflixId=` is followed by a value character; it then returns exactly the two session keys, `NetflixId` with the capture of the leftmost `NetflixId=` match and `SecureNetflixId` with that of the leftmost `SecureNetflixId=` match |
| CookieParse.FindStandaloneFrom | bot7.py:62 | the search for a `NetflixId=` that does not continue a word finds nothing exactly when there is no such match |
| CookieParse.StandaloneNotInsideSecure | bot7.py:62-63 | a standalone `NetflixId=` match never lies inside a `SecureNetflixId=` match |
| CookieParse.SessionScan | bot7.py:62-68 | corrected strategy 1: it fires exactly when both a standalone `NetflixId=` and a `SecureNetflixId=` match exist, returns exactly the two keys, and reads `SecureNetflixId` from its first match |
| CookieParse.JsonStep | bot7.py:70-81 | the JSON strategy stops exactly when the gate holds and the text decodes to a list; it raises exactly when an element with both keys has an unhashable name; otherwise the map's names are exactly those of the dict elements with a string name and value, each with the value of the last element naming it |
| CookieParse.ServiceJsonStep | service.py:50-55 | service.py's JSON strategy stops exactly when the text decodes to a list and no element makes the comprehension raise; the map's names are those of the cookie objects, each with the value of the last object naming it |
| CookieParse.PipeScan | bot7.py:84-93 | the pipe strategy returns exactly when the text holds '\|', `NetflixId` and `SecureNetflixId` and its segments yield both session keys; it then returns every name a segment gave, with the value of the last segment giving it |
| CookieParse.RowFields | bot2.py:66 | without the whitespace fallback a row's fields are its tab pieces |
| CookieParse.FieldsPair | bot7.py:103-108 | a row yields a pair exactly when it has at least seven fields |
| CookieParse.NetscapeRow | bot7.py:96-108 | a row yields a pair only when its stripped text is neither empty nor a comment other than `#HttpOnly_` |
| CookieParse.ServiceNetscapeRow | service.py:58-63 | service.py reads a row only when it does not start with '#' and is not blank |
| CookieParse.ParseFive | bot7.py:52-119 | for either strategy 1: when it fires its map is the result; the parse raises exactly when it does not fire and the JSON strategy raises; otherwise a JSON list gives its map, and then the pipe strategy's map when it fires |
| CookieParse.ParseThree | bot2.py:46-76 | bot.py and bot2.py raise exactly when the JSON strategy raises |
| CookieParse.ParseService | service.py:49-69 | when the JSON strategy stops, its map is the result |
| CookieLaws.PairsMapContents | bot7.py:113-119 | the reference dict of a list of pairs holds exactly their names, each with the value of its last pair |
| CookieLaws.GatherSame | bot7.py:95-108 | two row loops that yield the same pairs position by position build the same dict |
| CookieLaws.GatherNothing | bot7.py:109-110 | a loop in which no row yields a pair builds the empty dict, so the strategy falls through |
| CookieLaws.BlankHasNoAssignment | bot7.py:62-63 | a blank text holds no session assignment |
| CookieLaws.BlankGuardRedundant | bot.py:59-64 | the `file_content.strip()` guard changes nothing: the `;` strategy finds no pair in a blank text |
| CookieLaws.BlankHasNoRows | bot7.py:95-110 | none of the three Netscape readers finds a row in a blank text |
| CookieLaws.BlankUpload | bot.py:35-66 | a blank upload that is not a JSON list gives the empty map in every chain |
| CookieLaws.ValueRunIs | bot7.py:62 | the greedy capture stops exactly where the value characters stop |
| CookieLaws.SecureFirstSecureValue | bot7.py:63 | on `SecureNetflixId=v; NetflixId=w` the `SecureNetflixId` search reports v |
| CookieLaws.AsWrittenMisreadsNetflixId | bot7.py:62-68 | on `SecureNetflixId=v; NetflixId=w` strategy 1 as written gives both cookies the value v |
| CookieLaws.StandaloneIsSecond | bot7.py:62 | on that header the first standalone `NetflixId=` is the second assignment |
| CookieLaws.CorrectedReadsNetflixId | bot7.py:62-68 | on that header the corrected strategy 1 gives `NetflixId` w and `SecureNetflixId` v |
| CookieLaws.JsonRoundTrip | bot7.py:70-81 | a JSON export of cookie objects parses back to the dict of its pairs in every chain, in bot7.py and bot6.py when strategy 1 does not fire |
| CookieLaws.TabRowShape | bot7.py:96-102 | an exported Netscape row has no line break, starts with its domain and ends with its value |
| CookieLaws.TrimmedRowRead | bot7.py:97-108 | a trimmed non-comment row with seven or more tab fields yields its sixth and seventh fields |
| CookieLaws.TabRowRead | bot2.py:59-68 | every Netscape reader reads name and value back from an exported row |
| CookieLaws.ExportRowsRead | bot7.py:95-108 | `splitlines` gives the rows of a cookie file back, and every reader builds the dict of its pairs |
| CookieLaws.FiveWithoutSession | bot7.py:61-110 | in both editions, a text without a `SecureNetflixId=` match and without '\|' that is not a JSON list skips strategies 1 to 3: the Netscape rows decide, else the `;` pairs |
| CookieLaws.NoNameNoAssignment | bot7.py:62-63 | a text that never mentions `SecureNetflixId` has no `SecureNetflixId=` match |
| CookieLaws.NoEqualsNoAssignment | bot7.py:62-63 | a text without '=' has no `SecureNetflixId=` match |
| CookieLaws.FiveReadsRows | bot7.py:95-110 | in both editions, a text without '=' and '\|' that is not a JSON list is read by its Netscape rows when it has any |
| CookieLaws.NetscapeRoundTrip | bot.py:48-57 | a Netscape cookie file parses back to the dict of its pairs in every chain; in bot7.py and bot6.py, in both editions, when no field holds '=' or '\|' |
| CookieLaws.SpaceRowOnlyLoose | bot7.py:102-104 | a space-separated row is read only by bot7.py and bot6.py, which fall back to whitespace splitting |
| CookieLaws.MarkedRowRead | bot7.py:100-108 | a trimmed `#HttpOnly_` row is read from the tab fields after its marker |
| CookieLaws.HttpOnlyRowRead | bot7.py:98-101 | the bots read a `#HttpOnly_` row without its marker; service.py skips it as a comment |
| CookieLaws.EmptyValueRow | bot7.py:97-103 | a cookie with an empty value loses its trailing tab to `strip()` and is lost by the bots, while service.py reads it |
| CookieLaws.NoSpaceRowNone | bot7.py:102-105 | a line without whitespace has at most one field and yields no row |
| CookieLaws.NoSpaceNoRows | service.py:57-63 | a text without whitespace yields no Netscape rows in any reader |
| CookieLaws.PairTextRead | bot7.py:114-118 | both `;`-segment readers take a `name=value` pair back from its text |
| CookieLaws.HeaderShape | bot7.py:114 | the `;` pieces of a header are the pairs' texts |
| CookieLaws.HeaderPairsRead | service.py:64-68 | both `;` strategies read a header back to the dict of its pairs |
| CookieLaws.HeaderRoundTrip | bot7.py:112-119 | a `Cookie:` header that is not a JSON list parses back to the dict of its pairs in every chain; in bot7.py and bot6.py, in both editions, when it holds no `SecureNetflixId=` match and no '\|' |
| CookieLaws.HeaderSecureAssignment | bot7.py:62-63 | a header carrying a `SecureNetflixId` cookie with a value holds a `SecureNetflixId=` match |
| CookieLaws.HeaderSecureDecides | bot7.py:61-67 | such a header is decided by strategy 1 as written: exactly the two session keys come out and every other cookie of the header is dropped |
| CookieLaws.LoneSecureAsWritten | bot7.py:61-67 | on `SecureNetflixId=v` strategy 1 as written returns both session keys, each with the value v |
| CookieLaws.LoneSecureNoStandalone | bot7.py:62 | `SecureNetflixId=v` holds no standalone `NetflixId=` match, so corrected strategy 1 does not fire on it |
| CookieLaws.LoneSecurePairs | bot7.py:113-119 | the `;` strategy reads `SecureNetflixId=v` as the secure cookie alone |
| CookieLaws.FiveReadsPairs | bot7.py:69-119 | a text without whitespace and '\|' that strategy 1 and the JSON strategy pass over is read by its `;` pairs |
| CookieLaws.LoneSecureParsed | bot7.py:52-119 | on `SecureNetflixId=v` the chain as written yields both session keys with the value v; the corrected chain yields `SecureNetflixId` alone |
| CookieLaws.LoneSecureExample | bot7.py:52-119 | the input `SecureNetflixId=abc` gives {NetflixId: abc, SecureNetflixId: abc} as written and {SecureNetflixId: abc} corrected |
| CookieLaws.PipePairRead | bot7.py:86-90 | a `\|` segment reader takes a pair back from its `name=value` text |
| CookieLaws.PipeCookiesRead | bot7.py:84-90 | the segment loop rebuilds the dict of `\|`-joined pairs |
| CookieLaws.PipeRoundTrip | bot7.py:84-93 | a `\|`-joined line of `name=value` pairs holding both session cookies parses back through the pipe strategy to the dict of its pairs |
| CookieLaws.PipeLineParsed | bot7.py:52-93 | for a strategy 1 that passes over such a line, the five-strategy chain returns the `\|` strategy's dict; the strategy 1 of either edition does not pass over it (`CookieLaws.PipeLineAsWritten`), a line with spaces around `=` is the case that reaches strategy 3 (`CookieLaws.SpacedPipeRoundTrip`) |
| CookieLaws.LeadingCapture | bot7.py:62 | a text starting with `NetflixId=` followed only by value characters gives the whole rest to both `NetflixId` searches |
| CookieLaws.PipeLineSecureValue | bot7.py:63 | on `NetflixId=a\|SecureNetflixId=b` (no '=' in a) the `SecureNetflixId` search reports b |
| CookieLaws.PipeLineScans | bot7.py:61-67 | on that line strategy 1 fires in both editions, giving `NetflixId` the value `a\|SecureNetflixId=b` and `SecureNetflixId` the value b |
| CookieLaws.PipeLineAsWritten | bot7.py:52-93 | so the five-strategy chain returns that map in both editions and never reaches the `\|` strategy on such a line |
| CookieLaws.PipeLineExample | bot7.py:52-93 | the input `NetflixId=a\|SecureNetflixId=b` gives {NetflixId: a\|SecureNetflixId=b, SecureNetflixId: b} |
| CookieLaws.SpacedPairRead | bot7.py:86-90 | a `\|` segment `name = value` reads back as its pair, both halves stripped |
| CookieLaws.JoinSpaceBeforeEquals | bot7.py:85 | joining pieces whose every '=' follows a space with `\|` keeps that property |
| CookieLaws.SpacedNoAssignment | bot7.py:62-63 | a text whose every '=' follows a space has no `SecureNetflixId=` match |
| CookieLaws.SpacedScansSilent | bot7.py:61-67 | on a `\|` line with spaces around each '=' strategy 1 of neither edition fires |
| CookieLaws.SpacedCookiesRead | bot7.py:84-90 | the segment loop rebuilds the dict of such a line's pairs |
| CookieLaws.SpacedPipeScan | bot7.py:84-93 | strategy 3 reads such a line holding both session cookies back to the dict of its pairs |
| CookieLaws.SpacedPipeRoundTrip | bot7.py:52-93 | in both editions, a `\|` line `name = value\|...` holding both session cookies that is not a JSON list parses back to the dict of its pairs through strategy 3 |
| Account.AccountInfo | bot6.py:113-149 | the billing summary raises exactly when the card branch's display text fails to decode; it is absent exactly when neither branch applies; otherwise it starts "Account info\nBilled: " |
| Account.BilledUsing | bot6.py:361 | no info, or an empty one, gives no billing lines |
| Account.Truthy | bot6.py:422-436 | a field counts as present exactly when it is captured and non-empty |
| Account.Capitalized | bot6.py:367 | a `(true|false)` capture renders as "True" or "False" |
| Account.Unescaped | bot6.py:392-396 | a captured field is decoded with `unicode_escape`, raising exactly when the decoder does; a missing one stays missing |
| Account.CountryText | bot6.py:381-385 | a country code renders as "(code) name", raising exactly when the code is unknown |
| Account.CountryAsWritten | bot7.py:444-448 | bot7.py's country step raises exactly when the country pattern matched |
| Account.SignupText | bot6.py:398-403 | the signup timestamp is formatted, raising exactly when the formatter does |
| Account.Collect | bot6.py:363-418 | the field computations give their values exactly when none raises, position by position |
| Account.Present | bot6.py:422-436 | the present-only lines: each present field gives its "Label: value" line, and every line comes from a present field |
| Account.Report | bot7.py:421-499 | the report raises exactly when the billing summary or a field computation raises; otherwise it is the header "Account Information:", then exactly the billing lines, then the line of every field that has a value and no other line |
| AccountLaws.InfoLines | bot6.py:361 | the summary without its header is exactly the Billed and Using lines |
| AccountLaws.ThirdPartyLines | bot6.py:118-129 | third-party billing yields exactly "Billed: Third party" and "Using: " + the method with '_'→space, upper-cased |
| AccountLaws.CardLines | bot6.py:137-148 | card billing yields "Billed: METHOD" and "Using: TYPE display" with '*'→'•', TYPE falling back to the method |
| AccountLaws.ThirdPartyNeedsMethod | bot6.py:118-130 | a true third-party flag without a payment method gives the same summary as a false one: the card search runs |
| AccountLaws.PlanStatusActive | bot6.py:424-426 | the plan status is "Active" exactly when the account is not on hold, else "On Hold" |
| AccountLaws.TwoWordStatus | bot6.py:378-379 | a status of two letter words joined by '_' renders as the two words capitalised, separated by a space |
| AccountLaws.ChangePlanLine | bot2.py:274-276 | "Can change plan" is absent in bot.py, always present in bot2.py with "Unknown" exactly when the flag was not found (line 339), and present in bot6.py and bot7.py exactly when found |
| AccountLaws.ExtraMemberLine | bot.py:275 | bot.py says "Extra Member: Yes" exactly when the flag is true and "No" exactly when it is false; the others say "Extra Slots: True/False" |
| AccountLaws.NameDecoding | bot.py:237-238 | bot.py shows the first name as captured, whatever the decoder does; the others decode a non-empty name |
| AccountLaws.PlanDecoding | bot.py:218-226 | bot6.py and bot7.py show the plan as captured; bot.py and bot2.py decode it |
| AccountLaws.CountryAsWrittenCrashes | bot7.py:444-448 | in bot7.py as written, a page whose country pattern matched makes the country step and the whole report raise; the corrected step renders a known code as "(code) name" |
| AccountLaws.CountryField | bot6.py:381-385 | in those bots a known country code gives the Country field "(code) name" |
| AccountLaws.FieldShown | bot6.py:422-436 | a field with a value appears as "Label: value" in a report that did not raise |
| AccountLaws.CountryShown | bot6.py:381-385 | in bot.py, bot2.py and bot6.py, and in bot7.py corrected, a known country appears as "Country: (code) name" in every report that did not raise |
| AccountLaws.UnknownCountryRaises | bot6.py:385 | an unknown country code aborts the whole report |
| AccountLaws.BillingRaises | bot6.py:142 | a card display text the decoder rejects aborts the whole report |
| AccountLaws.PresentAppend | bot6.py:420-436 | the lines of two runs of fields are the first run's lines followed by the second's, so the report keeps the fixed order |
| AccountLaws.PresentAll | bot6.py:420-436 | when every field has a value each gives its line, in order |
| AccountLaws.PresentNone | bot6.py:420-436 | fields without a value give no line |
| AccountLaws.PresentOrder | bot7.py:487-499 | the lines of two entries with values appear in entry order |
| AccountLaws.ReportParts | bot7.py:421-499 | a report that was produced is exactly the header, the billing lines and the lines of the fields with values |
| AccountLaws.ReportOrder | bot7.py:487-499 | in a report the lines of two fields with values follow the billing lines, in the fixed label order |
| Upload.LastIndexOf | bot.py:146 | the last occurrence of a character: absent exactly when it does not occur, and no occurrence follows it |
| Upload.BaseName | bot.py:141 | `os.path.basename` is a '/'-free suffix that follows the last '/' |
| Upload.SplitExt | bot7.py:227 | `os.path.splitext`: root and extension concatenate to the path; the extension is empty or a '.' followed by no '.' or '/' |
| Upload.SplitExtOf | bot7.py:227 | a name whose base has a non-dot character before ".word" splits into the name and ".word" |
| Upload.LStripDots | bot7.py:249 | `lstrip('.')` is a suffix that does not start with '.' |
| Upload.NumberedFrom | bot7.py:244-249 | each numbered item is a non-empty image of the element at its 1-based index |
| Upload.NumberedOrdered | bot7.py:244 | the line numbers rise strictly |
| Upload.NumberedComplete | bot7.py:245-247 | every line with a non-empty image is numbered |
| Upload.LineEntries | bot7.py:244-249 | one entry per numbered non-blank line, named `<prefix>-part<n><suffix>` with the stripped line as content |
| Upload.SplitText | bot7.py:232-249 | a text with more than 4096 lines is refused with its line count; otherwise its line entries are scheduled |
| Upload.MemberKind | bot.py:146 | a member's type is a '.'-free suffix of its path |
| Upload.FilterFrom | bot.py:140-146 | the kept elements are exactly the accepted ones |
| Upload.MapFilter | bot.py:140-146 | the entries are exactly the images of the accepted members |
| Upload.ZipEntries | bot.py:139-146 | a member gives an entry exactly when it is not a macOS artefact and its lower-cased name ends in ".txt" or ".json" |
| Upload.Schedule | bot.py:153-157 | no files means the "no cookie files" reply; otherwise exactly these files are scheduled |
| Upload.DocumentSplit | bot7.py:226-258 | bot7.py refuses exactly the extensions other than .txt, .json and .zip, refuses over-long text files, splits a text file into line entries and a zip into its cookie members |
| Upload.PasteSplit | bot7.py:327-358 | a pasted message is refused exactly when it has more than 4096 lines; otherwise its non-blank lines are scheduled as "paste-part<n>.txt" entries |
| Upload.DocumentWhole | bot.py:131-146 | bot.py refuses exactly the other extensions, never counts lines, and schedules a text file whole |
| UploadLaws.LineBecomesEntry | bot7.py:244-249 | each non-blank line k becomes the entry "<file>-part<k+1><ext>" holding the stripped line |
| UploadLaws.EntryIsLine | bot7.py:244-249 | each entry is a non-blank stripped line named after its line number |
| UploadLaws.PartNameInjective | bot7.py:248 | different line numbers give different part names |
| UploadLaws.EntryNamesDistinct | bot7.py:244-249 | no two entries of one upload share a name |
| UploadLaws.DotFileHasNoExtension | bot7.py:227 | a dot file such as ".txt" has no extension and is refused |
| UploadLaws.KeptMemberKind | bot.py:144-146 | a kept zip member has type "txt" or "json" in some letter case |
| UploadLaws.SuffixKind | bot.py:146 | a member whose lower-cased path ends in "." and a lower-case word has that word as its lower-cased type |
| Process.SessionCookies | bot7.py:387-390 | the session map is the parsed map restricted to the two session keys, empty exactly when neither is present |
| Process.SessionCheck | bot7.py:403-420 | bot7.py and bot6.py raise exactly on a non-transport exception of either GET; the cookies are valid exactly when both GETs answer and the account GET ends on the account page |
| Process.PlainCheck | bot2.py:258-268 | bot.py and bot2.py are valid exactly when the GET answers on the account page; any exception is invalid with an empty body |
| Process.Conclude | bot6.py:359-436 | invalid cookies give the invalid verdict; valid ones give the report, or crash exactly when building it raises |
| Process.Decide | bot7.py:386-422 | an empty parse is "format incorrect"; bot6.py and bot7.py say "missing session cookies" exactly when a non-empty parse holds neither key |
| Process.Check | bot7.py:361-420 | "format incorrect" exactly when the parse is empty; a raising parse crashes; only bot6.py and bot7.py report missing session cookies; a parsed map gets the verdict `Decide` gives it |
| ProcessLaws.OneKeyIsEnough | bot7.py:387-391 | a map with only `NetflixId` passes the filter with that key alone |
| ProcessLaws.OnlySessionCookiesMatter | bot7.py:403-407 | two parses with the same session cookies get the same verdict in bot6.py and bot7.py |
| ProcessLaws.ShortUrlInvalid | bot7.py:417 | a URL shorter than the account URL is not the account page |
| ProcessLaws.LoginRedirectInvalid | bot7.py:417 | a redirect to the login page is invalid in every bot |
| ProcessLaws.OtherErrorsDiffer | bot6.py:345-357 | a non-transport exception on the account GET is invalid in bot.py and bot2.py but escapes in bot6.py and bot7.py |
| ProcessLaws.TransportErrorInvalid | bot6.py:355-357 | a transport error is invalid in every bot |
| ProcessLaws.WorkingHasHeader | bot6.py:420 | a working verdict's report starts with "Account Information:" |
| ProcessLaws.EmptyJsonList | bot2.py:50-55 | a JSON upload holding an empty list is "format incorrect" in every bot |
| ProcessLaws.NoSessionFilterInOldBots | bot.py:187-208 | bot.py and bot2.py never say "missing session cookies" and check with every parsed cookie |
| ProcessLaws.AsWrittenCountryCrashes | bot7.py:421-448 | bot7.py as written crashes on every valid cookie whose account page carries a signup country |
| ProcessLaws.CorrectedCountryReported | bot7.py:421-499 | the corrected bot7.py reports that cookie as working, with its Country line, when the code is known and nothing else raises |
| Service.DecodeNames | service.py:252-253 | the name loop completes exactly when every name decodes, ending on the last decoded name |
| Service.Handle | service.py:246-255 | an unreadable response changes nothing; the dates only grow by appending |
| Service.Observe | service.py:246-256 | over a page's responses the dates only grow by appending |
| Service.ProfileResult | service.py:244-261 | a profile is named by the last decoded name its page showed when that name is non-empty, and by its GUID when there was none or it was empty (`prof or guid`); its dates are all the dates observed |
| Service.VisitProfiles | service.py:263 | the fan-out succeeds exactly when every profile visit does, giving one result per GUID in order |
| Service.AllDates | service.py:289 | the flattened dates are exactly those of all profiles |
| Service.Latest | service.py:290-293 | the latest date is absent exactly when there are no dates, and otherwise is a date no smaller than any other |
| Service.CodeText | service.py:305 | the rendered code is one longer than the code, with '-' after at most three characters, and removing it gives the code back |
| Service.ServiceCheck | service.py:196-285 | "no cookies" exactly when the parse is empty; a valid outcome comes from a loaded account page and carries its captured code |
| ServiceLaws.CaptureCodeIsLast | service.py:220-227 | the captured code is the last `authCode` match over all responses, or the initial one when there is none |
| ServiceLaws.CollectGuidsIsSet | service.py:228-229 | the collected GUIDs are exactly the matched ones, each once |
| ServiceLaws.DecodableSplit | service.py:252-253 | names that all decode split into two runs that all decode |
| ServiceLaws.HandleAll | service.py:252-255 | a response whose names all decode appends all its dates and ends on its last name |
| ServiceLaws.ObserveDates | service.py:254-255 | when no name fails to decode, a profile page collects every date in order |
| ServiceLaws.ObserveName | service.py:252-253 | when no name fails to decode, a profile page's name is the decoded last name seen |
| ServiceLaws.NameFallsBack | service.py:261 | a profile page with no name is listed by its GUID with all its dates |
| ServiceLaws.LastNameWins | service.py:252-261 | a profile page whose names all decode is listed under the last one |
| ServiceLaws.InvalidWithoutCode | service.py:280-285 | without a service code the cookie is invalid, whatever the profiles gave |
| ServiceLaws.ValidSummary | service.py:280-293 | a valid outcome carries the last code seen, one name per listed GUID in listing order, and the latest of all profiles' dates |
| ServiceLaws.LatestOverProfiles | service.py:288-293 | the summary date is absent exactly when no profile showed a date; otherwise it is a date of some profile and no date of any profile is later |
| ServiceLaws.NumberedNameRead | service.py:309-310 | a numbered name line reads back as its 1-based number, ". ", and the name |

## Left out

- Telegram I/O is not modelled: messages, captions, renamed reply files, owner forwarding, channel-membership gating and `.env` loading. It is chat I/O and configuration.
- HTTP sessions (`httpx`, `requests`) and the Playwright browser become parameters. A GET is a function from the cookie jar and URL to its outcome; a page visit is the list of its responses' matches. The service-code button click and the waits are not modelled. Any change to the cookie jar between the two GETs of bot6.py and bot7.py is also not modelled.
- Semaphores, `create_task` and `asyncio.gather` are concurrency. The profile fan-out is sequential in the enumeration order of the GUID set, which is a parameter. When several profiles fail, the one reported first is the first in that order.
- The Python regex engine is not modelled. Each account-page field is an optional capture. Only strategy 1 of `parse_cookies` is modelled character by character, because its pattern overlap is the point. The bots differ slightly in their field patterns (`(.*?)` against `([^"]+)`, the "canChangePlan" pattern); those differences are absorbed into the captures.
- `datetime.fromtimestamp`/`strftime` involve floating point and time zones. The formatter is a parameter that may fail. service.py's latest date is the maximum epoch-millisecond value; it is not compared as local-time `datetime`s, which differ only around a daylight-saving fold.
- Service.ServiceCheck: a valid outcome always carries the latest date, but service.py:290 calls `datetime.fromtimestamp` outside the `try`, and a timestamp out of the platform's range raises there. The model does not have that crash.
- `pycountry`, `langcodes` and `unicode_escape` are foreign libraries. They are parameters; a failure of `pycountry` or `unicode_escape` stands for the library raising. The `langcodes` display name is total: the model has no path on which `langcodes` raises.
- JSON decoding is a parameter. A JSON cookie object whose name is a number, boolean or null is skipped, and so is one whose value is not a string (a number, boolean, null, array or object); Python would insert both.
- Zip decompression and `decode('utf-8', errors='ignore')` are not modelled. A zip is given as its members' paths and decoded texts.
- The upload handlers of bot6.py and bot2.py are not modelled; the modelled handlers are bot7.py's line splitting and bot.py's whole-file scheduling.
- Case mapping (`upper`, `lower`, `title`, `capitalize`) is modelled on ASCII letters only; other characters are left unchanged. For `title` a non-ASCII letter therefore counts as a word break: the letter after it is upper-cased, so `"éa".title()` is modelled as "éA" where Python gives "Éa".
- A strategy 1 that stops its capture at `\|` is not modelled: the evident intent of the `\|` format is that strategy 3 reads it, but no single corrected pattern is evident. Both editions keep the capture of bot7.py:62-63 across `\|` (`CookieLaws.PipeLineAsWritten`).
- Service.NumberedNames: its contract states only the length; `ServiceLaws.NumberedNameRead` states each line's content.
- Service.CaptureCode: its contract states only that a code once seen is kept; `ServiceLaws.CaptureCodeIsLast` states which code it is.
- Account.Fields: its contract states only that there are twelve fields; the per-field lemmas of `AccountLaws` state their values.

## Findings

| source | as written | input that shows it | evidently intended | confidence | as-written member | corrected member |
|---|---|---|---|---|---|---|
| bot7.py:444-448 | the `countryOfSignup` pattern has no capture group, so `co_m.group(1)` raises whenever the pattern matches, and `process_file` crashes | a valid cookie whose account page holds `"countryOfSignup":"US"` | capture the code as bot6.py:381 does and add "Country: (US) United States" | not executed | ProcessLaws.AsWrittenCountryCrashes | ProcessLaws.CorrectedCountryReported |
| bot7.py:61-67 | the search for `NetflixId=` also matches inside `SecureNetflixId=` | `SecureNetflixId=abc` gives {NetflixId: abc, SecureNetflixId: abc}; `SecureNetflixId=v; NetflixId=w` gives `NetflixId` the value v | read `NetflixId` from its own assignment: {SecureNetflixId: abc}, and w | not executed | CookieLaws.LoneSecureExample | CookieLaws.CorrectedReadsNetflixId |

The same strategy 1 appears in bot6.py:53-59. The as-written definitions are
`Account.CountryAsWritten` and `CookieParse.DirectScan`; the corrected ones
are `Account.CountryText` and `CookieParse.SessionScan`. The edition argument
selects between them. `AccountLaws.CountryAsWrittenCrashes`,
`CookieLaws.AsWrittenMisreadsNetflixId` and `CookieLaws.LoneSecureParsed`
state the as-written behaviour for all such inputs.

Strategy 1 also captures across `|`, since `|` is a value character of
`([^\s;]+)`. On `NetflixId=a|SecureNetflixId=b`, a line of the `|` format
that the docstring of `parse_cookies` lists as its own strategy, it gives
`NetflixId` the value `a|SecureNetflixId=b` in both editions
(`CookieLaws.PipeLineAsWritten`, `CookieLaws.PipeLineExample`). The same
applies to bot6.py:53-59. A `|` line with spaces around each `=` does reach
strategy 3, and it is read back (`CookieLaws.SpacedPipeRoundTrip`).
