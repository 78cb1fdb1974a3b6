# ceker in Dafny

A model of the core of **ceker**, a website-legitimacy checker, with proofs about it.

Given a URL, ceker does the following:

1. It trims the URL and puts `https://` in front when there is no scheme.
2. A host on the list of legitimate domains is accepted at once.
3. Otherwise it takes a reputation verdict from a URL scanner. The verdict comes from a cache keyed by the SHA-256 of the URL when the cached entry is still valid, and from a live scan otherwise.
4. It runs fixed host heuristics, each adding a weight to a suspicion score:
   - a free top-level domain;
   - phishing keywords in the host;
   - no https;
   - an unreachable site;
   - more than three labels;
   - a host that looks like an IPv4 address.
5. It weighs the domain's age and expiry from WHOIS, again cached or fetched.
6. It reuses or captures a screenshot.
7. It calls the site legitimate when the score stays under 4.

Around that pipeline the repository has several helpers. The model covers them too:

- URL canonicalization in the style of the Safe Browsing API. This covers percent-decoding, dot clean-up, IPv4 and IPv6 host normalization, path resolution and percent-escaping.
- Root-domain extraction.
- TLD validation against a registry.
- Client-side URL checks.
- The mappers for the scanner and WHOIS responses.
- The bulk inserts of the TLD and blacklist tables.
- The `{placeholder}` interpolation of the message table and the locale choice from request headers.
- The chat bot's command routing and reply.

Modules follow the source files:

| module | file(s) | form |
|---|---|---|
| `CheckWebsite` | lib/check-website.ts | class `Cache` over a map of rows, updated in place; a method per pipeline stage, each proved against a specification function |
| `Heuristics` | host checks of lib/check-website.ts and app/actions.ts | evidence records (check, points, line) accumulated by a method; weight lemmas |
| `ServerAction` | app/actions.ts | the older cache-free variant with threshold 3 |
| `Sanitize`, `PercentEscape`, `PathCanon`, `IPv4`, `IPv6` | lib/shared/url.ts | the loops (decode rounds, escaping, path stack, IPv4 combination, zero-run search) as methods with invariants; the compositions as functions |
| `RootDomain` | lib/utils/domain.ts | functions |
| `TldValidation` | lib/utils/tld.ts | functions; the registry is a set |
| `UrlUtils` | lib/utils/url.ts | functions |
| `Radar` | lib/external/cloudflare.ts | the scan outcome mapped to the result record |
| `Whois` | lib/external/whois.ts | the fetch outcome mapped to registration data |
| `Bulk`, `TldRepo`, `BlacklistRepo` | lib/repo/tld.ts, lib/repo/blacklist.ts | class `Table` holding a set of rows; the batch loop as a method |
| `Translations`, `I18nContext` | lib/i18n/translations.ts, lib/i18n/context.tsx | the message table as a total function over keys and locales, and the interpolation |
| `DetectLocale` | lib/i18n/detect-country.ts | functions |
| `Bot` | teams/bot.ts | the routing as a function to a `BotAction`; the reply as a method appending detail lines |
| `Text`, `Wrappers`, `WebUrl` | — | the JavaScript string primitives, `Option`, and the fields read from a parsed URL |

Collaborators become inputs:

- The WHATWG URL parser and serializer, `decodeURIComponent`, SHA-256 and `new Date(string)` are function-typed parameters.
- The check's own inputs are gathered in `CheckWebsite.Env`:
  - the list of legitimate hosts, as a set;
  - the clock;
  - the expiry the cache repository gives new rows;
  - how the live scan, the HEAD probe, the WHOIS request and the screenshot ended.
- Progress events are kept as the list of percentages in the order reported.
- The collaborators the check reads from are kept as a call log, each with its argument: the legitimate-list lookup, the cache read, the scanner, the HEAD request, WHOIS and the screenshot capture. The cache writes show in the table after the check.

Every message key is defined in both locales by construction: `Translations.English` and `Translations.Indonesian` are total over the key type.

## Model

| member | source | states |
|---|---|---|
| Text.Trim | lib/check-website.ts:23 | the trimmed text is empty or begins and ends with a character that is not JavaScript white space |
| Text.TrimInfix | lib/check-website.ts:23 | the trimmed text is the stretch of the input left once a run of white space is taken off each end: everything before it and everything after it is JavaScript white space |
| Text.TrimIdempotent | lib/check-website.ts:23 | trimming twice gives what trimming once gives |
| Text.TrimEmptyIff | lib/check-website.ts:23 | a text trims to the empty string exactly when every character of it is white space |
| Text.Lower | lib/check-website.ts:44 | lower-casing keeps the length and maps every character by itself to its lower-case form |
| Text.LowerIdempotent | lib/check-website.ts:44 | lower-casing twice gives what lower-casing once gives |
| Text.DropLeading | lib/shared/url.ts:158 | the result is what is left after a run of the character at the start: everything removed is that character, and what is left does not start with it (the leading dots of a hostname here, the leading zeros of an IPv6 group at lib/shared/url.ts:251) |
| Text.DropTrailing | lib/shared/url.ts:158 | the result is what is left before a run of the character at the end: everything removed is that character, and what is left does not end with it |
| Text.RemoveDots | lib/utils/tld.ts:60 | removing the dots keeps exactly the characters of the text other than '.' and never lengthens it; a single '.' goes and any other single character stays |
| Text.RemoveDotsConcat | lib/utils/tld.ts:60 | removing the dots from a concatenation removes them from each part: the dot-free characters keep their order |
| Text.Split | lib/utils/domain.ts:17 | splitting on a character gives at least one part, and no part holds the separator |
| Text.JoinSplit | lib/utils/domain.ts:17 | joining the parts of a split with the separator gives the text back |
| Text.SplitJoin | lib/utils/domain.ts:44 | splitting the join of separator-free parts gives the parts back |
| Text.NatToString | lib/shared/url.ts:218-223 | a number prints as at least one decimal digit, with no leading zero unless it is 0 |
| Text.DecimalRoundTrip | lib/shared/url.ts:218-223 | reading back the printed decimal gives the number |
| Text.CollapseRuns | lib/shared/url.ts:87 | collapsing the runs of one character (the slashes of a path here, the dots of a hostname at lib/shared/url.ts:159) leaves no two in a row, never lengthens the text, and keeps its first and last characters |
| Text.CollapseFields | lib/shared/url.ts:87 | collapsing keeps the first field and all the non-empty fields, in order: only empty fields between separators go |
| Text.CollapseNoRun | lib/shared/url.ts:87 | a text with no two separators in a row is left alone |
| Text.NonEmptyPartsConcat | lib/shared/url.ts:159 | the non-empty parts of a concatenation are those of each half, in order |
| UrlUtils.NormalizeUrl | lib/utils/url.ts:64-67 | `normalizeUrl` always contains "://"; it is the trimmed input unchanged when that already contains "://", and "https://" followed by the trimmed input otherwise |
| WebUrl.WithHttps | lib/check-website.ts:30-33 | the text handed to the URL parser always contains "://"; text that had it is unchanged, other text gets "https://" in front (the same rule as lib/utils/url.ts:19) |
| UrlUtils.NormalizeUrlIdempotent | lib/utils/url.ts:64-67 | normalizing an already normalized URL changes nothing |
| UrlUtils.BlankInputError | lib/utils/url.ts:11-14 | "Please enter a URL" is returned for an input exactly when the input is empty or all white space |
| UrlUtils.GetUrlError | lib/utils/url.ts:4-58 | every message returned is one of the five fixed messages, and an input with no message trims to non-empty text that the parser accepts once "https://" is put in front where needed |
| UrlUtils.UnparseableRejected | lib/utils/url.ts:21-58 | a non-blank input the URL parser rejects gets "Invalid URL format" |
| UrlUtils.ValidUrlShape | lib/utils/url.ts:4-55 | a valid input trims to non-empty text that parses, with a non-empty hostname that is "localhost", contains a dot or is a dotted quad, and whose last label is not one character long unless it is "localhost" or a dotted quad |
| UrlUtils.AcceptedHosts | lib/utils/url.ts:33-55 | conversely, a parsed hostname that is "localhost", a dotted quad, or a dotted name whose last label is not one character long makes the input valid |
| UrlUtils.DotlessRejected | lib/utils/url.ts:38-45 | a non-empty hostname without a dot, other than "localhost", gets the "please enter a valid website address" message |
| UrlUtils.ShortTldRejected | lib/utils/url.ts:47-53 | a dotted hostname that is not a dotted quad and ends in a one-character label gets the top-level-domain message |
| UrlUtils.DottedQuadHasDot | lib/utils/url.ts:40-41 | every hostname the dotted-quad pattern accepts contains a dot, so that branch never sees a dotless address |
| RootDomain.SingleLabelUnchanged | lib/utils/domain.ts:12-22 | "localhost" and every hostname without a dot are returned unchanged |
| RootDomain.TwoLabelHostUnchanged | lib/utils/domain.ts:43-51 | a hostname of exactly two labels (including a bare listed suffix) is returned unchanged |
| RootDomain.BareSuffixUnchanged | lib/utils/domain.ts:45 | the bare suffix "co.uk" is returned unchanged |
| RootDomain.MultiPartSuffixKeepsThree | lib/utils/domain.ts:43-48 | with at least three labels and a listed two-label suffix, the last three labels are returned |
| RootDomain.OtherwiseKeepsTwo | lib/utils/domain.ts:50-51 | with at least two labels and no listed suffix (or only two labels), the last two labels are returned |
| RootDomain.ExampleCoUk | lib/utils/domain.ts:7 | api.example.co.uk gives example.co.uk |
| RootDomain.ExampleCom | lib/utils/domain.ts:6 | web.whatsapp.com gives whatsapp.com |
| RootDomain.RootWithIsLabelSuffix | lib/utils/domain.ts:11-52 | for any suffix table, the result's labels are the last labels of the hostname, at most three of them |
| RootDomain.RootIsLabelSuffix | lib/utils/domain.ts:44-51 | the root domain is a label-suffix of the hostname with at most three labels |
| RootDomain.RootWithIdempotent | lib/utils/domain.ts:11-52 | for any suffix table, extracting the root domain of a root domain changes nothing |
| RootDomain.RootDomainIdempotent | lib/utils/domain.ts:11-52 | `getRootDomain` is idempotent |
| RootDomain.LastLabelsSplit | lib/utils/domain.ts:44 | joining the last labels with dots and splitting again gives back exactly those labels |
| RootDomain.TwoLabelsNotLocalhost | lib/utils/domain.ts:13-14 | a root of two or three labels is never "localhost", so the first branch is not taken again |
| TldValidation.FewLabelsInvalid | lib/utils/tld.ts:20-26 | fewer than two labels gives an invalid result with the could-not-extract reason and no `tld` |
| TldValidation.ValidateTld | lib/utils/tld.ts:17-75 | a result is valid exactly when it carries no reason, and a valid result has at least two labels, a registered base TLD and a `tld` that is lower-case letters once its dots are removed |
| TldValidation.NoDotMeansOneLabel | lib/utils/tld.ts:20-26 | a hostname without a dot is invalid and carries no `tld` |
| TldValidation.UnknownBaseInvalid | lib/utils/tld.ts:28-38 | with an unregistered base TLD the result is invalid, names the base TLD in the reason and reports it as `tld`; nothing later is consulted |
| TldValidation.EffectiveTldShape | lib/utils/tld.ts:51-57 | the effective TLD ends with the base TLD, and differs from it exactly when there are three or more labels and the lower-cased second-to-last label is listed, in which case it is that label, a dot and the base TLD |
| TldValidation.ValidMeansLetters | lib/utils/tld.ts:59-74 | a valid result has at least two labels, a registered base TLD, no reason, and a `tld` that ends with the base TLD and is lower-case letters once its dots are removed |
| TldValidation.ValidWithMeansLetters | lib/utils/tld.ts:17-75 | the same, for any table of second-level labels |
| TldValidation.LettersMeanValid | lib/utils/tld.ts:17-75 | conversely, two or more labels, a registered base TLD and a letters-only effective TLD give a valid result carrying the effective TLD |
| TldValidation.LettersMeanValidWith | lib/utils/tld.ts:17-75 | the same, for any table of second-level labels |
| TldValidation.NonLetterInvalid | lib/utils/tld.ts:63-69 | a digit, hyphen, upper-case letter or any other non-letter in the effective TLD makes the result invalid |
| TldValidation.RegistryOnlyForBase | lib/utils/tld.ts:31 | two registries that agree on the base TLD give the same result: the two-part TLD is never looked up |
| TldValidation.ExampleCoId | lib/utils/tld.ts:40-57 | example.co.id with only ".id" registered is valid with `tld` ".co.id" |
| Radar.CheckCloudflareRadar | lib/external/cloudflare.ts:4-51 | the mapper never throws and never sets `unlisted`; every result carries a verdict and a detail line |
| Radar.MaliciousFirst | lib/external/cloudflare.ts:18-23 | an overall-malicious result gives MALICIOUS, not safe, threat types ['MALICIOUS'], whatever the phishing processor says |
| Radar.PhishingSecond | lib/external/cloudflare.ts:24-29 | otherwise a detected phishing processor gives PHISHING, not safe, threat types ['PHISHING'] |
| Radar.CleanIsSafe | lib/external/cloudflare.ts:30-33 | otherwise the verdict is SAFE and the detail line names the radar rank, or "N/A" without one |
| Radar.SafeIffSafeVerdict | lib/external/cloudflare.ts:13-48 | `safe` holds exactly when the verdict is SAFE, and exactly then `threatTypes` is undefined |
| Radar.ThreatsNameVerdict | lib/external/cloudflare.ts:15-38 | a reported threat list is exactly the one-element list of the verdict |
| Radar.FailureIsUnknown | lib/external/cloudflare.ts:42-49 | a failed scan gives not safe, verdict UNKNOWN and threat types ['UNKNOWN'] |
| Whois.FailuresCarryNoData | lib/external/whois.ts:47-121 | a non-OK status, an abort or another exception gives all data fields null and an error: the status message, 'Request timeout', the exception's own message, or 'Unknown error' for a non-Error |
| Whois.CheckWhois | lib/external/whois.ts:47-121 | the result carries an error exactly when no response body was read, and an age only when it carries a creation date |
| Whois.SuccessHasNoError | lib/external/whois.ts:59-97 | with a body `error` is null, `created` and `expires` are present exactly when their fields are truthy, and `domainAge` is present exactly when `created` is |
| Whois.AgeIsWholeDays | lib/external/whois.ts:80-86 | the age is the floor of the elapsed milliseconds over 86 400 000: age × day ≤ now − created < (age + 1) × day |
| Whois.RegistrarFallback | lib/external/whois.ts:65-75 | the registrar is a truthy `whois_server`, else the parsed hostname of a truthy registrar URL (none if it does not parse), else none |
| Whois.AbuseContact | lib/external/whois.ts:77-78 | an empty or missing abuse e-mail becomes null, and a given one is kept as it is |
| DetectLocale.FirstPresent | lib/i18n/detect-country.ts:13-28 | the first header found is non-empty and is the value of one of the listed names; none is found exactly when all of them are empty or absent |
| DetectLocale.DetectByOrder | lib/i18n/detect-country.ts:8-41 | the first non-empty header in the order cf-ipcountry, x-vercel-ip-country, x-country, cf-country decides; only without one is Accept-Language read, giving 'id' when its lower-cased text contains "id", and 'en' otherwise |
| DetectLocale.FirstOfFour | lib/i18n/detect-country.ts:12-28 | the header cascade tries four names one after the other |
| DetectLocale.LaterHeadersIgnored | lib/i18n/detect-country.ts:13-28 | once a country header is present, headers later in the order and Accept-Language do not change the answer |
| DetectLocale.FirstPresentPrefix | lib/i18n/detect-country.ts:13-28 | two header sets that agree up to the first present name find the same header |
| DetectLocale.CountryIdIff | lib/i18n/detect-country.ts:15 | a country code gives 'id' exactly when it is "id" in any letter case, and 'en' for every other value |
| DetectLocale.Detect | lib/i18n/detect-country.ts:8-41 | an error while reading the headers gives 'en', and 'id' is chosen only when a country header reads "id" in some letter case or the lower-cased Accept-Language contains "id" |
| Translations.WordRun | lib/i18n/translations.ts:321 | the run of `\w` characters that starts at a position: every character in it is a word character and the one after it is not (or the text ends) |
| Translations.PlaceholderAt | lib/i18n/translations.ts:321 | a text starts with a placeholder only when it opens with '{', has one or more word characters, then '}' |
| Translations.PlaceholderOf | lib/i18n/translations.ts:321 | `{name}` with a non-empty word name is recognized as a placeholder for exactly that name, whatever follows |
| Translations.PlaceholderReplaced | lib/i18n/translations.ts:320-323 | a placeholder is replaced by its substitute and the pass carries on with the rest of the text |
| Translations.MissingParamKept | lib/i18n/translations.ts:322 | a placeholder whose parameter is absent, or whose value prints as the empty text, is left in place |
| Translations.ValueNotRescanned | lib/i18n/translations.ts:321-322 | a placeholder with a non-empty value becomes that value verbatim; placeholders inside the value are not expanded |
| Translations.NoPlaceholderUnchanged | lib/i18n/translations.ts:320-323 | a template with no placeholder comes back unchanged whatever the parameters |
| Translations.EmptyParamsUnchanged | lib/i18n/translations.ts:320-323 | with an empty parameter object every template comes back unchanged |
| Translations.T | lib/i18n/translations.ts:309-323 | without parameters, and also with an empty parameter object, `t` returns the stored template of the locale and key |
| Translations.EmptyBracesKept | lib/i18n/translations.ts:321 | `{}` is not a placeholder and passes through unchanged |
| Translations.HyphenNameKept | lib/i18n/translations.ts:321 | `{a-b}` is not a placeholder (a hyphen is not a word character) and passes through unchanged |
| Translations.InterpolateAt | lib/i18n/translations.ts:321-323 | a text that starts with a placeholder is rewritten as the substitute for its name followed by the interpolated rest |
| Translations.BraceFreePrefix | lib/i18n/translations.ts:321 | text without '{' passes through interpolation unchanged, and interpolation of what follows is unaffected |
| I18nContext.T | lib/i18n/context.tsx:26-41 | the client translation function gives the same text as the server one for every locale, key and parameters |
| I18nContext.ClientPlaceholders | lib/i18n/context.tsx:33-40 | on the client, no parameters give the raw template, and a missing or empty parameter keeps its placeholder |
| Bot.OnMessage | teams/bot.ts:29-38 | the greeting is sent exactly when the message text, absent counted as empty, is blank after trimming; any other text goes to the command handler, trimmed |
| Bot.HandleCommand | teams/bot.ts:54-70 | the command handler never sends the empty-message greeting, and sends the command overview exactly when the lower-cased text does not start with '/' |
| Bot.CommandRouting | teams/bot.ts:57-69 | the bare word `/analyze` or `/cti-report`, in any letter case, gets its usage hint, and any other text starting with '/' that is none of the four command forms gets the unknown-command reply |
| Bot.CommandsStartWithSlash | teams/bot.ts:57-65 | every recognized command form starts with '/', so the overview branch is reached only by text without one |
| Bot.HandleAnalyze | teams/bot.ts:72-93 | the usage hint is sent exactly when the argument is blank after trimming; otherwise the check is asked about the trimmed argument |
| Bot.HandleCtiReport | teams/bot.ts:105-126 | either the usage hint, or a report request whose token is non-empty and whose token and domain contain no white space |
| Bot.SplitWs | teams/bot.ts:106 | splitting at runs of white space gives at least one field, and no field contains white space |
| Bot.SplitWsWord | teams/bot.ts:106 | a word without white space splits into itself alone |
| Bot.SplitWsHead | teams/bot.ts:106 | a word followed by white space is the first field, and the remaining fields are those of the text after the white-space run |
| Bot.NoDomainUnreachable | teams/bot.ts:30-37 | the missing-domain hint of `/analyze` can never be sent, because the message was trimmed before routing |
| Bot.TrimmedCommandNotBlank | teams/bot.ts:54-78 | trimmed text never reaches the missing-domain hint |
| Bot.AnalyzeArgNotBlank | teams/bot.ts:57-58 | in trimmed text starting with `/analyze ` in any letter case, the text after the command word is not blank |
| Bot.AnalyzeRoute | teams/bot.ts:57-58 | `/analyze` in any letter case followed by a domain asks about that domain as typed |
| Bot.CtiRoute | teams/bot.ts:59-60 | `/cti-report` followed by a token and a domain asks for that report, ignoring further words |
| Bot.CtiFields | teams/bot.ts:106-113 | the first two fields of a token, a space, a domain and further words are the token and the domain |
| Bot.CtiNeedsTwoFields | teams/bot.ts:106-111 | a single word after `/cti-report` gets the usage hint |
| Bot.Others | teams/bot.ts:45-49 | the number of added members who are not the bot is at most the number added |
| Bot.MembersAdded | teams/bot.ts:42-51 | one greeting per added member that is not the bot itself, and no other reply |
| Bot.OthersCount | teams/bot.ts:45-49 | without a recipient every added member is greeted; with one, every appearance except those of the bot's own id |
| Bot.FailureReason | teams/bot.ts:97 | the reason is the response's `error` field whenever that is present and non-empty, otherwise the client's message; it is empty only when both are |
| Bot.FailureReply | teams/bot.ts:94-134 | for either action the reply starts with "Failed to" and the action; an HTTP client failure continues with ": " and exactly its reason, and any other failure with exactly ". Please try again later." |
| Bot.AnalyzeFailureReply | teams/bot.ts:94-101 | the reply starts with "Failed to analyze domain"; an HTTP client failure continues with ": " and exactly its reason, and any other failure with exactly ". Please try again later." |
| Bot.CtiFailureReply | teams/bot.ts:127-134 | the reply starts with "Failed to get CTI report"; an HTTP client failure continues with ": " and exactly its reason, and any other failure with exactly ". Please try again later." |
| Bot.SendCheckResult | teams/bot.ts:138-157 | the loop builds the header, one bullet line per detail in order, and the screenshot link only for a non-empty path |
| Bot.BulletsAppend | teams/bot.ts:147-149 | the bullets of two detail lists in a row are the bullets of the first followed by those of the second |
| Bot.ReplyMark | teams/bot.ts:139-142 | the reply's first character is the check mark exactly for LEGITIMATE, the red circle exactly for WARNING, and the warning sign for any other level |
| Bot.DetailLine | teams/bot.ts:142-153 | each detail's bullet stands between the bullets of the details before it and those after it |
| Bot.DetailShown | teams/bot.ts:147-149 | every detail appears in the reply as its own bullet line |
| Bot.ScreenshotEnding | teams/bot.ts:151-154 | with a screenshot the reply ends with the link to the configured address, or to the local default when none is configured; without one it ends with the bullets |
| IPv4.DigitPrefix | lib/shared/url.ts:203 | the digits `parseInt` reads: the longest prefix whose characters are all digits of the radix |
| IPv4.ParseIPv4 | lib/shared/url.ts:191-224 | the two loops return exactly the reading of the specification: no result for more than four parts, for a part without a number or for a total above 0xffffffff, else the dotted quad of the parts combined base 256 |
| IPv4.ReadParts | lib/shared/url.ts:196-207 | the first loop gives the number of every part, in order, or nothing as soon as one part has none |
| IPv4.ReadPart | lib/shared/url.ts:197-206 | one part: empty, NaN and negative values have no number; otherwise `parseInt` in base 16 after "0x", 8 after a leading 0, else 10 |
| IPv4.CombineNumbers | lib/shared/url.ts:210-216 | the second loop refuses exactly when the numbers combined base 256 exceed 0xffffffff; its early refusal of a single large number agrees with that |
| IPv4.ValuesNoneExtends | lib/shared/url.ts:196-207 | once a part has no number, the parts as a whole have none |
| IPv4.CombineBoundsEach | lib/shared/url.ts:211-216 | the combined value is at least each number, so one number above 0xffffffff makes the whole too large |
| IPv4.TooManyParts | lib/shared/url.ts:193 | more than four parts never read as an address |
| IPv4.EmptyPartRejected | lib/shared/url.ts:197 | an empty part, as in "1..2" or a trailing dot, never reads as an address |
| IPv4.DecimalPartValue | lib/shared/url.ts:199-206 | a canonical decimal part reads as its decimal value |
| IPv4.ValuesAll | lib/shared/url.ts:196-207 | when every part has a number, the reading is the list of those numbers |
| IPv4.ValuesOfFour | lib/shared/url.ts:196-207 | four canonical decimal parts read as their four decimal values |
| IPv4.CombineFour | lib/shared/url.ts:211-214 | four numbers combined base 256 put the first in the top byte and the last in the bottom one |
| IPv4.ByteFields | lib/shared/url.ts:218-223 | the shifts and masks of the printing give back the four bytes an address was built from |
| IPv4.BytesBack | lib/shared/url.ts:210-223 | four bytes combined and printed come back one by one, and the total is a valid address |
| IPv4.DottedQuadUnchanged | lib/shared/url.ts:191-224 | four canonical decimal parts, each at most 255, come back exactly as they were given |
| IPv4.DottedOfBytes | lib/shared/url.ts:218-223 | the printed form of four combined bytes is the four bytes in decimal joined by dots |
| IPv4.PartsPrinted | lib/shared/url.ts:218-223 | canonical decimal parts print back as themselves |
| IPv4.ResultIsFixed | lib/shared/url.ts:191-224 | every address the parser prints reads back unchanged: the output is a fixed point |
| IPv4.DottedFixed | lib/shared/url.ts:191-224 | the dotted form of any number reads back as itself |
| IPv4.Dotted | lib/shared/url.ts:218-223 | any number printed as four bytes makes a canonical dotted quad: four parts, each a canonical decimal of at most 255 |
| IPv4.BytesQuad | lib/shared/url.ts:218-223 | four values below 256 printed in decimal and joined by dots make a canonical dotted quad |
| IPv4.ByteCanonical | lib/shared/url.ts:218-223 | a value below 256 prints as a canonical decimal of value at most 255 |
| IPv4.CanonicalPartsJoined | lib/shared/url.ts:218-223 | four canonical decimal parts of at most 255 joined by dots split back into themselves, so they form a canonical dotted quad |
| IPv4.ParseIPv4Spec | lib/shared/url.ts:191-224 | whatever the input, a reading that succeeds is a canonical dotted quad |
| IPv4.TwoPartsExample | lib/shared/url.ts:209-223 | fewer than four parts are combined as they are: "1.2" reads as "0.0.1.2" |
| IPv4.NatPartValue | lib/shared/url.ts:199-206 | a number printed in decimal reads back as that number |
| IPv6.StripZeros | lib/shared/url.ts:251 | a group stripped of its leading zeros is never empty, and starts with '0' only when it is "0" |
| IPv6.Groups | lib/shared/url.ts:251 | one group per colon-separated field, each non-empty and free of colons |
| IPv6.ZeroRunLen | lib/shared/url.ts:257-269 | the number of "0" groups from a position on stays inside the groups |
| IPv6.ZeroRunLenMaximal | lib/shared/url.ts:257-269 | that number is the length of the longest run of "0" groups starting there |
| IPv6.BestFrom | lib/shared/url.ts:253-269 | a reference for the zero-run scan: no run means start -1, otherwise the run lies inside the groups |
| IPv6.BestFromCorrect | lib/shared/url.ts:253-269 | the reference run is a run of "0" groups, no run from that position on is longer, and no equally long one starts before it |
| IPv6.BestRunIsLongestFirst | lib/shared/url.ts:253-269 | the reference run is the first of the longest runs of "0" groups |
| IPv6.LongestFirstUnique | lib/shared/url.ts:253-269 | there is only one first longest run, so the scan and the reference must agree |
| IPv6.FindZeroRun | lib/shared/url.ts:253-269 | the scan, one step past the last group, finds the first of the longest runs of "0" groups (-1/0 when there is none) |
| IPv6.ExtendRun | lib/shared/url.ts:258-260 | a "0" group extends the current run without changing what is known of earlier runs |
| IPv6.CloseRun | lib/shared/url.ts:261-268 | another group, or the end, closes the current run, which replaces the best one only when strictly longer |
| IPv6.CompressIPv6 | lib/shared/url.ts:250-278 | the method computes the compression as written: strip zeros, find the run, splice with the extra end groups, join, collapse the first ":::" |
| IPv6.CompressSpec | lib/shared/url.ts:250-278 | handed an address written out in eight groups, `compressIPv6` as written gives a text that reads back as those eight groups |
| IPv6.NoTripleUnchanged | lib/shared/url.ts:277 | text without ":::" is left alone by the final replace |
| IPv6.JoinNoDoubleColon | lib/shared/url.ts:277 | non-empty colon-free groups joined by single colons have no "::" and no colon at either end |
| IPv6.SplicedJoin | lib/shared/url.ts:271-277 | for eight groups the splice, the end groups and the join put exactly one "::" where the run was |
| IPv6.JoinAroundEmpty | lib/shared/url.ts:272-277 | an empty group between two non-empty lists of groups joins as "::" |
| IPv6.MiddleNoTriple | lib/shared/url.ts:277 | a "::" between two texts without "::" and without colons at the seam makes no ":::" |
| IPv6.RenderEight | lib/shared/url.ts:250-278 | for eight groups, a run of two or more "0" groups becomes the only "::" between the groups around it; otherwise the groups are joined as they are, with no "::" at all |
| IPv6.CompressEight | lib/shared/url.ts:250-278 | on an address written out in eight groups, the compression as written keeps the first longest zero run rule of section 4.2 of RFC 5952 |
| IPv6.FirstDoubleColon | lib/shared/url.ts:243-244 | the first "::" of a text, or none when there is none |
| IPv6.Expand | lib/shared/url.ts:243-244 | reading a text back as groups, the "::" filled with "0" groups; no group holds a colon |
| IPv6.PiecesOfJoin | lib/shared/url.ts:277 | plain groups joined with colons read back as the same groups |
| IPv6.ExpandRender | lib/shared/url.ts:250-278 | eight plain groups compressed and read back are the same eight groups |
| IPv6.ExpandMiddle | lib/shared/url.ts:271-277 | groups around a "::" read back with the gap filled by zeros up to eight groups |
| IPv6.ExpandAroundRun | lib/shared/url.ts:271-277 | the groups around a run of "0" groups, with "::" for the run, read back as all eight groups |
| IPv6.CompressAddressKeepsGroups | lib/shared/url.ts:244 | the corrected compression keeps the address: its output reads back as the same eight groups |
| IPv6.CompressAddress | lib/shared/url.ts:244 | the corrected compression reads back as the canonical groups of any address that reads as eight groups, whether or not it was compressed already |
| IPv6.CompressAddressIdempotent | lib/shared/url.ts:244 | compressing an address twice gives what compressing it once gave |
| IPv6.AllZeroRun | lib/shared/url.ts:253-269 | when every group is "0", the run found covers all of them |
| IPv6.UnspecifiedAsWritten | lib/shared/url.ts:250-278 | the compression as written turns the unspecified address "::" into ":", which is no address |
| IPv6.UnspecifiedCorrected | lib/shared/url.ts:244 | the corrected compression keeps "::" |
| IPv6.RenderWithoutRun | lib/shared/url.ts:271-277 | without a run of two or more "0" groups the groups are joined as they are |
| IPv6.CompressedInputAsWritten | lib/shared/url.ts:250-278 | the compression as written turns the serializer's "2001:db8::1" into "2001:db8:0:1", which is not a valid address (four groups, no "::") |
| IPv6.NormalizeAsWrittenExample | lib/shared/url.ts:226-248 | the normalization as written turns the documentation address "[2001:db8::1]" into "[2001:db8:0:1]" |
| IPv6.NormalizeUnspecified | lib/shared/url.ts:226-248 | the unspecified address "[::]" comes out of the normalization as written as "[:]", and out of the corrected one as "[::]" |
| IPv6.NormalizeIPv6With | lib/shared/url.ts:226-248 | for any compression, the result is the input as it came, a canonical dotted quad, or a text in brackets |
| IPv6.NormalizeIPv6 | lib/shared/url.ts:226-248 | `normalizeIPv6` as written gives the input, a canonical dotted quad or a bracketed text, and keeps the address whenever the serializer hands it eight groups |
| IPv6.NormalizeIPv6Intended | lib/shared/url.ts:226-248 | with the corrected compression, the bracketed result reads back as the eight groups of the address the serializer gave, whatever form it gave it in |
| IPv6.SerializedWith | lib/shared/url.ts:241-244 | for any compression, outside the two embedded-IPv4 forms, an address the parser accepts comes back as the compression of the serializer's text, in brackets |
| IPv6.Inner | lib/shared/url.ts:227 | the text without its first and last characters, or nothing when it is shorter than two |
| IPv6.MappedGivesDottedQuad | lib/shared/url.ts:229-233 | an IPv4-mapped address whose dotted quad is canonical comes out as that dotted quad |
| IPv6.SerializedBranch | lib/shared/url.ts:241-247 | outside the embedded-IPv4 forms, an address the parser rejects comes back as it was, and one it accepts comes back as '[', what `compressIPv6` as written makes of the serializer's text, and ']' |
| PercentEscape.UpperHex | lib/shared/url.ts:53 | an upper-cased hex digit is an upper-case hex digit and is never escaped itself |
| PercentEscape.HexDigit | lib/shared/url.ts:70 | the digit written for a value below 16 is an upper-case hex digit that denotes that value |
| PercentEscape.HexDigitOfVal | lib/shared/url.ts:70 | every upper-case hex digit is the digit written for its own value, so the digits and the values match one to one |
| PercentEscape.ByteEscape | lib/shared/url.ts:70 | a byte becomes '%' and two upper-case hex digits, the high half of the byte then the low half, so the escape reads back as the byte |
| PercentEscape.Utf8 | lib/shared/url.ts:68 | the encoder's bytes for one character: the character itself exactly for ASCII; two bytes (lead 110xxxxx, continuation 10xxxxxx) exactly below U+0800, and three bytes (lead 1110xxxx, two continuations) exactly below U+10000, whose payload bits give back the code point; the two encodings of U+FFFD above that |
| PercentEscape.EscapeBytes | lib/shared/url.ts:69-71 | three output characters per byte |
| PercentEscape.EscapeChar | lib/shared/url.ts:58-74 | a character outside the escape set is copied as it is; every character gives some output |
| PercentEscape.WellEscapedConcat | lib/shared/url.ts:44-77 | output pieces in the output alphabet stay in it when put together |
| PercentEscape.WellEscapedSuffix | lib/shared/url.ts:44-77 | what follows any position of well-escaped text is well escaped |
| PercentEscape.EscapeBytesWellEscaped | lib/shared/url.ts:69-71 | the escapes of the bytes are in the output alphabet |
| PercentEscape.EscapeCharWellEscaped | lib/shared/url.ts:58-74 | what any single character becomes is in the output alphabet |
| PercentEscape.Escape | lib/shared/url.ts:112-146 | whatever the input, the escaped form has no control character, space, '#' or non-ASCII character, and every '%' starts an escape with two upper-case hex digits |
| PercentEscape.EscapeBytesAppend | lib/shared/url.ts:69-71 | one more byte appends exactly its escape |
| PercentEscape.EscapeStep | lib/shared/url.ts:116-143 | one loop step: a complete escape is kept with its digits upper-cased and skipped over, any other character is escaped or copied |
| PercentEscape.AppendEncoded | lib/shared/url.ts:135-138 | the escapes of the character's UTF-8 bytes are appended |
| PercentEscape.AppendByteEscapes | lib/shared/url.ts:136-138 | the loop over the bytes appends one escape per byte, in order |
| PercentEscape.EscapeOne | lib/shared/url.ts:113-143 | one pass of the loop body moves forward and appends exactly what the specification puts for that position |
| PercentEscape.EncodeChar | lib/shared/url.ts:126-141 | a character outside a valid escape becomes its byte escapes when it must be escaped, and itself otherwise |
| PercentEscape.EscapeLoop | lib/shared/url.ts:112-144 | the loop appends the escaped form of the rest of the text |
| PercentEscape.PercentEscapePath | lib/shared/url.ts:108-147 | the path escaper returns the escaped form of the path, which is in the output alphabet |
| PercentEscape.PercentEscapeQuery | lib/shared/url.ts:32-80 | "" and "?" come back as they are; a leading '?' is kept and the rest escaped; any other query is escaped whole |
| PercentEscape.WellEscapedFixed | lib/shared/url.ts:112-146 | text already in the output alphabet is its own escaped form |
| PercentEscape.UpperKeepsHex | lib/shared/url.ts:121 | upper-casing leaves upper-case hex digits alone |
| PercentEscape.EscapeIdempotent | lib/shared/url.ts:108-147 | escaping a path twice gives what escaping it once gave |
| PercentEscape.EscapeFirst | lib/shared/url.ts:39-44 | the escaped form starts with '?' only if the text does |
| PercentEscape.EscapeQueryIdempotent | lib/shared/url.ts:32-80 | escaping a query twice gives what escaping it once gave |
| PathCanon.CanonicalPath | lib/shared/url.ts:85-104 | the canonical path starts with '/' and contains no "//" |
| PathCanon.CanonicalizePath | lib/shared/url.ts:85-104 | the stack loop gives the specification's canonical path, which always starts with '/' |
| PathCanon.ResolveClean | lib/shared/url.ts:92-101 | the stack only ever holds segments that are not empty, "." or "..", and hold no slash |
| PathCanon.CanonicalShape | lib/shared/url.ts:85-104 | the canonical path is '/' followed by the kept segments joined by single slashes |
| PathCanon.CollapseSlashesSegments | lib/shared/url.ts:86-104 | collapsing the slashes first does not change the result: the canonical path is '/' followed by the resolution of the input path's own segments, of which only the non-empty ones count |
| PathCanon.ResolveNonEmpty | lib/shared/url.ts:93-94 | empty segments leave the stack as it is: resolving only the non-empty segments gives the same stack |
| PathCanon.DotDotAtRoot | lib/shared/url.ts:96-97 | a ".." with nothing to pop is dropped: the path cannot climb above the root |
| PathCanon.ResolveAppendKept | lib/shared/url.ts:98-99 | ordinary segments are pushed and stay on the stack in order |
| PathCanon.JoinNoDoubleSlash | lib/shared/url.ts:103 | kept segments joined by single slashes after the leading one contain no "//" |
| PathCanon.CanonicalSegments | lib/shared/url.ts:89-103 | splitting a canonical path and running the stack again gives back the same segments |
| PathCanon.CanonicalIdempotent | lib/shared/url.ts:85-104 | canonicalizing a canonical path changes nothing |
| Sanitize.RemoveTabsAndNewlines | lib/shared/url.ts:3 | the result holds exactly the characters of the input other than tab, carriage return and line feed; one such character goes and any other single character stays |
| Sanitize.RemoveTabsAndNewlinesConcat | lib/shared/url.ts:3 | the removal works piece by piece: the other characters keep their order |
| Sanitize.RoundsTaken | lib/shared/url.ts:178-186 | the number of decoding rounds that changed the text never exceeds the bound |
| Sanitize.RepeatedlyPercentDecode | lib/shared/url.ts:176-188 | the loop returns what at most five decoding rounds give, stopping at a decode error or when a round changes nothing |
| Sanitize.DecodeRoundsStop | lib/shared/url.ts:176-188 | the result is the input decoded successfully some number of times within the bound; when fewer rounds were taken, the next decode fails or changes nothing |
| Sanitize.DecodeFixpoint | lib/shared/url.ts:180-185 | text the decoder rejects or leaves alone comes back at once |
| Sanitize.FragmentStart | lib/shared/url.ts:9 | the first '#' with no line terminator after it, where `/#.*$/` matches, or none |
| Sanitize.StripFragment | lib/shared/url.ts:9 | removing the fragment leaves the text unchanged when `/#.*$/` does not match, and otherwise exactly the text before the match |
| Sanitize.NoTerminatorSuffix | lib/shared/url.ts:9 | a suffix of text without line terminators has none either |
| Sanitize.StripFragmentPlain | lib/shared/url.ts:9 | without line terminators everything from the first '#' on is removed, and no '#' is left |
| Sanitize.WithDefaultScheme | lib/shared/url.ts:11-13 | the text always ends up with a scheme; text that had one is left as it was, and other text gets "http://" in front |
| Sanitize.CollapseKeepsOthers | lib/shared/url.ts:159 | collapsing the runs of dots drops dots and nothing else: the characters other than '.' are the same, in the same order |
| Sanitize.CleanDots | lib/shared/url.ts:158-159 | the cleaned hostname has no dot at either end and no two dots in a row |
| Sanitize.CleanKeepsOthers | lib/shared/url.ts:158-159 | cleaning the dots drops dots and nothing else |
| Sanitize.CleanDotsLabels | lib/shared/url.ts:158-159 | the cleaned hostname is the non-empty labels of the hostname joined by single dots, and when it is not empty its labels are exactly those |
| Sanitize.DnsNameShape | lib/shared/url.ts:157-174 | a name that is neither bracketed nor an IPv4 address comes out cleaned of dots and lower-cased, with no upper-case letter, no dot at either end and no two dots in a row |
| Sanitize.LowerKeepsDots | lib/shared/url.ts:173 | lower-casing neither moves nor makes dots |
| Sanitize.IPv4HostShape | lib/shared/url.ts:166-170 | a name the IPv4 reading accepts comes out as exactly the dotted quad `parseIPv4` gives for the cleaned name, and that quad reads back as itself |
| Sanitize.NormalizeHostname | lib/shared/url.ts:157-174 | the host comes out cleaned of dots and lower-cased, as a canonical dotted quad, or, for a bracketed name, as it was or as another bracketed text |
| Sanitize.NormalizeHostnameIntended | lib/shared/url.ts:157-174 | with the corrected compression, a bracketed address the parser accepts reads back as its eight groups; other names are treated as by `normalizeHostname` |
| Sanitize.ParsedTextHasScheme | lib/shared/url.ts:1-16 | the URL parser is always handed text that starts with a scheme |
| Sanitize.NormalizedShape | lib/shared/url.ts:18-29 | the normalized URL keeps the parser's protocol, has a path that starts with '/' and is well escaped, and a query that is kept as "" or "?" and is otherwise well escaped after its leading '?' |
| Sanitize.SanitizedUrl | lib/shared/url.ts:1-29 | a URL comes out exactly when the parser accepts the prepared text; it keeps the parser's protocol and has a well-escaped path starting with '/' |
| Sanitize.SanitizeUrl | lib/shared/url.ts:1-30 | `sanitizeUrl` fails exactly where the parser throws on the prepared text, and otherwise returns the serialization of the normalized URL |
| Bulk.NormalizeEntries | lib/repo/tld.ts:85 | the normalized list is no longer than the input, and every entry in it is trimmed, non-empty and without upper-case letters |
| Bulk.NormalizedEntry | lib/repo/tld.ts:85 | a non-blank entry trimmed and lower-cased is a normalized entry |
| Bulk.NormalizeEntriesMembers | lib/repo/tld.ts:85 | an entry survives normalization exactly when some input entry trims and lower-cases to it |
| Bulk.Dedup | lib/repo/tld.ts:88 | de-duplication keeps every entry of the list once, drops nothing else, and keeps the first entry first |
| Bulk.Without | lib/repo/tld.ts:88 | removing every copy of an entry leaves none of it |
| Bulk.WithoutElems | lib/repo/tld.ts:88 | removing every copy of an entry removes that entry and no other |
| Bulk.DedupDistinct | lib/repo/tld.ts:88 | a list without repetitions is its own de-duplication |
| Bulk.Fresh | lib/repo/tld.ts:100-101 | the new entries are exactly the listed ones not in the table, without repetitions when the list had none |
| Bulk.Stored | lib/repo/tld.ts:100-101 | the entries reported as duplicates are exactly the listed ones already in the table |
| Bulk.FreshCount | lib/repo/tld.ts:101-121 | every distinct entry is counted once, either as new or as already stored |
| Bulk.Chunks | lib/repo/tld.ts:106-108 | every batch holds between one and the batch size entries |
| Bulk.FlattenAppend | lib/repo/tld.ts:107-115 | the batches of two lists in a row are the batches of the first followed by those of the second |
| Bulk.ChunksFlatten | lib/repo/tld.ts:107-108 | cutting into batches loses, repeats and reorders nothing |
| Bulk.Outcome | lib/repo/tld.ts:118-122 | on success the inserted and duplicate counts add up to the number of distinct entries, and the duplicates are the stored ones |
| Bulk.FreshUnion | lib/repo/tld.ts:95-116 | adding the new entries to the table leaves it holding every distinct entry |
| Bulk.BatchesRun | lib/repo/tld.ts:107-115 | the loop runs no more batches than there are |
| Bulk.BatchesInside | lib/repo/tld.ts:107-115 | the batches the loop reaches only hold new entries |
| Bulk.InsertNew | lib/repo/tld.ts:95-122 | after the lookup and the batch loop, a failure leaves the table with the batches already sent; success reports the counts and leaves the table as the old one together with every distinct entry |
| Bulk.Table.constructor | lib/repo/tld.ts:55 | a table holding the given values |
| Bulk.Table.InsertOne | lib/repo/tld.ts:52-76 | a one-row insert is refused exactly when the value is already stored, and the value is in the table afterwards |
| Bulk.Table.InsertInBatches | lib/repo/tld.ts:104-116 | the batch loop sends the new entries in order, at most 500 per batch, with `inserted` equal to the entries sent; an error in a batch stops it with the earlier batches stored |
| Bulk.ChunkStep | lib/repo/tld.ts:107-108 | each step of the loop takes the next batch of the cutting |
| Bulk.BatchDone | lib/repo/tld.ts:108-115 | a batch sent extends the batches run so far and the entries stored |
| Bulk.StoppedAtFailure | lib/repo/tld.ts:110-113 | when the failing batch is reached, the batches run are exactly those before it |
| Bulk.RanToEnd | lib/repo/tld.ts:107-116 | a loop that went through every batch sent every new entry and met no failure |
| Bulk.ElemsAppend | lib/repo/tld.ts:107-115 | the entries of two lists in a row are those of both |
| TldRepo.CreateTld | lib/repo/tld.ts:52-76 | an existing TLD gives DUPLICATE_TLD and leaves the table alone; another TLD is added and returned; any other database error gives UNKNOWN_ERROR |
| TldRepo.UniqueTlds | lib/repo/tld.ts:85-88 | the entries worked on have no repetitions, are normalized, and are exactly the trimmed, lower-cased forms of the non-blank input entries |
| TldRepo.CreateTldsSpec | lib/repo/tld.ts:78-127 | the table only grows, by distinct entries; any error reports zero counts; otherwise the counts add up to the distinct entries and the table holds all of them |
| TldRepo.CreateTlds | lib/repo/tld.ts:78-127 | the method's counts and new table are those of the specification, with batches of at most 500 entries |
| TldRepo.TldsAddedNormalized | lib/repo/tld.ts:85-116 | every TLD a bulk insert adds is the trimmed, lower-cased form of a non-blank input entry |
| TldRepo.TldsSuccessCounts | lib/repo/tld.ts:101-122 | on success exactly the new entries are counted as inserted and the stored ones as duplicates |
| TldRepo.TldsLaterBatchFails | lib/repo/tld.ts:107-126 | a failure in a later batch still reports zero counts, yet the earlier batches stay in the table |
| TldRepo.FirstBatchStored | lib/repo/tld.ts:107-115 | the first entry of the first batch is among the entries sent before a later batch |
| BlacklistRepo.CreateBlacklist | lib/repo/blacklist.ts:39-61 | an existing domain gives DUPLICATE_DOMAIN and leaves the table alone; another domain is added and returned; any other database error gives UNKNOWN_ERROR |
| BlacklistRepo.LastDot | lib/repo/blacklist.ts:69 | the last dot before a position, with no dot between it and the position |
| BlacklistRepo.DomainShape | lib/repo/blacklist.ts:69 | every domain the pattern accepts starts with a letter or digit and ends with a dot followed by two or more letters |
| BlacklistRepo.DomainEntries | lib/repo/blacklist.ts:66-69 | every kept entry is trimmed, lower-case, non-empty and matches the domain pattern |
| BlacklistRepo.KeepDomains | lib/repo/blacklist.ts:69 | every entry the pattern filter keeps matches the pattern |
| BlacklistRepo.KeepDomainsMembers | lib/repo/blacklist.ts:69 | the pattern filter keeps exactly the entries that match the pattern |
| BlacklistRepo.UniqueDomains | lib/repo/blacklist.ts:66-71 | the domains worked on have no repetitions, match the pattern, and are exactly the normalized input entries that match it |
| BlacklistRepo.CreateBlacklistsSpec | lib/repo/blacklist.ts:64-103 | the table only grows, by valid distinct domains; a database error propagates exactly when there is something to insert and the lookup or a reached batch fails; otherwise the counts add up to the distinct domains and the table holds all of them |
| BlacklistRepo.CreateBlacklists | lib/repo/blacklist.ts:64-103 | the method returns the specification's counts, or no result where the error propagates, leaves the table as the specification says, and sends batches of at most 500 |
| BlacklistRepo.DomainsAddedValid | lib/repo/blacklist.ts:66-96 | every domain a bulk insert adds is normalized, matches the pattern, starts with a letter or digit, ends with a label of two or more letters, and comes from an input entry |
| Heuristics.Details | lib/check-website.ts:119-199 | the details list has one line per piece of evidence, in order, each the wording of its line |
| Heuristics.ScoreAppend | lib/check-website.ts:119-199 | the score of evidence gathered in two stretches is the sum of their scores |
| Heuristics.CountAppend | lib/check-website.ts:119-199 | the lines a check contributed over two stretches add up |
| Heuristics.DetailsAppend | lib/check-website.ts:119-199 | the details of two stretches are those of the first followed by those of the second |
| Heuristics.Push | lib/check-website.ts:122-123 | adding one line adds its weight to the score and its wording at the end of the details |
| Heuristics.DigitRun | lib/check-website.ts:194 | the run of digits a text starts with: all digits, and followed by a non-digit or the end |
| Heuristics.Record | lib/check-website.ts:119-199 | one check appends its line, if it has one, and adds its weight |
| Heuristics.Step | lib/check-website.ts:119-199 | the checks done so far followed by one more give the details and score of all of them together |
| Heuristics.RunHostChecks | lib/check-website.ts:119-199 | the six host checks, run in order, append exactly their lines and add exactly their weights |
| Heuristics.HostParts | lib/check-website.ts:119-199 | the score and details of the host checks are those of the six checks one after the other |
| Heuristics.Single | lib/check-website.ts:119-199 | one line carries its weight and counts once, for its own check |
| Heuristics.HostScore | lib/check-website.ts:119-199 | the host checks add 2 for a free top-level domain, 1 for a phishing keyword, 3 without https, 2 (https) or 1 (otherwise) for an unreachable site, 1 for more than three labels and 3 for a host that starts like an IPv4 address, and nothing else |
| Heuristics.ScoreSix | lib/check-website.ts:119-199 | the score of six stretches is the sum of their scores |
| Heuristics.TldWeight | lib/check-website.ts:119-126 | the top-level-domain check weighs 2 exactly for '.tk', '.ml', '.ga' and '.cf', and 0 otherwise |
| Heuristics.KeywordWeight | lib/check-website.ts:128-147 | the keyword check weighs 1 however many keywords occur, and 0 without one |
| Heuristics.HttpsWeight | lib/check-website.ts:149-155 | the scheme check weighs 3 exactly when the scheme is not https |
| Heuristics.ReachWeight | lib/check-website.ts:157-185 | the reachability check weighs 2 for a failed request over https, 1 for one otherwise, and 0 when the site answered |
| Heuristics.LabelWeight | lib/check-website.ts:187-191 | the label check weighs 1 exactly for more than three labels |
| Heuristics.AddressWeight | lib/check-website.ts:193-199 | the address check weighs 3 exactly for a host that starts like a dotted quad |
| Heuristics.HostLines | lib/check-website.ts:119-199 | the host checks always give one top-level-domain line, one scheme line and one address line, at most one keyword, reachability and label line, and no scanner or age line |
| Heuristics.HostCount | lib/check-website.ts:119-199 | the lines of each check among the host checks: one for the three checks that always speak, one for the others exactly when they fire |
| Heuristics.OneLine | lib/check-website.ts:119-199 | a check that leaves one line of its own counts once for itself and never for another |
| Heuristics.OptionalLine | lib/check-website.ts:144-147 | a check that leaves at most one line of its own counts at most once, for itself |
| Heuristics.CountSix | lib/check-website.ts:119-199 | the lines of a check over six stretches add up |
| Heuristics.ExemptHosts | lib/check-website.ts:138-142 | "verify.com" and "confirm.io" never get the keyword point, though they contain a keyword |
| Heuristics.DottedQuad | lib/check-website.ts:194 | "10.0.0.1" looks like an address |
| Heuristics.GroupsPrefix | lib/check-website.ts:194 | the test is anchored only at the start: whatever follows a match still matches |
| Heuristics.DigitRunPrefix | lib/check-website.ts:194 | a digit run followed by a non-digit is exactly that long |
| Heuristics.NotQuads | lib/check-website.ts:194 | three groups of digits, or a name, do not look like an address |
| ServerAction.CheckWebsiteLegitimacy | app/actions.ts:9-126 | the action's checks, run in order on the lower-cased host, give exactly the result of its specification: an invalid-format answer when the parser rejects the input, otherwise the host evidence and a verdict from the score |
| ServerAction.ActionCheck | app/actions.ts:9-126 | input the parser rejects, even with "https://" put in front, gives the invalid-format answer; a parsed URL gets the verdict message that matches its verdict and no screenshot |
| ServerAction.ActionThreshold | app/actions.ts:116-125 | a parsed URL is legitimate exactly when the weights of the host checks that fire sum to less than 3 |
| ServerAction.InsecureNeverLegitimate | app/actions.ts:64-70 | a site not served over https is never legitimate, because that check alone weighs 3 |
| ServerAction.AddressNeverLegitimate | app/actions.ts:108-114 | a host that starts like an IPv4 address is never legitimate |
| ServerAction.FreeTldAloneLegitimate | app/actions.ts:33-40 | a free top-level domain alone (2 points) leaves an https site that answered legitimate |
| CheckWebsite.Cache.Get | lib/check-website.ts:62 | the entry read for a hash is the row stored under it, and none when there is no row |
| CheckWebsite.Cache.UpdateVerdict | lib/check-website.ts:93-94 | an existing row takes the new verdict and keeps its other fields; other rows, and a missing hash, are left as they were |
| CheckWebsite.Cache.AddHashWithVerdict | lib/check-website.ts:95-97 | the hash gets a row holding the verdict and the repository's expiry, with no registration data and no screenshot |
| CheckWebsite.Cache.UpdateWhoisData | lib/check-website.ts:224-232 | an existing row takes the five registration fields of the lookup and keeps its verdict, expiry and screenshot; a missing hash gets no row |
| CheckWebsite.Cache.AddHashToGlobalCache | lib/repo/safebrowsing-cache.ts:23-32 | insert-if-absent: a hash without a row gets one with no verdict, and an existing row is kept untouched |
| CheckWebsite.Cache.UpdateScreenshotPath | lib/check-website.ts:282 | an existing row takes the screenshot path and keeps every other field |
| CheckWebsite.LiveVerdict | lib/check-website.ts:85-90 | the verdict written back after a live scan is never empty: a missing or empty scanner verdict, or a scan that threw, leaves UNKNOWN |
| CheckWebsite.CheckWebsiteLegitimacy | lib/check-website.ts:19-300 | the result, the progress percentages, the collaborators called and the cache table afterwards are exactly those of the check's specification for the input and the table before |
| CheckWebsite.Check | lib/check-website.ts:19-300 | no collaborator is called exactly when the input does not parse; otherwise the legitimate list is consulted first, with the lower-cased hostname; a legitimate verdict needs a parsed URL |
| CheckWebsite.Analyse | lib/check-website.ts:61-290 | the analysis always reports 10, 15, 20, 50, 75, 80, 100 and starts its calls with the list lookup of the hostname and the cache read of the hash |
| CheckWebsite.CheckParsed | lib/check-website.ts:43-59 | after a URL parses: a listed host ends at once with progress 10, 15, 100; any other goes on to the analysis keyed by the hash of the URL text |
| CheckWebsite.AnalyseSite | lib/check-website.ts:61-300 | the analysis on the cache object reads the row for the hash once and gives the result, progress, calls and table of the analysis specification |
| CheckWebsite.Finish | lib/check-website.ts:261-300 | the verdict is "legitimate" exactly when the score is under 4; the screenshot is reused or captured; progress ends 80, 100; the call log is complete |
| CheckWebsite.GatherEvidence | lib/check-website.ts:65-259 | the detail lines and score are those of the scanner, host and registration evidence in that order, the progress is 10, 15, 20, 50, 75, and the table holds the verdict and registration write-backs |
| CheckWebsite.ScanAndHostStage | lib/check-website.ts:67-199 | the scanner lines come before the host-check lines and the score adds both; the scanner call, when made, comes before the HEAD request to the URL text; progress 20 and 50 are reported; only the verdict write-back touches the table |
| CheckWebsite.ScanStage | lib/check-website.ts:67-117 | a valid entry supplies the verdict with no scanner call and no write; otherwise the scanner is called once with the URL text and its verdict updates the existing row or creates one |
| CheckWebsite.WhoisStage | lib/check-website.ts:201-233 | cached registration data is used only with a valid entry that holds an age; otherwise WHOIS is asked about the root domain and the result is written to the row only when one was read at the start |
| CheckWebsite.ShotStage | lib/check-website.ts:264-288 | a valid entry with a path supplies it; otherwise one capture of the URL text is made and a saved image's path is stored, creating the row first when none was read |
| CheckWebsite.RecordWhois | lib/check-website.ts:235-259 | the age line (3 points under 30 days), the expiry line (1 point under 30 days) and the abuse-contact line are appended in that order |
| CheckWebsite.EvidenceParts | lib/check-website.ts:65-259 | the score and the detail lines of all the evidence are the sum and the concatenation of those of the scanner, host and registration parts |
| CheckWebsite.InvalidUrlTouchesNothing | lib/check-website.ts:23-41 | input that does not parse, even with "https://" put in front, is not legitimate, says "Invalid URL Format" with the one line "The URL you entered is not in a valid format.", has no screenshot, reports no progress, calls nothing and writes nothing |
| CheckWebsite.ListedHostShortCircuits | lib/check-website.ts:43-59 | a host on the legitimate list is legitimate with the one list line and no screenshot, after only the list lookup of its lower-cased hostname, with progress 10, 15, 100 and no cache write |
| CheckWebsite.UnlistedHostAnalysed | lib/check-website.ts:43-68 | any other parsed URL is analysed under the hash of its text, reports the full progress and reads the cache for that hash right after the list lookup |
| CheckWebsite.ProgressRises | lib/check-website.ts:34-290 | progress is reported exactly when the URL parses; the percentages strictly rise, start at 10 and end at 100 |
| CheckWebsite.CacheDecidesCalls | lib/check-website.ts:61-288 | the scanner is called with the URL text exactly when the entry is not valid, the HEAD request to the URL text is always sent, WHOIS is asked about the root domain exactly when no valid entry holds an age, and the URL text is captured exactly when no valid entry holds a path |
| CheckWebsite.VerdictStored | lib/check-website.ts:85-116 | after a check the hash has a row; its verdict is the cached one when the entry was valid and the live verdict otherwise |
| CheckWebsite.OtherRowsUntouched | lib/check-website.ts:61-288 | rows of other hashes are neither added, removed nor changed by a check |
| CheckWebsite.FirstCheckRow | lib/check-website.ts:85-283 | a first check leaves a row with the live verdict, the repository's expiry, the saved path if any and no registration data, since the WHOIS result is written only to a row read at the start |
| CheckWebsite.FullyCachedCheck | lib/check-website.ts:61-288 | a valid entry holding an age and a screenshot answers the whole check: only the list lookup, the cache read and the HEAD request are made, nothing is written, and the cached path is returned |
| CheckWebsite.FailedCaptureNoPath | lib/check-website.ts:271-287 | a capture that fails or returns nothing leaves no path and writes nothing to the table |
| CheckWebsite.VerdictFromScore | lib/check-website.ts:65-262 | the site is legitimate exactly when the scanner points, the host weights and the registration points sum to less than 4 |
| CheckWebsite.EvidenceInOrder | lib/check-website.ts:25-298 | the details are the lines of the scanner, host and registration evidence in order, one per piece of evidence, and the verdict compares their total score with 4 |
| CheckWebsite.ScannerPoints | lib/check-website.ts:69-116 | the scanner gives 5 points for a cached MALICIOUS or PHISHING verdict or for a live result that is not safe, and 0 otherwise, including when the scan threw |
| CheckWebsite.ThreatCondemns | lib/check-website.ts:69-262 | a threat from the scanner, cached or live, makes the site suspicious whatever the other checks find |
| CheckWebsite.FailedScanNotReused | lib/check-website.ts:63-116 | a live scan that fails or throws is stored as UNKNOWN, so the row is not valid for the next check |
| CheckWebsite.WhoisPoints | lib/check-website.ts:235-254 | the registration evidence weighs 3 for a domain under 30 days old plus 1 for an expiry under 30 days away, and nothing else |

## Left out

**Contracts stated partly by a companion lemma**
- Trim: its own contract states only that the ends are not white space. That the result is the input with a run of white space taken off each end is stated by `Text.TrimInfix`. It is kept apart because every caller of `Trim` would otherwise carry the quantified relation.
- RemoveDots: its own contract states membership and the one-character cases. Order and multiplicity follow from these together with `Text.RemoveDotsConcat`.
- RemoveTabsAndNewlines: the same as `RemoveDots`, with `Sanitize.RemoveTabsAndNewlinesConcat`.
- CollapseRuns: its own contract states the shape of the result. That each run becomes one separator and the other characters stay in order is stated by `Text.CollapseFields`, and for the dots of a hostname also by `Sanitize.CollapseKeepsOthers`.
- CleanDots: its own contract states the shape of the result. Its relation to the hostname (the non-empty labels joined by single dots) is stated by `Sanitize.CleanDotsLabels` and `Sanitize.CleanKeepsOthers`.
- GetRootDomain: the label-suffix property is stated by `RootDomain.RootIsLabelSuffix`, not by the function, for the same reason as `Trim`.

**I/O and foreign primitives**
- Console logging is not modelled.
- The WHATWG URL parser and serializer are parameters, not models. This includes IPv6 serialization and the hostname and pathname setters.
  - Assigning `hostname` or `pathname` on a parsed URL is modelled as a plain field update. The setter's own re-parsing (which may reject or change the value) is not.
- `decodeURIComponent`, SHA-256 and `new Date(string)` are parameters. An unparsable date (Invalid Date, a NaN age) is not modelled: dates are whole milliseconds.
- JavaScript case mapping is modelled on ASCII letters only. Non-ASCII letters (for example U+0130) keep their case in the model.
- Strings are sequences of Unicode scalar values. A character outside the Basic Multilingual Plane, which JavaScript indexes as two lone surrogates, is escaped as two U+FFFD encodings. That is what the source produces.
- Parameters of the message interpolation are strings or integers. Floating-point numbers, and names inherited from `Object.prototype`, are not modelled.

**The check (lib/check-website.ts)**
- The cache repository functions imported at lib/check-website.ts:4 are modelled by their effect on a map of rows. These are `getCacheEntry`, `updateVerdict`, `addHashWithVerdict`, `updateWhoisData` and `updateScreenshotPath`, and their definitions are not part of this model.
  - The expiry given to new rows is an input, `Env.entryExpiry`.
  - Storage errors, row ids and `created_at` are not modelled.
- `addHashToGlobalCache` is modelled as insert-if-absent of a row with no verdict, as its `INSERT IGNORE` does.
  - Its shown definition names the table `safebrowsing_global_cache`. The model takes this to be the table the other five functions read and write, since the check stores the screenshot path under the same hash right after.
- The live scan outcome is either the scanner wrapper's result or `ScanThrew`. `ScanThrew` stands for everything that reaches the catch at lib/check-website.ts:107-116, where the verdict stays UNKNOWN.
  - A write-back that fails after the scan succeeded also lands in that catch; this route is not modelled separately.
- The scanner wrapper never sets `unlisted`, so the branch at lib/check-website.ts:102-103 cannot be reached. It is still modelled: `CheckWebsite.UnlistedEvidence`.
- `checkCloudflareRadar` is declared with two parameters and called with one. The model maps only the scan outcome.
- The clock is one reading, `Env.now`. The source reads it three times: for cache validity (lib/check-website.ts:63), for the days until expiry (lib/check-website.ts:249) and for the domain age (lib/external/whois.ts:83). A live scan and a WHOIS request (with its 5-second timeout, lib/external/whois.ts:35) can fall between these readings. The model does not capture a day boundary crossed in between.
- Progress is kept as a list of percentages; its interleaving with the collaborator calls is not modelled. The messages are given by `CheckWebsite.ProgressMessage`.
- The scanner polling client (lib/repo/cloudflare-scanner.ts) is not modelled: its waits and clock. The same holds for the screenshot capture and storage (lib/external/browserless.ts, lib/shared/storage.ts).
  - Each of these is given by how it ended.

**Other parts of the repository**
- Route handlers, the UI, the Teams webhook and bot-framework glue, and the database and ORM plumbing are not modelled.
- `getTLD` and `getAllTLDs` are not modelled: the TLD registry is a set.
- The read queries of the domain, TLD and blacklist repositories are modelled as set membership.
- The bot's `sendCtiReport` formats the body returned by the CTI service, whose shape is not known. It is not modelled; `Bot.FetchCtiReport` stops at the request.
- `isValidPercentEscape` (lib/shared/url.ts:150-155) is not called anywhere, so it is not modelled.

## Findings

| source | as written | input that shows it | evidently intended | confidence | as-written member | corrected member |
|---|---|---|---|---|---|---|
| lib/shared/url.ts:244-278 | `compressIPv6` receives the URL serializer's output, which is already compressed, and splits it on ':' as if it held eight groups. `normalizeHostname` (and so `Sanitize.NormalizeHostname`) uses it as written. | "[2001:db8::1]" serializes to "2001:db8::1", so the result is "[2001:db8:0:1]", which has only four groups. "[::]" gives "[:]". | Expand the "::" to eight groups first, then compress the first longest zero run (section 4.2 of RFC 5952). | not executed | IPv6.CompressedInputAsWritten, IPv6.UnspecifiedAsWritten, IPv6.NormalizeAsWrittenExample, IPv6.NormalizeUnspecified | IPv6.CompressAddress (with IPv6.CompressAddressKeepsGroups and IPv6.CompressAddressIdempotent), IPv6.NormalizeIPv6Intended, Sanitize.NormalizeHostnameIntended |
