/** The legitimacy check with its verdict cache: parse the input, exit early for a listed
    legitimate host, take the scanner verdict from a valid cache entry or from a live scan
    (writing it back), run the host checks, weigh the WHOIS age and expiry (from the cache
    or fetched), reuse or capture a screenshot, and call the site legitimate when the
    suspicion score stays under 4.

    The collaborators are inputs: the URL parser, the hash, the list of legitimate hosts,
    the clock, and how the scan, the HEAD request, the WHOIS request and the screenshot
    end (`Env`). The cache is an object whose table of entries is updated in place; its
    repository functions are modelled by what they do to that table. */
module CheckWebsite {
  import opened Wrappers
  import opened Text
  import opened WebUrl
  import opened Heuristics
  import Radar
  import Whois
  import RootDomain

  /** A score of 4 or more is suspicious. */
  const Threshold: nat := 4

  // ---------------------------------------------------------------- the cache

  /** One row of the verdict cache. Times are milliseconds since the epoch. */
  datatype CacheEntry = CacheEntry(
    verdict: Option<string>,
    expiresAt: Option<int>,
    domainAgeDays: Option<int>,
    domainExpires: Option<int>,
    domainCreated: Option<int>,
    domainRegistrar: Option<string>,
    abuseContact: Option<string>,
    screenshotPath: Option<string>)

  /** A new row: a verdict (or none) and the expiry the repository gives new rows. */
  function NewEntry(verdict: Option<string>, expiry: Option<int>): CacheEntry {
    CacheEntry(verdict, expiry, None, None, None, None, None, None)
  }

  function Lookup(entries: map<string, CacheEntry>, hash: string): (r: Option<CacheEntry>)
    ensures r.Some? <==> hash in entries
    ensures r.Some? ==> r.value == entries[hash]
  {
    if hash in entries then Some(entries[hash]) else None
  }

  /** A cache entry is used only if it exists, its verdict is not UNKNOWN, it has an
      expiry, and that expiry is still ahead. */
  predicate CacheValid(entry: Option<CacheEntry>, now: int) {
    entry.Some? && entry.value.verdict != Some("UNKNOWN") && entry.value.expiresAt.Some?
    && now < entry.value.expiresAt.value
  }

  /** `updateVerdict`: the verdict of an existing row. */
  function WithVerdict(entries: map<string, CacheEntry>, hash: string, verdict: string): map<string, CacheEntry> {
    if hash in entries then entries[hash := entries[hash].(verdict := Some(verdict))] else entries
  }

  /** `addHashWithVerdict`: a new row with a verdict. */
  function WithNewVerdict(entries: map<string, CacheEntry>, hash: string, verdict: string, expiry: Option<int>)
    : map<string, CacheEntry>
  {
    entries[hash := NewEntry(Some(verdict), expiry)]
  }

  /** `updateWhoisData`: the five registration fields of an existing row. */
  function WithWhois(entries: map<string, CacheEntry>, hash: string, data: Whois.WhoisData): map<string, CacheEntry> {
    if hash in entries then
      entries[hash := entries[hash].(domainCreated := data.created, domainExpires := data.expires,
                                     domainRegistrar := data.registrar, abuseContact := data.abuseContact,
                                     domainAgeDays := data.domainAge)]
    else entries
  }

  /** `addHashToGlobalCache`: a row without a verdict, unless one exists. */
  function WithRow(entries: map<string, CacheEntry>, hash: string, expiry: Option<int>): map<string, CacheEntry> {
    if hash in entries then entries else entries[hash := NewEntry(None, expiry)]
  }

  /** `updateScreenshotPath`: the screenshot of an existing row. */
  function WithScreenshot(entries: map<string, CacheEntry>, hash: string, path: string): map<string, CacheEntry> {
    if hash in entries then entries[hash := entries[hash].(screenshotPath := Some(path))] else entries
  }

  class Cache {
    var entries: map<string, CacheEntry>

    constructor (initial: map<string, CacheEntry>)
      ensures entries == initial
    {
      entries := initial;
    }

    /** `getCacheEntry`. */
    function Get(hash: string): (r: Option<CacheEntry>)
      reads this
      ensures r == Lookup(entries, hash)
    {
      if hash in entries then Some(entries[hash]) else None
    }

    method UpdateVerdict(hash: string, verdict: string)
      modifies this
      ensures entries == WithVerdict(old(entries), hash, verdict)
    {
      if hash in entries {
        entries := entries[hash := entries[hash].(verdict := Some(verdict))];
      }
    }

    method AddHashWithVerdict(hash: string, verdict: string, expiry: Option<int>)
      modifies this
      ensures entries == WithNewVerdict(old(entries), hash, verdict, expiry)
    {
      entries := entries[hash := NewEntry(Some(verdict), expiry)];
    }

    method UpdateWhoisData(hash: string, data: Whois.WhoisData)
      modifies this
      ensures entries == WithWhois(old(entries), hash, data)
    {
      if hash in entries {
        var e := entries[hash];
        entries := entries[hash := e.(domainCreated := data.created, domainExpires := data.expires,
                                      domainRegistrar := data.registrar, abuseContact := data.abuseContact,
                                      domainAgeDays := data.domainAge)];
      }
    }

    method AddHashToGlobalCache(hash: string, expiry: Option<int>)
      modifies this
      ensures entries == WithRow(old(entries), hash, expiry)
    {
      if hash !in entries {
        entries := entries[hash := NewEntry(None, expiry)];
      }
    }

    method UpdateScreenshotPath(hash: string, path: string)
      modifies this
      ensures entries == WithScreenshot(old(entries), hash, path)
    {
      if hash in entries {
        entries := entries[hash := entries[hash].(screenshotPath := Some(path))];
      }
    }
  }

  // ---------------------------------------------------------------- the inputs

  /** How the live scan ended: the scanner wrapper threw, or returned the mapping of the
      scan outcome. */
  datatype LiveScan = ScanThrew | ScanReturned(outcome: Radar.ScanOutcome)

  /** How the screenshot step ended: capturing or saving threw, the capture returned
      nothing, or the image was saved under a path. */
  datatype Shot = CaptureFailed | NoImage | Saved(path: string)

  /** The collaborators. `hashOf` is the SHA-256 of the URL text; `entryExpiry` is the
      expiry the cache repository gives the rows it creates. */
  datatype Env = Env(
    parse: Parser,
    hashOf: string -> string,
    legit: set<string>,
    now: int,
    entryExpiry: Option<int>,
    scan: LiveScan,
    probe: Probe,
    whois: Whois.FetchOutcome,
    parseDate: string -> int,
    urlHostname: string -> Option<string>,
    shot: Shot)

  /** The collaborators the check calls, in order, each with what it is asked about: the
      legitimate list and the cache are looked up by the lower-cased hostname and by the
      hash, the scanner, the HEAD request and the screenshot capture get the URL text, and
      WHOIS is asked about the root domain. */
  datatype Call =
    | LegitLookup(hostname: string)
    | CacheRead(hash: string)
    | ScannerCall(url: string)
    | HeadProbe(url: string)
    | WhoisFetch(domain: string)
    | ScreenshotCapture(url: string)

  /** The message sent with each progress percentage. */
  function ProgressMessage(percent: nat): string {
    if percent == 10 then "URL validated"
    else if percent == 15 then "Checking legitimate domain list..."
    else if percent == 20 then "Scanning with URL Scanner..."
    else if percent == 50 then "URL Scanner scan complete"
    else if percent == 75 then "Checking domain registration information..."
    else if percent == 80 then "Capturing screenshot..."
    else "Complete"
  }

  // ---------------------------------------------------------------- the scanner stage

  /** The evidence from a valid cache entry: 5 points for a MALICIOUS or PHISHING verdict. */
  function CachedEvidence(verdict: Option<string>): seq<Evidence> {
    if verdict == Some("MALICIOUS") || verdict == Some("PHISHING") then [Evidence(Scanner, 5, CachedThreat(verdict.value))]
    else if verdict == Some("SAFE") then [Evidence(Scanner, 0, CachedPass)]
    else [Evidence(Scanner, 0, CachedUnavailable)]
  }

  /** `threatTypes?.join(', ')` inside a template: absent prints as `undefined`. */
  function ThreatText(threats: Option<seq<string>>): string {
    match threats
    case Some(ts) => Join(ts, ", ")
    case None => "undefined"
  }

  function OptionalText(s: Option<string>): string {
    match s
    case Some(t) => t
    case None => "undefined"
  }

  /** The evidence from a live scan: 5 points unless the result is safe or unlisted. */
  function LiveEvidence(scan: LiveScan): seq<Evidence> {
    match scan
    case ScanThrew => [Evidence(Scanner, 0, ScanUnavailable)]
    case ScanReturned(outcome) =>
      var r := Radar.CheckCloudflareRadar(outcome);
      if !r.safe && !r.unlisted then [Evidence(Scanner, 5, LiveThreat(ThreatText(r.threatTypes), OptionalText(r.details)))]
      else if r.unlisted then UnlistedEvidence
      else [Evidence(Scanner, 0, LivePass)]
  }

  /** The line for a site the scanner has not seen. The scanner wrapper never reports one,
      so this branch of `LiveEvidence` is not reached. */
  const UnlistedEvidence: seq<Evidence> := [Evidence(Scanner, 0, Unlisted)]

  /** The verdict written back after a live scan: the scanner's, or UNKNOWN when it gave
      none (or an empty one) or threw. */
  function LiveVerdict(scan: LiveScan): (v: string)
    ensures v != ""
  {
    match scan
    case ScanThrew => "UNKNOWN"
    case ScanReturned(outcome) =>
      var verdict := Radar.CheckCloudflareRadar(outcome).verdict;
      if verdict.Some? && verdict.value != "" then verdict.value else "UNKNOWN"
  }

  /** The verdict write-back: update the row read at the start if there was one, else add
      one. */
  function StoreVerdict(entries: map<string, CacheEntry>, hash: string, entry: Option<CacheEntry>,
                        verdict: string, expiry: Option<int>): map<string, CacheEntry>
  {
    if entry.Some? then WithVerdict(entries, hash, verdict) else WithNewVerdict(entries, hash, verdict, expiry)
  }

  function ScannerEvidence(entry: Option<CacheEntry>, valid: bool, scan: LiveScan): seq<Evidence>
    requires valid ==> entry.Some?
  {
    if valid then CachedEvidence(entry.value.verdict) else LiveEvidence(scan)
  }

  // ---------------------------------------------------------------- the WHOIS stage

  /** The registration data kept in a cache row. */
  function WhoisFromCache(e: CacheEntry): Whois.WhoisData {
    Whois.WhoisData(e.domainCreated, e.domainExpires, e.domainRegistrar, e.abuseContact, e.domainAgeDays, None)
  }

  /** The cached registration data is used only when the verdict cache is valid and the
      row has an age. */
  predicate WhoisCached(entry: Option<CacheEntry>, valid: bool) {
    valid && entry.Some? && entry.value.domainAgeDays.Some?
  }

  /** ` (root)` after the age line when the WHOIS lookup used a shorter name than the host. */
  function DomainSuffix(hostname: string): string {
    var root := RootDomain.GetRootDomain(hostname);
    if root != hostname then " (" + root + ")" else ""
  }

  /** Whole days until the expiry, rounded down. */
  function DaysUntil(expires: int, now: int): int {
    (expires - now) / Whois.MsPerDay
  }

  /** Age under 30 days: 3 points; expiry in under 30 days: 1 point; the abuse contact is
      shown when there is one. */
  function WhoisEvidence(data: Whois.WhoisData, suffix: string, now: int): seq<Evidence> {
    (match data.domainAge
     case Some(d) => if d < 30 then [Evidence(Age, 3, NewDomain(d, suffix))] else [Evidence(Age, 0, Established(d, suffix))]
     case None => [Evidence(Age, 0, AgeUnknown(suffix))])
    + (if data.expires.Some? && DaysUntil(data.expires.value, now) < 30
       then [Evidence(Expiry, 1, ExpiresSoon(DaysUntil(data.expires.value, now)))] else [])
    + (if Whois.Truthy(data.abuseContact) then [Evidence(Abuse, 0, AbuseLine(data.abuseContact.value))] else [])
  }

  // ---------------------------------------------------------------- the screenshot stage

  predicate ShotCached(entry: Option<CacheEntry>, valid: bool) {
    valid && entry.Some? && Whois.Truthy(entry.value.screenshotPath)
  }

  function ShotPath(shot: Shot): Option<string> {
    if shot.Saved? then Some(shot.path) else None
  }

  /** After a saved capture, a row is made if none was read at the start, then the path is
      stored. */
  function StoreShot(entries: map<string, CacheEntry>, hash: string, entry: Option<CacheEntry>, shot: Shot,
                     expiry: Option<int>): map<string, CacheEntry>
  {
    if shot.Saved? then
      WithScreenshot(if entry.None? then WithRow(entries, hash, expiry) else entries, hash, shot.path)
    else entries
  }

  // ---------------------------------------------------------------- the whole check

  /** What one check returns, the progress percentages it reports, the collaborators it
      calls and the cache table afterwards. */
  datatype Run = Run(result: CheckResult, progress: seq<nat>, calls: seq<Call>, entries: map<string, CacheEntry>)

  const ListedResult: CheckResult :=
    CheckResult(true, VerdictMessage(true), [Pass + "Website is available in our legitimate website list"], None)

  /** The progress reported by a check that reaches the end. */
  const FullProgress: seq<nat> := [10, 15, 20, 50, 75, 80, 100]

  /** `checkWebsiteLegitimacy` as a value. No collaborator is called exactly when the input
      does not parse, and otherwise the legitimate list is always consulted first. */
  function Check(urlString: string, entries: map<string, CacheEntry>, env: Env): (r: Run)
    ensures r.calls == [] <==> env.parse(WithHttps(Trim(urlString))).None?
    ensures r.calls != [] ==> r.calls[0] == LegitLookup(Lower(env.parse(WithHttps(Trim(urlString))).value.hostname))
    ensures r.result.isLegitimate ==> env.parse(WithHttps(Trim(urlString))).Some?
  {
    match env.parse(WithHttps(Trim(urlString)))
    case None => Run(InvalidUrl, [], [], entries)
    case Some(url) => CheckUrl(url, entries, env)
  }

  /** A parsed URL: the legitimate list first, then the analysis keyed by the hash of the
      URL text. */
  function CheckUrl(url: Url, entries: map<string, CacheEntry>, env: Env): Run {
    if Lower(url.hostname) in env.legit then Run(ListedResult, [10, 15, 100], [LegitLookup(Lower(url.hostname))], entries)
    else Analyse(url, Lower(url.hostname), env.hashOf(url.href), entries, env)
  }

  /** Everything after the legitimate-list lookup: the cache entry read for the hash
      decides what is looked up again. */
  function Analyse(url: Url, hostname: string, hash: string, entries: map<string, CacheEntry>, env: Env): (r: Run)
    ensures r.progress == FullProgress
    ensures |r.calls| >= 2 && r.calls[..2] == [LegitLookup(hostname), CacheRead(hash)]
  {
    CallLogStarts(url, hostname, hash, Lookup(entries, hash), CacheValid(Lookup(entries, hash), env.now));
    Outcome(url, hostname, hash, entries, Lookup(entries, hash), CacheValid(Lookup(entries, hash), env.now), env)
  }

  function Outcome(url: Url, hostname: string, hash: string, entries: map<string, CacheEntry>,
                   entry: Option<CacheEntry>, valid: bool, env: Env): Run
    requires valid ==> entry.Some?
  {
    Run(Conclude(EvidenceDetails(url, hostname, entry, valid, env), EvidenceScore(url, hostname, entry, valid, env),
                 ShotResult(entry, valid, env.shot)),
        FullProgress, CallLog(url, hostname, hash, entry, valid), Stored(entries, hash, entry, valid, env))
  }

  /** The detail lines: scanner, host checks, registration data. */
  function EvidenceDetails(url: Url, hostname: string, entry: Option<CacheEntry>, valid: bool, env: Env): seq<string>
    requires valid ==> entry.Some?
  {
    Details(ScannerEvidence(entry, valid, env.scan))
    + Details(HostEvidence(hostname, url.protocol, env.probe, Pipeline))
    + Details(WhoisEvidence(WhoisData(entry, valid, env), DomainSuffix(hostname), env.now))
  }

  /** The suspicion score: scanner, host checks, registration data. */
  function EvidenceScore(url: Url, hostname: string, entry: Option<CacheEntry>, valid: bool, env: Env): nat
    requires valid ==> entry.Some?
  {
    Score(ScannerEvidence(entry, valid, env.scan))
    + Score(HostEvidence(hostname, url.protocol, env.probe, Pipeline))
    + Score(WhoisEvidence(WhoisData(entry, valid, env), DomainSuffix(hostname), env.now))
  }

  /** The result: legitimate when the score stays under the threshold. */
  function Conclude(details: seq<string>, score: nat, path: Option<string>): CheckResult {
    var legit := score < Threshold;
    CheckResult(legit, VerdictMessage(legit), details, path)
  }

  /** The calls after the legitimate-list lookup that the cache does not make unnecessary. */
  function CallLog(url: Url, hostname: string, hash: string, entry: Option<CacheEntry>, valid: bool): seq<Call> {
    [LegitLookup(hostname), CacheRead(hash)] + EvidenceCalls(url, hostname, entry, valid) + ShotCalls(url, entry, valid)
  }

  /** The evidence in order: scanner, host checks, registration data. */
  function AllEvidence(url: Url, hostname: string, entry: Option<CacheEntry>, valid: bool, env: Env): seq<Evidence>
    requires valid ==> entry.Some?
  {
    ScannerEvidence(entry, valid, env.scan)
    + HostEvidence(hostname, url.protocol, env.probe, Pipeline)
    + WhoisEvidence(WhoisData(entry, valid, env), DomainSuffix(hostname), env.now)
  }

  function WhoisData(entry: Option<CacheEntry>, valid: bool, env: Env): Whois.WhoisData {
    if WhoisCached(entry, valid) then WhoisFromCache(entry.value)
    else Whois.CheckWhois(env.whois, env.now, env.parseDate, env.urlHostname)
  }

  function ShotResult(entry: Option<CacheEntry>, valid: bool, shot: Shot): Option<string> {
    if ShotCached(entry, valid) then entry.value.screenshotPath else ShotPath(shot)
  }

  /** The scanner call when the cache cannot answer it, the HEAD request, which is always
      sent, then the WHOIS request when the cache cannot answer it. */
  function EvidenceCalls(url: Url, hostname: string, entry: Option<CacheEntry>, valid: bool): seq<Call> {
    ScanCalls(url, valid) + HostCalls(url) + WhoisCalls(hostname, entry, valid)
  }

  function HostCalls(url: Url): seq<Call> {
    [HeadProbe(url.href)]
  }

  function ScanCalls(url: Url, valid: bool): seq<Call> {
    if valid then [] else [ScannerCall(url.href)]
  }

  function WhoisCalls(hostname: string, entry: Option<CacheEntry>, valid: bool): seq<Call> {
    if WhoisCached(entry, valid) then [] else [WhoisFetch(RootDomain.GetRootDomain(hostname))]
  }

  function ShotCalls(url: Url, entry: Option<CacheEntry>, valid: bool): seq<Call> {
    if ShotCached(entry, valid) then [] else [ScreenshotCapture(url.href)]
  }

  /** The table after the three write-backs. */
  function Stored(entries: map<string, CacheEntry>, hash: string, entry: Option<CacheEntry>, valid: bool, env: Env)
    : map<string, CacheEntry>
  {
    AfterShot(AfterWhois(AfterScan(entries, hash, entry, valid, env), hash, entry, valid, env), hash, entry, valid, env)
  }

  /** The table after the verdict write-back, which follows every live scan. */
  function AfterScan(entries: map<string, CacheEntry>, hash: string, entry: Option<CacheEntry>, valid: bool,
                     env: Env): map<string, CacheEntry>
  {
    if valid then entries else StoreVerdict(entries, hash, entry, LiveVerdict(env.scan), env.entryExpiry)
  }

  /** The table after the WHOIS write-back, which follows a fetch when a row was read at
      the start. */
  function AfterWhois(entries: map<string, CacheEntry>, hash: string, entry: Option<CacheEntry>, valid: bool,
                      env: Env): map<string, CacheEntry>
  {
    if WhoisCached(entry, valid) || entry.None? then entries else WithWhois(entries, hash, WhoisData(entry, valid, env))
  }

  /** The table after the screenshot write-back, which follows a saved capture. */
  function AfterShot(entries: map<string, CacheEntry>, hash: string, entry: Option<CacheEntry>, valid: bool,
                     env: Env): map<string, CacheEntry>
  {
    if ShotCached(entry, valid) then entries else StoreShot(entries, hash, entry, env.shot, env.entryExpiry)
  }

  // ---------------------------------------------------------------- the methods

  /** `checkWebsiteLegitimacy`: the steps in order, on the cache object. */
  method CheckWebsiteLegitimacy(cache: Cache, urlString: string, env: Env)
    returns (result: CheckResult, progress: seq<nat>, calls: seq<Call>)
    modifies cache
    ensures var run := Check(urlString, old(cache.entries), env);
            result == run.result && progress == run.progress && calls == run.calls && cache.entries == run.entries
  {
    var text := Trim(urlString);
    var parsed := env.parse(WithHttps(text));
    if parsed.None? {
      result, progress, calls := InvalidUrl, [], [];
    } else {
      result, progress, calls := CheckParsed(cache, parsed.value, env);
    }
  }

  /** The steps after the URL is validated. */
  method CheckParsed(cache: Cache, url: Url, env: Env) returns (result: CheckResult, progress: seq<nat>, calls: seq<Call>)
    modifies cache
    ensures var run := CheckUrl(url, old(cache.entries), env);
            result == run.result && progress == run.progress && calls == run.calls && cache.entries == run.entries
  {
    progress := [10];
    var hostname := Lower(url.hostname);
    var hash := env.hashOf(url.href);

    progress := progress + [15];
    assert progress == [10, 15];
    calls := [LegitLookup(hostname)];
    if hostname in env.legit {
      progress := progress + [100];
      assert progress == [10, 15, 100];
      result := ListedResult;
    } else {
      result, progress, calls := AnalyseSite(cache, url, hostname, hash, env, progress, calls);
    }
  }

  /** The scanner, host, WHOIS and screenshot steps, with the progress reported on the way. */
  method AnalyseSite(cache: Cache, url: Url, hostname: string, hash: string, env: Env,
                     progress0: seq<nat>, calls0: seq<Call>)
    returns (result: CheckResult, progress: seq<nat>, calls: seq<Call>)
    requires progress0 == [10, 15] && calls0 == [LegitLookup(hostname)]
    modifies cache
    ensures var run := Analyse(url, hostname, hash, old(cache.entries), env);
            result == run.result && progress == run.progress && calls == run.calls && cache.entries == run.entries
  {
    var entry := cache.Get(hash);
    var valid := CacheValid(entry, env.now);
    var details, score, evidenceCalls;
    details, score, evidenceCalls, progress := GatherEvidence(cache, url, hostname, hash, entry, valid, env, progress0);
    result, progress, calls := Finish(cache, url, hostname, hash, entry, valid, env, details, score, evidenceCalls,
                                      progress, calls0);
  }

  /** The screenshot step and the verdict, once the evidence is in. */
  method Finish(cache: Cache, url: Url, hostname: string, hash: string, entry: Option<CacheEntry>, valid: bool, env: Env,
                details: seq<string>, score: nat, evidenceCalls: seq<Call>, progress0: seq<nat>, calls0: seq<Call>)
    returns (result: CheckResult, progress: seq<nat>, calls: seq<Call>)
    requires progress0 == [10, 15, 20, 50, 75] && calls0 == [LegitLookup(hostname)]
    requires evidenceCalls == EvidenceCalls(url, hostname, entry, valid)
    modifies cache
    ensures result == Conclude(details, score, ShotResult(entry, valid, env.shot))
    ensures progress == FullProgress && calls == CallLog(url, hostname, hash, entry, valid)
    ensures cache.entries == AfterShot(old(cache.entries), hash, entry, valid, env)
  {
    var isLegitimate := score < Threshold;
    progress := progress0 + [80];
    var screenshotPath, shotCalls := ShotStage(cache, url, hash, entry, valid, env);
    calls := calls0 + [CacheRead(hash)];
    assert calls == [LegitLookup(hostname), CacheRead(hash)];
    calls := calls + evidenceCalls + shotCalls;
    progress := progress + [100];
    assert progress == FullProgress;
    result := CheckResult(isLegitimate, VerdictMessage(isLegitimate), details, screenshotPath);
  }

  /** The scanner, host and WHOIS steps: the detail lines and score of all the evidence. */
  method GatherEvidence(cache: Cache, url: Url, hostname: string, hash: string, entry: Option<CacheEntry>,
                        valid: bool, env: Env, progress0: seq<nat>)
    returns (details: seq<string>, score: nat, calls: seq<Call>, progress: seq<nat>)
    requires entry == cache.Get(hash) && valid == CacheValid(entry, env.now)
    requires progress0 == [10, 15]
    modifies cache
    ensures details == EvidenceDetails(url, hostname, entry, valid, env)
    ensures score == EvidenceScore(url, hostname, entry, valid, env)
    ensures calls == EvidenceCalls(url, hostname, entry, valid)
    ensures cache.entries == AfterWhois(AfterScan(old(cache.entries), hash, entry, valid, env), hash, entry, valid, env)
    ensures progress == [10, 15, 20, 50, 75]
  {
    var scanCalls;
    details, score, scanCalls, progress := ScanAndHostStage(cache, url, hostname, hash, entry, valid, env, progress0);
    progress := progress + [75];
    var whoisData, whoisCalls := WhoisStage(cache, hostname, hash, entry, valid, env);
    calls := scanCalls + whoisCalls;
    details, score := RecordWhois(details, score, whoisData, DomainSuffix(hostname), env.now);
  }

  /** The scanner step followed by the host checks, with their progress reports. */
  method ScanAndHostStage(cache: Cache, url: Url, hostname: string, hash: string, entry: Option<CacheEntry>,
                          valid: bool, env: Env, progress0: seq<nat>)
    returns (details: seq<string>, score: nat, calls: seq<Call>, progress: seq<nat>)
    requires entry == cache.Get(hash) && valid == CacheValid(entry, env.now)
    requires progress0 == [10, 15]
    modifies cache
    ensures details == Details(ScannerEvidence(entry, valid, env.scan)) + Details(HostEvidence(hostname, url.protocol, env.probe, Pipeline))
    ensures score == Score(ScannerEvidence(entry, valid, env.scan)) + Score(HostEvidence(hostname, url.protocol, env.probe, Pipeline))
    ensures calls == ScanCalls(url, valid) + HostCalls(url)
    ensures cache.entries == AfterScan(old(cache.entries), hash, entry, valid, env)
    ensures progress == [10, 15, 20, 50]
  {
    progress := progress0 + [20];
    details, score, calls := ScanStage(cache, url, hash, entry, valid, env);
    progress := progress + [50];
    assert progress == [10, 15, 20, 50];
    details, score := RunHostChecks(hostname, url.protocol, env.probe, Pipeline, details, score);
    calls := calls + [HeadProbe(url.href)];
  }

  /** The scanner step: the cached verdict when the entry is valid, otherwise a live scan
      whose verdict is written back. */
  method ScanStage(cache: Cache, url: Url, hash: string, entry: Option<CacheEntry>, valid: bool, env: Env)
    returns (details: seq<string>, score: nat, calls: seq<Call>)
    requires entry == cache.Get(hash) && valid == CacheValid(entry, env.now)
    modifies cache
    ensures details == Details(ScannerEvidence(entry, valid, env.scan))
    ensures score == Score(ScannerEvidence(entry, valid, env.scan))
    ensures calls == ScanCalls(url, valid)
    ensures cache.entries == AfterScan(old(cache.entries), hash, entry, valid, env)
  {
    calls := [];
    if valid {
      details, score := Record([], 0, CachedEvidence(entry.value.verdict));
    } else {
      calls := [ScannerCall(url.href)];
      var verdict := LiveVerdict(env.scan);
      if entry.Some? {
        cache.UpdateVerdict(hash, verdict);
      } else {
        cache.AddHashWithVerdict(hash, verdict, env.entryExpiry);
      }
      details, score := Record([], 0, LiveEvidence(env.scan));
    }
  }

  /** The WHOIS step: the cached registration data when it can be reused, otherwise a
      lookup whose result is written to the row read at the start, if any. */
  method WhoisStage(cache: Cache, hostname: string, hash: string, entry: Option<CacheEntry>, valid: bool, env: Env)
    returns (data: Whois.WhoisData, calls: seq<Call>)
    modifies cache
    ensures data == WhoisData(entry, valid, env)
    ensures calls == WhoisCalls(hostname, entry, valid)
    ensures cache.entries == AfterWhois(old(cache.entries), hash, entry, valid, env)
  {
    if WhoisCached(entry, valid) {
      data := WhoisFromCache(entry.value);
      calls := [];
    } else {
      calls := [WhoisFetch(RootDomain.GetRootDomain(hostname))];
      data := Whois.CheckWhois(env.whois, env.now, env.parseDate, env.urlHostname);
      if entry.Some? {
        cache.UpdateWhoisData(hash, data);
      }
    }
  }

  /** The screenshot step: the cached path when it can be reused, otherwise a capture whose
      path is stored, making a row first when none was read at the start. */
  method ShotStage(cache: Cache, url: Url, hash: string, entry: Option<CacheEntry>, valid: bool, env: Env)
    returns (path: Option<string>, calls: seq<Call>)
    modifies cache
    ensures path == ShotResult(entry, valid, env.shot)
    ensures calls == ShotCalls(url, entry, valid)
    ensures cache.entries == AfterShot(old(cache.entries), hash, entry, valid, env)
  {
    if ShotCached(entry, valid) {
      path := entry.value.screenshotPath;
      calls := [];
    } else {
      calls := [ScreenshotCapture(url.href)];
      path := None;
      if env.shot.Saved? {
        path := Some(env.shot.path);
        if entry.None? {
          cache.AddHashToGlobalCache(hash, env.entryExpiry);
        }
        cache.UpdateScreenshotPath(hash, env.shot.path);
      }
    }
  }

  /** The registration lines: age, expiry, abuse contact. */
  method RecordWhois(details: seq<string>, score: nat, data: Whois.WhoisData, suffix: string, now: int)
    returns (details': seq<string>, score': nat)
    ensures details' == details + Details(WhoisEvidence(data, suffix, now))
    ensures score' == score + Score(WhoisEvidence(data, suffix, now))
  {
    var age := if data.domainAge.Some? then
                 (if data.domainAge.value < 30 then [Evidence(Age, 3, NewDomain(data.domainAge.value, suffix))]
                  else [Evidence(Age, 0, Established(data.domainAge.value, suffix))])
               else [Evidence(Age, 0, AgeUnknown(suffix))];
    details', score' := Record(details, score, age);
    var expiry := if data.expires.Some? && DaysUntil(data.expires.value, now) < 30
                  then [Evidence(Expiry, 1, ExpiresSoon(DaysUntil(data.expires.value, now)))] else [];
    details', score' := Step(details, score, age, details', score', expiry);
    var abuse := if Whois.Truthy(data.abuseContact) then [Evidence(Abuse, 0, AbuseLine(data.abuseContact.value))] else [];
    details', score' := Step(details, score, age + expiry, details', score', abuse);
  }

  /** The score and lines of all the evidence are those of its three parts. */
  lemma EvidenceParts(url: Url, hostname: string, entry: Option<CacheEntry>, valid: bool, env: Env)
    requires valid ==> entry.Some?
    ensures Score(AllEvidence(url, hostname, entry, valid, env)) == EvidenceScore(url, hostname, entry, valid, env)
    ensures Details(AllEvidence(url, hostname, entry, valid, env)) == EvidenceDetails(url, hostname, entry, valid, env)
  {
    var s, h, w := ScannerEvidence(entry, valid, env.scan),
                   HostEvidence(hostname, url.protocol, env.probe, Pipeline),
                   WhoisEvidence(WhoisData(entry, valid, env), DomainSuffix(hostname), env.now);
    ScoreAppend(s, h);
    ScoreAppend(s + h, w);
    DetailsAppend(s, h);
    DetailsAppend(s + h, w);
  }

  // ---------------------------------------------------------------- properties of a check

  /** An input that does not parse as a URL, even with `https://` put in front, gives the
      invalid-format result and touches nothing. */
  lemma InvalidUrlTouchesNothing(urlString: string, entries: map<string, CacheEntry>, env: Env)
    requires env.parse(WithHttps(Trim(urlString))).None?
    ensures var run := Check(urlString, entries, env);
            !run.result.isLegitimate && run.result.message == "Invalid URL Format" &&
            |run.result.details| == 1 && run.result.details[0] == "The URL you entered is not in a valid format." &&
            run.result.screenshotPath == None &&
            run.progress == [] && run.calls == [] && run.entries == entries
  {
  }

  /** A host on the legitimate list is legitimate without any other lookup and without a
      cache write. */
  lemma ListedHostShortCircuits(urlString: string, entries: map<string, CacheEntry>, env: Env)
    requires env.parse(WithHttps(Trim(urlString))).Some?
    requires Lower(env.parse(WithHttps(Trim(urlString))).value.hostname) in env.legit
    ensures var run := Check(urlString, entries, env);
            run.result.isLegitimate && run.result.details == ListedResult.details && run.result.screenshotPath == None &&
            run.calls == [LegitLookup(Lower(env.parse(WithHttps(Trim(urlString))).value.hostname))] &&
            run.entries == entries && run.progress == [10, 15, 100]
  {
  }

  /** Any other parsed URL goes through the whole analysis, keyed by the hash of its text. */
  lemma UnlistedHostAnalysed(urlString: string, entries: map<string, CacheEntry>, env: Env)
    requires env.parse(WithHttps(Trim(urlString))).Some?
    requires Lower(env.parse(WithHttps(Trim(urlString))).value.hostname) !in env.legit
    ensures var url := env.parse(WithHttps(Trim(urlString))).value;
            var run := Check(urlString, entries, env);
            run == Analyse(url, Lower(url.hostname), env.hashOf(url.href), entries, env) &&
            run.progress == FullProgress &&
            run.calls[..2] == [LegitLookup(Lower(url.hostname)), CacheRead(env.hashOf(url.href))]
  {
    var url := env.parse(WithHttps(Trim(urlString))).value;
    assert Check(urlString, entries, env) == CheckUrl(url, entries, env);
  }

  lemma CallLogStarts(url: Url, hostname: string, hash: string, entry: Option<CacheEntry>, valid: bool)
    ensures var calls := CallLog(url, hostname, hash, entry, valid);
            |calls| >= 2 && calls[..2] == [LegitLookup(hostname), CacheRead(hash)]
  {
    var calls := CallLog(url, hostname, hash, entry, valid);
    assert calls == [LegitLookup(hostname), CacheRead(hash)] +
                    (EvidenceCalls(url, hostname, entry, valid) + ShotCalls(url, entry, valid));
  }

  /** The progress percentages rise and end at 100 whenever the URL parses. */
  lemma ProgressRises(urlString: string, entries: map<string, CacheEntry>, env: Env)
    ensures var p := Check(urlString, entries, env).progress;
            (p == [] <==> env.parse(WithHttps(Trim(urlString))).None?) &&
            (forall i :: 0 < i < |p| ==> p[i - 1] < p[i]) &&
            (p != [] ==> p[0] == 10 && p[|p| - 1] == 100)
  {
    var p := Check(urlString, entries, env).progress;
    ProgressCases(urlString, entries, env);
    Rising(p);
  }

  lemma ProgressCases(urlString: string, entries: map<string, CacheEntry>, env: Env)
    ensures var p := Check(urlString, entries, env).progress;
            (p == [] <==> env.parse(WithHttps(Trim(urlString))).None?) &&
            (p == [] || p == [10, 15, 100] || p == FullProgress)
  {
  }

  lemma Rising(p: seq<nat>)
    requires p == [] || p == [10, 15, 100] || p == FullProgress
    ensures forall i :: 0 < i < |p| ==> p[i - 1] < p[i]
    ensures p != [] ==> p[0] == 10 && p[|p| - 1] == 100
  {
  }

  /** The scanner is called exactly when the cache entry is not valid, the HEAD request is
      always sent, WHOIS is fetched exactly when the cache cannot supply an age, and a
      screenshot is captured exactly when the valid cache entry has no path. */
  lemma CacheDecidesCalls(url: Url, hostname: string, hash: string, entries: map<string, CacheEntry>, env: Env)
    ensures var entry := Lookup(entries, hash);
            var valid := CacheValid(entry, env.now);
            var calls := Analyse(url, hostname, hash, entries, env).calls;
            (ScannerCall(url.href) in calls <==> !valid) &&
            HeadProbe(url.href) in calls &&
            (WhoisFetch(RootDomain.GetRootDomain(hostname)) in calls <==> !(valid && entry.value.domainAgeDays.Some?)) &&
            (ScreenshotCapture(url.href) in calls <==> !(valid && Whois.Truthy(entry.value.screenshotPath)))
  {
    var entry := Lookup(entries, hash);
    var valid := CacheValid(entry, env.now);
    assert Analyse(url, hostname, hash, entries, env).calls == CallLog(url, hostname, hash, entry, valid);
    CallLogMembers(url, hostname, hash, entry, valid);
  }

  lemma CallLogMembers(url: Url, hostname: string, hash: string, entry: Option<CacheEntry>, valid: bool)
    ensures var calls := CallLog(url, hostname, hash, entry, valid);
            (ScannerCall(url.href) in calls <==> !valid) &&
            HeadProbe(url.href) in calls &&
            (WhoisFetch(RootDomain.GetRootDomain(hostname)) in calls <==> !WhoisCached(entry, valid)) &&
            (ScreenshotCapture(url.href) in calls <==> !ShotCached(entry, valid))
  {
    var scan := ScanCalls(url, valid);
    var host := HostCalls(url);
    var whois := WhoisCalls(hostname, entry, valid);
    var shot := ShotCalls(url, entry, valid);
    var calls := [LegitLookup(hostname), CacheRead(hash)] + (scan + host + whois) + shot;
    assert ScannerCall(url.href) in calls <==> ScannerCall(url.href) in scan;
    assert HeadProbe(url.href) in host;
    assert WhoisFetch(RootDomain.GetRootDomain(hostname)) in calls <==> WhoisFetch(RootDomain.GetRootDomain(hostname)) in whois;
    assert ScreenshotCapture(url.href) in calls <==> ScreenshotCapture(url.href) in shot;
  }

  /** After the check the hash has a row. Its verdict is the cached one when the cache was
      valid, otherwise the one from the live scan (UNKNOWN when it gave none). */
  lemma VerdictStored(url: Url, hostname: string, hash: string, entries: map<string, CacheEntry>, env: Env)
    ensures var entry := Lookup(entries, hash);
            var run := Analyse(url, hostname, hash, entries, env);
            hash in run.entries &&
            run.entries[hash].verdict ==
              (if CacheValid(entry, env.now) then entries[hash].verdict else Some(LiveVerdict(env.scan)))
  {
    var entry := Lookup(entries, hash);
    var valid := CacheValid(entry, env.now);
    assert Analyse(url, hostname, hash, entries, env).entries == Stored(entries, hash, entry, valid, env);
    StoredVerdict(entries, hash, entry, valid, env);
  }

  lemma StoredVerdict(entries: map<string, CacheEntry>, hash: string, entry: Option<CacheEntry>, valid: bool, env: Env)
    requires entry == Lookup(entries, hash) && (valid ==> entry.Some?)
    ensures var stored := Stored(entries, hash, entry, valid, env);
            hash in stored &&
            stored[hash].verdict == (if valid then entries[hash].verdict else Some(LiveVerdict(env.scan)))
  {
    var e1 := AfterScan(entries, hash, entry, valid, env);
    var e2 := AfterWhois(e1, hash, entry, valid, env);
    assert hash in e1 && e1[hash].verdict == (if valid then entries[hash].verdict else Some(LiveVerdict(env.scan)));
    assert hash in e2 && e2[hash].verdict == e1[hash].verdict;
  }

  /** Rows of other hashes are left as they were. */
  lemma OtherRowsUntouched(url: Url, hostname: string, hash: string, entries: map<string, CacheEntry>, env: Env,
                           other: string)
    requires other != hash
    ensures var run := Analyse(url, hostname, hash, entries, env);
            (other in run.entries <==> other in entries) &&
            (other in entries ==> run.entries[other] == entries[other])
  {
    var entry := Lookup(entries, hash);
    var valid := CacheValid(entry, env.now);
    assert Analyse(url, hostname, hash, entries, env).entries == Stored(entries, hash, entry, valid, env);
    StoredKeepsOthers(entries, hash, entry, valid, env, other);
  }

  lemma StoredKeepsOthers(entries: map<string, CacheEntry>, hash: string, entry: Option<CacheEntry>, valid: bool,
                          env: Env, other: string)
    requires other != hash && (valid ==> entry.Some?)
    ensures var stored := Stored(entries, hash, entry, valid, env);
            (other in stored <==> other in entries) && (other in entries ==> stored[other] == entries[other])
  {
    var e1 := AfterScan(entries, hash, entry, valid, env);
    var e2 := AfterWhois(e1, hash, entry, valid, env);
    assert (other in e1 <==> other in entries) && (other in entries ==> e1[other] == entries[other]);
    assert (other in e2 <==> other in e1) && (other in e1 ==> e2[other] == e1[other]);
  }

  /** A first check of a URL leaves a row with the live verdict, the repository's expiry,
      the saved screenshot path if any, and no registration data: the WHOIS result is only
      written to a row that existed before the check. */
  lemma FirstCheckRow(url: Url, hostname: string, hash: string, entries: map<string, CacheEntry>, env: Env)
    requires hash !in entries
    ensures var run := Analyse(url, hostname, hash, entries, env);
            hash in run.entries &&
            run.entries[hash] == CacheEntry(Some(LiveVerdict(env.scan)), env.entryExpiry, None, None, None, None, None,
                                            ShotPath(env.shot))
  {
    var entry := Lookup(entries, hash);
    var e1 := AfterScan(entries, hash, entry, false, env);
    assert e1 == entries[hash := NewEntry(Some(LiveVerdict(env.scan)), env.entryExpiry)];
  }

  /** With a valid entry that holds an age and a screenshot, the check is answered from
      the cache and the HEAD request alone, and writes nothing. */
  lemma FullyCachedCheck(url: Url, hostname: string, hash: string, entries: map<string, CacheEntry>, env: Env)
    requires hash in entries && CacheValid(Some(entries[hash]), env.now)
    requires entries[hash].domainAgeDays.Some? && Whois.Truthy(entries[hash].screenshotPath)
    ensures var run := Analyse(url, hostname, hash, entries, env);
            run.calls == [LegitLookup(hostname), CacheRead(hash), HeadProbe(url.href)] && run.entries == entries &&
            run.result.screenshotPath == entries[hash].screenshotPath
  {
    var entry := Lookup(entries, hash);
    assert WhoisCached(entry, true) && ShotCached(entry, true);
    assert CallLog(url, hostname, hash, entry, true) == [LegitLookup(hostname), CacheRead(hash)] + [HeadProbe(url.href)];
  }

  /** A capture that fails or returns nothing leaves no path, and the screenshot step
      writes nothing. */
  lemma FailedCaptureNoPath(url: Url, hostname: string, hash: string, entries: map<string, CacheEntry>, env: Env)
    requires !env.shot.Saved?
    requires !ShotCached(Lookup(entries, hash), CacheValid(Lookup(entries, hash), env.now))
    ensures var entry := Lookup(entries, hash);
            var valid := CacheValid(entry, env.now);
            var run := Analyse(url, hostname, hash, entries, env);
            run.result.screenshotPath == None &&
            run.entries == AfterWhois(AfterScan(entries, hash, entry, valid, env), hash, entry, valid, env)
  {
  }

  /** The verdict is the sum of the scanner points, the host weights and the registration
      points, against the threshold of 4. */
  lemma VerdictFromScore(url: Url, hostname: string, hash: string, entries: map<string, CacheEntry>, env: Env)
    ensures var entry := Lookup(entries, hash);
            var valid := CacheValid(entry, env.now);
            var run := Analyse(url, hostname, hash, entries, env);
            run.result.isLegitimate <==>
              Score(ScannerEvidence(entry, valid, env.scan)) + HostWeight(hostname, url.protocol, env.probe)
              + Score(WhoisEvidence(WhoisData(entry, valid, env), DomainSuffix(hostname), env.now)) < Threshold
  {
    HostScore(hostname, url.protocol, env.probe, Pipeline);
  }

  /** The details are the lines of all the evidence in order, and the verdict compares the
      score of all of it with the threshold. */
  lemma EvidenceInOrder(url: Url, hostname: string, hash: string, entries: map<string, CacheEntry>, env: Env)
    ensures var entry := Lookup(entries, hash);
            var valid := CacheValid(entry, env.now);
            var es := AllEvidence(url, hostname, entry, valid, env);
            var run := Analyse(url, hostname, hash, entries, env);
            run.result.details == Details(es) && (run.result.isLegitimate <==> Score(es) < Threshold) &&
            |run.result.details| == |es| && (forall i :: 0 <= i < |es| ==> run.result.details[i] == LineText(es[i].line))
  {
    var entry := Lookup(entries, hash);
    var valid := CacheValid(entry, env.now);
    EvidenceParts(url, hostname, entry, valid, env);
  }

  /** The scanner's own points: 5 for a cached MALICIOUS or PHISHING verdict or for a live
      result that is not safe, else 0. */
  lemma ScannerPoints(entry: Option<CacheEntry>, valid: bool, scan: LiveScan)
    requires valid ==> entry.Some?
    ensures Score(ScannerEvidence(entry, valid, scan)) ==
              if valid then (if entry.value.verdict in {Some("MALICIOUS"), Some("PHISHING")} then 5 else 0)
              else if scan.ScanReturned? && !Radar.CheckCloudflareRadar(scan.outcome).safe then 5 else 0
  {
    var es := ScannerEvidence(entry, valid, scan);
    Single(es[0]);
  }

  /** A threat from the scanner, cached or live, makes the site suspicious whatever the
      other checks find. A scan that returns its failure result counts as a threat; one
      that throws does not. */
  lemma ThreatCondemns(url: Url, hostname: string, hash: string, entries: map<string, CacheEntry>, env: Env)
    requires var entry := Lookup(entries, hash);
             if CacheValid(entry, env.now) then entry.value.verdict in {Some("MALICIOUS"), Some("PHISHING")}
             else env.scan.ScanReturned? && !Radar.CheckCloudflareRadar(env.scan.outcome).safe
    ensures !Analyse(url, hostname, hash, entries, env).result.isLegitimate
  {
    var entry := Lookup(entries, hash);
    var valid := CacheValid(entry, env.now);
    VerdictFromScore(url, hostname, hash, entries, env);
    ScannerPoints(entry, valid, env.scan);
  }

  /** A live scan that comes back as a failure is stored as UNKNOWN, so the next check
      scans again. */
  lemma FailedScanNotReused(url: Url, hostname: string, hash: string, entries: map<string, CacheEntry>, env: Env)
    requires !CacheValid(Lookup(entries, hash), env.now)
    requires env.scan == ScanReturned(Radar.ScanFailed) || env.scan == ScanThrew
    ensures var run := Analyse(url, hostname, hash, entries, env);
            hash in run.entries && !CacheValid(Some(run.entries[hash]), env.now)
  {
    VerdictStored(url, hostname, hash, entries, env);
  }

  /** The registration points: 3 for a domain under 30 days old, 1 for an expiry under 30
      days away. */
  lemma WhoisPoints(data: Whois.WhoisData, suffix: string, now: int)
    ensures Score(WhoisEvidence(data, suffix, now)) ==
              (if data.domainAge.Some? && data.domainAge.value < 30 then 3 else 0)
              + (if data.expires.Some? && DaysUntil(data.expires.value, now) < 30 then 1 else 0)
  {
    var a := (match data.domainAge
              case Some(d) => if d < 30 then [Evidence(Age, 3, NewDomain(d, suffix))] else [Evidence(Age, 0, Established(d, suffix))]
              case None => [Evidence(Age, 0, AgeUnknown(suffix))]);
    var x := if data.expires.Some? && DaysUntil(data.expires.value, now) < 30
             then [Evidence(Expiry, 1, ExpiresSoon(DaysUntil(data.expires.value, now)))] else [];
    var b := if Whois.Truthy(data.abuseContact) then [Evidence(Abuse, 0, AbuseLine(data.abuseContact.value))] else [];
    assert WhoisEvidence(data, suffix, now) == a + x + b;
    ScoreAppend(a, x);
    ScoreAppend(a + x, b);
    Single(a[0]);
    if x != [] { Single(x[0]); }
    if b != [] { Single(b[0]); }
  }
}
