/** The host heuristics both legitimacy checks share: each check adds a fixed weight to a
    suspicion score and a line to the evidence shown to the user. A line of evidence is
    tagged with the check it comes from, so that what is said about the lines (one line
    per check, the weight of each check) does not depend on their wording. */
module Heuristics {
  import opened Wrappers
  import opened Text

  const Warn: string := "\U{26A0}\U{FE0F} "
  const Pass: string := "\U{2713} "
  const Info: string := "\U{2139}\U{FE0F} "

  /** The checks that contribute evidence. */
  datatype Check = Scanner | Tld | Keyword | Https | Reach | Labels | Address | Age | Expiry | Abuse

  /** Which of the two checks is running: the pipeline (`lib/check-website.ts`) or the
      older server action (`app/actions.ts`); three lines are worded differently. */
  datatype Variant = Pipeline | Action

  /** The lines of evidence; `LineText` gives their wording. */
  datatype Line =
    | CachedThreat(verdict: string) | CachedPass | CachedUnavailable
    | LiveThreat(threats: string, detail: string) | Unlisted | LivePass | ScanUnavailable
    | FreeTldLine | StandardTldLine | KeywordLine
    | SecureLine(v: Variant) | InsecureLine(v: Variant)
    | UnreachableSecure(v: Variant) | UnreachablePlain | ReachableLine
    | HeavyLine | AddressLine | DomainNameLine
    | NewDomain(days: int, suffix: string) | Established(days: int, suffix: string) | AgeUnknown(suffix: string)
    | ExpiresSoon(days: int) | AbuseLine(contact: string)

  function LineText(l: Line): string {
    match l
    case CachedThreat(v) => Warn + "URL Scanner detected threats: " + v + "."
    case CachedPass => Pass + "Passed URL Scanner check"
    case CachedUnavailable => Warn + "URL Scanner not available"
    case LiveThreat(t, d) => Warn + "URL Scanner detected threats: " + t + ". " + d
    case Unlisted => Info + "The URL is unlisted"
    case LivePass => Pass + "Passed URL Scanner check"
    case ScanUnavailable => Info + "URL Scanner check unavailable"
    case FreeTldLine => Warn + "Uses a free/suspicious top-level domain"
    case StandardTldLine => Pass + "Uses a standard domain extension"
    case KeywordLine => Warn + "Domain contains common phishing keywords"
    case SecureLine(v) => if v == Pipeline then Pass + "Uses secure connection" else Pass + "Uses secure HTTPS connection"
    case InsecureLine(v) => if v == Pipeline then Warn + "Does not use encryption" else Warn + "Does not use HTTPS encryption"
    case UnreachableSecure(v) =>
      if v == Pipeline then Warn + "Website cannot be reached" else Warn + "Website cannot be reached or has SSL issues"
    case UnreachablePlain => Warn + "Website could not be reached"
    case ReachableLine => Pass + "Website is reachable and responding"
    case HeavyLine => Warn + "Domain structure seems unusual (subdomain heavy)"
    case AddressLine => Warn + "Uses IP address instead of domain name"
    case DomainNameLine => Pass + "Uses proper domain name"
    case NewDomain(d, sfx) => Warn + "Domain is very new (" + IntToString(d) + " days old)" + sfx
    case Established(d, sfx) => Pass + "Domain is established (" + IntToString(d) + " days old)" + sfx
    case AgeUnknown(sfx) => Info + "Domain age information unavailable" + sfx
    case ExpiresSoon(d) => Warn + "Domain expires soon (" + IntToString(d) + " days)"
    case AbuseLine(c) => Info + "Abuse contact: " + c
  }

  datatype Evidence = Evidence(check: Check, points: nat, line: Line)

  /** The suspicion score: the sum of the weights. */
  function Score(es: seq<Evidence>): nat {
    if es == [] then 0 else es[0].points + Score(es[1..])
  }

  /** The `details` list: the lines in order. */
  function Details(es: seq<Evidence>): (r: seq<string>)
    ensures |r| == |es|
    ensures forall i :: 0 <= i < |es| ==> r[i] == LineText(es[i].line)
  {
    seq(|es|, i requires 0 <= i < |es| => LineText(es[i].line))
  }

  /** How many lines a check contributed. */
  function CountCheck(es: seq<Evidence>, c: Check): nat {
    if es == [] then 0 else (if es[0].check == c then 1 else 0) + CountCheck(es[1..], c)
  }

  lemma {:induction false} ScoreAppend(a: seq<Evidence>, b: seq<Evidence>)
    ensures Score(a + b) == Score(a) + Score(b)
  {
    if a == [] {
      assert a + b == b;
    } else {
      ScoreAppend(a[1..], b);
      assert (a + b)[1..] == a[1..] + b;
    }
  }

  lemma {:induction false} CountAppend(a: seq<Evidence>, b: seq<Evidence>, c: Check)
    ensures CountCheck(a + b, c) == CountCheck(a, c) + CountCheck(b, c)
  {
    if a == [] {
      assert a + b == b;
    } else {
      CountAppend(a[1..], b, c);
      assert (a + b)[1..] == a[1..] + b;
    }
  }

  lemma DetailsAppend(a: seq<Evidence>, b: seq<Evidence>)
    ensures Details(a + b) == Details(a) + Details(b)
  {
  }

  /** Adding one line of evidence adds its weight to the score and its text to the details. */
  lemma Push(es: seq<Evidence>, e: Evidence)
    ensures Score(es + [e]) == Score(es) + e.points
    ensures Details(es + [e]) == Details(es) + [LineText(e.line)]
  {
    ScoreAppend(es, [e]);
    assert [e][1..] == [];
  }

  // ---------------------------------------------------------------- the tests on the host

  /** The host ends with one of the free top-level domains `.tk`, `.ml`, `.ga`, `.cf`. */
  predicate FreeTld(hostname: string) {
    EndsWith(hostname, ".tk") || EndsWith(hostname, ".ml") || EndsWith(hostname, ".ga") || EndsWith(hostname, ".cf")
  }

  const PhishingKeywords: seq<string> := ["verify", "confirm", "update", "secure", "account", "login", "urgent"]

  /** The host contains a phishing keyword and is not one of the two exempt hosts. */
  predicate HasPhishingKeyword(hostname: string) {
    (exists k :: k in PhishingKeywords && Contains(hostname, k))
    && hostname != "verify.com" && hostname != "confirm.io"
  }

  /** `hostname.split('.').length > 3`: more than three labels. */
  predicate SubdomainHeavy(hostname: string) {
    |Split(hostname, '.')| > 3
  }

  /** The length of the run of digits the text starts with. */
  function DigitRun(s: string): (n: nat)
    ensures n <= |s|
    ensures forall i :: 0 <= i < n ==> IsDigit(s[i])
    ensures n < |s| ==> !IsDigit(s[n])
  {
    if s != [] && IsDigit(s[0]) then 1 + DigitRun(s[1..]) else 0
  }

  /** The text starts with `groups` runs of digits separated by single dots (the regular
      expression `\d+(\.\d+)*` with that many runs, unanchored at the end). */
  predicate DigitGroups(s: string, groups: nat)
    decreases groups
  {
    var n := DigitRun(s);
    n > 0 && (groups <= 1 || (n < |s| && s[n] == '.' && DigitGroups(s[n + 1..], groups - 1)))
  }

  /** `/^\d+\.\d+\.\d+\.\d+/`: the host starts like a dotted-quad address. */
  predicate LooksLikeIPv4(hostname: string) {
    DigitGroups(hostname, 4)
  }

  /** How the HEAD request to the site ended: it threw (network error, TLS error or the
      5-second abort), or it answered with a status. */
  datatype Probe = ProbeFailed | Responded(ok: bool, status: int)

  predicate Reachable(probe: Probe) {
    probe.Responded? && (probe.ok || probe.status < 400)
  }

  // ---------------------------------------------------------------- evidence per check

  /** Free top-level domain: 2 points; otherwise a passing line. */
  function TldEvidence(hostname: string): seq<Evidence> {
    if FreeTld(hostname) then [Evidence(Tld, 2, FreeTldLine)]
    else [Evidence(Tld, 0, StandardTldLine)]
  }

  /** A phishing keyword: 1 point, however many keywords occur; no line otherwise. */
  function KeywordEvidence(hostname: string): seq<Evidence> {
    if HasPhishingKeyword(hostname) then [Evidence(Keyword, 1, KeywordLine)]
    else []
  }

  /** A scheme other than `https:`: 3 points. */
  function HttpsEvidence(protocol: string, v: Variant): seq<Evidence> {
    if protocol == "https:" then [Evidence(Https, 0, SecureLine(v))]
    else [Evidence(Https, 3, InsecureLine(v))]
  }

  /** A failed request: 2 points over https, 1 otherwise; a reachable https site gets a
      passing line. */
  function ReachEvidence(protocol: string, probe: Probe, v: Variant): seq<Evidence> {
    if probe.ProbeFailed? then
      if protocol == "https:" then [Evidence(Reach, 2, UnreachableSecure(v))]
      else [Evidence(Reach, 1, UnreachablePlain)]
    else if Reachable(probe) && protocol == "https:" then
      [Evidence(Reach, 0, ReachableLine)]
    else []
  }

  /** More than three labels: 1 point. */
  function LabelEvidence(hostname: string): seq<Evidence> {
    if SubdomainHeavy(hostname) then [Evidence(Labels, 1, HeavyLine)]
    else []
  }

  /** A host that starts like an IPv4 address: 3 points; otherwise a passing line. */
  function AddressEvidence(hostname: string): seq<Evidence> {
    if LooksLikeIPv4(hostname) then [Evidence(Address, 3, AddressLine)]
    else [Evidence(Address, 0, DomainNameLine)]
  }

  /** The six host checks, in the order both checks run them. */
  function HostEvidence(hostname: string, protocol: string, probe: Probe, v: Variant): seq<Evidence> {
    TldEvidence(hostname) + KeywordEvidence(hostname) + HttpsEvidence(protocol, v)
    + ReachEvidence(protocol, probe, v) + LabelEvidence(hostname) + AddressEvidence(hostname)
  }

  // ---------------------------------------------------------------- running the checks

  /** One step of a check: push its line, if it has one, and add its weight. */
  method Record(details: seq<string>, score: nat, es: seq<Evidence>)
    returns (details': seq<string>, score': nat)
    requires |es| <= 1
    ensures details' == details + Details(es) && score' == score + Score(es)
  {
    details', score' := details, score;
    if |es| == 1 {
      Push([], es[0]);
      assert [] + [es[0]] == es;
      details' := details' + [LineText(es[0].line)];
      score' := score' + es[0].points;
    }
  }

  /** `Record` after the checks in `done`. */
  method Step(details: seq<string>, score: nat, ghost done: seq<Evidence>,
              current: seq<string>, currentScore: nat, es: seq<Evidence>)
    returns (details': seq<string>, score': nat)
    requires |es| <= 1
    requires current == details + Details(done) && currentScore == score + Score(done)
    ensures details' == details + Details(done + es) && score' == score + Score(done + es)
  {
    details', score' := Record(current, currentScore, es);
    DetailsAppend(done, es);
    ScoreAppend(done, es);
  }

  /** The six host checks in order, as both checks run them. */
  method RunHostChecks(hostname: string, protocol: string, probe: Probe, v: Variant,
                       details: seq<string>, score: nat)
    returns (details': seq<string>, score': nat)
    ensures details' == details + Details(HostEvidence(hostname, protocol, probe, v))
    ensures score' == score + Score(HostEvidence(hostname, protocol, probe, v))
  {
    var t := TldEvidence(hostname);
    var k := KeywordEvidence(hostname);
    var h := HttpsEvidence(protocol, v);
    var r := ReachEvidence(protocol, probe, v);
    var l := LabelEvidence(hostname);
    var a := AddressEvidence(hostname);
    details', score' := Record(details, score, t);
    ghost var done := t;
    details', score' := Step(details, score, done, details', score', k);
    done := done + k;
    details', score' := Step(details, score, done, details', score', h);
    done := done + h;
    details', score' := Step(details, score, done, details', score', r);
    done := done + r;
    details', score' := Step(details, score, done, details', score', l);
    done := done + l;
    details', score' := Step(details, score, done, details', score', a);
    done := done + a;
  }

  /** The score and details of the host checks, check by check. */
  lemma HostParts(hostname: string, protocol: string, probe: Probe, v: Variant)
    ensures var t, k, h := TldEvidence(hostname), KeywordEvidence(hostname), HttpsEvidence(protocol, v);
            var r, l, a := ReachEvidence(protocol, probe, v), LabelEvidence(hostname), AddressEvidence(hostname);
            Score(HostEvidence(hostname, protocol, probe, v))
              == Score(t) + Score(k) + Score(h) + Score(r) + Score(l) + Score(a) &&
            Details(HostEvidence(hostname, protocol, probe, v))
              == Details(t) + Details(k) + Details(h) + Details(r) + Details(l) + Details(a)
  {
    var t, k, h := TldEvidence(hostname), KeywordEvidence(hostname), HttpsEvidence(protocol, v);
    var r, l, a := ReachEvidence(protocol, probe, v), LabelEvidence(hostname), AddressEvidence(hostname);
    ScoreAppend(t, k);
    ScoreAppend(t + k, h);
    ScoreAppend(t + k + h, r);
    ScoreAppend(t + k + h + r, l);
    ScoreAppend(t + k + h + r + l, a);
    DetailsAppend(t, k);
    DetailsAppend(t + k, h);
    DetailsAppend(t + k + h, r);
    DetailsAppend(t + k + h + r, l);
    DetailsAppend(t + k + h + r + l, a);
  }

  /** The weight table of the host checks. */
  function HostWeight(hostname: string, protocol: string, probe: Probe): nat {
    (if FreeTld(hostname) then 2 else 0)
    + (if HasPhishingKeyword(hostname) then 1 else 0)
    + (if protocol != "https:" then 3 else 0)
    + (if probe.ProbeFailed? then (if protocol == "https:" then 2 else 1) else 0)
    + (if SubdomainHeavy(hostname) then 1 else 0)
    + (if LooksLikeIPv4(hostname) then 3 else 0)
  }

  /** One line: its weight, and one count for its own check. */
  lemma Single(e: Evidence)
    ensures Score([e]) == e.points
    ensures forall c :: CountCheck([e], c) == if e.check == c then 1 else 0
  {
    assert [e][1..] == [];
  }

  /** The score of the host checks is the sum of the weights of the checks that fire,
      whatever the wording. */
  lemma HostScore(hostname: string, protocol: string, probe: Probe, v: Variant)
    ensures Score(HostEvidence(hostname, protocol, probe, v)) == HostWeight(hostname, protocol, probe)
  {
    var t := TldEvidence(hostname);
    var k := KeywordEvidence(hostname);
    var h := HttpsEvidence(protocol, v);
    var r := ReachEvidence(protocol, probe, v);
    var l := LabelEvidence(hostname);
    var a := AddressEvidence(hostname);
    ScoreSix(t, k, h, r, l, a);
    var w1 := TldWeight(hostname);
    var w2 := KeywordWeight(hostname);
    var w3 := HttpsWeight(protocol, v);
    var w4 := ReachWeight(protocol, probe, v);
    var w5 := LabelWeight(hostname);
    var w6 := AddressWeight(hostname);
    assert HostWeight(hostname, protocol, probe) == w1 + w2 + w3 + w4 + w5 + w6;
    assert HostEvidence(hostname, protocol, probe, v) == t + k + h + r + l + a;
  }

  lemma ScoreSix(t: seq<Evidence>, k: seq<Evidence>, h: seq<Evidence>, r: seq<Evidence>,
                 l: seq<Evidence>, a: seq<Evidence>)
    ensures Score(t + k + h + r + l + a)
            == Score(t) + Score(k) + Score(h) + Score(r) + Score(l) + Score(a)
  {
    ScoreAppend(t, k);
    ScoreAppend(t + k, h);
    ScoreAppend(t + k + h, r);
    ScoreAppend(t + k + h + r, l);
    ScoreAppend(t + k + h + r + l, a);
  }

  lemma TldWeight(hostname: string) returns (w: nat)
    ensures w == Score(TldEvidence(hostname)) && w == if FreeTld(hostname) then 2 else 0
  {
    Single(TldEvidence(hostname)[0]);
    w := Score(TldEvidence(hostname));
  }

  lemma KeywordWeight(hostname: string) returns (w: nat)
    ensures w == Score(KeywordEvidence(hostname)) && w == if HasPhishingKeyword(hostname) then 1 else 0
  {
    if HasPhishingKeyword(hostname) { Single(KeywordEvidence(hostname)[0]); }
    w := Score(KeywordEvidence(hostname));
  }

  lemma HttpsWeight(protocol: string, v: Variant) returns (w: nat)
    ensures w == Score(HttpsEvidence(protocol, v)) && w == if protocol != "https:" then 3 else 0
  {
    Single(HttpsEvidence(protocol, v)[0]);
    w := Score(HttpsEvidence(protocol, v));
  }

  lemma ReachWeight(protocol: string, probe: Probe, v: Variant) returns (w: nat)
    ensures w == Score(ReachEvidence(protocol, probe, v))
    ensures w == if probe.ProbeFailed? then (if protocol == "https:" then 2 else 1) else 0
  {
    var r := ReachEvidence(protocol, probe, v);
    if r != [] { Single(r[0]); }
    w := Score(r);
  }

  lemma LabelWeight(hostname: string) returns (w: nat)
    ensures w == Score(LabelEvidence(hostname)) && w == if SubdomainHeavy(hostname) then 1 else 0
  {
    if SubdomainHeavy(hostname) { Single(LabelEvidence(hostname)[0]); }
    w := Score(LabelEvidence(hostname));
  }

  lemma AddressWeight(hostname: string) returns (w: nat)
    ensures w == Score(AddressEvidence(hostname)) && w == if LooksLikeIPv4(hostname) then 3 else 0
  {
    Single(AddressEvidence(hostname)[0]);
    w := Score(AddressEvidence(hostname));
  }

  /** The host checks give exactly one top-level-domain line, one scheme line and one
      address line, at most one keyword line and at most one reachability line. */
  lemma HostLines(hostname: string, protocol: string, probe: Probe, v: Variant)
    ensures var es := HostEvidence(hostname, protocol, probe, v);
            CountCheck(es, Tld) == 1 && CountCheck(es, Https) == 1 && CountCheck(es, Address) == 1 &&
            CountCheck(es, Keyword) <= 1 && CountCheck(es, Reach) <= 1 && CountCheck(es, Labels) <= 1 &&
            CountCheck(es, Scanner) == 0 && CountCheck(es, Age) == 0
  {
    HostCount(hostname, protocol, probe, v, Tld);
    HostCount(hostname, protocol, probe, v, Https);
    HostCount(hostname, protocol, probe, v, Address);
    HostCount(hostname, protocol, probe, v, Keyword);
    HostCount(hostname, protocol, probe, v, Reach);
    HostCount(hostname, protocol, probe, v, Labels);
    HostCount(hostname, protocol, probe, v, Scanner);
    HostCount(hostname, protocol, probe, v, Age);
  }

  /** Each host check contributes at most one line, of its own check, and the first,
      third and last always one. */
  lemma HostCount(hostname: string, protocol: string, probe: Probe, v: Variant, c: Check)
    ensures CountCheck(HostEvidence(hostname, protocol, probe, v), c)
            == (if c == Tld || c == Https || c == Address then 1 else 0)
               + (if c == Keyword && HasPhishingKeyword(hostname) then 1 else 0)
               + (if c == Reach && ReachEvidence(protocol, probe, v) != [] then 1 else 0)
               + (if c == Labels && SubdomainHeavy(hostname) then 1 else 0)
  {
    var t := TldEvidence(hostname);
    var k := KeywordEvidence(hostname);
    var h := HttpsEvidence(protocol, v);
    var r := ReachEvidence(protocol, probe, v);
    var l := LabelEvidence(hostname);
    var a := AddressEvidence(hostname);
    CountSix(t, k, h, r, l, a, c);
    OneLine(t, Tld, c);
    OneLine(h, Https, c);
    OneLine(a, Address, c);
    OptionalLine(k, Keyword, c);
    OptionalLine(r, Reach, c);
    OptionalLine(l, Labels, c);
    assert HostEvidence(hostname, protocol, probe, v) == t + k + h + r + l + a;
  }

  /** A check that always leaves one line of its own. */
  lemma OneLine(es: seq<Evidence>, own: Check, c: Check)
    requires |es| == 1 && es[0].check == own
    ensures CountCheck(es, c) == if c == own then 1 else 0
  {
    Single(es[0]);
    assert es == [es[0]];
  }

  /** A check that leaves at most one line of its own. */
  lemma OptionalLine(es: seq<Evidence>, own: Check, c: Check)
    requires |es| <= 1 && (es != [] ==> es[0].check == own)
    ensures CountCheck(es, c) == if c == own && es != [] then 1 else 0
  {
    if es != [] {
      OneLine(es, own, c);
    }
  }

  lemma CountSix(t: seq<Evidence>, k: seq<Evidence>, h: seq<Evidence>, r: seq<Evidence>,
                 l: seq<Evidence>, a: seq<Evidence>, c: Check)
    ensures CountCheck(t + k + h + r + l + a, c)
            == CountCheck(t, c) + CountCheck(k, c) + CountCheck(h, c) + CountCheck(r, c)
               + CountCheck(l, c) + CountCheck(a, c)
  {
    CountAppend(t, k, c);
    CountAppend(t + k, h, c);
    CountAppend(t + k + h, r, c);
    CountAppend(t + k + h + r, l, c);
    CountAppend(t + k + h + r + l, a, c);
  }

  /** The two exempt hosts never get the keyword point, though they contain a keyword. */
  lemma ExemptHosts()
    ensures !HasPhishingKeyword("verify.com") && !HasPhishingKeyword("confirm.io")
    ensures Contains("verify.com", "verify")
  {
    assert OccursAt("verify.com", "verify", 0);
  }

  /** A dotted quad looks like an address. */
  lemma DottedQuad()
    ensures LooksLikeIPv4("10.0.0.1")
  {
    assert DigitRun("10.0.0.1") == 2;
    assert "10.0.0.1"[3..] == "0.0.1";
    assert DigitRun("0.0.1") == 1;
    assert "0.0.1"[2..] == "0.1";
    assert DigitRun("0.1") == 1;
    assert "0.1"[2..] == "1";
  }

  /** The test is anchored at the start only: whatever follows a match still matches. */
  lemma {:induction false} GroupsPrefix(s: string, rest: string, groups: nat)
    requires DigitGroups(s, groups)
    ensures DigitGroups(s + rest, groups)
    decreases groups
  {
    var n := DigitRun(s);
    var t := s + rest;
    assert t[0] == s[0];
    if groups > 1 {
      assert t[..n] == s[..n];
      DigitRunPrefix(t, n);
      assert t[n + 1..] == s[n + 1..] + rest;
      GroupsPrefix(s[n + 1..], rest, groups - 1);
    }
  }

  lemma {:induction false} DigitRunPrefix(s: string, n: nat)
    requires n < |s| && !IsDigit(s[n])
    requires forall i :: 0 <= i < n ==> IsDigit(s[i])
    ensures DigitRun(s) == n
  {
    if n > 0 {
      DigitRunPrefix(s[1..], n - 1);
    }
  }

  /** Three groups of digits are not an address, nor is a name. */
  lemma NotQuads()
    ensures !LooksLikeIPv4("10.0.1")
    ensures !LooksLikeIPv4("example.com")
  {
    assert DigitRun("10.0.1") == 2;
    assert "10.0.1"[3..] == "0.1";
    assert DigitRun("0.1") == 1;
    assert "0.1"[2..] == "1";
    assert DigitRun("1") == 1;
    assert DigitRun("example.com") == 0;
  }

  // ---------------------------------------------------------------- the result

  datatype CheckResult = CheckResult(isLegitimate: bool, message: string, details: seq<string>,
                                     screenshotPath: Option<string>)

  const InvalidUrl: CheckResult :=
    CheckResult(false, "Invalid URL Format", ["The URL you entered is not in a valid format."], None)

  function VerdictMessage(isLegitimate: bool): string {
    if isLegitimate then Pass + "Appears to be a Legitimate Website"
    else Warn + "Website Shows Suspicious Signs"
  }
}
