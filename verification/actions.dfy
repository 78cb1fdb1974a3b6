/** The older server action: the host checks alone, no cache, scanner, WHOIS or
    screenshot, and a stricter threshold. */
module ServerAction {
  import opened Wrappers
  import opened Text
  import opened WebUrl
  import opened Heuristics

  /** The action's threshold: a score of 3 or more is suspicious. */
  const Threshold: nat := 3

  /** What the action returns for an input, given the URL parser and how the HEAD request
      to the site ends. */
  function ActionCheck(urlString: string, parse: Parser, probe: Probe): (r: CheckResult)
    ensures parse(WithHttps(urlString)).None? ==> r == InvalidUrl
    ensures parse(WithHttps(urlString)).Some? ==>
              r.message == VerdictMessage(r.isLegitimate) && r.screenshotPath.None?
  {
    match parse(WithHttps(urlString))
    case None => InvalidUrl
    case Some(url) =>
      var es := HostEvidence(Lower(url.hostname), url.protocol, probe, Action);
      var legit := Score(es) < Threshold;
      CheckResult(legit, VerdictMessage(legit), Details(es), None)
  }

  /** `checkWebsiteLegitimacy` (server action): the checks run in order, each adding its
      weight to the score and its line to the details. */
  method CheckWebsiteLegitimacy(urlString: string, parse: Parser, probe: Probe) returns (r: CheckResult)
    ensures r == ActionCheck(urlString, parse, probe)
  {
    var parsed := parse(WithHttps(urlString));
    if parsed.None? {
      return InvalidUrl;
    }
    var url := parsed.value;
    var hostname := Lower(url.hostname);
    var details, score := RunHostChecks(hostname, url.protocol, probe, Action, [], 0);
    var isLegitimate := score < Threshold;
    r := CheckResult(isLegitimate, VerdictMessage(isLegitimate), details, None);
  }

  /** A parsed URL is legitimate exactly when the weights of the checks that fire sum to
      less than 3. */
  lemma ActionThreshold(urlString: string, parse: Parser, probe: Probe)
    requires parse(WithHttps(urlString)).Some?
    ensures var url := parse(WithHttps(urlString)).value;
            var weight := HostWeight(Lower(url.hostname), url.protocol, probe);
            ActionCheck(urlString, parse, probe).isLegitimate <==> weight < 3
  {
    var url := parse(WithHttps(urlString)).value;
    HostScore(Lower(url.hostname), url.protocol, probe, Action);
  }

  /** A site not served over https is never legitimate: that check alone weighs 3. */
  lemma InsecureNeverLegitimate(urlString: string, parse: Parser, probe: Probe)
    requires parse(WithHttps(urlString)).Some? && parse(WithHttps(urlString)).value.protocol != "https:"
    ensures !ActionCheck(urlString, parse, probe).isLegitimate
  {
    ActionThreshold(urlString, parse, probe);
  }

  /** A host that starts like an IPv4 address is never legitimate. */
  lemma AddressNeverLegitimate(urlString: string, parse: Parser, probe: Probe)
    requires parse(WithHttps(urlString)).Some?
    requires LooksLikeIPv4(Lower(parse(WithHttps(urlString)).value.hostname))
    ensures !ActionCheck(urlString, parse, probe).isLegitimate
  {
    ActionThreshold(urlString, parse, probe);
  }

  /** A free top-level domain alone (2 points) does not make a reachable https site
      suspicious. */
  lemma FreeTldAloneLegitimate(urlString: string, parse: Parser, probe: Probe)
    requires parse(WithHttps(urlString)).Some?
    requires var url := parse(WithHttps(urlString)).value;
             var host := Lower(url.hostname);
             url.protocol == "https:" && probe.Responded? && FreeTld(host) &&
             !HasPhishingKeyword(host) && !SubdomainHeavy(host) && !LooksLikeIPv4(host)
    ensures ActionCheck(urlString, parse, probe).isLegitimate
  {
    ActionThreshold(urlString, parse, probe);
  }
}
