/** Mapping of a URL-scanner result to the record the pipeline reads: a
    verdict, whether the URL is safe, the threat types and a detail line. */
module Radar {
  import opened Wrappers
  import opened Text

  /** What the scanner reports (the polling client is not modelled): whether the
      overall verdict is malicious, whether the phishing processor fired, and the
      radar rank if one was given. `ScanFailed` is any exception while scanning. */
  datatype ScanOutcome =
    | ScanFailed
    | Scanned(malicious: bool, phishingDetected: bool, radarRank: Option<int>)

  /** The record returned to the pipeline; `unlisted` is read by the pipeline but
      never set by this mapper. */
  datatype RadarResult = RadarResult(
    safe: bool,
    threatTypes: Option<seq<string>>,
    details: Option<string>,
    verdict: Option<string>,
    unlisted: bool)

  const Malicious: string := "MALICIOUS"
  const Phishing: string := "PHISHING"
  const Safe: string := "SAFE"
  const Unknown: string := "UNKNOWN"

  /** `radarRank ?? 'N/A'`, as the template literal prints it. */
  function RankText(rank: Option<int>): string {
    match rank
    case Some(n) => IntToString(n)
    case None => "N/A"
  }

  /** `checkCloudflareRadar`: it never throws, a scan failure becomes an UNKNOWN verdict. */
  function CheckCloudflareRadar(outcome: ScanOutcome): (r: RadarResult)
    ensures !r.unlisted && r.verdict.Some? && r.details.Some?
  {
    match outcome
    case ScanFailed =>
      RadarResult(false, Some([Unknown]), Some("Scan unavailable"), Some(Unknown), false)
    case Scanned(malicious, phishing, rank) =>
      if malicious then
        RadarResult(false, Some([Malicious]), Some("Detected as malicious by URL Scanner"), Some(Malicious), false)
      else if phishing then
        RadarResult(false, Some([Phishing]), Some("Phishing detected by URL Scanner"), Some(Phishing), false)
      else
        RadarResult(true, None, Some("No threats detected. Rank: " + RankText(rank)), Some(Safe), false)
  }

  /** A malicious overall verdict wins over a phishing detection. */
  lemma MaliciousFirst(phishing: bool, rank: Option<int>)
    ensures var r := CheckCloudflareRadar(Scanned(true, phishing, rank));
            r.verdict == Some(Malicious) && !r.safe && r.threatTypes == Some([Malicious])
  {
  }

  /** Without a malicious verdict, a phishing detection gives PHISHING. */
  lemma PhishingSecond(rank: Option<int>)
    ensures var r := CheckCloudflareRadar(Scanned(false, true, rank));
            r.verdict == Some(Phishing) && !r.safe && r.threatTypes == Some([Phishing])
  {
  }

  /** Otherwise the verdict is SAFE and the detail line names the rank, or "N/A". */
  lemma CleanIsSafe(rank: Option<int>)
    ensures var r := CheckCloudflareRadar(Scanned(false, false, rank));
            r.verdict == Some(Safe) &&
            r.details == Some("No threats detected. Rank: " + (if rank.Some? then IntToString(rank.value) else "N/A"))
  {
  }

  /** `safe` holds exactly when the verdict is SAFE, and exactly then no threat type is reported. */
  lemma SafeIffSafeVerdict(outcome: ScanOutcome)
    ensures var r := CheckCloudflareRadar(outcome);
            (r.safe <==> r.verdict == Some(Safe)) && (r.threatTypes.None? <==> r.verdict == Some(Safe))
  {
  }

  /** A reported threat list is never empty and holds exactly the verdict. */
  lemma ThreatsNameVerdict(outcome: ScanOutcome)
    ensures var r := CheckCloudflareRadar(outcome);
            r.threatTypes.Some? ==> r.threatTypes.value == [r.verdict.value]
  {
  }

  /** A failed scan is reported as not safe, verdict UNKNOWN, threat types ['UNKNOWN']. */
  lemma FailureIsUnknown()
    ensures var r := CheckCloudflareRadar(ScanFailed);
            !r.safe && r.verdict == Some(Unknown) && r.threatTypes == Some([Unknown]) && !r.unlisted
  {
  }
}
