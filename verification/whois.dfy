/** Extraction of registration data from a WHOIS JSON response, and the
    domain age in whole days. The HTTP request is an input: its outcome is
    given, as is the current time. */
module Whois {
  import opened Wrappers
  import opened Text

  const MsPerDay: int := 86400000

  /** The fields of the response body that are read; absent fields are `None`. */
  datatype WhoisJson = WhoisJson(
    creationDate: Option<string>,
    expiryDate: Option<string>,
    whoisServer: Option<string>,
    registrarUrl: Option<string>,
    abuseEmail: Option<string>)

  /** How the request ended: a non-OK status, a body, an abort by the 5-second
      timer, or another exception with its message (`None` when what was thrown
      is not an `Error`). */
  datatype FetchOutcome =
    | NotOk(status: int)
    | Body(json: WhoisJson)
    | Aborted
    | Failed(message: Option<string>)

  /** Dates are milliseconds since the epoch. */
  datatype WhoisData = WhoisData(
    created: Option<int>,
    expires: Option<int>,
    registrar: Option<string>,
    abuseContact: Option<string>,
    domainAge: Option<int>,
    error: Option<string>)

  /** The truthiness of an optional string: present and non-empty. */
  predicate Truthy(s: Option<string>) {
    s.Some? && s.value != []
  }

  function Failure(message: string): (r: WhoisData)
    ensures r.error == Some(message)
  {
    WhoisData(None, None, None, None, None, Some(message))
  }

  /** The registrar: the WHOIS server if given, else the hostname of the registrar
      URL (`urlHostname` is `new URL(u).hostname`, `None` where it throws), else none. */
  function Registrar(json: WhoisJson, urlHostname: string -> Option<string>): Option<string> {
    if Truthy(json.whoisServer) then json.whoisServer
    else if Truthy(json.registrarUrl) then urlHostname(json.registrarUrl.value)
    else None
  }

  /** `checkWhois`, with `parseDate` standing for `new Date(s).getTime()`. There is an
      error exactly when no body arrived, and an age only with a creation date. */
  function CheckWhois(outcome: FetchOutcome, now: int, parseDate: string -> int,
                      urlHostname: string -> Option<string>): (r: WhoisData)
    ensures r.error.Some? <==> !outcome.Body?
    ensures r.domainAge.Some? ==> r.created.Some?
  {
    match outcome
    case NotOk(status) => Failure("whoisjs.com request failed: " + IntToString(status))
    case Aborted => Failure("Request timeout")
    case Failed(message) => Failure(if message.Some? then message.value else "Unknown error")
    case Body(json) =>
      var created := if Truthy(json.creationDate) then Some(parseDate(json.creationDate.value)) else None;
      var expires := if Truthy(json.expiryDate) then Some(parseDate(json.expiryDate.value)) else None;
      var abuse := if Truthy(json.abuseEmail) then json.abuseEmail else None;
      var age := if created.Some? then Some((now - created.value) / MsPerDay) else None;
      WhoisData(created, expires, Registrar(json, urlHostname), abuse, age, None)
  }

  /** A failed request carries no data, only an error naming the status, the timeout or the exception. */
  lemma FailuresCarryNoData(outcome: FetchOutcome, now: int, parseDate: string -> int,
                            urlHostname: string -> Option<string>)
    requires !outcome.Body?
    ensures var d := CheckWhois(outcome, now, parseDate, urlHostname);
            d.created == None && d.expires == None && d.registrar == None &&
            d.abuseContact == None && d.domainAge == None && d.error.Some?
    ensures outcome.NotOk? ==>
              CheckWhois(outcome, now, parseDate, urlHostname).error == Some("whoisjs.com request failed: " + IntToString(outcome.status))
    ensures outcome.Aborted? ==> CheckWhois(outcome, now, parseDate, urlHostname).error == Some("Request timeout")
    ensures outcome == Failed(None) ==> CheckWhois(outcome, now, parseDate, urlHostname).error == Some("Unknown error")
    ensures outcome.Failed? && outcome.message.Some? ==>
              CheckWhois(outcome, now, parseDate, urlHostname).error == outcome.message
  {
  }

  /** With a body there is no error, and an age exactly when there is a creation date. */
  lemma SuccessHasNoError(json: WhoisJson, now: int, parseDate: string -> int,
                          urlHostname: string -> Option<string>)
    ensures var d := CheckWhois(Body(json), now, parseDate, urlHostname);
            d.error == None && (d.domainAge.Some? <==> d.created.Some?) &&
            (d.created.Some? <==> Truthy(json.creationDate)) && (d.expires.Some? <==> Truthy(json.expiryDate))
  {
  }

  /** The age is the number of whole days elapsed since creation: rounded down, so a
      creation date in the future gives a negative age. */
  lemma AgeIsWholeDays(outcome: FetchOutcome, now: int, parseDate: string -> int,
                       urlHostname: string -> Option<string>)
    requires CheckWhois(outcome, now, parseDate, urlHostname).domainAge.Some?
    ensures var d := CheckWhois(outcome, now, parseDate, urlHostname);
            d.created.Some? &&
            d.domainAge.value * MsPerDay <= now - d.created.value < (d.domainAge.value + 1) * MsPerDay
  {
  }

  /** The registrar falls back from the WHOIS server to the URL hostname to none. */
  lemma RegistrarFallback(json: WhoisJson, now: int, parseDate: string -> int,
                          urlHostname: string -> Option<string>)
    ensures var r := CheckWhois(Body(json), now, parseDate, urlHostname).registrar;
            (Truthy(json.whoisServer) ==> r == json.whoisServer) &&
            (!Truthy(json.whoisServer) && Truthy(json.registrarUrl) ==> r == urlHostname(json.registrarUrl.value)) &&
            (!Truthy(json.whoisServer) && !Truthy(json.registrarUrl) ==> r == None)
  {
  }

  /** A missing or empty abuse e-mail becomes none; a given one is kept. */
  lemma AbuseContact(json: WhoisJson, now: int, parseDate: string -> int,
                     urlHostname: string -> Option<string>)
    ensures var a := CheckWhois(Body(json), now, parseDate, urlHostname).abuseContact;
            (a == None <==> !Truthy(json.abuseEmail)) && (a.Some? ==> a == json.abuseEmail && a.value != [])
  {
  }
}
