/** Client-side URL checks: the error message shown for an input, validity,
    and scheme defaulting. */
module UrlUtils {
  import opened Wrappers
  import opened Text
  import opened WebUrl

  const EmptyError: string := "Please enter a URL"
  const FormatError: string := "Invalid URL format"
  const NoHostError: string := "Invalid URL: hostname is required"
  const NoDotError: string := "Invalid URL: please enter a valid website address (e.g., example.com)"
  const ShortTldError: string := "Invalid URL: top-level domain must be at least 2 characters"

  /** The regular expression `^(\d{1,3}\.){3}\d{1,3}$`: four dot-separated runs of one to three digits. */
  predicate IsDottedQuad(hostname: string) {
    var parts := Split(hostname, '.');
    |parts| == 4 &&
    forall i :: 0 <= i < 4 ==> 1 <= |parts[i]| <= 3 && forall j :: 0 <= j < |parts[i]| ==> IsDigit(parts[i][j])
  }

  /** The last label, as `hostname.split('.').pop()`. */
  function LastLabel(hostname: string): string {
    var parts := Split(hostname, '.');
    parts[|parts| - 1]
  }

  /** The checks made on the parsed hostname. */
  function HostnameError(hostname: string): Option<string> {
    if hostname == [] then Some(NoHostError)
    else if hostname == "localhost" then None
    else
      var hasDot := '.' in hostname;
      var isIp := IsDottedQuad(hostname);
      if !hasDot && !isIp then Some(NoDotError)
      else if hasDot && !isIp && |LastLabel(hostname)| == 1 then Some(ShortTldError)
      else None
  }

  /** `getUrlError`: the message for an unacceptable input, `None` for an acceptable one. */
  function GetUrlError(s: string, parse: Parser): (r: Option<string>)
    ensures r.Some? ==>
              r.value == EmptyError || r.value == FormatError || r.value == NoHostError ||
              r.value == NoDotError || r.value == ShortTldError
    ensures r.None? ==> Trim(s) != [] && parse(WithHttps(Trim(s))).Some?
  {
    var trimmed := Trim(s);
    if trimmed == [] then Some(EmptyError)
    else
      match parse(WithHttps(trimmed))
      case None => Some(FormatError)
      case Some(url) => HostnameError(url.hostname)
  }

  predicate IsValidUrl(s: string, parse: Parser) {
    GetUrlError(s, parse) == None
  }

  /** `normalizeUrl`: the trimmed input, with "https://" in front unless it has "://". */
  function NormalizeUrl(s: string): (r: string)
    ensures Contains(r, "://")
    ensures Contains(Trim(s), "://") ==> r == Trim(s)
    ensures !Contains(Trim(s), "://") ==> r == "https://" + Trim(s)
  {
    WithHttps(Trim(s))
  }

  /** Empty and white-space-only inputs, and only those, get the "enter a URL" message. */
  lemma BlankInputError(s: string, parse: Parser)
    ensures GetUrlError(s, parse) == Some(EmptyError) <==> forall i :: 0 <= i < |s| ==> IsJsWhitespace(s[i])
  {
    TrimEmptyIff(s);
    if Trim(s) != [] {
      assert GetUrlError(s, parse) != Some(EmptyError) by {
        EmptyErrorDistinct();
      }
    }
  }

  /** The empty-input message differs from every other message. */
  lemma EmptyErrorDistinct()
    ensures EmptyError != FormatError && EmptyError != NoHostError
    ensures EmptyError != NoDotError && EmptyError != ShortTldError
  {
    assert EmptyError[0] == 'P' && FormatError[0] == 'I';
    assert |EmptyError| < |NoHostError| && |EmptyError| < |NoDotError| && |EmptyError| < |ShortTldError|;
  }

  /** A valid input trims to something non-empty that parses to a non-empty hostname which
      is "localhost", has a dot, or is a dotted quad, and whose last label is not one
      character long unless it is a dotted quad. */
  lemma ValidUrlShape(s: string, parse: Parser)
    requires IsValidUrl(s, parse)
    ensures Trim(s) != []
    ensures parse(WithHttps(Trim(s))).Some?
    ensures var h := parse(WithHttps(Trim(s))).value.hostname;
            h != [] &&
            (h == "localhost" || '.' in h || IsDottedQuad(h)) &&
            (h == "localhost" || IsDottedQuad(h) || |LastLabel(h)| != 1)
  {
  }

  /** Every parsed hostname other than "localhost" that is accepted is accepted for a reason:
      conversely, these three shapes are accepted. */
  lemma AcceptedHosts(s: string, parse: Parser)
    requires Trim(s) != [] && parse(WithHttps(Trim(s))).Some?
    requires var h := parse(WithHttps(Trim(s))).value.hostname;
             h == "localhost" || IsDottedQuad(h) || ('.' in h && |LastLabel(h)| != 1)
    ensures IsValidUrl(s, parse)
  {
    var h := parse(WithHttps(Trim(s))).value.hostname;
    if IsDottedQuad(h) {
      assert |Split(h, '.')| == 4;
      JoinSplit(h, '.');
      assert h != [];
    }
  }

  /** A hostname without a dot is rejected unless it is "localhost". */
  lemma DotlessRejected(s: string, parse: Parser)
    requires Trim(s) != [] && parse(WithHttps(Trim(s))).Some?
    requires var h := parse(WithHttps(Trim(s))).value.hostname;
             h != [] && h != "localhost" && '.' !in h
    ensures GetUrlError(s, parse) == Some(NoDotError)
  {
    var h := parse(WithHttps(Trim(s))).value.hostname;
    SplitWithoutSep(h, '.');
  }

  /** A dotted name that is not a dotted quad and ends in a one-character label is rejected. */
  lemma ShortTldRejected(s: string, parse: Parser)
    requires Trim(s) != [] && parse(WithHttps(Trim(s))).Some?
    requires var h := parse(WithHttps(Trim(s))).value.hostname;
             '.' in h && !IsDottedQuad(h) && |LastLabel(h)| == 1
    ensures GetUrlError(s, parse) == Some(ShortTldError)
  {
    var h := parse(WithHttps(Trim(s))).value.hostname;
    if h == "localhost" {
      LocalhostHasNoDot();
      assert false;
    }
  }

  lemma LocalhostHasNoDot()
    ensures '.' !in "localhost"
  {
  }

  /** An unparseable input with some content gets the format message. */
  lemma UnparseableRejected(s: string, parse: Parser)
    requires Trim(s) != [] && parse(WithHttps(Trim(s))).None?
    ensures GetUrlError(s, parse) == Some(FormatError)
  {
  }

  /** A dotted quad has a dot. */
  lemma DottedQuadHasDot(hostname: string)
    requires IsDottedQuad(hostname)
    ensures '.' in hostname
  {
    if '.' !in hostname {
      SplitWithoutSep(hostname, '.');
    }
  }

  /** Prefixing "https://" to a string with no white space at its ends keeps it so. */
  lemma SchemeKeepsTrimmed(t: string)
    requires t == [] || (!IsJsWhitespace(t[0]) && !IsJsWhitespace(t[|t| - 1]))
    ensures var n := WithHttps(t);
            n == [] || (!IsJsWhitespace(n[0]) && !IsJsWhitespace(n[|n| - 1]))
  {
    var n := WithHttps(t);
    if n != t {
      assert n == "https://" + t;
      assert n[0] == 'h';
      if t == [] {
        assert n[|n| - 1] == '/';
      } else {
        assert n[|n| - 1] == t[|t| - 1];
      }
    }
  }

  /** `normalizeUrl` is idempotent. */
  lemma NormalizeUrlIdempotent(s: string)
    ensures NormalizeUrl(NormalizeUrl(s)) == NormalizeUrl(s)
  {
    var t := Trim(s);
    var n := WithHttps(t);
    assert NormalizeUrl(s) == n;
    SchemeKeepsTrimmed(t);
    TrimOfTrimmed(n);
    assert Contains(n, "://");
    assert NormalizeUrl(n) == WithHttps(n);
  }
}
