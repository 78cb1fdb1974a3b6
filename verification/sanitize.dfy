/** The URL canonicalization applied before hashing: control characters removed,
    repeated percent-decoding, the fragment dropped, a default scheme, then the
    parsed URL's hostname, path and query normalized. `decodeURIComponent`, the
    URL parser and the URL serializer are parameters. */
module Sanitize {
  import opened Wrappers
  import opened Text
  import opened WebUrl
  import IPv4
  import IPv6
  import PathCanon
  import PercentEscape

  // ---------------------------------------------------------------- control characters

  /** `s.replace(/[\t\r\n]/g, '')`. */
  function RemoveTabsAndNewlines(s: string): (r: string)
    ensures |r| <= |s|
    ensures forall c :: c in r <==> c in s && c != '\t' && c != '\r' && c != '\n'
    ensures |s| == 1 ==> r == if s[0] == '\t' || s[0] == '\r' || s[0] == '\n' then [] else s
  {
    if s == [] then []
    else if s[0] == '\t' || s[0] == '\r' || s[0] == '\n' then RemoveTabsAndNewlines(s[1..])
    else [s[0]] + RemoveTabsAndNewlines(s[1..])
  }

  /** The removal works piece by piece: from a concatenation it is the concatenation of the
      pieces without their tabs and line breaks. */
  lemma {:induction false} RemoveTabsAndNewlinesConcat(a: string, b: string)
    ensures RemoveTabsAndNewlines(a + b) == RemoveTabsAndNewlines(a) + RemoveTabsAndNewlines(b)
  {
    if a == [] {
      assert a + b == b;
    } else {
      assert (a + b)[1..] == a[1..] + b;
      RemoveTabsAndNewlinesConcat(a[1..], b);
    }
  }

  // ---------------------------------------------------------------- repeated decoding

  /** The decoder applied `k` times, as long as every application succeeds. */
  function Iterate(decode: string -> Option<string>, s: string, k: nat): Option<string>
    decreases k
  {
    if k == 0 then Some(s)
    else
      match decode(s)
      case None => None
      case Some(d) => Iterate(decode, d, k - 1)
  }

  /** What `repeatedlyPercentDecode` returns with `n` rounds left. */
  function DecodeRounds(s: string, decode: string -> Option<string>, n: nat): string
    decreases n
  {
    if n == 0 then s
    else
      match decode(s)
      case None => s
      case Some(d) => if d == s then s else DecodeRounds(d, decode, n - 1)
  }

  /** The number of rounds that changed the text. */
  function RoundsTaken(s: string, decode: string -> Option<string>, n: nat): (k: nat)
    ensures k <= n
    decreases n
  {
    if n == 0 then 0
    else
      match decode(s)
      case None => 0
      case Some(d) => if d == s then 0 else 1 + RoundsTaken(d, decode, n - 1)
  }

  /** `repeatedlyPercentDecode`: at most five rounds, leaving at a decode error or at a fixpoint. */
  method RepeatedlyPercentDecode(input: string, decode: string -> Option<string>) returns (r: string)
    ensures r == DecodeRounds(input, decode, 5)
  {
    r := input;
    var i := 0;
    while i < 5
      invariant 0 <= i <= 5
      invariant DecodeRounds(r, decode, 5 - i) == DecodeRounds(input, decode, 5)
    {
      var prev := r;
      var decoded := decode(r);
      if decoded.None? {
        break;
      }
      r := decoded.value;
      if r == prev {
        break;
      }
      i := i + 1;
    }
  }

  /** The result is the input decoded a number of times no larger than the bound, every one
      of them successful; when fewer rounds than the bound were taken, the next decode fails
      or changes nothing. */
  lemma {:induction false} DecodeRoundsStop(s: string, decode: string -> Option<string>, n: nat)
    ensures var k := RoundsTaken(s, decode, n);
            var r := DecodeRounds(s, decode, n);
            k <= n && Iterate(decode, s, k) == Some(r) &&
            (k < n ==> decode(r).None? || decode(r) == Some(r))
    decreases n
  {
    if n > 0 {
      match decode(s)
      case None =>
      case Some(d) =>
        if d != s {
          DecodeRoundsStop(d, decode, n - 1);
        }
    }
  }

  /** Text the decoder leaves alone is returned at once. */
  lemma DecodeFixpoint(s: string, decode: string -> Option<string>, n: nat)
    requires decode(s).None? || decode(s) == Some(s)
    ensures DecodeRounds(s, decode, n) == s
  {
  }

  // ---------------------------------------------------------------- fragment

  predicate HasLineTerminator(s: string) {
    exists i :: 0 <= i < |s| && IsLineTerminator(s[i])
  }

  /** The first index at which `/#.*$/` matches: a '#' with no line terminator after it. */
  function FragmentStart(s: string): (r: Option<nat>)
    ensures r.Some? ==> r.value < |s| && s[r.value] == '#' && !HasLineTerminator(s[r.value + 1..])
    ensures r.Some? ==> forall i :: 0 <= i < r.value ==> !(s[i] == '#' && !HasLineTerminator(s[i + 1..]))
    ensures r.None? ==> forall i :: 0 <= i < |s| ==> !(s[i] == '#' && !HasLineTerminator(s[i + 1..]))
  {
    if s == [] then None
    else if s[0] == '#' && !HasLineTerminator(s[1..]) then Some(0)
    else
      var rest := FragmentStart(s[1..]);
      assert forall i :: 1 <= i < |s| ==> s[i + 1..] == s[1..][i..];
      match rest
      case None => None
      case Some(j) => Some(j + 1)
  }

  /** `s.replace(/#.*$/, '')`. */
  function StripFragment(s: string): (r: string)
    ensures |r| <= |s| && r == s[..|r|]
    ensures FragmentStart(s).None? ==> r == s
    ensures FragmentStart(s).Some? ==> r == s[..FragmentStart(s).value]
  {
    var start := FragmentStart(s);
    if start.None? then s else s[..start.value]
  }

  /** A suffix of a string without line terminators has none either. */
  lemma NoTerminatorSuffix(s: string, k: nat)
    requires !HasLineTerminator(s) && k <= |s|
    ensures !HasLineTerminator(s[k..])
  {
    forall j | 0 <= j < |s[k..]| ensures !IsLineTerminator(s[k..][j]) {
      assert s[k..][j] == s[k + j];
    }
  }

  /** Without line terminators the fragment starts at the first '#', and no '#' is left. */
  lemma StripFragmentPlain(s: string)
    requires !HasLineTerminator(s)
    ensures '#' !in StripFragment(s)
    ensures '#' in s ==> |StripFragment(s)| < |s| && s[|StripFragment(s)|] == '#'
  {
    var r := StripFragment(s);
    forall j | 0 <= j < |r| ensures r[j] != '#' {
      NoTerminatorSuffix(s, j + 1);
    }
    if '#' in s {
      var i :| 0 <= i < |s| && s[i] == '#';
      NoTerminatorSuffix(s, i + 1);
    }
  }

  // ---------------------------------------------------------------- scheme

  predicate IsSchemeChar(c: char) {
    IsAlnum(c) || c == '+' || c == '.' || c == '-'
  }

  /** From `i` on: scheme characters up to a ':'. */
  predicate ColonAfterSchemeChars(s: string, i: nat)
    decreases |s| - i
  {
    i < |s| && (s[i] == ':' || (IsSchemeChar(s[i]) && ColonAfterSchemeChars(s, i + 1)))
  }

  /** The regular expression `^[a-zA-Z][a-zA-Z0-9+.-]*:`. */
  predicate HasScheme(s: string) {
    |s| >= 1 && IsAsciiLetter(s[0]) && ColonAfterSchemeChars(s, 1)
  }

  function WithDefaultScheme(s: string): (r: string)
    ensures HasScheme(r)
    ensures HasScheme(s) ==> r == s
    ensures !HasScheme(s) ==> r == "http://" + s
  {
    if HasScheme(s) then s
    else
      var r := "http://" + s;
      assert ColonAfterSchemeChars(r, 4);
      r
  }

  // ---------------------------------------------------------------- hostname

  /** Collapsing drops dots and nothing else. */
  lemma {:induction false} CollapseKeepsOthers(s: string)
    ensures RemoveDots(CollapseRuns(s, '.')) == RemoveDots(s)
  {
    if |s| >= 2 && s[0] == '.' && s[1] == '.' {
      CollapseKeepsOthers(s[1..]);
    } else if s != [] {
      CollapseKeepsOthers(s[1..]);
      CollapseKept(s, '.');
      RemoveDotsCons(s[0], CollapseRuns(s[1..], '.'), s[1..]);
    }
  }

  /** Texts alike once their dots are removed stay alike with the same character in front. */
  lemma RemoveDotsCons(c: char, x: string, y: string)
    requires RemoveDots(x) == RemoveDots(y)
    ensures RemoveDots([c] + x) == RemoveDots([c] + y)
  {
    RemoveDotsConcat([c], x);
    RemoveDotsConcat([c], y);
  }

  /** `hostname.replace(/^\.+|\.+$/g, '').replace(/\.{2,}/g, '.')`: the hostname with its
      edge dots removed and its inner runs of dots collapsed. */
  function CleanDots(hostname: string): (r: string)
    ensures NoRun(r, '.')
    ensures r == [] || (r[0] != '.' && r[|r| - 1] != '.')
  {
    var lead := DropLeading(hostname, '.');
    var inner := DropTrailing(lead, '.');
    assert inner == [] || (inner[0] != '.' && inner[|inner| - 1] != '.') by {
      if inner != [] {
        assert inner[0] == lead[..|inner|][0] == lead[0];
      }
    }
    CollapseRuns(inner, '.')
  }

  /** Cleaning the dots of a hostname drops dots and nothing else. */
  lemma CleanKeepsOthers(hostname: string)
    ensures RemoveDots(CleanDots(hostname)) == RemoveDots(hostname)
  {
    var lead := DropLeading(hostname, '.');
    RemoveDotsDropLeading(hostname);
    RemoveDotsDropTrailing(lead);
    CollapseKeepsOthers(DropTrailing(lead, '.'));
  }

  // ---------------------------------------------------------------- hostname labels

  /** Leading dots only add empty labels. */
  lemma {:induction false} DropLeadingLabels(s: string)
    ensures NonEmptyParts(Split(DropLeading(s, '.'), '.')) == NonEmptyParts(Split(s, '.'))
  {
    if s != [] && s[0] == '.' {
      DropLeadingLabels(s[1..]);
      assert ([""] + Split(s[1..], '.'))[1..] == Split(s[1..], '.');
    }
  }

  /** Trailing dots only add empty labels. */
  lemma {:induction false} DropTrailingLabels(s: string)
    ensures NonEmptyParts(Split(DropTrailing(s, '.'), '.')) == NonEmptyParts(Split(s, '.'))
  {
    if s != [] && s[|s| - 1] == '.' {
      var init := s[..|s| - 1];
      DropTrailingLabels(init);
      assert s == init + ['.'];
      SplitAppendSep(init, '.');
      NonEmptyPartsConcat(Split(init, '.'), [""]);
    }
  }

  /** A name with no dot at either end and no two dots in a row has no empty label. */
  lemma {:induction false} CleanLabelsNonEmpty(r: string)
    requires r != [] && r[0] != '.' && r[|r| - 1] != '.' && NoRun(r, '.')
    ensures forall i :: 0 <= i < |Split(r, '.')| ==> Split(r, '.')[i] != []
    decreases |r|
  {
    var t := r[1..];
    if t == [] {
    } else if t[0] == '.' {
      var u := t[1..];
      assert u != [] && u[0] != '.' by {
        assert NoRun(r, '.') ==> !(r[1] == '.' && r[2] == '.');
      }
      assert NoRun(u, '.') by {
        forall i | 0 <= i < |u| - 1 ensures !(u[i] == '.' && u[i + 1] == '.') {
          assert u[i] == r[i + 2] && u[i + 1] == r[i + 3];
        }
      }
      CleanLabelsNonEmpty(u);
      assert Split(t, '.') == [""] + Split(u, '.');
    } else {
      assert NoRun(t, '.') by {
        forall i | 0 <= i < |t| - 1 ensures !(t[i] == '.' && t[i + 1] == '.') {
          assert t[i] == r[i + 1] && t[i + 1] == r[i + 2];
        }
      }
      CleanLabelsNonEmpty(t);
    }
  }

  /** The cleaned hostname is its non-empty labels joined by single dots, and those are
      exactly its labels when it is not empty. */
  lemma CleanDotsLabels(hostname: string)
    ensures CleanDots(hostname) == Join(NonEmptyParts(Split(hostname, '.')), ".")
    ensures CleanDots(hostname) != [] ==> Split(CleanDots(hostname), '.') == NonEmptyParts(Split(hostname, '.'))
  {
    var lead := DropLeading(hostname, '.');
    var inner := DropTrailing(lead, '.');
    var r := CleanDots(hostname);
    assert r == CollapseRuns(inner, '.');
    DropLeadingLabels(hostname);
    DropTrailingLabels(lead);
    CollapseFields(inner, '.');
    JoinSplit(r, '.');
    if r != [] {
      CleanLabelsNonEmpty(r);
      NonEmptyPartsOfNonEmpty(Split(r, '.'));
    }
  }

  /** Dropping the leading dots keeps every other character. */
  lemma {:induction false} RemoveDotsDropLeading(s: string)
    ensures RemoveDots(DropLeading(s, '.')) == RemoveDots(s)
  {
    if s != [] && s[0] == '.' {
      RemoveDotsDropLeading(s[1..]);
    }
  }

  /** Dropping the trailing dots keeps every other character. */
  lemma {:induction false} RemoveDotsDropTrailing(s: string)
    ensures RemoveDots(DropTrailing(s, '.')) == RemoveDots(s)
  {
    if s != [] && s[|s| - 1] == '.' {
      var init := s[..|s| - 1];
      RemoveDotsDropTrailing(init);
      RemoveDotsConcat(init, ".");
      assert s == init + ".";
    }
  }

  /** `normalizeHostname`, with `normalizeIPv6` as written: the result is the cleaned name
      lower-cased, a canonical dotted quad, or, for a bracketed name, the name as it was or
      a text in brackets. */
  function NormalizeHostname(hostname: string, serialize: string -> Option<string>): (r: string)
    ensures var h := CleanDots(hostname);
            r == Lower(h) || IPv4.CanonicalQuad(r) ||
            (StartsWith(h, "[") && EndsWith(h, "]") && (r == h || (|r| >= 2 && r[0] == '[' && r[|r| - 1] == ']')))
  {
    var h := CleanDots(hostname);
    if StartsWith(h, "[") && EndsWith(h, "]") then IPv6.NormalizeIPv6(h, serialize)
    else
      match IPv4.ParseIPv4Spec(h)
      case Some(address) => address
      case None => Lower(h)
  }

  /** The hostname normalization with the corrected compression of IPv6 addresses. It agrees
      with the one as written on every name that is not bracketed, and a bracketed address
      the parser accepts comes out as a text that reads back as its eight groups. */
  function NormalizeHostnameIntended(hostname: string, serialize: string -> Option<string>): (r: string)
    ensures var h := CleanDots(hostname);
            !(StartsWith(h, "[") && EndsWith(h, "]")) ==> r == NormalizeHostname(hostname, serialize)
    ensures var h := CleanDots(hostname);
            var inner := Lower(IPv6.Inner(h));
            StartsWith(h, "[") && EndsWith(h, "]") && IPv6.Serialized(inner, serialize) &&
            |IPv6.Expand(IPv6.Inner(serialize(inner).value))| == 8 ==>
            IPv6.Expand(IPv6.Inner(r)) == IPv6.Canon(IPv6.Expand(IPv6.Inner(serialize(inner).value)))
  {
    var h := CleanDots(hostname);
    if StartsWith(h, "[") && EndsWith(h, "]") then IPv6.NormalizeIPv6Intended(h, serialize)
    else NormalizeHostname(hostname, serialize)
  }

  /** A name that is neither bracketed nor an IPv4 address is lower-cased, with no dot at
      either end and no two dots in a row. */
  lemma DnsNameShape(hostname: string, serialize: string -> Option<string>)
    requires var h := CleanDots(hostname);
             !(StartsWith(h, "[") && EndsWith(h, "]")) && IPv4.ParseIPv4Spec(h).None?
    ensures var r := NormalizeHostname(hostname, serialize);
            r == Lower(CleanDots(hostname)) && NoRun(r, '.') &&
            (r == [] || (r[0] != '.' && r[|r| - 1] != '.')) &&
            forall i :: 0 <= i < |r| ==> !IsAsciiUpper(r[i])
  {
    var h := CleanDots(hostname);
    assert NormalizeHostname(hostname, serialize) == Lower(h);
    LowerKeepsDots(h);
  }

  /** Lower-casing changes no dot and makes no new one. */
  lemma LowerKeepsDots(h: string)
    requires NoRun(h, '.') && (h == [] || (h[0] != '.' && h[|h| - 1] != '.'))
    ensures var r := Lower(h);
            NoRun(r, '.') && (r == [] || (r[0] != '.' && r[|r| - 1] != '.'))
  {
    var r := Lower(h);
    forall i | 0 <= i < |r| ensures r[i] == '.' <==> h[i] == '.' {
      assert r[i] == LowerChar(h[i]);
    }
  }

  /** A name the IPv4 reading accepts comes out as the dotted quad that reading gives, which
      reads back as itself. */
  lemma IPv4HostShape(hostname: string, serialize: string -> Option<string>)
    requires var h := CleanDots(hostname);
             !(StartsWith(h, "[") && EndsWith(h, "]")) && IPv4.ParseIPv4Spec(h).Some?
    ensures NormalizeHostname(hostname, serialize) == IPv4.ParseIPv4Spec(CleanDots(hostname)).value
    ensures var r := NormalizeHostname(hostname, serialize);
            IPv4.ParseIPv4Spec(r) == Some(r)
  {
    IPv4.ResultIsFixed(CleanDots(hostname));
  }

  // ---------------------------------------------------------------- sanitizeUrl

  /** The text handed to the URL parser. */
  function PreParse(input: string, decode: string -> Option<string>): string {
    var cleaned := Trim(RemoveTabsAndNewlines(input));
    var decoded := DecodeRounds(cleaned, decode, 5);
    WithDefaultScheme(StripFragment(decoded))
  }

  /** The parsed URL's hostname, path and query replaced by their normalized forms. */
  function NormalizeParts(url: Url, serialize: string -> Option<string>): Url {
    url.(hostname := NormalizeHostname(url.hostname, serialize),
         pathname := PercentEscape.Escape(PathCanon.CanonicalPath(url.pathname)),
         search := PercentEscape.EscapeQuery(url.search))
  }

  /** The parsed URL normalized; `None` where the parser throws. */
  function SanitizedUrl(input: string, decode: string -> Option<string>, parse: Parser,
                        serialize: string -> Option<string>): (r: Option<Url>)
    ensures r.None? <==> parse(PreParse(input, decode)).None?
    ensures r.Some? ==>
            var n := r.value;
            n.protocol == parse(PreParse(input, decode)).value.protocol &&
            n.pathname != [] && n.pathname[0] == '/' && PercentEscape.WellEscaped(n.pathname)
  {
    match parse(PreParse(input, decode))
    case None => None
    case Some(url) => NormalizedShape(url, serialize); Some(NormalizeParts(url, serialize))
  }

  /** `sanitizeUrl`: the normalized URL serialized by `toString`. It fails exactly where the
      URL parser throws on the prepared text, which always starts with a scheme. */
  function SanitizeUrl(input: string, decode: string -> Option<string>, parse: Parser,
                       serialize: string -> Option<string>, toString: Url -> string): (r: Option<string>)
    ensures r.None? <==> parse(PreParse(input, decode)).None?
    ensures r.Some? ==> r.value == toString(NormalizeParts(parse(PreParse(input, decode)).value, serialize))
  {
    match SanitizedUrl(input, decode, parse, serialize)
    case None => None
    case Some(url) => Some(toString(url))
  }

  /** The parser is always given text that starts with a scheme. */
  lemma ParsedTextHasScheme(input: string, decode: string -> Option<string>)
    ensures HasScheme(PreParse(input, decode))
  {
  }

  /** The normalized URL keeps the parser's protocol, has a path that starts with '/' and is
      well escaped, and a query that is well escaped after its leading '?'. */
  lemma NormalizedShape(url: Url, serialize: string -> Option<string>)
    ensures var n := NormalizeParts(url, serialize);
            var q := url.search;
            n.protocol == url.protocol &&
            n.pathname != [] && n.pathname[0] == '/' && PercentEscape.WellEscaped(n.pathname) &&
            (q == [] || q == "?" ==> n.search == q) &&
            (q != [] && q[0] == '?' ==> n.search != [] && n.search[0] == '?' &&
                                        PercentEscape.WellEscaped(n.search[1..])) &&
            (q != [] && q[0] != '?' ==> PercentEscape.WellEscaped(n.search))
  {
    var canonical := PathCanon.CanonicalPath(url.pathname);
    PathCanon.CanonicalShape(url.pathname);
    assert !PercentEscape.ValidEscapeAt(canonical, 0);
    assert PercentEscape.Escape(canonical) ==
           PercentEscape.EscapeChar('/') + PercentEscape.Escape(canonical[1..]);
    var q := url.search;
    if q != [] && q != "?" && q[0] == '?' {
      assert PercentEscape.EscapeQuery(q)[1..] == PercentEscape.Escape(q[1..]);
    }
  }
}
