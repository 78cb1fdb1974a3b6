/** Registrable ("root") domain of a hostname, used as the WHOIS lookup key:
    the last two labels, or the last three when the last two form a known
    two-label public suffix such as `co.uk`. */
module RootDomain {
  import opened Text

  /** The two-label public suffixes the extractor knows, one line per country. */
  const UkSuffixes: seq<string> := ["co.uk", "org.uk", "ac.uk", "gov.uk", "nhs.uk", "police.uk", "mod.uk"]
  const AuSuffixes: seq<string> := ["com.au", "net.au", "org.au", "edu.au", "gov.au"]
  const NzSuffixes: seq<string> := ["co.nz", "org.nz", "net.nz", "ac.nz", "govt.nz"]
  const JpSuffixes: seq<string> := ["co.jp", "ne.jp", "or.jp", "ac.jp", "go.jp"]
  const InSuffixes: seq<string> := ["co.in", "net.in", "org.in", "ac.in", "gov.in"]
  const ZaSuffixes: seq<string> := ["co.za", "org.za", "gov.za", "ac.za"]
  const MySuffixes: seq<string> := ["com.my", "net.my", "org.my", "edu.my", "gov.my"]
  const SgSuffixes: seq<string> := ["com.sg", "net.sg", "org.sg", "edu.sg", "gov.sg"]
  const IdSuffixes: seq<string> := ["co.id", "net.id", "or.id", "ac.id", "go.id"]
  const ThSuffixes: seq<string> := ["co.th", "or.th", "ac.th", "go.th", "net.th"]
  const PhSuffixes: seq<string> := ["com.ph", "net.ph", "org.ph", "edu.ph", "gov.ph"]
  const IlSuffixes: seq<string> := ["co.il", "org.il", "net.il", "ac.il", "gov.il"]
  const BrSuffixes: seq<string> := ["com.br", "net.br", "org.br", "edu.br", "gov.br"]
  const KrSuffixes: seq<string> := ["co.kr", "ne.kr", "or.kr", "ac.kr", "go.kr", "re.kr"]
  const MultiPartTlds: seq<string> :=
    UkSuffixes + AuSuffixes + NzSuffixes + JpSuffixes + InSuffixes + ZaSuffixes + MySuffixes +
    SgSuffixes + IdSuffixes + ThSuffixes + PhSuffixes + IlSuffixes + BrSuffixes + KrSuffixes

  /** The labels of a hostname, as `hostname.split('.')`. */
  function Labels(hostname: string): seq<string> {
    Split(hostname, '.')
  }

  /** The last `n` labels of a hostname, joined back with dots. */
  function LastLabels(hostname: string, n: nat): string
    requires n <= |Labels(hostname)|
  {
    var parts := Labels(hostname);
    Join(parts[|parts| - n..], ".")
  }

  /** The extractor over any table of two-label suffixes; `GetRootDomain` uses the fixed one. */
  function RootDomainWith(hostname: string, suffixes: seq<string>): string {
    if hostname == "localhost" then hostname
    else
      var parts := Labels(hostname);
      if |parts| < 2 then hostname
      else if LastLabels(hostname, 2) in suffixes && |parts| >= 3 then LastLabels(hostname, 3)
      else LastLabels(hostname, 2)
  }

  function GetRootDomain(hostname: string): string {
    RootDomainWith(hostname, MultiPartTlds)
  }

  /** The labels of `LastLabels` are exactly the last labels of the hostname. */
  lemma LastLabelsSplit(hostname: string, n: nat)
    requires 1 <= n <= |Labels(hostname)|
    ensures Labels(LastLabels(hostname, n)) == Labels(hostname)[|Labels(hostname)| - n..]
  {
    var parts := Labels(hostname);
    var tail := parts[|parts| - n..];
    forall i | 0 <= i < |tail| ensures '.' !in tail[i] {
      assert tail[i] == parts[|parts| - n + i];
    }
    SplitJoin(tail, '.');
  }

  /** Two labels joined by a dot contain a dot, so they are never "localhost". */
  lemma TwoLabelsNotLocalhost(hostname: string, n: nat)
    requires 2 <= n <= |Labels(hostname)|
    ensures LastLabels(hostname, n) != "localhost"
  {
    var parts := Labels(hostname);
    var tail := parts[|parts| - n..];
    var r := Join(tail, ".");
    assert r == tail[0] + "." + Join(tail[1..], ".");
    assert r[|tail[0]|] == '.';
    assert '.' !in "localhost";
  }

  lemma LocalhostIsOneLabel()
    ensures Labels("localhost") == ["localhost"]
  {
    SplitWithoutSep("localhost", '.');
  }

  /** "localhost" and any hostname without a dot are returned unchanged. */
  lemma SingleLabelUnchanged(hostname: string)
    requires hostname == "localhost" || '.' !in hostname
    ensures GetRootDomain(hostname) == hostname
  {
    if hostname != "localhost" {
      SplitWithoutSep(hostname, '.');
    }
  }

  /** Under a known two-label suffix with at least three labels, the last three labels are kept. */
  lemma MultiPartSuffixKeepsThree(hostname: string)
    requires hostname != "localhost" && |Labels(hostname)| >= 3
    requires LastLabels(hostname, 2) in MultiPartTlds
    ensures GetRootDomain(hostname) == LastLabels(hostname, 3)
  {
  }

  /** Otherwise a hostname with at least two labels keeps its last two. */
  lemma OtherwiseKeepsTwo(hostname: string)
    requires hostname != "localhost" && |Labels(hostname)| >= 2
    requires !(LastLabels(hostname, 2) in MultiPartTlds && |Labels(hostname)| >= 3)
    ensures GetRootDomain(hostname) == LastLabels(hostname, 2)
  {
  }

  lemma RootWithIsLabelSuffix(hostname: string, suffixes: seq<string>)
    ensures var r := Labels(RootDomainWith(hostname, suffixes));
            var h := Labels(hostname);
            |r| <= 3 && |r| <= |h| && r == h[|h| - |r|..]
  {
    var h := Labels(hostname);
    var root := RootDomainWith(hostname, suffixes);
    if hostname == "localhost" {
      LocalhostIsOneLabel();
      assert root == hostname;
    } else if |h| < 2 {
      assert root == hostname;
    } else if LastLabels(hostname, 2) in suffixes && |h| >= 3 {
      assert root == LastLabels(hostname, 3);
      LastLabelsSplit(hostname, 3);
    } else {
      assert root == LastLabels(hostname, 2);
      LastLabelsSplit(hostname, 2);
    }
  }

  /** The root domain is a label-suffix of the hostname with at most three labels. */
  lemma RootIsLabelSuffix(hostname: string)
    ensures var r := Labels(GetRootDomain(hostname));
            var h := Labels(hostname);
            |r| <= 3 && |r| <= |h| && r == h[|h| - |r|..]
  {
    RootWithIsLabelSuffix(hostname, MultiPartTlds);
  }

  lemma RootWithIdempotent(hostname: string, suffixes: seq<string>)
    ensures RootDomainWith(RootDomainWith(hostname, suffixes), suffixes) == RootDomainWith(hostname, suffixes)
  {
    var h := Labels(hostname);
    if hostname == "localhost" || |h| < 2 {
    } else if LastLabels(hostname, 2) in suffixes && |h| >= 3 {
      ThreeLabelRootStable(hostname, suffixes);
    } else {
      TwoLabelRootStable(hostname, suffixes);
    }
  }

  /** A three-label root under a listed suffix is its own root. */
  lemma ThreeLabelRootStable(hostname: string, suffixes: seq<string>)
    requires |Labels(hostname)| >= 3 && LastLabels(hostname, 2) in suffixes
    ensures RootDomainWith(LastLabels(hostname, 3), suffixes) == LastLabels(hostname, 3)
  {
    var h := Labels(hostname);
    var r := LastLabels(hostname, 3);
    LastLabelsSplit(hostname, 3);
    LastLabelsSplit(hostname, 2);
    TwoLabelsNotLocalhost(hostname, 3);
    var rp := Labels(r);
    assert rp == h[|h| - 3..];
    assert rp[|rp| - 2..] == h[|h| - 2..];
    assert LastLabels(r, 2) == LastLabels(hostname, 2);
    assert rp[|rp| - 3..] == rp;
    JoinSplit(r, '.');
    assert LastLabels(r, 3) == r;
  }

  /** A two-label root is its own root. */
  lemma TwoLabelRootStable(hostname: string, suffixes: seq<string>)
    requires |Labels(hostname)| >= 2
    ensures RootDomainWith(LastLabels(hostname, 2), suffixes) == LastLabels(hostname, 2)
  {
    var r := LastLabels(hostname, 2);
    LastLabelsSplit(hostname, 2);
    TwoLabelsNotLocalhost(hostname, 2);
    var rp := Labels(r);
    assert |rp| == 2;
    assert rp[|rp| - 2..] == rp;
    JoinSplit(r, '.');
    assert LastLabels(r, 2) == r;
  }

  /** Extracting the root domain twice changes nothing. */
  lemma RootDomainIdempotent(hostname: string)
    ensures GetRootDomain(GetRootDomain(hostname)) == GetRootDomain(hostname)
  {
    RootWithIdempotent(hostname, MultiPartTlds);
  }

  /** A hostname of exactly two labels, such as a bare "co.uk", is its own root domain. */
  lemma TwoLabelHostUnchanged(hostname: string)
    requires hostname != "localhost" && |Labels(hostname)| == 2
    ensures GetRootDomain(hostname) == hostname
  {
    var h := Labels(hostname);
    assert h[|h| - 2..] == h;
    JoinSplit(hostname, '.');
  }

  /** The labels of a dotted name built from dot-free labels. */
  lemma LabelsOfJoin(parts: seq<string>)
    requires |parts| >= 1 && forall i :: 0 <= i < |parts| ==> '.' !in parts[i]
    ensures Labels(Join(parts, ".")) == parts
  {
    SplitJoin(parts, '.');
  }

  lemma BareSuffixUnchanged()
    ensures GetRootDomain("co.uk") == "co.uk"
  {
    assert Join(["co", "uk"], ".") == "co.uk";
    LabelsOfJoin(["co", "uk"]);
    TwoLabelHostUnchanged("co.uk");
  }

  /** A host under "co.uk" keeps three labels. */
  lemma ExampleCoUk()
    ensures GetRootDomain("api.example.co.uk") == "example.co.uk"
  {
    CoUkLabels();
    CoUkListed();
    MultiPartSuffixKeepsThree("api.example.co.uk");
  }

  lemma CoUkLabels()
    ensures |Labels("api.example.co.uk")| == 4
    ensures LastLabels("api.example.co.uk", 2) == "co.uk"
    ensures LastLabels("api.example.co.uk", 3) == "example.co.uk"
  {
    var a := ["api", "example", "co", "uk"];
    assert Join(a, ".") == "api.example.co.uk";
    LabelsOfJoin(a);
    assert a[2..] == ["co", "uk"] && a[1..] == ["example", "co", "uk"];
    assert Join(a[2..], ".") == "co.uk";
    assert Join(a[1..], ".") == "example.co.uk";
  }

  lemma CoUkListed()
    ensures "co.uk" in MultiPartTlds
  {
    assert UkSuffixes[0] == "co.uk";
    assert MultiPartTlds[0] == UkSuffixes[0];
  }

  lemma ComNotMultiPart()
    ensures "whatsapp.com" !in MultiPartTlds
  {
  }

  /** An ordinary ".com" host keeps two labels. */
  lemma ExampleCom()
    ensures GetRootDomain("web.whatsapp.com") == "whatsapp.com"
  {
    var w := ["web", "whatsapp", "com"];
    assert Join(w, ".") == "web.whatsapp.com";
    LabelsOfJoin(w);
    assert w[1..] == ["whatsapp", "com"];
    assert Join(w[1..], ".") == "whatsapp.com";
    ComNotMultiPart();
    OtherwiseKeepsTwo("web.whatsapp.com");
  }
}
