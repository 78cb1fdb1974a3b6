/** The message table in English and Indonesian, and the `{name}` placeholder
    interpolation applied to a template. */
module Translations {
  import opened Wrappers
  import opened Text

  datatype Locale = En | Id

  /** The message keys; every locale defines every one of them. */
  datatype Key =
    | Title
    | Description
    | EnterUrl
    | UrlPlaceholder
    | CheckButton
    | Checking
    | AnalyzingUrl
    | ScanningForThreats
    | AlmostDone
    | KindlyWait
    | StartingScan
    | UrlValidated
    | ValidatingDomainExtension
    | CheckingLegitimateDomainList
    | CheckingBlacklist
    | ScanningWithUrlScanner
    | UrlScannerScanComplete
    | CheckingDomainRegistrationInfo
    | CapturingScreenshot
    | Complete
    | FailedToCheckWebsite
    | PleaseTryAgain
    | ScanFailed
    | NoResponseBody
    | ErrorEnterUrl
    | ErrorInvalidUrlHostname
    | ErrorInvalidUrlAddress
    | ErrorInvalidUrlTld
    | ErrorInvalidUrlFormat
    | DomainNotFoundInDb
    | DomainNotFoundDetail
    | YesContinue
    | NoCancel
    | WebsiteScreenshot
    | ClickToZoom
    | WebsiteScreenshotFullSize
    | Legitimate
    | LegitimateDetail
    | SuspiciousNewDomain
    | SuspiciousDomainStructure
    | WarningKnownPhishing
    | WarningKnownPhishingDetail
    | WarningVeryNewDomain
    | WarningSuspiciousDomainStructure
    | WarningUnusualTld
    | WarningNoSecureConnection
    | HighRiskUnusualTld
    | HighRiskUnusualTldDetail
    | HighRiskSubdomainHeavy
    | HighRiskSubdomainHeavyDetail
    | HighRiskNoSecureConnection
    | HighRiskNoSecureConnectionDetail
    | WebsiteInLegitimateList
    | PassedUrlScannerCheck
    | UrlScannerDetectedThreats
    | UrlScannerThreatTypes
    | UrlScannerUnlisted
    | UrlScannerUnavailable
    | UrlScannerNotAvailable
    | UsesFreeSuspiciousTld
    | UsesStandardDomainExtension
    | DomainExtensionUnknown
    | DomainContainsPhishingKeywords
    | WebsiteReachableSecure
    | WebsiteReachableNotSecure
    | WebsiteNotReachable
    | WebsiteCouldNotBeReached
    | DomainStructureUnusual
    | DomainIsDaysOld
    | DomainAgeUnavailable
    | DomainExpiresSoon
    | AbuseContact
    | InvalidDomainExtension
    | InvalidUrlFormat
    | InvalidUrlFormatDetail

  function English(key: Key): string {
    match key
    case Title => "Ceker - Your Truly Link Checker"
    case Description => "Verify if a website is legitimate or suspicious"
    case EnterUrl => "Enter Website URL"
    case UrlPlaceholder => "https://example.com"
    case CheckButton => "Check Website"
    case Checking => "Checking..."
    case AnalyzingUrl => "Analyzing URL..."
    case ScanningForThreats => "Scanning for threats..."
    case AlmostDone => "Almost done..."
    case KindlyWait => "Kindly wait for a second..."
    case StartingScan => "Starting scan..."
    case UrlValidated => "URL validated"
    case ValidatingDomainExtension => "Validating domain extension..."
    case CheckingLegitimateDomainList => "Checking legitimate domain list..."
    case CheckingBlacklist => "Checking blacklist..."
    case ScanningWithUrlScanner => "Scanning with URL Scanner..."
    case UrlScannerScanComplete => "URL Scanner scan complete"
    case CheckingDomainRegistrationInfo => "Checking domain registration information..."
    case CapturingScreenshot => "Capturing screenshot..."
    case Complete => "Complete"
    case FailedToCheckWebsite => "Failed to check website. Please try again."
    case PleaseTryAgain => "Please try again."
    case ScanFailed => "Scan failed"
    case NoResponseBody => "No response body"
    case ErrorEnterUrl => "Please enter a URL"
    case ErrorInvalidUrlHostname => "Invalid URL: hostname is required"
    case ErrorInvalidUrlAddress => "Invalid URL: please enter a valid website address (e.g., example.com)"
    case ErrorInvalidUrlTld => "Invalid URL: top-level domain must be at least 2 characters"
    case ErrorInvalidUrlFormat => "Invalid URL format"
    case DomainNotFoundInDb => "Domain not found in our database."
    case DomainNotFoundDetail => "This domain is not in our legitimate list. We will perform additional checks, but results may not be accurate. Continue?"
    case YesContinue => "Yes, continue"
    case NoCancel => "No, cancel"
    case WebsiteScreenshot => "Website Screenshot"
    case ClickToZoom => "Click to zoom"
    case WebsiteScreenshotFullSize => "Website Screenshot - Full Size"
    case Legitimate => "✓ Appears to be a Legitimate Website"
    case LegitimateDetail => "✓ Website is available in our legitimate website list"
    case SuspiciousNewDomain => "⚠️ Suspicious - Recently Registered Domain"
    case SuspiciousDomainStructure => "⚠️ Suspicious - Unusual Domain Structure"
    case WarningKnownPhishing => "⚠️ WARNING - Known Phishing Website"
    case WarningKnownPhishingDetail => "⚠️ This website is in our blacklist of known phishing sites"
    case WarningVeryNewDomain => "⚠️ High Risk - Very New Domain"
    case WarningSuspiciousDomainStructure => "⚠️ High Risk - Suspicious Domain Structure"
    case WarningUnusualTld => "⚠️ High Risk - Unusual Domain Extension"
    case WarningNoSecureConnection => "⚠️ High Risk - Not Using Secure Connection"
    case HighRiskUnusualTld => "⚠️ High Risk - Unusual Domain Extension"
    case HighRiskUnusualTldDetail => "⚠️ The domain extension is unknown"
    case HighRiskSubdomainHeavy => "⚠️ High Risk - Suspicious Domain Structure"
    case HighRiskSubdomainHeavyDetail => "⚠️ Uses a free/suspicious top-level domain - Domain structure seems unusual (subdomain heavy)"
    case HighRiskNoSecureConnection => "⚠️ High Risk - Not Using Secure Connection"
    case HighRiskNoSecureConnectionDetail => "⚠️ Website is reachable, but not using secure connection"
    case WebsiteInLegitimateList => "✓ Website is available in our legitimate website list"
    case PassedUrlScannerCheck => "✓ Passed URL Scanner check"
    case UrlScannerDetectedThreats => "⚠️ URL Scanner detected threats"
    case UrlScannerThreatTypes => ""
    case UrlScannerUnlisted => "ℹ️ The URL is not registered in internal website."
    case UrlScannerUnavailable => "ℹ️ URL Scanner check unavailable"
    case UrlScannerNotAvailable => "⚠️ URL Scanner not available"
    case UsesFreeSuspiciousTld => "⚠️ Uses a free/suspicious top-level domain"
    case UsesStandardDomainExtension => "✓ Uses a standard domain extension"
    case DomainExtensionUnknown => "⚠️ The domain extension is unknown"
    case DomainContainsPhishingKeywords => "⚠️ Domain contains common phishing keywords"
    case WebsiteReachableSecure => "✓ Website is reachable, responding, and using secure connection"
    case WebsiteReachableNotSecure => "⚠️ Website is reachable, but not using secure connection"
    case WebsiteNotReachable => "⚠️ Website cannot be reached"
    case WebsiteCouldNotBeReached => "⚠️ Website could not be reached"
    case DomainStructureUnusual => "⚠️ Domain structure seems unusual (subdomain heavy)"
    case DomainIsDaysOld => "✓ Domain is {days} days old{suffix}"
    case DomainAgeUnavailable => "ℹ️ Domain age information unavailable{suffix}"
    case DomainExpiresSoon => "⚠️ Domain expires soon ({days} days)"
    case AbuseContact => "ℹ️ Abuse contact: {email}"
    case InvalidDomainExtension => "The domain extension is invalid."
    case InvalidUrlFormat => "Invalid URL Format"
    case InvalidUrlFormatDetail => "The URL you entered is not in a valid format."
  }

  function Indonesian(key: Key): string {
    match key
    case Title => "Ceker - Cek Website Sebelum Klik!"
    case Description => "Apakah website yang anda akan akses aman?"
    case EnterUrl => "Masukkan URL Website"
    case UrlPlaceholder => "https://contoh.com"
    case CheckButton => "Cek Website Sekarang"
    case Checking => "Memeriksa..."
    case AnalyzingUrl => "Menganalisis URL..."
    case ScanningForThreats => "Memeriksa ancaman..."
    case AlmostDone => "Hampir selesai..."
    case KindlyWait => "Mohon tunggu sebentar..."
    case StartingScan => "Memulai pemeriksaan..."
    case UrlValidated => "Website tervalidasi..."
    case ValidatingDomainExtension => "Memvalidasi website..."
    case CheckingLegitimateDomainList => "Memeriksa daftar website internal..."
    case CheckingBlacklist => "Memeriksa daftar blacklist..."
    case ScanningWithUrlScanner => "Memeriksa dengan Website Scanner..."
    case UrlScannerScanComplete => "Pemeriksaan Website Scanner selesai"
    case CheckingDomainRegistrationInfo => "Memeriksa informasi tambahan website..."
    case CapturingScreenshot => "Mengakses dan screenshot website..."
    case Complete => "Selesai"
    case FailedToCheckWebsite => "Gagal memeriksa website. Silakan coba lagi."
    case PleaseTryAgain => "Silakan coba lagi."
    case ScanFailed => "Pemeriksaan gagal"
    case NoResponseBody => "Tidak ada respons"
    case ErrorEnterUrl => "Silakan masukkan Website"
    case ErrorInvalidUrlHostname => "Website tidak valid: periksa apakah domain yang diinputkan benar"
    case ErrorInvalidUrlAddress => "Website tidak valid: silakan masukkan website yang valid (misalnya: contoh.com)"
    case ErrorInvalidUrlTld => "Website tidak valid: domain minimal 2 karakter"
    case ErrorInvalidUrlFormat => "Format website tidak valid"
    case DomainNotFoundInDb => "Website tidak ditemukan dalam daftar website internal."
    case DomainNotFoundDetail => "Website ini tidak ada dalam daftar website internal kami. Kami akan melakukan pemeriksaan tambahan. Lanjutkan?"
    case YesContinue => "Ya, lanjutkan"
    case NoCancel => "Tidak, batal"
    case WebsiteScreenshot => "Screenshot Website"
    case ClickToZoom => "Klik untuk perbesar"
    case WebsiteScreenshotFullSize => "Screenshot Website - Ukuran Penuh"
    case Legitimate => "✓ Website aman"
    case LegitimateDetail => "✓ Website tersedia dalam daftar website internal"
    case SuspiciousNewDomain => "⚠️ Mencurigakan - Website Baru Terdaftar"
    case SuspiciousDomainStructure => "⚠️ Mencurigakan - Struktur Website Tidak Umum"
    case WarningKnownPhishing => "⚠️ PERINGATAN - Website Phishing yang Diketahui"
    case WarningKnownPhishingDetail => "⚠️ Website ini berada dalam daftar web phising"
    case WarningVeryNewDomain => "⚠️ Risiko Tinggi - Website Sangat Baru Terdaftar"
    case WarningSuspiciousDomainStructure => "⚠️ Risiko Tinggi - Struktur Website Mencurigakan"
    case WarningUnusualTld => "⚠️ Risiko Tinggi - Ekstensi Website Tidak Biasa"
    case WarningNoSecureConnection => "⚠️ Risiko Tinggi - Tidak Menggunakan Koneksi yang Aman"
    case HighRiskUnusualTld => "⚠️ Risiko Tinggi - Ekstensi Website Tidak Biasa"
    case HighRiskUnusualTldDetail => "⚠️ Ekstensi website tidak dikenal"
    case HighRiskSubdomainHeavy => "⚠️ Risiko Tinggi - Struktur Website Mencurigakan"
    case HighRiskSubdomainHeavyDetail => "⚠️ Menggunakan domain gratis/mencurigakan - Struktur domain tampak tidak biasa (banyak subdomain)"
    case HighRiskNoSecureConnection => "⚠️ Risiko Tinggi - Tidak Menggunakan Koneksi yang Aman"
    case HighRiskNoSecureConnectionDetail => "⚠️ Website dapat diakses, tetapi tidak menggunakan koneksi yang aman"
    case WebsiteInLegitimateList => "✓ Website berada daftar website internal"
    case PassedUrlScannerCheck => "✓ Lolos pemeriksaan Website Scanner"
    case UrlScannerDetectedThreats => "⚠️ Website Scanner mendeteksi ancaman"
    case UrlScannerThreatTypes => ""
    case UrlScannerUnlisted => ""
    case UrlScannerUnavailable => ""
    case UrlScannerNotAvailable => "⚠️ Website Scanner tidak tersedia"
    case UsesFreeSuspiciousTld => "⚠️ Menggunakan domain gratis/mencurigakan"
    case UsesStandardDomainExtension => "✓ Menggunakan ekstensi domain standar"
    case DomainExtensionUnknown => "⚠️ Ekstensi domain tidak dikenal"
    case DomainContainsPhishingKeywords => "⚠️ Domain mengandung kata kunci phishing umum"
    case WebsiteReachableSecure => "✓ Website dapat diakses, merespons, dan menggunakan koneksi aman"
    case WebsiteReachableNotSecure => "⚠️ Website dapat diakses, tetapi tidak menggunakan koneksi aman"
    case WebsiteNotReachable => "⚠️ Website tidak dapat diakses"
    case WebsiteCouldNotBeReached => "⚠️ Website tidak dapat diakses"
    case DomainStructureUnusual => "⚠️ Struktur domain tampak tidak biasa (banyak subdomain)"
    case DomainIsDaysOld => "✓ Domain berusia {days} hari{suffix}"
    case DomainAgeUnavailable => "ℹ️ Informasi usia domain tidak tersedia{suffix}"
    case DomainExpiresSoon => "⚠️ Domain akan segera kedaluwarsa ({days} hari)"
    case AbuseContact => "ℹ️ Kontak penyalahgunaan: {email}"
    case InvalidDomainExtension => "Ekstensi domain tidak valid."
    case InvalidUrlFormat => "Format Website Tidak Valid"
    case InvalidUrlFormatDetail => "Website yang Anda masukkan tidak dalam format yang valid."
  }
  /** `translations[locale][key]`. */
  function Template(locale: Locale, key: Key): string {
    match locale
    case En => English(key)
    case Id => Indonesian(key)
  }

  // ---------------------------------------------------------------- interpolation

  /** A parameter value: a string or a number (integral numbers only). */
  datatype Param = Str(s: string) | Num(n: int)

  /** `value.toString()`. */
  function ParamText(p: Param): string {
    match p
    case Str(s) => s
    case Num(n) => IntToString(n)
  }

  /** The length of the run of word characters (`\w`) starting at `i`. */
  function WordRun(s: string, i: nat): (n: nat)
    requires i <= |s|
    ensures i + n <= |s|
    ensures forall j :: i <= j < i + n ==> IsWordChar(s[j])
    ensures i + n == |s| || !IsWordChar(s[i + n])
    decreases |s| - i
  {
    if i < |s| && IsWordChar(s[i]) then 1 + WordRun(s, i + 1) else 0
  }

  /** The length of the name when `s` starts with a placeholder `{name}` (`/\{(\w+)\}/`). */
  function PlaceholderAt(s: string): (r: Option<nat>)
    ensures r.Some? ==> 1 <= r.value && r.value + 2 <= |s| && s[0] == '{' && s[r.value + 1] == '}'
    ensures r.Some? ==> forall j :: 1 <= j <= r.value ==> IsWordChar(s[j])
  {
    if |s| >= 1 && s[0] == '{' then
      var n := WordRun(s, 1);
      if n >= 1 && 1 + n < |s| && s[1 + n] == '}' then Some(n) else None
    else None
  }

  /** The parameter's text, or the placeholder itself when the parameter is missing or its
      text is empty (`params[name]?.toString() || match`). */
  function Substitute(name: string, params: map<string, Param>): string {
    if name in params && ParamText(params[name]) != "" then ParamText(params[name])
    else "{" + name + "}"
  }

  /** `template.replace(/\{(\w+)\}/g, ...)`: one left-to-right pass; the text put in for a
      placeholder is not scanned again. */
  function Interpolate(template: string, params: map<string, Param>): string
    decreases |template|
  {
    if template == [] then []
    else if PlaceholderAt(template).Some? then
      var n := PlaceholderAt(template).value;
      Substitute(template[1..n + 1], params) + Interpolate(template[n + 2..], params)
    else [template[0]] + Interpolate(template[1..], params)
  }

  /** `t(locale, key, params)`: the template as it is without parameters, interpolated with them.
      Without parameters, or with an empty parameter object, the template comes back unchanged. */
  function T(locale: Locale, key: Key, params: Option<map<string, Param>>): (r: string)
    ensures params.None? || params == Some(map[]) ==> r == Template(locale, key)
  {
    var translation := Template(locale, key);
    EmptyParamsUnchanged(translation);
    if params.None? then translation else Interpolate(translation, params.value)
  }

  /** A name made of word characters. */
  predicate IsWord(name: string) {
    |name| >= 1 && forall j :: 0 <= j < |name| ==> IsWordChar(name[j])
  }

  /** `{name}` followed by anything is a placeholder with that name. */
  lemma PlaceholderOf(name: string, rest: string)
    requires IsWord(name)
    ensures PlaceholderAt("{" + name + "}" + rest) == Some(|name|)
    ensures ("{" + name + "}" + rest)[1..|name| + 1] == name
    ensures ("{" + name + "}" + rest)[|name| + 2..] == rest
  {
    var s := "{" + name + "}" + rest;
    WordRunOf(s, 1, |name|);
  }

  lemma {:induction false} WordRunOf(s: string, i: nat, n: nat)
    requires i + n < |s| && !IsWordChar(s[i + n])
    requires forall j :: i <= j < i + n ==> IsWordChar(s[j])
    ensures WordRun(s, i) == n
    decreases n
  {
    if n > 0 {
      WordRunOf(s, i + 1, n - 1);
    }
  }

  /** Each placeholder becomes its substitute, and interpolation carries on after it. */
  lemma PlaceholderReplaced(name: string, rest: string, params: map<string, Param>)
    requires IsWord(name)
    ensures Interpolate("{" + name + "}" + rest, params) == Substitute(name, params) + Interpolate(rest, params)
  {
    var s := "{" + name + "}" + rest;
    assert PlaceholderAt(s) == Some(|name|) && s[1..|name| + 1] == name && s[|name| + 2..] == rest by {
      PlaceholderOf(name, rest);
    }
    assert s != [];
  }

  /** A placeholder whose parameter is missing or empty stays as it is. */
  lemma MissingParamKept(name: string, rest: string, params: map<string, Param>)
    requires IsWord(name)
    requires name !in params || ParamText(params[name]) == ""
    ensures Interpolate("{" + name + "}" + rest, params) == "{" + name + "}" + Interpolate(rest, params)
  {
    PlaceholderReplaced(name, rest, params);
  }

  /** A placeholder with a non-empty value is replaced by that value as it is: placeholders
      inside the value are not expanded. */
  lemma ValueNotRescanned(name: string, rest: string, params: map<string, Param>)
    requires IsWord(name) && name in params && ParamText(params[name]) != ""
    ensures Interpolate("{" + name + "}" + rest, params) == ParamText(params[name]) + Interpolate(rest, params)
  {
    PlaceholderReplaced(name, rest, params);
  }

  /** Text without a placeholder anywhere. */
  predicate NoPlaceholder(s: string) {
    forall i :: 0 <= i < |s| ==> PlaceholderAt(s[i..]).None?
  }

  /** A template with no placeholder is returned unchanged, whatever the parameters. */
  lemma {:induction false} NoPlaceholderUnchanged(template: string, params: map<string, Param>)
    requires NoPlaceholder(template)
    ensures Interpolate(template, params) == template
    decreases |template|
  {
    if template != [] {
      assert PlaceholderAt(template[0..]).None?;
      assert template[0..] == template;
      var rest := template[1..];
      forall i | 0 <= i < |rest| ensures PlaceholderAt(rest[i..]).None? {
        assert rest[i..] == template[i + 1..];
      }
      NoPlaceholderUnchanged(rest, params);
    }
  }

  /** With no parameters given at all (an empty object), every placeholder is kept. */
  lemma {:induction false} EmptyParamsUnchanged(template: string)
    ensures Interpolate(template, map[]) == template
    decreases |template|, 1
  {
    if template != [] {
      match PlaceholderAt(template)
      case Some(n) => EmptyParamsPlaceholder(template, n);
      case None => EmptyParamsChar(template);
    }
  }

  lemma {:induction false} EmptyParamsPlaceholder(template: string, n: nat)
    requires PlaceholderAt(template) == Some(n)
    ensures Interpolate(template, map[]) == template
    decreases |template|, 0
  {
    var name := template[1..n + 1];
    var rest := template[n + 2..];
    InterpolateAt(template, map[], n);
    assert Substitute(name, map[]) == "{" + name + "}";
    assert template == "{" + name + "}" + rest by {
      PlaceholderSplit(template, n);
    }
    EmptyParamsUnchanged(rest);
  }

  lemma {:induction false} EmptyParamsChar(template: string)
    requires template != [] && PlaceholderAt(template).None?
    ensures Interpolate(template, map[]) == template
    decreases |template|, 0
  {
    assert Interpolate(template, map[]) == [template[0]] + Interpolate(template[1..], map[]);
    EmptyParamsUnchanged(template[1..]);
    assert template == [template[0]] + template[1..];
  }

  /** Interpolation of a text that starts with a placeholder. */
  lemma InterpolateAt(template: string, params: map<string, Param>, n: nat)
    requires PlaceholderAt(template) == Some(n)
    ensures Interpolate(template, params) == Substitute(template[1..n + 1], params) + Interpolate(template[n + 2..], params)
  {
    var name := template[1..n + 1];
    var rest := template[n + 2..];
    assert IsWord(name) && template == "{" + name + "}" + rest by {
      PlaceholderSplit(template, n);
    }
    PlaceholderReplaced(name, rest, params);
  }

  lemma PlaceholderSplit(s: string, n: nat)
    requires PlaceholderAt(s) == Some(n)
    ensures s == "{" + s[1..n + 1] + "}" + s[n + 2..]
  {
    assert s == s[..1] + s[1..n + 1] + s[n + 1..n + 2] + s[n + 2..];
  }

  /** `{}` is not a placeholder. */
  lemma EmptyBracesKept(params: map<string, Param>)
    ensures Interpolate("{}", params) == "{}"
  {
    assert PlaceholderAt("{}").None? by {
      assert WordRun("{}", 1) == 0;
    }
    assert Interpolate("}", params) == "}";
  }

  /** `{a-b}` is not a placeholder. */
  lemma HyphenNameKept(params: map<string, Param>)
    ensures Interpolate("{a-b}", params) == "{a-b}"
  {
    var s := "{a-b}";
    assert PlaceholderAt(s).None? by {
      assert !IsWordChar(s[2]);
      WordRunOf(s, 1, 1);
    }
    assert Interpolate(s[4..], params) == "}" by {
      assert PlaceholderAt(s[4..]).None?;
    }
    assert Interpolate(s[3..], params) == "b}" by {
      assert PlaceholderAt(s[3..]).None?;
    }
    assert Interpolate(s[2..], params) == "-b}" by {
      assert PlaceholderAt(s[2..]).None?;
    }
    assert Interpolate(s[1..], params) == "a-b}" by {
      assert PlaceholderAt(s[1..]).None?;
    }
  }

  /** Text without '{' passes through interpolation unchanged. */
  lemma {:induction false} BraceFreePrefix(s: string, rest: string, params: map<string, Param>)
    requires '{' !in s
    ensures Interpolate(s + rest, params) == s + Interpolate(rest, params)
    decreases |s|
  {
    if s != [] {
      assert (s + rest)[0] == s[0];
      assert (s + rest)[1..] == s[1..] + rest;
      BraceFreePrefix(s[1..], rest, params);
    } else {
      assert s + rest == rest;
    }
  }
}
