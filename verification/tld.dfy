/** Top-level-domain validation of a hostname against a registry of known
    TLDs. The registry is the set of entries of the `tlds` table, so a lookup
    is set membership; a failed lookup reads as "not present". */
module TldValidation {
  import opened Wrappers
  import opened Text

  /** Outcome of a validation: `reason` and `tld` are the optional fields. */
  datatype Validation = Validation(valid: bool, reason: Option<string>, tld: Option<string>)

  /** Second-level labels that form an effective two-part TLD with the label after them. */
  const IndonesianSecondLevels: seq<string> := ["ac", "biz", "co", "desa", "go", "my", "net", "or", "sch", "web"]
  const GenericSecondLevels: seq<string> := ["com", "org", "gov", "edu", "mil"]
  const UkSecondLevels: seq<string> := ["ac", "co", "gov", "ltd", "me", "net", "nhs", "org", "plc", "police", "sch"]
  const SecondLevels: seq<string> := IndonesianSecondLevels + GenericSecondLevels + UkSecondLevels

  const NoTldReason: string := "Could not extract TLD from hostname"
  const InvalidCharsReason: string := "TLD contains invalid characters (only letters allowed)"

  function NotRecognizedReason(baseTld: string): string {
    "TLD '" + baseTld + "' is not recognized"
  }

  /** The regular expression `^[a-z]+$`. */
  predicate OnlyLowerLetters(s: string) {
    |s| > 0 && forall i :: 0 <= i < |s| ==> IsAsciiLower(s[i])
  }

  /** The base TLD: a dot and the last label. */
  function BaseTld(parts: seq<string>): string
    requires |parts| >= 1
  {
    "." + parts[|parts| - 1]
  }

  /** The TLD the letters-only check is applied to, over any table of second-level labels. */
  function EffectiveTld(parts: seq<string>, levels: seq<string>): string
    requires |parts| >= 2
  {
    var base := BaseTld(parts);
    if |parts| >= 3 && Lower(parts[|parts| - 2]) in levels then "." + Lower(parts[|parts| - 2]) + base
    else base
  }

  /** The validation over any table of second-level labels; `ValidateTld` uses the fixed one. */
  function ValidateTldWith(hostname: string, registry: set<string>, levels: seq<string>): Validation {
    var parts := Split(hostname, '.');
    if |parts| < 2 then Validation(false, Some(NoTldReason), None)
    else
      var base := BaseTld(parts);
      if base !in registry then Validation(false, Some(NotRecognizedReason(base)), Some(base))
      else
        var tld := EffectiveTld(parts, levels);
        if !OnlyLowerLetters(RemoveDots(tld)) then Validation(false, Some(InvalidCharsReason), Some(tld))
        else Validation(true, None, Some(tld))
  }

  function ValidateTld(hostname: string, registry: set<string>): (r: Validation)
    ensures r.valid <==> r.reason.None?
    ensures r.valid ==>
              var parts := Split(hostname, '.');
              |parts| >= 2 && BaseTld(parts) in registry &&
              r.tld.Some? && OnlyLowerLetters(RemoveDots(r.tld.value))
  {
    ValidateTldWith(hostname, registry, SecondLevels)
  }

  /** A hostname without a dot has no TLD to extract: invalid, and no `tld` is reported. */
  lemma FewLabelsInvalid(hostname: string, registry: set<string>)
    requires |Split(hostname, '.')| < 2
    ensures var r := ValidateTld(hostname, registry);
            !r.valid && r.reason == Some(NoTldReason) && r.tld == None
  {
  }

  lemma {:induction false} NoDotMeansOneLabel(hostname: string, registry: set<string>)
    requires '.' !in hostname
    ensures !ValidateTld(hostname, registry).valid && ValidateTld(hostname, registry).tld == None
  {
    SplitWithoutSep(hostname, '.');
  }

  /** An unregistered base TLD stops the validation and is the `tld` reported. */
  lemma UnknownBaseInvalid(hostname: string, registry: set<string>)
    requires var parts := Split(hostname, '.');
             |parts| >= 2 && "." + parts[|parts| - 1] !in registry
    ensures var parts := Split(hostname, '.');
            var base := "." + parts[|parts| - 1];
            ValidateTld(hostname, registry) == Validation(false, Some(NotRecognizedReason(base)), Some(base))
  {
  }

  /** The effective TLD is the base TLD, or a listed lower-cased second-level label
      in front of it, and it is the latter exactly when there are three labels or more
      and the lower-cased second-to-last label is listed. */
  lemma EffectiveTldShape(parts: seq<string>, levels: seq<string>)
    requires |parts| >= 2
    ensures var base := "." + parts[|parts| - 1];
            var tld := EffectiveTld(parts, levels);
            EndsWith(tld, base) &&
            (tld != base <==> |parts| >= 3 && Lower(parts[|parts| - 2]) in levels) &&
            (tld != base ==> tld == "." + Lower(parts[|parts| - 2]) + base)
  {
    var base := "." + parts[|parts| - 1];
    var tld := EffectiveTld(parts, levels);
    if |parts| >= 3 && Lower(parts[|parts| - 2]) in levels {
      assert |tld| > |base|;
      assert tld[|tld| - |base|..] == base;
    } else {
      assert tld[|tld| - |base|..] == base;
    }
  }

  /** A valid result has a registered base TLD, a `tld` that ends with it, and a `tld`
      made only of lower-case letters once its dots are removed. */
  lemma ValidMeansLetters(hostname: string, registry: set<string>)
    requires ValidateTld(hostname, registry).valid
    ensures var parts := Split(hostname, '.');
            var r := ValidateTld(hostname, registry);
            |parts| >= 2 && "." + parts[|parts| - 1] in registry && r.tld.Some? && r.reason == None &&
            EndsWith(r.tld.value, "." + parts[|parts| - 1]) && OnlyLowerLetters(RemoveDots(r.tld.value))
  {
    ValidWithMeansLetters(hostname, registry, SecondLevels);
  }

  lemma ValidWithMeansLetters(hostname: string, registry: set<string>, levels: seq<string>)
    requires ValidateTldWith(hostname, registry, levels).valid
    ensures var parts := Split(hostname, '.');
            var r := ValidateTldWith(hostname, registry, levels);
            |parts| >= 2 && "." + parts[|parts| - 1] in registry && r.tld.Some? && r.reason == None &&
            EndsWith(r.tld.value, "." + parts[|parts| - 1]) && OnlyLowerLetters(RemoveDots(r.tld.value))
  {
    var parts := Split(hostname, '.');
    var r := ValidateTldWith(hostname, registry, levels);
    assert |parts| >= 2 && BaseTld(parts) in registry;
    assert r.tld == Some(EffectiveTld(parts, levels));
    EffectiveTldShape(parts, levels);
  }

  /** The converse: with at least two labels, a registered base TLD and a letters-only
      effective TLD the hostname is valid. */
  lemma LettersMeanValid(hostname: string, registry: set<string>)
    requires var parts := Split(hostname, '.');
             |parts| >= 2 && "." + parts[|parts| - 1] in registry &&
             OnlyLowerLetters(RemoveDots(EffectiveTld(parts, SecondLevels)))
    ensures ValidateTld(hostname, registry) == Validation(true, None, Some(EffectiveTld(Split(hostname, '.'), SecondLevels)))
  {
    LettersMeanValidWith(hostname, registry, SecondLevels);
  }

  lemma LettersMeanValidWith(hostname: string, registry: set<string>, levels: seq<string>)
    requires var parts := Split(hostname, '.');
             |parts| >= 2 && "." + parts[|parts| - 1] in registry &&
             OnlyLowerLetters(RemoveDots(EffectiveTld(parts, levels)))
    ensures ValidateTldWith(hostname, registry, levels) == Validation(true, None, Some(EffectiveTld(Split(hostname, '.'), levels)))
  {
  }

  /** A digit, a hyphen or an upper-case letter anywhere in the effective TLD makes it invalid. */
  lemma NonLetterInvalid(hostname: string, registry: set<string>, c: char)
    requires var parts := Split(hostname, '.');
             |parts| >= 2 && c in EffectiveTld(parts, SecondLevels) && c != '.' && !IsAsciiLower(c)
    ensures !ValidateTld(hostname, registry).valid
  {
    var tld := EffectiveTld(Split(hostname, '.'), SecondLevels);
    var stripped := RemoveDots(tld);
    assert c in stripped;
    var i :| 0 <= i < |stripped| && stripped[i] == c;
    assert !OnlyLowerLetters(stripped);
  }

  /** Only the base TLD is looked up: two registries that agree on it give the same result. */
  lemma RegistryOnlyForBase(hostname: string, r1: set<string>, r2: set<string>)
    requires var parts := Split(hostname, '.');
             |parts| >= 2 ==> ("." + parts[|parts| - 1] in r1 <==> "." + parts[|parts| - 1] in r2)
    ensures ValidateTld(hostname, r1) == ValidateTld(hostname, r2)
  {
  }

  lemma LowerOfLower(s: string)
    requires forall i :: 0 <= i < |s| ==> IsAsciiLower(s[i])
    ensures Lower(s) == s
  {
  }

  lemma CoIdLabels()
    ensures Split("example.co.id", '.') == ["example", "co", "id"]
  {
    var parts := ["example", "co", "id"];
    assert Join(parts, ".") == "example.co.id";
    SplitJoin(parts, '.');
  }

  lemma CoIdEffective()
    ensures EffectiveTld(["example", "co", "id"], SecondLevels) == ".co.id"
    ensures OnlyLowerLetters(RemoveDots(".co.id"))
  {
    LowerOfLower("co");
    assert IndonesianSecondLevels[2] == "co";
    assert RemoveDots(".co.id") == "coid";
  }

  /** `example.co.id` with `.id` registered validates as `.co.id`. */
  lemma ExampleCoId()
    ensures ValidateTld("example.co.id", {".id"}) == Validation(true, None, Some(".co.id"))
  {
    var parts := ["example", "co", "id"];
    CoIdLabels();
    CoIdEffective();
    assert "." + parts[|parts| - 1] == ".id";
    LettersMeanValid("example.co.id", {".id"});
  }
}
