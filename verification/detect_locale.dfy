/** The server-side locale choice from request headers: the first country header that is
    present and non-empty decides ('ID' in any letter case gives Indonesian), then the
    Accept-Language header, then English. */
module DetectLocale {
  import opened Wrappers
  import opened Text
  import opened Translations

  /** `headersList.get(name)`, with an absent header read as the empty string (both are falsy). */
  function Header(headers: map<string, string>, name: string): string {
    if name in headers then headers[name] else ""
  }

  /** The locale a country code gives. */
  function CountryLocale(country: string): Locale {
    if Upper(country) == "ID" then Id else En
  }

  /** `detectLocale`; `None` stands for an error while reading the headers. */
  function Detect(headers: Option<map<string, string>>): (r: Locale)
    ensures headers.None? ==> r == En
    ensures r == Id ==>
              headers.Some? &&
              var h := headers.value;
              Upper(Header(h, "cf-ipcountry")) == "ID" || Upper(Header(h, "x-vercel-ip-country")) == "ID" ||
              Upper(Header(h, "x-country")) == "ID" || Upper(Header(h, "cf-country")) == "ID" ||
              Contains(Lower(Header(h, "accept-language")), "id")
  {
    if headers.None? then En
    else
      var h := headers.value;
      var cfCountry := Header(h, "cf-ipcountry");
      if cfCountry != "" then CountryLocale(cfCountry)
      else
        var vercelCountry := Header(h, "x-vercel-ip-country");
        if vercelCountry != "" then CountryLocale(vercelCountry)
        else
          var country := if Header(h, "x-country") != "" then Header(h, "x-country") else Header(h, "cf-country");
          if country != "" then CountryLocale(country)
          else if Contains(Lower(Header(h, "accept-language")), "id") then Id
          else En
  }

  /** The country headers in the order they are consulted. */
  const CountryHeaders: seq<string> := ["cf-ipcountry", "x-vercel-ip-country", "x-country", "cf-country"]

  /** The first of `names` whose header is non-empty. */
  function FirstPresent(headers: map<string, string>, names: seq<string>): (r: Option<string>)
    ensures r.Some? ==> r.value != "" && exists i :: 0 <= i < |names| && Header(headers, names[i]) == r.value
    ensures r.None? <==> forall i :: 0 <= i < |names| ==> Header(headers, names[i]) == ""
  {
    if names == [] then None
    else if Header(headers, names[0]) != "" then Some(Header(headers, names[0]))
    else
      var r := FirstPresent(headers, names[1..]);
      assert forall i :: 1 <= i < |names| ==> names[i] == names[1..][i - 1];
      r
  }

  /** The cascade is the ordered-list rule: the first non-empty country header decides, and
      Accept-Language is read only when there is none. */
  lemma DetectByOrder(headers: map<string, string>)
    ensures var first := FirstPresent(headers, CountryHeaders);
            Detect(Some(headers)) ==
              if first.Some? then CountryLocale(first.value)
              else if Contains(Lower(Header(headers, "accept-language")), "id") then Id
              else En
  {
    FirstOfFour(headers, "cf-ipcountry", "x-vercel-ip-country", "x-country", "cf-country");
  }

  /** The first non-empty header of four names, name by name. */
  lemma FirstOfFour(headers: map<string, string>, a: string, b: string, c: string, d: string)
    ensures FirstPresent(headers, [a, b, c, d]) ==
            if Header(headers, a) != "" then Some(Header(headers, a))
            else if Header(headers, b) != "" then Some(Header(headers, b))
            else if Header(headers, c) != "" then Some(Header(headers, c))
            else if Header(headers, d) != "" then Some(Header(headers, d))
            else None
  {
    var n := [a, b, c, d];
    assert [d][1..] == [];
    assert FirstPresent(headers, [d]) == if Header(headers, d) != "" then Some(Header(headers, d)) else None;
    assert [c, d][1..] == [d];
    assert FirstPresent(headers, [c, d]) == if Header(headers, c) != "" then Some(Header(headers, c)) else FirstPresent(headers, [d]);
    assert [b, c, d][1..] == [c, d];
    assert FirstPresent(headers, [b, c, d]) == if Header(headers, b) != "" then Some(Header(headers, b)) else FirstPresent(headers, [c, d]);
    assert n[1..] == [b, c, d];
  }

  /** A country code gives Indonesian exactly when it is "id" in some letter case. */
  lemma CountryIdIff(country: string)
    ensures CountryLocale(country) == Id <==>
            |country| == 2 && (country[0] == 'i' || country[0] == 'I') && (country[1] == 'd' || country[1] == 'D')
  {
    if |country| == 2 {
      var u := Upper(country);
      assert u == "ID" <==> u[0] == 'I' && u[1] == 'D';
    } else {
      assert |Upper(country)| != 2;
    }
  }

  /** Once a country header is present, headers later in the order and Accept-Language do
      not change the answer. */
  lemma LaterHeadersIgnored(h1: map<string, string>, h2: map<string, string>, k: nat)
    requires k < |CountryHeaders|
    requires forall i :: 0 <= i <= k ==> Header(h1, CountryHeaders[i]) == Header(h2, CountryHeaders[i])
    requires Header(h1, CountryHeaders[k]) != ""
    ensures Detect(Some(h1)) == Detect(Some(h2))
  {
    DetectByOrder(h1);
    DetectByOrder(h2);
    FirstPresentPrefix(h1, h2, CountryHeaders, k);
  }

  lemma {:induction false} FirstPresentPrefix(h1: map<string, string>, h2: map<string, string>, names: seq<string>, k: nat)
    requires k < |names|
    requires forall i :: 0 <= i <= k ==> Header(h1, names[i]) == Header(h2, names[i])
    requires Header(h1, names[k]) != ""
    ensures FirstPresent(h1, names) == FirstPresent(h2, names)
    decreases k
  {
    if Header(h1, names[0]) == "" {
      var rest := names[1..];
      forall i | 0 <= i <= k - 1 ensures Header(h1, rest[i]) == Header(h2, rest[i]) {
        assert rest[i] == names[i + 1];
      }
      FirstPresentPrefix(h1, h2, rest, k - 1);
    }
  }
}
