/** What the core reads from a parsed URL. Parsing itself (the WHATWG URL
    Standard parser behind `new URL`) is not modelled: callers receive it as a
    function that yields `None` where the constructor throws. */
module WebUrl {
  import opened Wrappers
  import opened Text

  datatype Url = Url(href: string, protocol: string, hostname: string, pathname: string, search: string)

  /** `new URL(s)`: `None` when the constructor throws. */
  type Parser = string -> Option<Url>

  /** `s.includes('://') ? s : 'https://' + s`: the text handed to the parser when no
      scheme is given. */
  function WithHttps(s: string): (r: string)
    ensures Contains(r, "://")
    ensures Contains(s, "://") ==> r == s
    ensures !Contains(s, "://") ==> r == "https://" + s
  {
    if Contains(s, "://") then s
    else
      assert OccursAt("https://" + s, "://", 5);
      "https://" + s
  }
}
