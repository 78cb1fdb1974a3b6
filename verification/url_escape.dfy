/** Percent-escaping of a URL path and query, the last step of the Safe Browsing
    canonicalization: valid escapes are kept with upper-case hex digits, and every
    control character, space, non-ASCII character, '#' and stray '%' is replaced by
    the escapes of its UTF-8 bytes.

    Strings here are sequences of Unicode scalar values while the source indexes
    UTF-16 code units. The only place this shows is a character outside the Basic
    Multilingual Plane: the source meets it as two lone surrogates, each encoded as
    U+FFFD (EF BF BD), and `Utf8` returns those six bytes for it. */
module PercentEscape {
  import opened Text

  predicate IsUpperHexDigit(c: char) { IsDigit(c) || 'A' <= c <= 'F' }

  /** Characters that are escaped: code ≤ 0x20, code ≥ 0x7F, '#' and '%'. */
  predicate MustEscape(c: char) {
    c as int <= 0x20 || c as int >= 0x7F || c == '#' || c == '%'
  }

  /** An escape `%XX` with hex digits of either case starts at `i` and is complete. */
  predicate ValidEscapeAt(s: string, i: int) {
    0 <= i && i + 2 < |s| && s[i] == '%' && IsHexDigit(s[i + 1]) && IsHexDigit(s[i + 2])
  }

  /** The output alphabet: every character is printable ASCII other than '#', and every
      '%' begins an escape with two upper-case hex digits. */
  predicate WellEscaped(s: string) {
    forall i :: 0 <= i < |s| ==> OkAt(s, i)
  }

  /** The character at `i` is safe, or begins an upper-case escape. */
  predicate OkAt(s: string, i: int)
    requires 0 <= i < |s|
  {
    !MustEscape(s[i]) || (s[i] == '%' && i + 2 < |s| && IsUpperHexDigit(s[i + 1]) && IsUpperHexDigit(s[i + 2]))
  }

  lemma UpperHex(c: char)
    requires IsHexDigit(c)
    ensures IsUpperHexDigit(UpperChar(c)) && !MustEscape(UpperChar(c))
  {
  }

  /** The value of a hex digit of either case. */
  function HexVal(c: char): (d: nat)
    requires IsHexDigit(c)
    ensures d < 16
  {
    if IsDigit(c) then DigitValue(c)
    else if 'a' <= c <= 'f' then c as int - 'a' as int + 10
    else c as int - 'A' as int + 10
  }

  /** The upper-case hex digit of a value below 16. */
  function HexDigit(d: nat): (c: char)
    requires d < 16
    ensures IsUpperHexDigit(c) && !MustEscape(c)
    ensures HexVal(c) == d
  {
    if d < 10 then DigitChar(d) else ('A' as int + d - 10) as char
  }

  /** Every upper-case hex digit is the digit of its value, so `HexDigit` is a bijection
      onto the upper-case hex digits. */
  lemma HexDigitOfVal(c: char)
    requires IsUpperHexDigit(c)
    ensures HexDigit(HexVal(c)) == c
  {
    if IsDigit(c) {
      assert DigitChar(DigitValue(c)) == c;
    }
  }

  /** `'%' + b.toString(16).toUpperCase().padStart(2, '0')`: the two digits are the high
      and the low half of the byte. */
  function ByteEscape(b: nat): (r: string)
    requires b < 256
    ensures |r| == 3 && r[0] == '%' && IsUpperHexDigit(r[1]) && IsUpperHexDigit(r[2])
    ensures HexVal(r[1]) * 16 + HexVal(r[2]) == b
    ensures WellEscaped(r)
  {
    ['%', HexDigit(b / 16), HexDigit(b % 16)]
  }

  predicate AreBytes(bytes: seq<nat>) {
    forall i :: 0 <= i < |bytes| ==> bytes[i] < 256
  }

  /** `new TextEncoder().encode(ch)`: the UTF-8 bytes of a character, with a character
      beyond the Basic Multilingual Plane seen as two lone surrogates. */
  function Utf8(c: char): (bytes: seq<nat>)
    ensures AreBytes(bytes) && 1 <= |bytes| <= 6
    ensures |bytes| == 1 <==> c as int < 0x80
    ensures |bytes| == 1 ==> bytes[0] == c as int
    ensures |bytes| == 2 <==> 0x80 <= c as int < 0x800
    ensures |bytes| == 2 ==> 0xC0 <= bytes[0] < 0xE0 && 0x80 <= bytes[1] < 0xC0 &&
                             (bytes[0] - 0xC0) * 64 + (bytes[1] - 0x80) == c as int
    ensures |bytes| == 3 <==> 0x800 <= c as int < 0x10000
    ensures |bytes| == 3 ==> 0xE0 <= bytes[0] < 0xF0 && 0x80 <= bytes[1] < 0xC0 && 0x80 <= bytes[2] < 0xC0 &&
                             (bytes[0] - 0xE0) * 4096 + (bytes[1] - 0x80) * 64 + (bytes[2] - 0x80) == c as int
    ensures c as int >= 0x10000 ==> bytes == ReplacementBytes + ReplacementBytes
  {
    var n := c as int;
    if n < 0x80 then [n]
    else if n < 0x800 then
      SixBitSplit(n, 32);
      [0xC0 + n / 64, 0x80 + n % 64]
    else if n < 0x10000 then
      SixBitSplit(n, 1024);
      SixBitSplit(n / 64, 16);
      [0xE0 + n / 4096, 0x80 + (n / 64) % 64, 0x80 + n % 64]
    else ReplacementBytes + ReplacementBytes
  }

  /** Splitting off the low six bits of a number below `64 * bound`. */
  lemma SixBitSplit(n: nat, bound: nat)
    requires n < 64 * bound
    ensures n == n / 64 * 64 + n % 64 && n / 64 < bound && n % 64 < 64
    ensures n / 64 / 64 == n / 4096
  {
  }

  /** The UTF-8 encoding of U+FFFD, the replacement character a lone surrogate becomes. */
  const ReplacementBytes: seq<nat> := [0xEF, 0xBF, 0xBD]

  /** The replacement bytes are the three-byte encoding of U+FFFD. */
  lemma ReplacementEncoding()
    ensures Utf8(0xFFFD as char) == ReplacementBytes
  {
  }

  /** The escapes of a byte sequence, one `%XX` per byte. */
  function EscapeBytes(bytes: seq<nat>): (r: string)
    requires AreBytes(bytes)
    ensures |r| == 3 * |bytes|
  {
    if bytes == [] then [] else ByteEscape(bytes[0]) + EscapeBytes(bytes[1..])
  }

  /** What one character that is not part of a valid escape becomes. */
  function EscapeChar(c: char): (r: string)
    ensures |r| >= 1
    ensures !MustEscape(c) ==> r == [c]
  {
    if MustEscape(c) then EscapeBytes(Utf8(c)) else [c]
  }

  /** The specification of both escapers' loop: the escaped form of a whole string.
      Whatever the input, the escaped form uses only the output alphabet: no control
      character, space, non-ASCII character or '#', and every '%' begins `%XX` with
      upper-case hex digits. */
  function Escape(s: string): (r: string)
    ensures WellEscaped(r)
    decreases |s|
  {
    if s == [] then []
    else if ValidEscapeAt(s, 0) then
      var head := "%" + Upper(s[1..3]);
      UpperHex(s[1]);
      UpperHex(s[2]);
      assert OkAt(head, 0) && OkAt(head, 1) && OkAt(head, 2);
      WellEscapedConcat(head, Escape(s[3..]));
      head + Escape(s[3..])
    else
      EscapeCharWellEscaped(s[0]);
      WellEscapedConcat(EscapeChar(s[0]), Escape(s[1..]));
      EscapeChar(s[0]) + Escape(s[1..])
  }

  /** `percentEscapeQuery` as a function: "" and "?" as they are, a leading '?' kept. */
  function EscapeQuery(query: string): string {
    if query == [] || query == "?" then query
    else if query[0] == '?' then "?" + Escape(query[1..])
    else Escape(query)
  }

  lemma WellEscapedConcat(a: string, b: string)
    requires WellEscaped(a) && WellEscaped(b)
    ensures WellEscaped(a + b)
  {
    var s := a + b;
    forall i | 0 <= i < |s|
      ensures OkAt(s, i)
    {
      if i >= |a| {
        assert OkAt(b, i - |a|);
        assert s[i] == b[i - |a|];
        if MustEscape(s[i]) {
          assert s[i + 1] == b[i - |a| + 1] && s[i + 2] == b[i - |a| + 2];
        }
      } else {
        assert OkAt(a, i);
        assert s[i] == a[i];
        if MustEscape(s[i]) {
          assert s[i + 1] == a[i + 1] && s[i + 2] == a[i + 2];
        }
      }
    }
  }

  /** A suffix of a well-escaped string is well escaped. */
  lemma WellEscapedSuffix(s: string, k: nat)
    requires WellEscaped(s) && k <= |s|
    ensures WellEscaped(s[k..])
  {
    var t := s[k..];
    forall i | 0 <= i < |t|
      ensures OkAt(t, i)
    {
      assert OkAt(s, i + k);
      assert t[i] == s[i + k];
      if MustEscape(t[i]) {
        assert t[i + 1] == s[i + k + 1] && t[i + 2] == s[i + k + 2];
      }
    }
  }

  lemma {:induction false} EscapeBytesWellEscaped(bytes: seq<nat>)
    requires AreBytes(bytes)
    ensures WellEscaped(EscapeBytes(bytes))
  {
    if bytes != [] {
      EscapeBytesWellEscaped(bytes[1..]);
      WellEscapedConcat(ByteEscape(bytes[0]), EscapeBytes(bytes[1..]));
    }
  }

  lemma EscapeCharWellEscaped(c: char)
    ensures WellEscaped(EscapeChar(c))
  {
    if MustEscape(c) {
      EscapeBytesWellEscaped(Utf8(c));
    } else {
      assert OkAt([c], 0);
    }
  }

  lemma EscapeBytesAppend(bytes: seq<nat>, b: nat)
    requires AreBytes(bytes) && b < 256
    ensures AreBytes(bytes + [b])
    ensures EscapeBytes(bytes + [b]) == EscapeBytes(bytes) + ByteEscape(b)
  {
    if bytes != [] {
      assert (bytes + [b])[1..] == bytes[1..] + [b];
      EscapeBytesAppend(bytes[1..], b);
    }
  }

  /** One step of the loop at index `i`, as the specification sees it. */
  lemma EscapeStep(s: string, i: int)
    requires 0 <= i < |s|
    ensures ValidEscapeAt(s, i) ==> Escape(s[i..]) == "%" + Upper(s[i + 1..i + 3]) + Escape(s[i + 3..])
    ensures !ValidEscapeAt(s, i) ==> Escape(s[i..]) == EscapeChar(s[i]) + Escape(s[i + 1..])
  {
    var t := s[i..];
    assert ValidEscapeAt(s, i) <==> ValidEscapeAt(t, 0);
    if ValidEscapeAt(s, i) {
      assert t[3..] == s[i + 3..] && t[1..3] == s[i + 1..i + 3];
    } else {
      assert t[1..] == s[i + 1..];
    }
  }

  /** Appends the escapes of one character's UTF-8 bytes to `out`. */
  method AppendEncoded(out: string, ch: char) returns (res: string)
    ensures res == out + EscapeBytes(Utf8(ch))
  {
    res := AppendByteEscapes(out, Utf8(ch));
  }

  /** The loop over the bytes: one `%XX` per byte, in order. */
  method AppendByteEscapes(out: string, bytes: seq<nat>) returns (res: string)
    requires AreBytes(bytes)
    ensures res == out + EscapeBytes(bytes)
  {
    res := out;
    var k := 0;
    while k < |bytes|
      invariant 0 <= k <= |bytes|
      invariant res == out + EscapeBytes(bytes[..k])
    {
      EscapeBytesAppend(bytes[..k], bytes[k]);
      assert bytes[..k + 1] == bytes[..k] + [bytes[k]];
      res := res + ByteEscape(bytes[k]);
      k := k + 1;
    }
    assert bytes[..k] == bytes;
  }

  /** One pass of the loop body at index `i`: the text it appends and the next index. */
  method EscapeOne(s: string, i: nat) returns (piece: string, next: nat)
    requires i < |s|
    ensures i < next <= |s|
    ensures Escape(s[i..]) == piece + Escape(s[next..])
  {
    EscapeStep(s, i);
    if ValidEscapeAt(s, i) {
      piece := "%" + Upper(s[i + 1..i + 3]);
      next := i + 3;
    } else {
      piece := EncodeChar(s[i]);
      next := i + 1;
    }
  }

  /** A character outside a valid escape: its UTF-8 escapes when it must be escaped,
      otherwise the character itself. */
  method EncodeChar(ch: char) returns (piece: string)
    ensures piece == EscapeChar(ch)
  {
    if MustEscape(ch) {
      piece := AppendEncoded("", ch);
      assert "" + EscapeBytes(Utf8(ch)) == EscapeBytes(Utf8(ch));
    } else {
      piece := [ch];
    }
  }

  /** The loop both escapers share, from index `start` on, appending to `prefix`. */
  method EscapeLoop(s: string, start: nat, prefix: string) returns (out: string)
    requires start <= |s|
    ensures out == prefix + Escape(s[start..])
  {
    out := prefix;
    var i := start;
    while i < |s|
      invariant start <= i <= |s|
      invariant out + Escape(s[i..]) == prefix + Escape(s[start..])
    {
      var piece, next := EscapeOne(s, i);
      assert (out + piece) + Escape(s[next..]) == out + (piece + Escape(s[next..]));
      out := out + piece;
      i := next;
    }
    assert s[i..] == [];
  }

  /** `percentEscapePath`. */
  method PercentEscapePath(path: string) returns (out: string)
    ensures out == Escape(path)
    ensures WellEscaped(out)
  {
    out := EscapeLoop(path, 0, "");
    assert path[0..] == path;
  }

  /** `percentEscapeQuery`. */
  method PercentEscapeQuery(query: string) returns (out: string)
    ensures out == EscapeQuery(query)
    ensures query == [] || query == "?" ==> out == query
    ensures query != [] && query[0] == '?' ==> out != [] && out[0] == '?' && WellEscaped(out[1..])
    ensures query != [] && query[0] != '?' ==> WellEscaped(out)
  {
    if query == [] || query == "?" {
      return query;
    }
    var i := 0;
    out := "";
    if query[0] == '?' {
      out := out + "?";
      i := 1;
    }
    out := EscapeLoop(query, i, out);
    if i == 0 {
      assert query[0..] == query;
    } else {
      assert out[1..] == Escape(query[1..]);
    }
  }

  /** A well-escaped string is its own escaped form. */
  lemma {:induction false} WellEscapedFixed(s: string)
    requires WellEscaped(s)
    ensures Escape(s) == s
    decreases |s|
  {
    if s != [] {
      assert OkAt(s, 0);
      if s[0] == '%' {
        assert ValidEscapeAt(s, 0);
        WellEscapedSuffix(s, 3);
        WellEscapedFixed(s[3..]);
        UpperKeepsHex(s[1..3]);
        assert s == [s[0]] + s[1..3] + s[3..];
      } else {
        WellEscapedSuffix(s, 1);
        WellEscapedFixed(s[1..]);
        assert s == [s[0]] + s[1..];
      }
    }
  }

  lemma UpperKeepsHex(t: string)
    requires |t| == 2 && IsUpperHexDigit(t[0]) && IsUpperHexDigit(t[1])
    ensures Upper(t) == t
  {
    assert Upper(t)[0] == t[0] && Upper(t)[1] == t[1];
  }

  /** Escaping twice is escaping once. */
  lemma EscapeIdempotent(s: string)
    ensures Escape(Escape(s)) == Escape(s)
  {
    WellEscapedFixed(Escape(s));
  }

  /** The escaped form of a string starts with '?' only if the string does. */
  lemma EscapeFirst(s: string)
    requires s != [] && s[0] != '?'
    ensures Escape(s) != [] && Escape(s)[0] != '?'
  {
    if !ValidEscapeAt(s, 0) && MustEscape(s[0]) {
      var bytes := Utf8(s[0]);
      assert EscapeBytes(bytes)[0] == '%';
    }
  }

  /** The query escaper is idempotent too. */
  lemma EscapeQueryIdempotent(query: string)
    ensures EscapeQuery(EscapeQuery(query)) == EscapeQuery(query)
  {
    if query == [] || query == "?" {
    } else if query[0] == '?' {
      var e := EscapeQuery(query);
      assert e[1..] == Escape(query[1..]);
      EscapeIdempotent(query[1..]);
      if e != "?" {
        assert EscapeQuery(e) == "?" + Escape(e[1..]);
      }
    } else {
      EscapeFirst(query);
      EscapeIdempotent(query);
      assert Escape(query) != "?";
    }
  }
}
