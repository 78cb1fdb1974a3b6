/** The JavaScript string primitives the core relies on (`split`, `join`, `trim`,
    `toLowerCase`, `includes`, `startsWith`, `endsWith`, number formatting), written
    out over `seq<char>` so that the modules that use them can be proved about. */
module Text {

  // ---------------------------------------------------------------- characters

  predicate IsDigit(c: char) { '0' <= c <= '9' }
  predicate IsAsciiUpper(c: char) { 'A' <= c <= 'Z' }
  predicate IsAsciiLower(c: char) { 'a' <= c <= 'z' }
  predicate IsAsciiLetter(c: char) { IsAsciiUpper(c) || IsAsciiLower(c) }
  predicate IsAlnum(c: char) { IsAsciiLetter(c) || IsDigit(c) }
  predicate IsHexDigit(c: char) { IsDigit(c) || 'a' <= c <= 'f' || 'A' <= c <= 'F' }

  /** The `\w` class of a JavaScript regular expression. */
  predicate IsWordChar(c: char) { IsAlnum(c) || c == '_' }

  /** The characters `String.prototype.trim` and `\s` remove or match:
      ECMAScript WhiteSpace and LineTerminator. */
  predicate IsJsWhitespace(c: char) {
    c == '\t' || c == '\n' || c == '\U{000B}' || c == '\U{000C}' || c == '\r' || c == ' '
    || c == '\U{00A0}' || c == '\U{1680}' || ('\U{2000}' <= c <= '\U{200A}')
    || c == '\U{2028}' || c == '\U{2029}' || c == '\U{202F}' || c == '\U{205F}'
    || c == '\U{3000}' || c == '\U{FEFF}'
  }

  /** Line terminators, the characters the regular-expression `.` does not match. */
  predicate IsLineTerminator(c: char) {
    c == '\n' || c == '\r' || c == '\U{2028}' || c == '\U{2029}'
  }

  function LowerChar(c: char): (r: char)
    ensures !IsAsciiUpper(r)
    ensures IsAsciiUpper(c) ==> r as int == c as int + 32
    ensures !IsAsciiUpper(c) ==> r == c
  {
    if IsAsciiUpper(c) then (c as int + 32) as char else c
  }

  function UpperChar(c: char): (r: char)
    ensures !IsAsciiLower(r)
    ensures IsAsciiLower(c) ==> r as int == c as int - 32
    ensures !IsAsciiLower(c) ==> r == c
  {
    if IsAsciiLower(c) then (c as int - 32) as char else c
  }

  /** `toLowerCase`, on ASCII letters. */
  function Lower(s: string): (r: string)
    ensures |r| == |s|
    ensures forall i :: 0 <= i < |s| ==> r[i] == LowerChar(s[i])
  {
    seq(|s|, i requires 0 <= i < |s| => LowerChar(s[i]))
  }

  /** `toUpperCase`, on ASCII letters. */
  function Upper(s: string): (r: string)
    ensures |r| == |s|
    ensures forall i :: 0 <= i < |s| ==> r[i] == UpperChar(s[i])
  {
    seq(|s|, i requires 0 <= i < |s| => UpperChar(s[i]))
  }

  lemma LowerIdempotent(s: string)
    ensures Lower(Lower(s)) == Lower(s)
  {
  }

  // ---------------------------------------------------------------- substrings

  predicate StartsWith(s: string, prefix: string) {
    |prefix| <= |s| && s[..|prefix|] == prefix
  }

  predicate EndsWith(s: string, suffix: string) {
    |suffix| <= |s| && s[|s| - |suffix|..] == suffix
  }

  /** `sub` occurs in `s` at index `i`. */
  predicate OccursAt(s: string, sub: string, i: int) {
    0 <= i <= |s| - |sub| && s[i..i + |sub|] == sub
  }

  /** `s.includes(sub)`. */
  predicate Contains(s: string, sub: string) {
    exists i :: 0 <= i <= |s| - |sub| && OccursAt(s, sub, i)
  }

  lemma ContainsPrefix(s: string, sub: string, t: string)
    requires Contains(s, sub)
    ensures Contains(t + s, sub)
  {
    var i :| 0 <= i <= |s| - |sub| && OccursAt(s, sub, i);
    assert (t + s)[|t| + i..|t| + i + |sub|] == sub;
    assert OccursAt(t + s, sub, |t| + i);
  }

  // ---------------------------------------------------------------- strip one character

  /** `s.replace(/^c+/, "")` for a single character `c`: the run of `c` at the start is
      removed, and only it. */
  function DropLeading(s: string, c: char): (r: string)
    ensures |r| <= |s| && r == s[|s| - |r|..]
    ensures r == [] || r[0] != c
    ensures forall i :: 0 <= i < |s| - |r| ==> s[i] == c
  {
    if |s| > 0 && s[0] == c then DropLeading(s[1..], c) else s
  }

  /** `s.replace(/c+$/, "")` for a single character `c`: the run of `c` at the end is
      removed, and only it. */
  function DropTrailing(s: string, c: char): (r: string)
    ensures |r| <= |s| && r == s[..|r|]
    ensures r == [] || r[|r| - 1] != c
    ensures forall i :: |r| <= i < |s| ==> s[i] == c
  {
    if |s| > 0 && s[|s| - 1] == c then DropTrailing(s[..|s| - 1], c) else s
  }

  /** `s.replace(/\./g, '')`. */
  function RemoveDots(s: string): (r: string)
    ensures |r| <= |s|
    ensures forall c :: c in r <==> c in s && c != '.'
    ensures |s| == 1 ==> r == if s[0] == '.' then [] else s
  {
    if s == [] then []
    else if s[0] == '.' then RemoveDots(s[1..])
    else [s[0]] + RemoveDots(s[1..])
  }

  /** Removing the dots works piece by piece: from a concatenation it is the concatenation
      of the pieces without their dots. */
  lemma {:induction false} RemoveDotsConcat(a: string, b: string)
    ensures RemoveDots(a + b) == RemoveDots(a) + RemoveDots(b)
  {
    if a == [] {
      assert a + b == b;
    } else {
      assert (a + b)[1..] == a[1..] + b;
      RemoveDotsConcat(a[1..], b);
    }
  }

  // ---------------------------------------------------------------- trim

  function TrimStart(s: string): (r: string)
    ensures |r| <= |s| && r == s[|s| - |r|..]
    ensures r == [] || !IsJsWhitespace(r[0])
    ensures forall i :: 0 <= i < |s| - |r| ==> IsJsWhitespace(s[i])
  {
    if |s| > 0 && IsJsWhitespace(s[0]) then TrimStart(s[1..]) else s
  }

  function TrimEnd(s: string): (r: string)
    ensures |r| <= |s| && r == s[..|r|]
    ensures r == [] || !IsJsWhitespace(r[|r| - 1])
    ensures forall i :: |r| <= i < |s| ==> IsJsWhitespace(s[i])
  {
    if |s| > 0 && IsJsWhitespace(s[|s| - 1]) then TrimEnd(s[..|s| - 1]) else s
  }

  /** `String.prototype.trim`. */
  function Trim(s: string): (r: string)
    ensures r == [] || (!IsJsWhitespace(r[0]) && !IsJsWhitespace(r[|r| - 1]))
  {
    TrimEnd(TrimStart(s))
  }

  /** `r` is the part of `s` that starts at `lead`, and everything before it and after it
      is white space. */
  predicate WhitespaceAround(s: string, r: string, lead: int) {
    0 <= lead && lead + |r| <= |s| && r == s[lead..lead + |r|] &&
    (forall i :: 0 <= i < lead ==> IsJsWhitespace(s[i])) &&
    (forall i :: lead + |r| <= i < |s| ==> IsJsWhitespace(s[i]))
  }

  /** The trimmed text is the part of the text between its leading and its trailing white
      space. */
  lemma TrimInfix(s: string)
    ensures WhitespaceAround(s, Trim(s), |s| - |TrimStart(s)|)
  {
    var t := TrimStart(s);
    var r := TrimEnd(t);
    var lead := |s| - |t|;
    StripBothEnds(s, t, r);
    assert WhitespaceAround(s, r, lead);
    assert Trim(s) == r;
  }

  lemma StripBothEnds(s: string, t: string, r: string)
    requires |t| <= |s| && t == s[|s| - |t|..]
    requires forall i :: 0 <= i < |s| - |t| ==> IsJsWhitespace(s[i])
    requires |r| <= |t| && r == t[..|r|]
    requires forall i :: |r| <= i < |t| ==> IsJsWhitespace(t[i])
    ensures WhitespaceAround(s, r, |s| - |t|)
  {
    var lead := |s| - |t|;
    forall i | lead + |r| <= i < |s| ensures IsJsWhitespace(s[i]) {
      assert s[i] == t[i - lead];
    }
  }

  /** A string with no white space at either end is its own trim. */
  lemma TrimOfTrimmed(s: string)
    requires s == [] || (!IsJsWhitespace(s[0]) && !IsJsWhitespace(s[|s| - 1]))
    ensures Trim(s) == s
  {
  }

  lemma TrimIdempotent(s: string)
    ensures Trim(Trim(s)) == Trim(s)
  {
    TrimOfTrimmed(Trim(s));
  }

  /** A string that is entirely white space (or empty) trims to the empty string, and only such a string does. */
  lemma TrimEmptyIff(s: string)
    ensures Trim(s) == [] <==> forall i :: 0 <= i < |s| ==> IsJsWhitespace(s[i])
  {
    if forall i :: 0 <= i < |s| ==> IsJsWhitespace(s[i]) {
      AllWhitespaceTrimStart(s);
    }
  }

  lemma {:induction false} AllWhitespaceTrimStart(s: string)
    requires forall i :: 0 <= i < |s| ==> IsJsWhitespace(s[i])
    ensures TrimStart(s) == []
  {
    if |s| > 0 {
      AllWhitespaceTrimStart(s[1..]);
    }
  }

  // ---------------------------------------------------------------- split and join

  /** `s.split(sep)` for a one-character separator: never empty, one part more than
      there are separators, and no part holds the separator. */
  function Split(s: string, sep: char): (parts: seq<string>)
    ensures |parts| >= 1
    ensures forall i :: 0 <= i < |parts| ==> sep !in parts[i]
  {
    if |s| == 0 then [""]
    else if s[0] == sep then [""] + Split(s[1..], sep)
    else
      var rest := Split(s[1..], sep);
      [[s[0]] + rest[0]] + rest[1..]
  }

  /** `parts.join(sep)`. */
  function Join(parts: seq<string>, sep: string): string {
    if |parts| == 0 then ""
    else if |parts| == 1 then parts[0]
    else parts[0] + sep + Join(parts[1..], sep)
  }

  lemma JoinAppend(parts: seq<string>, last: string, sep: string)
    requires |parts| >= 1
    ensures Join(parts + [last], sep) == Join(parts, sep) + sep + last
  {
    if |parts| == 1 {
    } else {
      assert (parts + [last])[1..] == parts[1..] + [last];
      JoinAppend(parts[1..], last, sep);
    }
  }

  /** Joining two non-empty lists is joining each and putting one separator between. */
  lemma {:induction false} JoinConcat(a: seq<string>, b: seq<string>, sep: string)
    requires |a| >= 1 && |b| >= 1
    ensures Join(a + b, sep) == Join(a, sep) + sep + Join(b, sep)
  {
    if |a| > 1 {
      assert (a + b)[1..] == a[1..] + b;
      JoinConcat(a[1..], b, sep);
    }
  }

  /** Joining the parts of a split gives the string back. */
  lemma {:induction false} JoinSplit(s: string, sep: char)
    ensures Join(Split(s, sep), [sep]) == s
  {
    if |s| == 0 {
    } else if s[0] == sep {
      JoinSplit(s[1..], sep);
    } else {
      JoinSplit(s[1..], sep);
    }
  }

  lemma {:induction false} SplitWithoutSep(p: string, sep: char)
    requires sep !in p
    ensures Split(p, sep) == [p]
  {
    if |p| > 0 {
      assert p[0] in p;
      SplitWithoutSep(p[1..], sep);
      assert [p[0]] + p[1..] == p;
    }
  }

  lemma {:induction false} SplitAfterPart(p: string, sep: char, x: string)
    requires sep !in p
    ensures Split(p + [sep] + x, sep) == [p] + Split(x, sep)
  {
    if |p| == 0 {
      assert p + [sep] + x == [sep] + x;
      assert ([sep] + x)[1..] == x;
    } else {
      assert p[0] in p;
      assert (p + [sep] + x)[0] == p[0];
      assert (p + [sep] + x)[1..] == p[1..] + [sep] + x;
      SplitAfterPart(p[1..], sep, x);
      assert [p[0]] + p[1..] == p;
    }
  }

  /** Splitting the join of separator-free parts gives the parts back. */
  lemma {:induction false} SplitJoin(parts: seq<string>, sep: char)
    requires |parts| >= 1
    requires forall i :: 0 <= i < |parts| ==> sep !in parts[i]
    ensures Split(Join(parts, [sep]), sep) == parts
  {
    if |parts| == 1 {
      SplitWithoutSep(parts[0], sep);
    } else {
      SplitJoin(parts[1..], sep);
      SplitAfterPart(parts[0], sep, Join(parts[1..], [sep]));
    }
  }

  lemma {:induction false} SplitPrependSep(s: string, sep: char)
    ensures Split([sep] + s, sep) == [""] + Split(s, sep)
  {
    assert ([sep] + s)[1..] == s;
  }

  // ---------------------------------------------------------------- runs of one character

  /** The text holds no two `sep` in a row. */
  predicate NoRun(s: string, sep: char) {
    forall i :: 0 <= i < |s| - 1 ==> !(s[i] == sep && s[i + 1] == sep)
  }

  /** `s.replace(/x{2,}/g, x)` for the character `sep`: no two `sep` in a row remain, and
      the first and last characters stay. `CollapseFields` shows that only empty fields
      between separators go. */
  function CollapseRuns(s: string, sep: char): (r: string)
    ensures |r| <= |s|
    ensures NoRun(r, sep)
    ensures s != [] ==> r != [] && r[0] == s[0] && r[|r| - 1] == s[|s| - 1]
  {
    if |s| >= 2 && s[0] == sep && s[1] == sep then CollapseRuns(s[1..], sep)
    else if s == [] then []
    else [s[0]] + CollapseRuns(s[1..], sep)
  }

  /** When the first character is not the first of two separators, it is kept. */
  lemma CollapseKept(s: string, sep: char)
    requires s != [] && !(|s| >= 2 && s[0] == sep && s[1] == sep)
    ensures CollapseRuns(s, sep) == [s[0]] + CollapseRuns(s[1..], sep)
    ensures s == [s[0]] + s[1..]
  {
  }

  /** A text without two separators in a row is left alone. */
  lemma {:induction false} CollapseNoRun(s: string, sep: char)
    requires NoRun(s, sep)
    ensures CollapseRuns(s, sep) == s
    decreases |s|
  {
    if s != [] {
      assert !(|s| >= 2 && s[0] == sep && s[1] == sep);
      var rest := s[1..];
      forall i | 0 <= i < |rest| - 1 ensures !(rest[i] == sep && rest[i + 1] == sep) {
        assert rest[i] == s[i + 1] && rest[i + 1] == s[i + 2];
      }
      CollapseNoRun(rest, sep);
      assert s == [s[0]] + rest;
    }
  }

  /** The parts that are not empty, in their order. */
  function NonEmptyParts(parts: seq<string>): (r: seq<string>)
    ensures |r| <= |parts|
    ensures forall i :: 0 <= i < |r| ==> r[i] != []
  {
    if parts == [] then []
    else (if parts[0] == [] then [] else [parts[0]]) + NonEmptyParts(parts[1..])
  }

  lemma {:induction false} NonEmptyPartsConcat(a: seq<string>, b: seq<string>)
    ensures NonEmptyParts(a + b) == NonEmptyParts(a) + NonEmptyParts(b)
  {
    if a == [] {
      assert a + b == b;
    } else {
      assert (a + b)[0] == a[0] && (a + b)[1..] == a[1..] + b;
      NonEmptyPartsConcat(a[1..], b);
    }
  }

  lemma {:induction false} NonEmptyPartsOfNonEmpty(parts: seq<string>)
    requires forall i :: 0 <= i < |parts| ==> parts[i] != []
    ensures NonEmptyParts(parts) == parts
  {
    if parts != [] {
      NonEmptyPartsOfNonEmpty(parts[1..]);
    }
  }

  /** A trailing separator adds one empty part at the end. */
  lemma {:induction false} SplitAppendSep(x: string, sep: char)
    ensures Split(x + [sep], sep) == Split(x, sep) + [""]
  {
    if x == [] {
      assert x + [sep] == [sep];
      SplitPrependSep([], sep);
    } else {
      assert (x + [sep])[0] == x[0] && (x + [sep])[1..] == x[1..] + [sep];
      SplitAppendSep(x[1..], sep);
    }
  }

  /** The parts of a text that starts with a given character. */
  lemma SplitCons(c: char, t: string, sep: char)
    ensures c == sep ==> Split([c] + t, sep) == [""] + Split(t, sep)
    ensures c != sep ==> Split([c] + t, sep) == [[c] + Split(t, sep)[0]] + Split(t, sep)[1..]
  {
    assert ([c] + t)[0] == c && ([c] + t)[1..] == t;
  }

  lemma NonEmptyPartsCons(x: string, rest: seq<string>)
    ensures NonEmptyParts([x] + rest) == (if x == [] then [] else [x]) + NonEmptyParts(rest)
  {
    assert ([x] + rest)[0] == x && ([x] + rest)[1..] == rest;
  }

  /** Two part lists with the same first part and the same non-empty parts still have the
      same non-empty parts once one text is put in front of both first parts. */
  lemma {:induction false} ExtendFirstPart(c: char, a: seq<string>, b: seq<string>)
    requires |a| >= 1 && |b| >= 1 && a[0] == b[0]
    requires NonEmptyParts(a) == NonEmptyParts(b)
    ensures NonEmptyParts([[c] + a[0]] + a[1..]) == NonEmptyParts([[c] + b[0]] + b[1..])
  {
    NonEmptyPartsCons(a[0], a[1..]);
    NonEmptyPartsCons(b[0], b[1..]);
    assert a == [a[0]] + a[1..] && b == [b[0]] + b[1..];
    var head := if a[0] == [] then [] else [a[0]];
    assert NonEmptyParts(a[1..]) == (head + NonEmptyParts(a[1..]))[|head|..];
    assert NonEmptyParts(b[1..]) == (head + NonEmptyParts(b[1..]))[|head|..];
    NonEmptyPartsCons([c] + a[0], a[1..]);
    NonEmptyPartsCons([c] + b[0], b[1..]);
  }

  /** `a` and `b`, split at `sep`, have the same first field and the same non-empty fields. */
  predicate SameFields(a: string, b: string, sep: char) {
    Split(a, sep)[0] == Split(b, sep)[0] && NonEmptyParts(Split(a, sep)) == NonEmptyParts(Split(b, sep))
  }

  /** Collapsing runs of the separator keeps the first field and drops only empty fields:
      every other character stays, in order. */
  lemma {:induction false} CollapseFields(s: string, sep: char)
    ensures SameFields(CollapseRuns(s, sep), s, sep)
  {
    if |s| >= 2 && s[0] == sep && s[1] == sep {
      CollapseFields(s[1..], sep);
      CollapseDroppedSep(s, sep);
    } else if s != [] {
      CollapseFields(s[1..], sep);
      CollapseKept(s, sep);
      ConsFields(s[0], CollapseRuns(s[1..], sep), s[1..], sep);
    }
  }

  /** The step of `CollapseFields` where the first of two separators is dropped: a
      separator in front of a text that starts with one only adds an empty field. */
  lemma CollapseDroppedSep(s: string, sep: char)
    requires |s| >= 2 && s[0] == sep && s[1] == sep
    ensures SameFields(s[1..], s, sep)
  {
    var t := s[1..];
    assert s == [s[0]] + t && t == [t[0]] + t[1..];
    SplitCons(s[0], t, sep);
    SplitCons(t[0], t[1..], sep);
    NonEmptyPartsCons("", Split(t, sep));
  }

  /** The step of `CollapseFields` where the first character is kept: putting the same
      character in front of two texts keeps their fields alike. */
  lemma ConsFields(c: char, r: string, t: string, sep: char)
    requires SameFields(r, t, sep)
    ensures SameFields([c] + r, [c] + t, sep)
  {
    SplitCons(c, t, sep);
    SplitCons(c, r, sep);
    if c == sep {
      NonEmptyPartsCons("", Split(t, sep));
      NonEmptyPartsCons("", Split(r, sep));
    } else {
      ExtendFirstPart(c, Split(r, sep), Split(t, sep));
    }
  }

  // ---------------------------------------------------------------- numbers

  function DigitChar(d: nat): (c: char)
    requires d < 10
    ensures IsDigit(c)
  {
    ('0' as int + d) as char
  }

  /** The decimal form of a natural number, as JavaScript's `String(n)` prints an integer. */
  function NatToString(n: nat): (r: string)
    ensures |r| >= 1
    ensures forall i :: 0 <= i < |r| ==> IsDigit(r[i])
    ensures |r| > 1 ==> r[0] != '0'
  {
    if n < 10 then [DigitChar(n)] else NatToString(n / 10) + [DigitChar(n % 10)]
  }

  function IntToString(n: int): string {
    if n < 0 then "-" + NatToString(-n) else NatToString(n)
  }

  function DigitValue(c: char): (d: nat)
    requires IsDigit(c)
    ensures d < 10 && DigitChar(d) == c
  {
    c as int - '0' as int
  }

  /** The value of a string of decimal digits. */
  function DecimalValue(s: string): nat
    requires forall i :: 0 <= i < |s| ==> IsDigit(s[i])
  {
    if |s| == 0 then 0 else 10 * DecimalValue(s[..|s| - 1]) + DigitValue(s[|s| - 1])
  }

  /** A canonical decimal: digits only, no leading zero unless it is "0". */
  predicate IsCanonicalDecimal(s: string) {
    |s| >= 1 && (forall i :: 0 <= i < |s| ==> IsDigit(s[i])) && (|s| > 1 ==> s[0] != '0')
  }

  /** Printing and reading back a decimal agree, in both directions. */
  lemma {:induction false} DecimalRoundTrip(n: nat)
    ensures DecimalValue(NatToString(n)) == n
  {
    if n >= 10 {
      var s := NatToString(n);
      assert s[..|s| - 1] == NatToString(n / 10);
      DecimalRoundTrip(n / 10);
    }
  }

  lemma {:induction false} CanonicalDecimalRoundTrip(s: string)
    requires IsCanonicalDecimal(s)
    ensures NatToString(DecimalValue(s)) == s
  {
    if |s| > 1 {
      var init := s[..|s| - 1];
      assert init[0] == s[0];
      DecimalPositive(init);
      CanonicalDecimalRoundTrip(init);
      var v := DecimalValue(s);
      assert v / 10 == DecimalValue(init) && v % 10 == DigitValue(s[|s| - 1]);
      assert s == init + [s[|s| - 1]];
    }
  }

  lemma {:induction false} DecimalPositive(s: string)
    requires |s| >= 1 && (forall i :: 0 <= i < |s| ==> IsDigit(s[i])) && s[0] != '0'
    ensures DecimalValue(s) >= 1
  {
    if |s| > 1 {
      var init := s[..|s| - 1];
      assert init[0] == s[0];
      DecimalPositive(init);
    }
  }
}
