/** The IPv4 reading of a hostname used by the canonicalization: up to four
    dot-separated numbers in decimal, octal (leading 0) or hex (leading 0x),
    combined base 256 and printed as a dotted quad. Fewer than four parts are
    combined as they are, so "1.2" reads as 0.0.1.2, unlike `inet_aton`. */
module IPv4 {
  import opened Wrappers
  import opened Text

  const MaxAddress: int := 0xFFFF_FFFF

  // ---------------------------------------------------------------- parseInt

  /** The value of a digit in bases up to 36, as `parseInt` reads it. */
  function DigitVal(c: char): nat {
    if IsDigit(c) then c as int - '0' as int
    else if 'a' <= c <= 'z' then c as int - 'a' as int + 10
    else if 'A' <= c <= 'Z' then c as int - 'A' as int + 10
    else 36
  }

  /** The longest prefix made of digits of the radix. */
  function DigitPrefix(s: string, radix: nat): (r: string)
    ensures |r| <= |s| && r == s[..|r|]
    ensures forall i :: 0 <= i < |r| ==> DigitVal(r[i]) < radix
    ensures |r| < |s| ==> DigitVal(s[|r|]) >= radix
  {
    if s == [] || DigitVal(s[0]) >= radix then [] else [s[0]] + DigitPrefix(s[1..], radix)
  }

  function DigitsValue(digits: string, radix: nat): nat {
    if digits == [] then 0
    else DigitsValue(digits[..|digits| - 1], radix) * radix + DigitVal(digits[|digits| - 1])
  }

  /** `parseInt(s, radix)` for radix 8, 10 or 16: leading white space, an optional sign,
      a "0x" prefix in radix 16, then the longest run of digits; `None` is NaN. */
  function ParseInt(s: string, radix: nat): Option<int>
    requires radix == 8 || radix == 10 || radix == 16
  {
    var t := TrimStart(s);
    var negative := t != [] && t[0] == '-';
    var unsigned := if t != [] && (t[0] == '-' || t[0] == '+') then t[1..] else t;
    var body := if radix == 16 && |unsigned| >= 2 && unsigned[0] == '0' && (unsigned[1] == 'x' || unsigned[1] == 'X')
                then unsigned[2..] else unsigned;
    var digits := DigitPrefix(body, radix);
    if digits == [] then None
    else if negative then Some(0 - DigitsValue(digits, radix))
    else Some(DigitsValue(digits, radix))
  }

  // ---------------------------------------------------------------- the specification

  /** The base a part is read in: 16 after "0x" in either case, 8 after a leading 0, else 10. */
  function PartBase(part: string): nat {
    if |part| >= 2 && part[0] == '0' && (part[1] == 'x' || part[1] == 'X') then 16
    else if |part| > 1 && part[0] == '0' then 8
    else 10
  }

  /** The number a part stands for; `None` for an empty part, NaN or a negative value. */
  function PartValue(part: string): Option<nat> {
    if part == [] then None
    else
      var base := PartBase(part);
      match ParseInt(part, base)
      case None => None
      case Some(v) => if v < 0 then None else Some(v)
  }

  /** The numbers of all the parts, in order, or `None` if one of them has none. */
  function Values(parts: seq<string>): Option<seq<nat>> {
    ValuesWith(parts, PartValue)
  }

  /** `Values` over any reading of a part. */
  function ValuesWith(parts: seq<string>, read: string -> Option<nat>): Option<seq<nat>> {
    if parts == [] then Some([])
    else
      match ValuesWith(parts[..|parts| - 1], read)
      case None => None
      case Some(nums) =>
        match read(parts[|parts| - 1])
        case None => None
        case Some(v) => Some(nums + [v])
  }

  /** The numbers combined base 256. */
  function Combine(nums: seq<nat>): nat {
    if nums == [] then 0 else Combine(nums[..|nums| - 1]) * 256 + nums[|nums| - 1]
  }

  /** Four canonical decimal parts, each at most 255, separated by dots. */
  predicate CanonicalQuad(s: string) {
    CanonicalParts(Split(s, '.'))
  }

  /** The four bytes of an address, most significant first, as a dotted quad. */
  function Dotted(address: nat): (r: string)
    ensures CanonicalQuad(r)
  {
    BytesQuad(address / 0x100_0000 % 256, address / 0x1_0000 % 256, address / 0x100 % 256, address % 256);
    Join([NatToString(address / 0x100_0000 % 256), NatToString(address / 0x1_0000 % 256),
          NatToString(address / 0x100 % 256), NatToString(address % 256)], ".")
  }

  /** Four bytes printed in decimal and joined by dots make a canonical dotted quad. */
  lemma BytesQuad(a: nat, b: nat, c: nat, d: nat)
    requires a < 256 && b < 256 && c < 256 && d < 256
    ensures CanonicalQuad(Join([NatToString(a), NatToString(b), NatToString(c), NatToString(d)], "."))
  {
    var pa, pb, pc, pd := NatToString(a), NatToString(b), NatToString(c), NatToString(d);
    ByteCanonical(a);
    ByteCanonical(b);
    ByteCanonical(c);
    ByteCanonical(d);
    var parts := [pa, pb, pc, pd];
    assert parts[0] == pa && parts[1] == pb && parts[2] == pc && parts[3] == pd;
    CanonicalPartsJoined(parts);
  }

  /** Four canonical decimal parts, each at most 255. */
  predicate CanonicalParts(parts: seq<string>) {
    |parts| == 4 && forall i :: 0 <= i < 4 ==> IsCanonicalDecimal(parts[i]) && DecimalValue(parts[i]) <= 255
  }

  lemma ByteCanonical(n: nat)
    requires n < 256
    ensures IsCanonicalDecimal(NatToString(n)) && DecimalValue(NatToString(n)) <= 255
  {
    DecimalRoundTrip(n);
  }

  lemma CanonicalPartsJoined(parts: seq<string>)
    requires |parts| == 4
    requires IsCanonicalDecimal(parts[0]) && DecimalValue(parts[0]) <= 255
    requires IsCanonicalDecimal(parts[1]) && DecimalValue(parts[1]) <= 255
    requires IsCanonicalDecimal(parts[2]) && DecimalValue(parts[2]) <= 255
    requires IsCanonicalDecimal(parts[3]) && DecimalValue(parts[3]) <= 255
    ensures CanonicalQuad(Join(parts, "."))
  {
    assert CanonicalParts(parts);
    SplitJoin(parts, '.');
  }

  /** `parseIPv4`'s reading: what it returns is always a canonical dotted quad. */
  function ParseIPv4Spec(input: string): (r: Option<string>)
    ensures r.Some? ==> CanonicalQuad(r.value)
  {
    var parts := Split(input, '.');
    if |parts| > 4 then None
    else
      match Values(parts)
      case None => None
      case Some(nums) => if Combine(nums) > MaxAddress then None else Some(Dotted(Combine(nums)))
  }

  // ---------------------------------------------------------------- the loops

  /** `parseIPv4`: the loop that reads the parts, then the loop that combines them. */
  method ParseIPv4(input: string) returns (r: Option<string>)
    ensures r == ParseIPv4Spec(input)
  {
    var parts := Split(input, '.');
    if |parts| > 4 {
      return None;
    }
    var nums := ReadParts(parts);
    if nums.None? {
      return None;
    }
    var address := CombineNumbers(nums.value);
    if address.None? {
      return None;
    }
    r := Some(Dotted(address.value));
  }

  /** The first loop: each part read in its base, stopping at the first that has no number. */
  method ReadParts(parts: seq<string>) returns (r: Option<seq<nat>>)
    ensures r == Values(parts)
  {
    var nums: seq<nat> := [];
    var k := 0;
    while k < |parts|
      invariant 0 <= k <= |parts|
      invariant Values(parts[..k]) == Some(nums)
    {
      assert parts[..k + 1][..k] == parts[..k];
      var value := ReadPart(parts[k]);
      if value.None? {
        ValuesNoneExtends(parts, k + 1, PartValue);
        return None;
      }
      nums := nums + [value.value];
      k := k + 1;
    }
    assert parts[..k] == parts;
    r := Some(nums);
  }

  /** One part: empty, NaN and negative values have no number. */
  method ReadPart(part: string) returns (r: Option<nat>)
    ensures r == PartValue(part)
  {
    if part == [] {
      return None;
    }
    var base := PartBase(part);
    var value := ParseInt(part, base);
    if value.None? || value.value < 0 {
      return None;
    }
    r := Some(value.value);
  }

  /** The second loop: the numbers combined base 256, refused once a number or the total
      exceeds the largest address. */
  method CombineNumbers(nums: seq<nat>) returns (r: Option<nat>)
    ensures r == if Combine(nums) > MaxAddress then None else Some(Combine(nums))
  {
    var address := 0;
    var i := 0;
    while i < |nums|
      invariant 0 <= i <= |nums|
      invariant address == Combine(nums[..i])
    {
      if nums[i] > MaxAddress {
        CombineBoundsEach(nums, i);
        return None;
      }
      assert nums[..i + 1][..i] == nums[..i];
      address := address * 256 + nums[i];
      i := i + 1;
    }
    assert nums[..i] == nums;
    if address > MaxAddress {
      return None;
    }
    r := Some(address);
  }

  // ---------------------------------------------------------------- lemmas

  /** Once a part has no number, the parts as a whole have none. */
  lemma {:induction false} ValuesNoneExtends(parts: seq<string>, k: nat, read: string -> Option<nat>)
    requires k <= |parts| && ValuesWith(parts[..k], read) == None
    ensures ValuesWith(parts, read) == None
    decreases |parts| - k
  {
    if k < |parts| {
      assert parts[..k + 1][..k] == parts[..k];
      ValuesNoneExtends(parts, k + 1, read);
    } else {
      assert parts[..k] == parts;
    }
  }

  /** The combined value is at least every number scaled by its place: so one number
      above the maximum already puts the whole above it, and the check inside the
      combining loop never changes the result. */
  lemma {:induction false} CombineBoundsEach(nums: seq<nat>, i: nat)
    requires i < |nums|
    ensures Combine(nums) >= nums[i]
    decreases |nums|
  {
    var init := nums[..|nums| - 1];
    if i < |nums| - 1 {
      assert init[i] == nums[i];
      CombineBoundsEach(init, i);
    }
  }

  /** More than four parts never read as an address. */
  lemma TooManyParts(input: string)
    requires |Split(input, '.')| > 4
    ensures ParseIPv4Spec(input) == None
  {
  }

  /** An empty part, as in "1..2" or a trailing dot, never reads as an address. */
  lemma EmptyPartRejected(input: string, k: nat)
    requires k < |Split(input, '.')| && Split(input, '.')[k] == []
    ensures ParseIPv4Spec(input) == None
  {
    var parts := Split(input, '.');
    if |parts| <= 4 {
      assert parts[..k + 1][..k] == parts[..k];
      assert parts[..k + 1][k] == parts[k];
      assert Values(parts[..k + 1]) == None;
      ValuesNoneExtends(parts, k + 1, PartValue);
    }
  }

  /** A canonical decimal reads as its decimal value. */
  lemma {:induction false} DecimalPartValue(part: string)
    requires IsCanonicalDecimal(part)
    ensures PartValue(part) == Some(DecimalValue(part))
  {
    assert PartBase(part) == 10;
    assert TrimStart(part) == part;
    assert DigitPrefix(part, 10) == part by {
      DigitPrefixAll(part, 10);
    }
    DigitsDecimal(part);
  }

  lemma {:induction false} DigitPrefixAll(s: string, radix: nat)
    requires forall i :: 0 <= i < |s| ==> DigitVal(s[i]) < radix
    ensures DigitPrefix(s, radix) == s
  {
    if s != [] {
      DigitPrefixAll(s[1..], radix);
      assert s == [s[0]] + s[1..];
    }
  }

  lemma {:induction false} DigitsDecimal(s: string)
    requires forall i :: 0 <= i < |s| ==> IsDigit(s[i])
    ensures DigitsValue(s, 10) == DecimalValue(s)
  {
    if s != [] {
      DigitsDecimal(s[..|s| - 1]);
    }
  }

  /** Every part has the number at the same index. */
  predicate PartsRead(parts: seq<string>, nums: seq<nat>, read: string -> Option<nat>) {
    |parts| == |nums| && forall i :: 0 <= i < |parts| ==> read(parts[i]) == Some(nums[i])
  }

  /** When every part has a number, `ValuesWith` is the list of those numbers. */
  lemma {:induction false} ValuesAll(parts: seq<string>, nums: seq<nat>, read: string -> Option<nat>)
    requires PartsRead(parts, nums, read)
    ensures ValuesWith(parts, read) == Some(nums)
  {
    if parts != [] {
      var n := |parts| - 1;
      var init, last := nums[..n], nums[n];
      assert nums == init + [last];
      assert read(parts[n]) == Some(last);
      assert PartsRead(parts[..n], init, read) by {
        forall i | 0 <= i < n ensures read(parts[..n][i]) == Some(init[i]) {
          assert parts[..n][i] == parts[i];
        }
      }
      ValuesAll(parts[..n], init, read);
    }
  }

  lemma ValuesOfFour(parts: seq<string>)
    requires |parts| == 4
    requires IsCanonicalDecimal(parts[0]) && IsCanonicalDecimal(parts[1])
    requires IsCanonicalDecimal(parts[2]) && IsCanonicalDecimal(parts[3])
    ensures Values(parts) == Some([DecimalValue(parts[0]), DecimalValue(parts[1]), DecimalValue(parts[2]), DecimalValue(parts[3])])
  {
    DecimalPartValue(parts[0]);
    DecimalPartValue(parts[1]);
    DecimalPartValue(parts[2]);
    DecimalPartValue(parts[3]);
    var nums := [DecimalValue(parts[0]), DecimalValue(parts[1]), DecimalValue(parts[2]), DecimalValue(parts[3])];
    assert PartsRead(parts, nums, PartValue) by {
      forall i | 0 <= i < 4 ensures PartValue(parts[i]) == Some(nums[i]) {
        if i == 0 {} else if i == 1 {} else if i == 2 {} else {}
      }
    }
    ValuesAll(parts, nums, PartValue);
  }

  /** Four bytes combined base 256. */
  lemma CombineFour(a: nat, b: nat, c: nat, d: nat)
    ensures Combine([a, b, c, d]) == a * 0x100_0000 + b * 0x1_0000 + c * 0x100 + d
  {
    assert Combine([a]) == a by {
      assert [a][..0] == [];
    }
    assert Combine([a, b]) == a * 0x100 + b by {
      assert [a, b][..1] == [a];
    }
    assert Combine([a, b, c]) == a * 0x1_0000 + b * 0x100 + c by {
      assert [a, b, c][..2] == [a, b];
    }
    assert [a, b, c, d][..3] == [a, b, c];
  }

  /** The bytes of an address read back by the divisions `Dotted` does. */
  lemma ByteFields(v: nat, a: nat, b: nat, c: nat, d: nat)
    requires a < 256 && b < 256 && c < 256 && d < 256
    requires v == a * 0x100_0000 + b * 0x1_0000 + c * 0x100 + d
    ensures v <= MaxAddress
    ensures v / 0x100_0000 % 256 == a && v / 0x1_0000 % 256 == b && v / 0x100 % 256 == c && v % 256 == d
  {
    assert v / 0x100_0000 == a;
    assert v / 0x1_0000 == a * 0x100 + b;
    assert v / 0x100 == a * 0x1_0000 + b * 0x100 + c;
  }

  /** Four bytes combined base 256 come back out of `Dotted` one by one. */
  lemma BytesBack(a: nat, b: nat, c: nat, d: nat)
    requires a < 256 && b < 256 && c < 256 && d < 256
    ensures var v := Combine([a, b, c, d]);
            v <= MaxAddress &&
            v / 0x100_0000 % 256 == a && v / 0x1_0000 % 256 == b && v / 0x100 % 256 == c && v % 256 == d
  {
    CombineFour(a, b, c, d);
    ByteFields(Combine([a, b, c, d]), a, b, c, d);
  }

  /** Four canonical decimal parts, each at most 255, are returned exactly as they came. */
  lemma DottedQuadUnchanged(input: string)
    requires CanonicalQuad(input)
    ensures ParseIPv4Spec(input) == Some(input)
  {
    var parts := Split(input, '.');
    ValuesOfFour(parts);
    var a, b, c, d := DecimalValue(parts[0]), DecimalValue(parts[1]), DecimalValue(parts[2]), DecimalValue(parts[3]);
    DottedOfBytes(a, b, c, d);
    PartsPrinted(parts);
    JoinSplit(input, '.');
  }

  /** The dotted form of four combined bytes prints each byte. */
  lemma DottedOfBytes(a: nat, b: nat, c: nat, d: nat)
    requires a < 256 && b < 256 && c < 256 && d < 256
    ensures Combine([a, b, c, d]) <= MaxAddress
    ensures Dotted(Combine([a, b, c, d])) == Join([NatToString(a), NatToString(b), NatToString(c), NatToString(d)], ".")
  {
    BytesBack(a, b, c, d);
  }

  /** Canonical decimal parts print back as themselves. */
  lemma PartsPrinted(parts: seq<string>)
    requires |parts| == 4
    requires IsCanonicalDecimal(parts[0]) && IsCanonicalDecimal(parts[1])
    requires IsCanonicalDecimal(parts[2]) && IsCanonicalDecimal(parts[3])
    ensures [NatToString(DecimalValue(parts[0])), NatToString(DecimalValue(parts[1])),
             NatToString(DecimalValue(parts[2])), NatToString(DecimalValue(parts[3]))] == parts
  {
    CanonicalDecimalRoundTrip(parts[0]);
    CanonicalDecimalRoundTrip(parts[1]);
    CanonicalDecimalRoundTrip(parts[2]);
    CanonicalDecimalRoundTrip(parts[3]);
  }

  /** Every address the parser prints is read back unchanged: the output is a fixed point. */
  lemma ResultIsFixed(input: string)
    requires ParseIPv4Spec(input).Some?
    ensures var r := ParseIPv4Spec(input).value; ParseIPv4Spec(r) == Some(r)
  {
    var v := Combine(Values(Split(input, '.')).value);
    DottedFixed(v);
  }

  lemma DottedFixed(v: nat)
    ensures ParseIPv4Spec(Dotted(v)) == Some(Dotted(v))
  {
    DottedQuadUnchanged(Dotted(v));
  }

  /** Two parts are combined base 256 into the low bytes: "1.2" reads as "0.0.1.2". */
  lemma TwoPartsExample()
    ensures ParseIPv4Spec("1.2") == Some("0.0.1.2")
  {
    var parts := ["1", "2"];
    assert Join(parts, ".") == "1.2";
    SplitJoin(parts, '.');
    OneTwoValues();
    assert [1, 2][..1] == [1];
    assert Combine([1, 2]) == 258;
    DottedExample();
  }

  /** A number printed in decimal reads back as itself. */
  lemma NatPartValue(n: nat)
    ensures PartValue(NatToString(n)) == Some(n)
  {
    DecimalPartValue(NatToString(n));
    DecimalRoundTrip(n);
  }

  lemma OneTwoValues()
    ensures Values(["1", "2"]) == Some([1, 2])
  {
    assert NatToString(1) == "1" && NatToString(2) == "2";
    NatPartValue(1);
    NatPartValue(2);
    assert PartsRead(["1", "2"], [1, 2], PartValue);
    ValuesAll(["1", "2"], [1, 2], PartValue);
  }

  lemma DottedExample()
    ensures Dotted(258) == "0.0.1.2"
  {
    assert 258 / 0x100_0000 % 256 == 0 && 258 / 0x1_0000 % 256 == 0;
    assert 258 / 0x100 % 256 == 1 && 258 % 256 == 2;
    assert NatToString(0) == "0" && NatToString(1) == "1" && NatToString(2) == "2";
    var q := ["0", "0", "1", "2"];
    assert q[1..] == ["0", "1", "2"] && q[1..][1..] == ["1", "2"] && q[1..][1..][1..] == ["2"];
    assert Join(["2"], ".") == "2";
    assert Join(["1", "2"], ".") == "1.2";
    assert Join(["0", "1", "2"], ".") == "0.1.2";
  }
}
