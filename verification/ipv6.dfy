/** IPv6 hostname normalization: the IPv4-mapped and NAT64 forms are read as
    dotted quads, every other address goes through the URL parser's serializer
    and then through the zero-run compression of section 4.2 of RFC 5952:
    leading zeros dropped from every group, and the first longest run of two or
    more zero groups written as "::". */
module IPv6 {
  import opened Wrappers
  import opened Text
  import IPv4

  // ---------------------------------------------------------------- groups

  /** `p.replace(/^0+/, "") || "0"`: never empty, and no leading zero unless it is "0". */
  function StripZeros(p: string): (r: string)
    ensures r != [] && (r == "0" || r[0] != '0')
    ensures ':' !in p ==> ':' !in r
  {
    var t := DropLeading(p, '0');
    if t == [] then "0" else t
  }

  /** The groups of an address: split at ':' and stripped of leading zeros. */
  function Groups(address: string): (g: seq<string>)
    ensures |g| == |Split(address, ':')| >= 1
    ensures forall i :: 0 <= i < |g| ==> g[i] != [] && ':' !in g[i]
  {
    Canon(Split(address, ':'))
  }

  /** Every group stripped of its leading zeros. */
  function Canon(groups: seq<string>): (g: seq<string>)
    ensures |g| == |groups|
    ensures forall k :: 0 <= k < |g| ==> g[k] == StripZeros(groups[k])
  {
    seq(|groups|, k requires 0 <= k < |groups| => StripZeros(groups[k]))
  }

  // ---------------------------------------------------------------- the longest zero run

  /** Groups `s` to `s + l` are all "0". */
  predicate ZeroRun(parts: seq<string>, s: int, l: int) {
    0 <= s && 0 <= l && s + l <= |parts| && forall k :: s <= k < s + l ==> parts[k] == "0"
  }

  /** Group `k` exists and is "0". */
  predicate ZeroAt(parts: seq<string>, k: int) {
    0 <= k < |parts| && parts[k] == "0"
  }

  /** `start`/`len` is the first of the longest runs of "0" groups, or -1/0 when there is none. */
  ghost predicate LongestFirstRun(parts: seq<string>, start: int, len: int) {
    if len == 0 then start == -1 && forall k :: 0 <= k < |parts| ==> parts[k] != "0"
    else
      len > 0 && ZeroRun(parts, start, len) &&
      (forall s, l :: ZeroRun(parts, s, l) ==> l <= len) &&
      (forall s :: 0 <= s < start ==> !ZeroRun(parts, s, len))
  }

  /** The number of "0" groups from `s` on, up to the first other group. */
  function ZeroRunLen(parts: seq<string>, s: nat): (l: nat)
    requires s <= |parts|
    ensures s + l <= |parts|
    decreases |parts| - s
  {
    if s == |parts| || parts[s] != "0" then 0 else 1 + ZeroRunLen(parts, s + 1)
  }

  /** A reference definition of the run: the first start, from `s` on, whose run is longest. */
  function BestFrom(parts: seq<string>, s: nat): (r: (int, nat))
    requires s <= |parts|
    ensures r.1 == 0 ==> r.0 == -1
    ensures r.1 > 0 ==> s <= r.0 && r.0 + r.1 <= |parts|
    decreases |parts| - s
  {
    if s == |parts| then (-1, 0)
    else
      var best := BestFrom(parts, s + 1);
      var l := ZeroRunLen(parts, s);
      if l > 0 && l >= best.1 then (s, l) else best
  }

  function BestRun(parts: seq<string>): (r: (int, nat))
    ensures r.1 == 0 ==> r.0 == -1
    ensures r.1 > 0 ==> 0 <= r.0 && r.0 + r.1 <= |parts|
  {
    BestFrom(parts, 0)
  }

  /** `ZeroRunLen` is the length of the maximal run starting at `s`. */
  lemma {:induction false} ZeroRunLenMaximal(parts: seq<string>, s: nat)
    requires s <= |parts|
    ensures ZeroRun(parts, s, ZeroRunLen(parts, s))
    ensures forall l :: ZeroRun(parts, s, l) ==> l <= ZeroRunLen(parts, s)
    decreases |parts| - s
  {
    if s < |parts| && parts[s] == "0" {
      ZeroRunLenMaximal(parts, s + 1);
      forall l | ZeroRun(parts, s, l) ensures l <= ZeroRunLen(parts, s) {
        if l > 0 {
          assert ZeroRun(parts, s + 1, l - 1);
        }
      }
    }
  }

  /** What `BestFrom(parts, s)` promises about the runs that start at `s` or later. */
  ghost predicate BestAmongFrom(parts: seq<string>, s: nat, start: int, len: int) {
    if len == 0 then start == -1 && forall k :: s <= k < |parts| ==> parts[k] != "0"
    else
      len > 0 && s <= start && ZeroRun(parts, start, len) &&
      (forall s', l :: s <= s' && ZeroRun(parts, s', l) ==> l <= len) &&
      (forall s' :: s <= s' < start ==> !ZeroRun(parts, s', len))
  }

  lemma {:induction false} BestFromCorrect(parts: seq<string>, s: nat)
    requires s <= |parts|
    ensures BestAmongFrom(parts, s, BestFrom(parts, s).0, BestFrom(parts, s).1)
    decreases |parts| - s
  {
    if s < |parts| {
      BestFromCorrect(parts, s + 1);
      ZeroRunLenMaximal(parts, s);
      var best := BestFrom(parts, s + 1);
      var l := ZeroRunLen(parts, s);
      if l > 0 && l >= best.1 {
        forall s', l' | s <= s' && ZeroRun(parts, s', l') ensures l' <= l {
          if s' > s && l' > 0 {
            assert BestAmongFrom(parts, s + 1, best.0, best.1);
            assert parts[s'] == "0";
          }
        }
      } else if l == 0 {
        assert parts[s] != "0";
      } else {
        assert l < best.1;
        forall s', l' | s <= s' && ZeroRun(parts, s', l') ensures l' <= best.1 {
          if s' == s {
            assert l' <= l;
          }
        }
      }
    }
  }

  /** The reference run is the first of the longest runs. */
  lemma BestRunIsLongestFirst(parts: seq<string>)
    ensures LongestFirstRun(parts, BestRun(parts).0, BestRun(parts).1)
  {
    BestFromCorrect(parts, 0);
  }

  /** There is only one first longest run. */
  lemma LongestFirstUnique(parts: seq<string>, s1: int, l1: int, s2: int, l2: int)
    requires LongestFirstRun(parts, s1, l1) && LongestFirstRun(parts, s2, l2)
    ensures s1 == s2 && l1 == l2
  {
    if l1 != 0 {
      assert parts[s1] == "0";
    }
    if l2 != 0 {
      assert parts[s2] == "0";
    }
  }

  /** The scan of `compressIPv6` over the groups, one past the end so the last run closes. */
  method FindZeroRun(parts: seq<string>) returns (bestStart: int, bestLen: int)
    ensures LongestFirstRun(parts, bestStart, bestLen)
    ensures (bestStart, bestLen) == BestRun(parts)
  {
    bestStart, bestLen := -1, 0;
    var curStart, curLen := -1, 0;
    var i := 0;
    while i <= |parts|
      invariant 0 <= i <= |parts| + 1
      invariant 0 <= curLen <= i && (curLen > 0 ==> i <= |parts| && ZeroRun(parts, i - curLen, curLen))
      invariant curStart == if curLen > 0 then i - curLen else -1
      invariant 0 < i - curLen <= |parts| ==> parts[i - curLen - 1] != "0"
      invariant i == |parts| + 1 ==> curLen == 0
      invariant bestLen == 0 ==> bestStart == -1
      invariant bestLen > 0 ==> ZeroRun(parts, bestStart, bestLen) && bestStart + bestLen <= i - curLen
      invariant forall s, l :: ZeroRun(parts, s, l) && s + l <= i && s < i - curLen ==> l <= bestLen
      invariant bestLen > 0 ==> forall s :: 0 <= s < bestStart ==> !ZeroRun(parts, s, bestLen)
    {
      if i < |parts| && parts[i] == "0" {
        if curStart == -1 {
          curStart := i;
        }
        curLen := curLen + 1;
        ExtendRun(parts, i, curLen - 1, bestLen);
      } else {
        CloseRun(parts, i, curLen, bestStart, bestLen);
        if curLen > bestLen {
          bestStart := curStart;
          bestLen := curLen;
        }
        curStart := -1;
        curLen := 0;
      }
      i := i + 1;
    }
    if bestLen == 0 {
      forall k | 0 <= k < |parts| ensures parts[k] != "0" {
        assert !ZeroRun(parts, k, 1);
      }
    }
    BestRunIsLongestFirst(parts);
    LongestFirstUnique(parts, bestStart, bestLen, BestRun(parts).0, BestRun(parts).1);
  }

  /** A "0" group at `i` extends the current run: the runs that started before it are unchanged. */
  lemma ExtendRun(parts: seq<string>, i: int, curLen: int, bestLen: int)
    requires 0 <= curLen <= i < |parts| && parts[i] == "0"
    requires 0 < i - curLen ==> parts[i - curLen - 1] != "0"
    requires forall s, l :: ZeroRun(parts, s, l) && s + l <= i && s < i - curLen ==> l <= bestLen
    ensures forall s, l :: ZeroRun(parts, s, l) && s + l <= i + 1 && s < i - curLen ==> l <= bestLen
  {
    forall s, l | ZeroRun(parts, s, l) && s + l <= i + 1 && s < i - curLen ensures l <= bestLen {
      assert s + l == i + 1 ==> ZeroAt(parts, i - curLen - 1);
    }
  }

  /** Another group, or the end, at `i` closes the current run. */
  lemma CloseRun(parts: seq<string>, i: int, curLen: int, bestStart: int, bestLen: int)
    requires 0 <= curLen <= i <= |parts| && (i < |parts| ==> parts[i] != "0")
    requires curLen > 0 ==> ZeroRun(parts, i - curLen, curLen)
    requires 0 < i - curLen ==> parts[i - curLen - 1] != "0"
    requires forall s, l :: ZeroRun(parts, s, l) && s + l <= i && s < i - curLen ==> l <= bestLen
    requires bestLen > 0 ==> forall s :: 0 <= s < bestStart ==> !ZeroRun(parts, s, bestLen)
    ensures forall s, l :: ZeroRun(parts, s, l) && s + l <= i + 1 ==> l <= bestLen || l <= curLen
    ensures curLen > bestLen ==> forall s :: 0 <= s < i - curLen ==> !ZeroRun(parts, s, curLen)
  {
    forall s, l | ZeroRun(parts, s, l) && s + l <= i + 1 ensures l <= bestLen || l <= curLen {
      assert s + l == i + 1 && l > 0 ==> ZeroAt(parts, i);
      assert s < i - curLen < s + l ==> ZeroAt(parts, i - curLen - 1);
    }
    if curLen > bestLen {
      forall s | 0 <= s < i - curLen ensures !ZeroRun(parts, s, curLen) {
        assert ZeroRun(parts, s, curLen) && s + curLen > i - curLen ==> ZeroAt(parts, i - curLen - 1);
      }
    }
  }

  // ---------------------------------------------------------------- rendering

  /** No "::" anywhere in the text. */
  predicate NoDoubleColon(s: string) {
    forall i :: 0 <= i < |s| - 1 ==> !(s[i] == ':' && s[i + 1] == ':')
  }

  /** No ":::" anywhere in the text. */
  predicate NoTripleColon(s: string) {
    forall i :: 0 <= i < |s| - 2 ==> !(s[i] == ':' && s[i + 1] == ':' && s[i + 2] == ':')
  }

  function DropColons(s: string): (r: string)
    ensures |r| <= |s|
  {
    if s != [] && s[0] == ':' then DropColons(s[1..]) else s
  }

  /** `s.replace(/:{3,}/, "::")`: the first run of three or more colons becomes "::". */
  function CollapseColons(s: string): string {
    if |s| < 3 then s
    else if s[0] == ':' && s[1] == ':' && s[2] == ':' then "::" + DropColons(s[3..])
    else [s[0]] + CollapseColons(s[1..])
  }

  /** The groups after `splice(start, len, "")` and, at either end, the extra empty group. */
  function Spliced(parts: seq<string>, start: int, len: int): seq<string>
    requires len > 1 ==> 0 <= start && start + len <= |parts|
  {
    if len > 1 then
      var mid := parts[..start] + [""] + parts[start + len..];
      var front := if start == 0 then [""] + mid else mid;
      if start + len == 8 then front + [""] else front
    else parts
  }

  function Render(parts: seq<string>, start: int, len: int): string
    requires len > 1 ==> 0 <= start && start + len <= |parts|
  {
    CollapseColons(Join(Spliced(parts, start, len), ":"))
  }

  /** `compressIPv6` as written, over the text it is given. Handed an address written out
      in eight groups, its output reads back as those groups. */
  function CompressSpec(address: string): (r: string)
    ensures |Split(address, ':')| == 8 ==> Expand(r) == Groups(address)
  {
    var g := Groups(address);
    ExpandRender(g);
    var run := BestRun(g);
    Render(g, run.0, run.1)
  }

  /** `compressIPv6`: the scan for the run, then the splice and the join. */
  method CompressIPv6(address: string) returns (r: string)
    ensures r == CompressSpec(address)
  {
    var parts := Groups(address);
    var bestStart, bestLen := FindZeroRun(parts);
    if bestLen > 1 {
      parts := parts[..bestStart] + [""] + parts[bestStart + bestLen..];
      if bestStart == 0 {
        parts := [""] + parts;
      }
      if bestStart + bestLen == 8 {
        parts := parts + [""];
      }
    }
    r := CollapseColons(Join(parts, ":"));
  }

  /** Text without ":::" is left alone by the collapsing replace. */
  lemma {:induction false} NoTripleUnchanged(s: string)
    requires NoTripleColon(s)
    ensures CollapseColons(s) == s
    decreases |s|
  {
    if |s| >= 3 {
      assert !(s[0] == ':' && s[1] == ':' && s[2] == ':');
      var rest := s[1..];
      forall i | 0 <= i < |rest| - 2 ensures !(rest[i] == ':' && rest[i + 1] == ':' && rest[i + 2] == ':') {
        assert rest[i] == s[i + 1] && rest[i + 1] == s[i + 2] && rest[i + 2] == s[i + 3];
      }
      NoTripleUnchanged(rest);
      assert s == [s[0]] + rest;
    }
  }

  /** Non-empty colon-free groups joined by single colons: no "::", and no colon at either end. */
  lemma {:induction false} JoinNoDoubleColon(parts: seq<string>)
    requires |parts| >= 1
    requires forall i :: 0 <= i < |parts| ==> parts[i] != [] && ':' !in parts[i]
    ensures var s := Join(parts, ":"); s != [] && s[0] != ':' && s[|s| - 1] != ':' && NoDoubleColon(s)
    decreases |parts|
  {
    var h := parts[0];
    assert h[0] in h && h[|h| - 1] in h;
    if |parts| > 1 {
      var rest := parts[1..];
      assert forall i :: 0 <= i < |rest| ==> rest[i] == parts[i + 1];
      JoinNoDoubleColon(rest);
      var t := Join(rest, ":");
      var s := Join(parts, ":");
      assert s == h + ":" + t;
      assert t[|t| - 1] == s[|s| - 1];
      forall i | 0 <= i < |s| - 1 ensures !(s[i] == ':' && s[i + 1] == ':') {
        if i < |h| {
          assert s[i] == h[i] && h[i] in h;
        } else if i == |h| {
          assert s[i + 1] == t[0];
        } else {
          assert s[i] == t[i - |h| - 1] && s[i + 1] == t[i - |h|];
        }
      }
    } else {
      forall i | 0 <= i < |h| - 1 ensures !(h[i] == ':' && h[i + 1] == ':') {
        assert h[i] in h;
      }
    }
  }

  /** Groups fit for rendering: none empty, none holding a colon. */
  predicate PlainGroups(parts: seq<string>) {
    forall i :: 0 <= i < |parts| ==> parts[i] != [] && ':' !in parts[i]
  }

  /** For eight groups the splice, the extra empty groups and the join put one "::" where the run was. */
  lemma SplicedJoin(parts: seq<string>, start: int, len: int)
    requires |parts| == 8 && len > 1 && 0 <= start && start + len <= 8
    ensures Join(Spliced(parts, start, len), ":") == Join(parts[..start], ":") + "::" + Join(parts[start + len..], ":")
  {
    if start == 0 && start + len == 8 {
      assert Spliced(parts, start, len) == ["", "", ""];
      assert Join(["", "", ""], ":") == "::";
      assert parts[..start] == [] && parts[start + len..] == [];
    } else if start == 0 {
      SplicedJoinFront(parts, len);
    } else if start + len == 8 {
      SplicedJoinBack(parts, start);
    } else {
      SplicedJoinInside(parts, start, len);
    }
  }

  lemma SplicedJoinFront(parts: seq<string>, len: int)
    requires |parts| == 8 && 1 < len < 8
    ensures Join(Spliced(parts, 0, len), ":") == Join(parts[..0], ":") + "::" + Join(parts[len..], ":")
  {
    var post := parts[len..];
    assert Spliced(parts, 0, len) == ["", ""] + post;
    JoinConcat(["", ""], post, ":");
    assert Join(["", ""], ":") == ":";
  }

  lemma SplicedJoinBack(parts: seq<string>, start: int)
    requires |parts| == 8 && 0 < start < 7
    ensures Join(Spliced(parts, start, 8 - start), ":") == Join(parts[..start], ":") + "::" + Join(parts[8..], ":")
  {
    var pre := parts[..start];
    assert Spliced(parts, start, 8 - start) == pre + ["", ""];
    JoinConcat(pre, ["", ""], ":");
    assert Join(["", ""], ":") == ":";
  }

  lemma SplicedJoinInside(parts: seq<string>, start: int, len: int)
    requires |parts| == 8 && len > 1 && 0 < start && start + len < 8
    ensures Join(Spliced(parts, start, len), ":") == Join(parts[..start], ":") + "::" + Join(parts[start + len..], ":")
  {
    var pre, post := parts[..start], parts[start + len..];
    assert Spliced(parts, start, len) == pre + ([""] + post);
    JoinAroundEmpty(pre, post);
  }

  /** An empty group between two non-empty lists of groups joins as "::". */
  lemma JoinAroundEmpty(pre: seq<string>, post: seq<string>)
    requires |pre| >= 1 && |post| >= 1
    ensures Join(pre + ([""] + post), ":") == Join(pre, ":") + "::" + Join(post, ":")
  {
    var left, right := Join(pre, ":"), Join(post, ":");
    assert Join([""] + post, ":") == ":" + right by {
      JoinConcat([""], post, ":");
    }
    assert Join(pre + ([""] + post), ":") == left + ":" + (":" + right) by {
      JoinConcat(pre, [""] + post, ":");
    }
    DoubleColonJoin(left, right);
  }

  lemma DoubleColonJoin(left: string, right: string)
    ensures left + ":" + (":" + right) == left + "::" + right
  {
    assert ":" + ":" == "::";
  }

  /** A "::" between two colon-free-at-the-seam texts without "::" makes no ":::". */
  lemma MiddleNoTriple(left: string, right: string)
    requires NoDoubleColon(left) && NoDoubleColon(right)
    requires left == [] || left[|left| - 1] != ':'
    requires right == [] || right[0] != ':'
    ensures NoTripleColon(left + "::" + right)
  {
    var x := left + "::" + right;
    var n := |left|;
    forall i | 0 <= i < |x| - 2 ensures !(x[i] == ':' && x[i + 1] == ':' && x[i + 2] == ':') {
      if i + 2 < n {
        assert x[i] == left[i] && x[i + 1] == left[i + 1];
      } else if i + 2 == n {
        assert x[i + 1] == left[n - 1];
      } else if i + 1 == n {
        assert x[i] == left[n - 1];
      } else if i == n {
        assert x[i + 2] == right[0];
      } else if i == n + 1 {
        assert x[i + 1] == right[0];
      } else {
        assert x[i] == right[i - n - 2] && x[i + 1] == right[i - n - 1];
      }
    }
  }

  /** The join of plain groups, allowing none. */
  lemma JoinPlain(parts: seq<string>)
    requires PlainGroups(parts)
    ensures var s := Join(parts, ":"); NoDoubleColon(s) && (s == [] || (s[0] != ':' && s[|s| - 1] != ':'))
    ensures parts != [] ==> Join(parts, ":") != []
  {
    if parts != [] {
      JoinNoDoubleColon(parts);
    }
  }

  /** Section 4.2 of RFC 5952 for eight plain groups: with a run of two or more "0" groups,
      the output is the groups before it, "::", and the groups after it, and neither side
      holds another "::"; with no such run (a lone "0" included) the groups are joined as
      they are and no "::" appears at all. */
  lemma RenderEight(parts: seq<string>)
    requires |parts| == 8 && PlainGroups(parts)
    ensures var run := BestRun(parts);
            var r := Render(parts, run.0, run.1);
            LongestFirstRun(parts, run.0, run.1) &&
            (run.1 > 1 ==>
              var left, right := Join(parts[..run.0], ":"), Join(parts[run.0 + run.1..], ":");
              r == left + "::" + right && NoDoubleColon(left) && NoDoubleColon(right)) &&
            (run.1 <= 1 ==> r == Join(parts, ":") && NoDoubleColon(r))
  {
    BestRunIsLongestFirst(parts);
    var run := BestRun(parts);
    if run.1 > 1 {
      var pre, post := parts[..run.0], parts[run.0 + run.1..];
      assert PlainGroups(pre) && PlainGroups(post);
      JoinPlain(pre);
      JoinPlain(post);
      SplicedJoin(parts, run.0, run.1);
      MiddleNoTriple(Join(pre, ":"), Join(post, ":"));
      NoTripleUnchanged(Join(pre, ":") + "::" + Join(post, ":"));
    } else {
      JoinNoDoubleColon(parts);
      NoTripleOfNoDouble(Join(parts, ":"));
      NoTripleUnchanged(Join(parts, ":"));
    }
  }

  lemma NoTripleOfNoDouble(s: string)
    requires NoDoubleColon(s)
    ensures NoTripleColon(s)
  {
  }

  /** `compressIPv6` on an address written out in eight groups behaves as section 4.2 of
      RFC 5952 asks. */
  lemma CompressEight(address: string)
    requires |Split(address, ':')| == 8
    ensures var g := Groups(address);
            var run := BestRun(g);
            var r := CompressSpec(address);
            LongestFirstRun(g, run.0, run.1) &&
            (run.1 > 1 ==>
              var left, right := Join(g[..run.0], ":"), Join(g[run.0 + run.1..], ":");
              r == left + "::" + right && NoDoubleColon(left) && NoDoubleColon(right)) &&
            (run.1 <= 1 ==> r == Join(g, ":") && NoDoubleColon(r))
  {
    RenderEight(Groups(address));
  }

  // ---------------------------------------------------------------- reading "::" back

  /** The index of the first "::". */
  function FirstDoubleColon(s: string): (r: Option<nat>)
    ensures r.None? ==> NoDoubleColon(s)
    ensures r.Some? ==> r.value + 1 < |s| && s[r.value] == ':' && s[r.value + 1] == ':'
    ensures r.Some? ==> forall i :: 0 <= i < r.value ==> !(s[i] == ':' && s[i + 1] == ':')
  {
    if |s| < 2 then None
    else if s[0] == ':' && s[1] == ':' then Some(0)
    else
      match FirstDoubleColon(s[1..])
      case None => None
      case Some(i) => Some(i + 1)
  }

  /** The groups of a text between colons; none for the empty text. */
  function Pieces(s: string): (g: seq<string>)
    ensures forall k :: 0 <= k < |g| ==> ':' !in g[k]
  {
    if s == [] then [] else Split(s, ':')
  }

  function Zeros(n: int): (z: seq<string>)
    ensures |z| == if n > 0 then n else 0
    ensures forall i :: 0 <= i < |z| ==> z[i] == "0"
  {
    if n <= 0 then [] else ["0"] + Zeros(n - 1)
  }

  /** The eight groups a text stands for: the "::", if any, filled with as many "0"
      groups as are missing. */
  function Expand(text: string): (g: seq<string>)
    ensures forall k :: 0 <= k < |g| ==> ':' !in g[k]
  {
    match FirstDoubleColon(text)
    case None => Split(text, ':')
    case Some(i) =>
      var left, right := Pieces(text[..i]), Pieces(text[i + 2..]);
      left + Zeros(8 - |left| - |right|) + right
  }

  /** In `left + "::" + right`, with no "::" in `left` and no colon at its end, the first "::" is the middle one. */
  lemma FirstDoubleColonMiddle(left: string, right: string)
    requires NoDoubleColon(left) && (left == [] || left[|left| - 1] != ':')
    ensures FirstDoubleColon(left + "::" + right) == Some(|left|)
  {
    var x := left + "::" + right;
    var n := |left|;
    assert x[n] == ':' && x[n + 1] == ':';
    forall j | 0 <= j < n ensures !(x[j] == ':' && x[j + 1] == ':') {
      assert x[j] == left[j];
      assert j + 1 < n ==> x[j + 1] == left[j + 1];
      assert j + 1 == n ==> x[j] == left[n - 1];
    }
  }

  lemma PiecesOfJoin(parts: seq<string>)
    requires PlainGroups(parts)
    ensures Pieces(Join(parts, ":")) == parts
  {
    if parts != [] {
      JoinPlain(parts);
      SplitJoin(parts, ':');
    }
  }

  /** Eight plain groups rendered and read back are the same eight groups. */
  lemma ExpandRender(parts: seq<string>)
    ensures |parts| == 8 && PlainGroups(parts) ==>
            var run := BestRun(parts); Expand(Render(parts, run.0, run.1)) == parts
  {
    if |parts| == 8 && PlainGroups(parts) {
      RenderEight(parts);
      if BestRun(parts).1 > 1 {
        ExpandAroundRun(parts, BestRun(parts).0, BestRun(parts).1);
      } else {
        ExpandRenderPlain(parts);
      }
    }
  }

  /** A text with its first "::" in the middle reads back as the pieces around it. */
  lemma ExpandAround(left: string, right: string)
    requires NoDoubleColon(left) && (left == [] || left[|left| - 1] != ':')
    ensures Expand(left + "::" + right) ==
            Pieces(left) + Zeros(8 - |Pieces(left)| - |Pieces(right)|) + Pieces(right)
  {
    var r := left + "::" + right;
    FirstDoubleColonMiddle(left, right);
    assert r[..|left|] == left;
    assert r[|left| + 2..] == right;
  }

  /** Groups around a "::" read back with the "::" filled by zeros. */
  lemma {:induction false} ExpandMiddle(pre: seq<string>, post: seq<string>)
    requires PlainGroups(pre) && PlainGroups(post)
    ensures Expand(Join(pre, ":") + "::" + Join(post, ":")) == pre + Zeros(8 - |pre| - |post|) + post
  {
    var left, right := Join(pre, ":"), Join(post, ":");
    assert NoDoubleColon(left) && (left == [] || left[|left| - 1] != ':') by {
      JoinPlain(pre);
    }
    assert Pieces(left) == pre by {
      PiecesOfJoin(pre);
    }
    assert Pieces(right) == post by {
      PiecesOfJoin(post);
    }
    ExpandAround(left, right);
  }

  /** The groups around a run of "0" groups, with "::" for the run, read back as all the groups. */
  lemma {:induction false} ExpandAroundRun(parts: seq<string>, start: int, len: int)
    requires |parts| == 8 && PlainGroups(parts) && ZeroRun(parts, start, len)
    ensures Expand(Join(parts[..start], ":") + "::" + Join(parts[start + len..], ":")) == parts
  {
    var pre, post := parts[..start], parts[start + len..];
    assert PlainGroups(pre) && PlainGroups(post);
    ExpandMiddle(pre, post);
    ZerosFillRun(parts, start, len);
  }

  /** A run of "0" groups is the zeros that fill the gap between the groups around it. */
  lemma ZerosFillRun(parts: seq<string>, start: int, len: int)
    requires ZeroRun(parts, start, len)
    ensures parts[..start] + Zeros(|parts| - |parts[..start]| - |parts[start + len..]|) + parts[start + len..] == parts
  {
    var zeros := Zeros(|parts| - |parts[..start]| - |parts[start + len..]|);
    assert zeros == parts[start..start + len];
    assert parts == parts[..start] + parts[start..start + len] + parts[start + len..];
  }

  lemma ExpandRenderPlain(parts: seq<string>)
    requires |parts| == 8 && PlainGroups(parts)
    requires Render(parts, BestRun(parts).0, BestRun(parts).1) == Join(parts, ":")
    requires NoDoubleColon(Join(parts, ":"))
    ensures var run := BestRun(parts); Expand(Render(parts, run.0, run.1)) == parts
  {
    SplitJoin(parts, ':');
  }

  // ---------------------------------------------------------------- the corrected compression

  /** The compression the normalization evidently intends: the address is read as its eight
      groups first ("::" expanded), and only then compressed. */
  function CompressAddress(address: string): (r: string)
    ensures |Expand(address)| == 8 ==> Expand(r) == Canon(Expand(address))
  {
    var g := Canon(Expand(address));
    CanonPlain(Expand(address));
    ExpandRender(g);
    var run := BestRun(g);
    Render(g, run.0, run.1)
  }

  lemma StripZerosIdempotent(p: string)
    ensures StripZeros(StripZeros(p)) == StripZeros(p)
  {
  }

  lemma {:induction false} CanonPlain(groups: seq<string>)
    requires forall k :: 0 <= k < |groups| ==> ':' !in groups[k]
    ensures PlainGroups(Canon(groups))
    ensures Canon(Canon(groups)) == Canon(groups)
  {
    forall k | 0 <= k < |groups| ensures StripZeros(StripZeros(groups[k])) == StripZeros(groups[k]) {
      StripZerosIdempotent(groups[k]);
    }
  }

  /** The corrected compression keeps the address: its output reads back as the same eight groups. */
  lemma CompressAddressKeepsGroups(address: string)
    requires |Expand(address)| == 8
    ensures Canon(Expand(CompressAddress(address))) == Canon(Expand(address))
  {
    CanonPlain(Expand(address));
  }

  /** Compressing an address twice gives what compressing it once gave. */
  lemma CompressAddressIdempotent(address: string)
    requires |Expand(address)| == 8
    ensures CompressAddress(CompressAddress(address)) == CompressAddress(address)
  {
    CompressAddressKeepsGroups(address);
  }

  // ---------------------------------------------------------------- the unspecified address

  /** A group that is empty or a single "0" is written "0". */
  lemma StripZerosOfZero()
    ensures StripZeros("") == "0" && StripZeros("0") == "0"
  {
    assert DropLeading("0", '0') == DropLeading("", '0') == "";
  }

  lemma SplitDoubleColon()
    ensures Split("::", ':') == ["", "", ""]
  {
    assert "::"[1..] == ":" && ":"[1..] == "";
  }

  /** The scan finds the run that covers every group when every group is "0". */
  lemma AllZeroRun(parts: seq<string>)
    requires |parts| >= 1 && forall k :: 0 <= k < |parts| ==> parts[k] == "0"
    ensures BestRun(parts) == (0, |parts|)
  {
    assert ZeroRun(parts, 0, |parts|);
    assert LongestFirstRun(parts, 0, |parts|);
    BestRunIsLongestFirst(parts);
    LongestFirstUnique(parts, 0, |parts|, BestRun(parts).0, BestRun(parts).1);
  }

  /** `compressIPv6` as written, given the serializer's "::" for the unspecified address,
      returns ":", which is no address at all. */
  lemma UnspecifiedAsWritten()
    ensures CompressSpec("::") == ":"
  {
    UnspecifiedGroups();
    ThreeZerosRun();
    ThreeZerosRender();
  }

  lemma UnspecifiedGroups()
    ensures Groups("::") == ["0", "0", "0"]
  {
    SplitDoubleColon();
    var g := Canon(["", "", ""]);
    assert forall k :: 0 <= k < 3 ==> g[k] == StripZeros("");
    StripZerosOfZero();
  }

  lemma ThreeZerosRun()
    ensures BestRun(["0", "0", "0"]) == (0, 3)
  {
    AllZeroRun(["0", "0", "0"]);
  }

  lemma ThreeZerosRender()
    ensures Render(["0", "0", "0"], 0, 3) == ":"
  {
    assert Spliced(["0", "0", "0"], 0, 3) == ["", ""];
  }

  /** The corrected compression returns "::" for it. */
  lemma UnspecifiedCorrected()
    ensures CompressAddress("::") == "::"
  {
    UnspecifiedExpanded();
    EightZerosRun();
    EightZerosRender();
  }

  lemma UnspecifiedExpanded()
    ensures Canon(Expand("::")) == Zeros(8)
  {
    assert FirstDoubleColon("::") == Some(0);
    assert Expand("::") == Zeros(8);
    StripZerosOfZero();
  }

  lemma EightZerosRun()
    ensures BestRun(Zeros(8)) == (0, 8)
  {
    AllZeroRun(Zeros(8));
  }

  lemma EightZerosRender()
    ensures Render(Zeros(8), 0, 8) == "::"
  {
    var g := Zeros(8);
    SplicedJoin(g, 0, 8);
    assert g[..0] == [] && g[8..] == [];
    NoTripleUnchanged("::");
  }

  // ---------------------------------------------------------------- an already compressed address

  lemma DocumentationSplit()
    ensures Split("2001:db8::1", ':') == ["2001", "db8", "", "1"]
  {
    var parts := ["2001", "db8", "", "1"];
    assert Join(parts, ":") == "2001:db8::1";
    SplitJoin(parts, ':');
  }

  lemma DocumentationGroups()
    ensures Canon(["2001", "db8", "", "1"]) == ["2001", "db8", "0", "1"]
  {
    var p := ["2001", "db8", "", "1"];
    assert p[0] == "2001" && p[1] == "db8" && p[2] == "" && p[3] == "1";
    var c := Canon(p);
    DocumentationStrips();
    assert c[0] == StripZeros(p[0]);
    assert c[1] == StripZeros(p[1]);
    assert c[2] == StripZeros(p[2]);
    assert c[3] == StripZeros(p[3]);
    FourGroups(c, "2001", "db8", "0", "1");
  }

  lemma DocumentationStrips()
    ensures StripZeros("2001") == "2001" && StripZeros("db8") == "db8"
    ensures StripZeros("") == "0" && StripZeros("1") == "1"
  {
    assert "2001"[0] == '2' && "db8"[0] == 'd' && "1"[0] == '1';
  }

  lemma FourGroups(c: seq<string>, a: string, b: string, d: string, e: string)
    requires |c| == 4 && c[0] == a && c[1] == b && c[2] == d && c[3] == e
    ensures c == [a, b, d, e]
  {
  }

  lemma DocumentationRun()
    ensures BestRun(["2001", "db8", "0", "1"]) == (2, 1)
  {
    var g := ["2001", "db8", "0", "1"];
    forall s, l | ZeroRun(g, s, l) ensures l <= 1 {
      assert l >= 2 ==> ZeroAt(g, s) && ZeroAt(g, s + 1);
    }
    forall s | 0 <= s < 2 ensures !ZeroRun(g, s, 1) {
      assert g[s] != "0";
    }
    assert LongestFirstRun(g, 2, 1);
    BestRunIsLongestFirst(g);
    LongestFirstUnique(g, 2, 1, BestRun(g).0, BestRun(g).1);
  }

  /** Without a run of two "0" groups the groups are joined as they are. */
  lemma RenderWithoutRun(parts: seq<string>, start: int, len: int)
    requires |parts| >= 1 && PlainGroups(parts) && len <= 1
    ensures Render(parts, start, len) == Join(parts, ":")
  {
    JoinNoDoubleColon(parts);
    NoTripleOfNoDouble(Join(parts, ":"));
    NoTripleUnchanged(Join(parts, ":"));
  }

  /** `compressIPv6` as written, given the serializer's "2001:db8::1", turns the "::" into a
      single "0" group and returns "2001:db8:0:1", a four-group text for another address. */
  lemma CompressedInputAsWritten()
    ensures CompressSpec("2001:db8::1") == "2001:db8:0:1"
  {
    DocumentationSplit();
    DocumentationGroups();
    DocumentationRun();
    var g := ["2001", "db8", "0", "1"];
    assert Groups("2001:db8::1") == g;
    assert PlainGroups(g);
    RenderWithoutRun(g, 2, 1);
    DocumentationJoin();
  }

  lemma DocumentationJoin()
    ensures Join(["2001", "db8", "0", "1"], ":") == "2001:db8:0:1"
  {
    var g := ["2001", "db8", "0", "1"];
    assert g[1..] == ["db8", "0", "1"] && g[1..][1..] == ["0", "1"] && g[1..][1..][1..] == ["1"];
    assert Join(["0", "1"], ":") == "0:1";
    assert Join(["db8", "0", "1"], ":") == "db8:0:1";
  }

  // ---------------------------------------------------------------- normalizeIPv6

  /** `s.slice(1, -1)`. */
  function Inner(s: string): (r: string)
    ensures |s| >= 2 ==> r == s[1..|s| - 1]
    ensures |s| < 2 ==> r == []
  {
    if |s| >= 2 then s[1..|s| - 1] else []
  }

  /** The regular expression `^\d+\.\d+\.\d+\.\d+$`: four dot-separated runs of digits. */
  predicate DottedDigits(s: string) {
    var parts := Split(s, '.');
    |parts| == 4 && forall i :: 0 <= i < 4 ==> parts[i] != [] && forall j :: 0 <= j < |parts[i]| ==> IsDigit(parts[i][j])
  }

  /** The whole normalization as written, given the documentation address (in any letter
      case) and a serializer that returns it in its usual form "[2001:db8::1]", answers
      "[2001:db8:0:1]", which is not a valid address. */
  lemma NormalizeAsWrittenExample(input: string, serialize: string -> Option<string>)
    requires Lower(Inner(input)) == "2001:db8::1"
    requires serialize("2001:db8::1") == Some("[" + "2001:db8::1" + "]")
    ensures NormalizeIPv6(input, serialize) == "[" + "2001:db8:0:1" + "]"
  {
    var inner := Lower(Inner(input));
    assert !StartsWith(inner, MappedPrefix) && !StartsWith(inner, Nat64Prefix) by {
      assert inner[0] == '2' && MappedPrefix[0] == ':' && Nat64Prefix[0] == '6';
    }
    assert CompressSpec(Inner("[" + "2001:db8::1" + "]")) == "2001:db8:0:1" by {
      InnerOfBracketed("2001:db8::1");
      CompressedInputAsWritten();
    }
    SerializedWith(input, serialize, CompressSpec);
  }

  /** The unspecified address, in brackets and serialized as "[::]", comes out of the
      normalization as written as "[:]", and out of the corrected one as "[::]". */
  lemma NormalizeUnspecified(input: string, serialize: string -> Option<string>)
    requires Lower(Inner(input)) == "::"
    requires serialize("::") == Some("[" + "::" + "]")
    ensures NormalizeIPv6(input, serialize) == "[" + ":" + "]"
    ensures NormalizeIPv6Intended(input, serialize) == "[" + "::" + "]"
  {
    var inner := Lower(Inner(input));
    assert !StartsWith(inner, MappedPrefix) && !StartsWith(inner, Nat64Prefix) by {
      assert |inner| < |MappedPrefix| && inner[0] == ':' && Nat64Prefix[0] == '6';
    }
    InnerOfBracketed("::");
    UnspecifiedAsWritten();
    UnspecifiedCorrected();
    SerializedWith(input, serialize, CompressSpec);
    SerializedWith(input, serialize, CompressAddress);
  }

  lemma InnerOfBracketed(x: string)
    ensures Inner("[" + x + "]") == x
  {
    assert ("[" + x + "]")[1..|x| + 1] == x;
  }

  const MappedPrefix: string := "::ffff:"
  const Nat64Prefix: string := "64:ff9b::"

  /** Neither of the two embedded-IPv4 forms, and an address the URL parser accepts. */
  predicate Serialized(inner: string, serialize: string -> Option<string>) {
    !(StartsWith(inner, MappedPrefix) && DottedDigits(inner[|MappedPrefix|..])) &&
    !(StartsWith(inner, Nat64Prefix) && DottedDigits(inner[|Nat64Prefix|..])) &&
    serialize(inner).Some?
  }

  /** What `normalizeIPv6` returns: the input as it came, a canonical dotted quad, or a
      text in brackets. */
  predicate NormalizedForm(input: string, r: string) {
    r == input || IPv4.CanonicalQuad(r) || (|r| >= 2 && r[0] == '[' && r[|r| - 1] == ']')
  }

  /** `normalizeIPv6` over any compression. `serialize` is the URL parser's hostname for
      "http://[" + inner + "]/", `None` where the parser throws. */
  function NormalizeIPv6With(input: string, serialize: string -> Option<string>, compress: string -> string): (r: string)
    ensures NormalizedForm(input, r)
  {
    var inner := Lower(Inner(input));
    if StartsWith(inner, MappedPrefix) && DottedDigits(inner[|MappedPrefix|..]) then
      IPv4.ParseIPv4Spec(inner[|MappedPrefix|..]).GetOr(input)
    else if StartsWith(inner, Nat64Prefix) && DottedDigits(inner[|Nat64Prefix|..]) then
      IPv4.ParseIPv4Spec(inner[|Nat64Prefix|..]).GetOr(input)
    else
      match serialize(inner)
      case None => input
      case Some(host) => "[" + compress(Inner(host)) + "]"
  }

  /** Outside the embedded-IPv4 forms, an address the parser accepts is compressed and bracketed. */
  lemma SerializedWith(input: string, serialize: string -> Option<string>, compress: string -> string)
    ensures var inner := Lower(Inner(input));
            var r := NormalizeIPv6With(input, serialize, compress);
            Serialized(inner, serialize) ==>
            r == "[" + compress(Inner(serialize(inner).value)) + "]" &&
            Inner(r) == compress(Inner(serialize(inner).value))
  {
    var inner := Lower(Inner(input));
    if Serialized(inner, serialize) {
      InnerOfBracketed(compress(Inner(serialize(inner).value)));
    }
  }

  /** `normalizeIPv6` as written, with `compressIPv6`. It keeps the address when the
      serializer hands it eight groups, which it does not do for an address with a zero run. */
  function NormalizeIPv6(input: string, serialize: string -> Option<string>): (r: string)
    ensures NormalizedForm(input, r)
    ensures var inner := Lower(Inner(input));
            Serialized(inner, serialize) && |Split(Inner(serialize(inner).value), ':')| == 8 ==>
            Expand(Inner(r)) == Groups(Inner(serialize(inner).value))
  {
    SerializedWith(input, serialize, CompressSpec);
    NormalizeIPv6With(input, serialize, CompressSpec)
  }

  /** `normalizeIPv6` with the corrected compression: the bracketed result reads back as the
      eight groups of the address the serializer gave, whatever form it gave it in. */
  function NormalizeIPv6Intended(input: string, serialize: string -> Option<string>): (r: string)
    ensures NormalizedForm(input, r)
    ensures var inner := Lower(Inner(input));
            Serialized(inner, serialize) && |Expand(Inner(serialize(inner).value))| == 8 ==>
            Expand(Inner(r)) == Canon(Expand(Inner(serialize(inner).value)))
  {
    SerializedWith(input, serialize, CompressAddress);
    NormalizeIPv6With(input, serialize, CompressAddress)
  }

  /** An IPv4-mapped address whose dotted quad is canonical comes out as that dotted quad. */
  lemma MappedGivesDottedQuad(input: string, serialize: string -> Option<string>, quad: string)
    requires Lower(Inner(input)) == MappedPrefix + quad
    requires IPv4.CanonicalQuad(quad)
    ensures NormalizeIPv6(input, serialize) == quad
  {
    var inner := Lower(Inner(input));
    assert inner[..|MappedPrefix|] == MappedPrefix;
    assert inner[|MappedPrefix|..] == quad;
    IPv4.DottedQuadUnchanged(quad);
  }

  /** Outside the two embedded-IPv4 forms, an address the parser rejects is returned as it came,
      and one it accepts comes back in brackets around what `compressIPv6` makes of it. */
  lemma SerializedBranch(input: string, serialize: string -> Option<string>)
    requires var inner := Lower(Inner(input));
             !(StartsWith(inner, MappedPrefix) && DottedDigits(inner[|MappedPrefix|..])) &&
             !(StartsWith(inner, Nat64Prefix) && DottedDigits(inner[|Nat64Prefix|..]))
    ensures var r := NormalizeIPv6(input, serialize);
            match serialize(Lower(Inner(input)))
            case None => r == input
            case Some(host) => r[0] == '[' && r[|r| - 1] == ']' && r[1..|r| - 1] == CompressSpec(Inner(host))
  {
  }
}
