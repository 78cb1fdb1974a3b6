/** Canonicalization of a URL path: runs of slashes collapsed, empty and "."
    segments dropped, ".." resolved against a stack (and dropped at the root),
    the result rebuilt with a leading slash. */
module PathCanon {
  import opened Text

  /** A segment that the stack keeps: not empty, not "." and not "..". */
  predicate Kept(seg: string) {
    seg != "" && seg != "." && seg != ".."
  }

  /** What one segment does to the stack. */
  function Step(stack: seq<string>, seg: string): seq<string> {
    if seg == "" || seg == "." then stack
    else if seg == ".." then (if stack == [] then [] else stack[..|stack| - 1])
    else stack + [seg]
  }

  /** The stack after all the segments, in order. */
  function Resolve(segments: seq<string>): seq<string> {
    if segments == [] then [] else Step(Resolve(segments[..|segments| - 1]), segments[|segments| - 1])
  }

  /** The specification of `canonicalizePath`. */
  function CanonicalPath(path: string): (r: string)
    ensures |r| >= 1 && r[0] == '/' && NoRun(r, '/')
  {
    var segments := Split(CollapseRuns(path, '/'), '/');
    ResolveClean(segments);
    JoinNoDoubleSlash(Resolve(segments));
    "/" + Join(Resolve(segments), "/")
  }

  /** No segment left on the stack is empty, "." or "..", or holds a slash. */
  predicate CleanSegments(stack: seq<string>) {
    forall i :: 0 <= i < |stack| ==> Kept(stack[i]) && '/' !in stack[i]
  }

  /** `canonicalizePath`: the stack loop over the segments. */
  method CanonicalizePath(path: string) returns (r: string)
    ensures r == CanonicalPath(path)
    ensures |r| >= 1 && r[0] == '/'
  {
    var collapsed := CollapseRuns(path, '/');
    var segments := Split(collapsed, '/');
    var stack: seq<string> := [];
    var k := 0;
    while k < |segments|
      invariant 0 <= k <= |segments|
      invariant stack == Resolve(segments[..k])
    {
      assert segments[..k + 1][..k] == segments[..k];
      var seg := segments[k];
      if seg == "" || seg == "." {
        k := k + 1;
        continue;
      }
      if seg == ".." {
        if stack != [] {
          stack := stack[..|stack| - 1];
        }
      } else {
        stack := stack + [seg];
      }
      k := k + 1;
    }
    assert segments[..k] == segments;
    r := "/" + Join(stack, "/");
  }

  /** The stack only ever holds kept, slash-free segments. */
  lemma {:induction false} ResolveClean(segments: seq<string>)
    requires forall i :: 0 <= i < |segments| ==> '/' !in segments[i]
    ensures CleanSegments(Resolve(segments))
  {
    if segments != [] {
      var init := segments[..|segments| - 1];
      assert forall i :: 0 <= i < |init| ==> init[i] == segments[i];
      ResolveClean(init);
    }
  }

  /** The canonical path is a slash followed by kept, slash-free segments. */
  lemma CanonicalShape(path: string)
    ensures var stack := Resolve(Split(CollapseRuns(path, '/'), '/'));
            CleanSegments(stack) && CanonicalPath(path) == "/" + Join(stack, "/")
  {
    ResolveClean(Split(CollapseRuns(path, '/'), '/'));
  }

  /** Collapsing the runs of slashes first changes nothing: the canonical path is the
      resolution of the input's own segments, of which only the non-empty ones count. */
  lemma CollapseSlashesSegments(path: string)
    ensures Resolve(Split(CollapseRuns(path, '/'), '/')) == Resolve(NonEmptyParts(Split(path, '/')))
    ensures CanonicalPath(path) == "/" + Join(Resolve(Split(path, '/')), "/")
  {
    CollapseFields(path, '/');
    ResolveNonEmpty(Split(CollapseRuns(path, '/'), '/'));
    ResolveNonEmpty(Split(path, '/'));
  }

  /** Empty segments leave the stack alone. */
  lemma {:induction false} ResolveNonEmpty(segments: seq<string>)
    ensures Resolve(NonEmptyParts(segments)) == Resolve(segments)
    decreases |segments|
  {
    if segments != [] {
      var init := segments[..|segments| - 1];
      var last := segments[|segments| - 1];
      assert segments == init + [last];
      NonEmptyPartsConcat(init, [last]);
      NonEmptyPartsCons(last, []);
      ResolveNonEmpty(init);
      assert Resolve(segments) == Step(Resolve(init), last);
      if last == [] {
        assert NonEmptyParts(segments) == NonEmptyParts(init) + [];
        assert NonEmptyParts(init) + [] == NonEmptyParts(init);
      } else {
        var kept := NonEmptyParts(init) + [last];
        assert NonEmptyParts(segments) == kept;
        assert kept[..|kept| - 1] == NonEmptyParts(init) && kept[|kept| - 1] == last;
      }
    }
  }

  /** A ".." with nothing to pop is dropped: the stack cannot go above the root. */
  lemma DotDotAtRoot(segments: seq<string>)
    requires Resolve(segments) == []
    ensures Resolve(segments + [".."]) == []
  {
    assert (segments + [".."])[..|segments|] == segments;
  }

  /** Kept segments pushed onto a stack stay on it in order. */
  lemma {:induction false} ResolveAppendKept(prefix: seq<string>, kept: seq<string>)
    requires forall i :: 0 <= i < |kept| ==> Kept(kept[i])
    ensures Resolve(prefix + kept) == Resolve(prefix) + kept
    decreases |kept|
  {
    if kept == [] {
      assert prefix + kept == prefix;
    } else {
      var init := kept[..|kept| - 1];
      assert (prefix + kept)[..|prefix + kept| - 1] == prefix + init;
      ResolveAppendKept(prefix, init);
      assert kept == init + [kept[|kept| - 1]];
    }
  }

  /** Kept segments joined by single slashes contain no "//". */
  lemma {:induction false} JoinNoDoubleSlash(stack: seq<string>)
    requires CleanSegments(stack)
    ensures NoRun("/" + Join(stack, "/"), '/')
    decreases |stack|
  {
    if |stack| > 1 {
      var rest := stack[1..];
      assert CleanSegments(rest) by {
        forall i | 0 <= i < |rest| ensures Kept(rest[i]) && '/' !in rest[i] {
          assert rest[i] == stack[i + 1];
        }
      }
      JoinNoDoubleSlash(rest);
      var t := "/" + Join(rest, "/");
      var s := "/" + Join(stack, "/");
      assert s == "/" + stack[0] + t;
      var h := stack[0];
      assert h != [] && '/' !in h;
      forall i | 0 <= i < |s| - 1 ensures !(s[i] == '/' && s[i + 1] == '/') {
        if i == 0 {
          assert s[1] == h[0] && h[0] in h;
        } else if i <= |h| {
          assert s[i] == h[i - 1] && h[i - 1] in h;
        } else {
          var j := i - 1 - |h|;
          assert 0 <= j < |t| - 1;
          assert s[i] == t[j] && s[i + 1] == t[j + 1];
          assert NoRun(t, '/');
        }
      }
    } else if |stack| == 1 {
      var s := "/" + stack[0];
      assert stack[0] != [] && '/' !in stack[0];
      forall i | 0 <= i < |s| - 1 ensures !(s[i] == '/' && s[i + 1] == '/') {
        if i == 0 {
          assert s[1] == stack[0][0] && stack[0][0] in stack[0];
        } else {
          assert s[i] == stack[0][i - 1] && stack[0][i - 1] in stack[0];
        }
      }
    }
  }

  /** The segments of a canonical path: the empty one before the leading slash, then the stack. */
  lemma CanonicalSegments(stack: seq<string>)
    requires CleanSegments(stack)
    ensures Resolve(Split("/" + Join(stack, "/"), '/')) == stack
  {
    var c := "/" + Join(stack, "/");
    var segs := Split(c, '/');
    if stack == [] {
      assert c == [ '/' ] + "";
      SplitPrependSep("", '/');
      assert segs == ["", ""];
      assert segs[..1] == [""];
    } else {
      SplitJoin(stack, '/');
      assert c == [ '/' ] + Join(stack, "/");
      SplitPrependSep(Join(stack, "/"), '/');
      assert segs == [""] + stack;
      assert Resolve([""]) == [];
      ResolveAppendKept([""], stack);
    }
  }

  /** Canonicalizing a canonical path changes nothing. */
  lemma CanonicalIdempotent(path: string)
    ensures CanonicalPath(CanonicalPath(path)) == CanonicalPath(path)
  {
    var stack := Resolve(Split(CollapseRuns(path, '/'), '/'));
    CanonicalShape(path);
    var c := "/" + Join(stack, "/");
    JoinNoDoubleSlash(stack);
    CollapseNoRun(c, '/');
    CanonicalSegments(stack);
  }
}
