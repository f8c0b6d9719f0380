/** Visible width and truncation: pkg/table/measure.go and pkg/table/truncate.go. */
module TextWidth {
  import opened Strings

  /** The width of one rune on the terminal. */
  type RuneWidth = char -> nat

  /** The runes the renderer itself writes are one cell wide. */
  ghost predicate PlainRunes(rw: RuneWidth) {
    rw(' ') == rw('…') == rw('/') == rw('─') == 1
  }

  function StringWidth(rw: RuneWidth, s: string): nat {
    if s == "" then 0 else rw(s[0]) + StringWidth(rw, s[1..])
  }

  lemma {:induction false} WidthConcat(rw: RuneWidth, a: string, b: string)
    ensures StringWidth(rw, a + b) == StringWidth(rw, a) + StringWidth(rw, b)
  {
    if a == "" {
      assert a + b == b;
    } else {
      assert (a + b)[1..] == a[1..] + b;
      WidthConcat(rw, a[1..], b);
    }
  }

  lemma {:induction false} WidthRepeat(rw: RuneWidth, c: char, n: nat)
    ensures StringWidth(rw, Repeat(c, n)) == n * rw(c)
  {
    if n > 0 {
      assert Repeat(c, n)[1..] == Repeat(c, n - 1);
      WidthRepeat(rw, c, n - 1);
    }
  }

  /** The longest prefix of at most n runes that fits in maxLen cells together with an ellipsis. */
  function Cut(rw: RuneWidth, s: string, maxLen: int, n: nat): string
    requires n <= |s|
  {
    if n == 0 || StringWidth(rw, s[..n] + "…") <= maxLen then s[..n] + "…"
    else Cut(rw, s, maxLen, n - 1)
  }

  function Truncated(rw: RuneWidth, s: string, maxLen: int): string {
    if maxLen <= 0 then ""
    else if StringWidth(rw, s) <= maxLen then s
    else if maxLen <= 1 then "…"
    else Cut(rw, s, maxLen, Min(|s|, maxLen))
  }

  /** TruncateString: searches downwards, from maxLen runes on, for the longest prefix that fits. */
  method TruncateString(rw: RuneWidth, s: string, maxLen: int) returns (r: string)
    ensures r == Truncated(rw, s, maxLen)
  {
    if maxLen <= 0 {
      return "";
    }
    if StringWidth(rw, s) <= maxLen {
      return s;
    }
    if maxLen <= 1 {
      return "…";
    }
    var i := Min(|s|, maxLen);
    while i >= 0
      invariant -1 <= i <= |s|
      invariant i >= 0 ==> Cut(rw, s, maxLen, i) == Cut(rw, s, maxLen, Min(|s|, maxLen))
      invariant i < 0 ==> Cut(rw, s, maxLen, Min(|s|, maxLen)) == "…"
    {
      var candidate := s[..i] + "…";
      if StringWidth(rw, candidate) <= maxLen {
        return candidate;
      }
      i := i - 1;
    }
    return "…";
  }

  lemma {:induction false} CutFits(rw: RuneWidth, s: string, maxLen: int, n: nat)
    requires n <= |s| && rw('…') <= maxLen
    ensures StringWidth(rw, Cut(rw, s, maxLen, n)) <= maxLen
    ensures exists k: nat :: k <= n && Cut(rw, s, maxLen, n) == s[..k] + "…"
    ensures forall j: nat :: j <= n && StringWidth(rw, s[..j] + "…") <= maxLen ==> j < |Cut(rw, s, maxLen, n)|
  {
    if n == 0 {
      assert s[..0] + "…" == "…";
      assert StringWidth(rw, "…") == rw('…') + StringWidth(rw, "…"[1..]);
    } else if StringWidth(rw, s[..n] + "…") > maxLen {
      CutFits(rw, s, maxLen, n - 1);
    }
  }

  /** A truncated string fits; it is s itself when s fits, and else the longest prefix that leaves room for
      the ellipsis, among prefixes of at most maxLen runes. */
  lemma TruncatedFits(rw: RuneWidth, s: string, maxLen: int)
    requires PlainRunes(rw) && maxLen >= 0
    ensures
      var r := Truncated(rw, s, maxLen);
      && StringWidth(rw, r) <= maxLen
      && (StringWidth(rw, s) <= maxLen && maxLen > 0 ==> r == s)
      && (StringWidth(rw, s) > maxLen > 0 ==> exists k: nat :: k <= |s| && r == s[..k] + "…")
      && (StringWidth(rw, s) > maxLen > 1 ==>
            forall j: nat :: j <= Min(|s|, maxLen) && StringWidth(rw, s[..j] + "…") <= maxLen ==> j < |r|)
  {
    assert s[..0] + "…" == "…";
    assert StringWidth(rw, "…") == rw('…') + StringWidth(rw, "…"[1..]);
    if maxLen > 1 {
      CutFits(rw, s, maxLen, Min(|s|, maxLen));
    }
  }

  /** The truncated string is the longest prefix of s, of any length, that fits together with an ellipsis. */
  ghost predicate IsLongest(rw: RuneWidth, s: string, maxLen: int) {
    forall j: nat :: j <= |s| && StringWidth(rw, s[..j] + "…") <= maxLen ==> j < |Truncated(rw, s, maxLen)|
  }

  /** The most runes a truncation keeps. */
  function Cap(maxLen: int): nat {
    if maxLen <= 1 then 0 else maxLen
  }

  lemma WidthGrows(rw: RuneWidth, s: string, j: nat, k: nat)
    requires j <= k <= |s|
    ensures StringWidth(rw, s[..j]) <= StringWidth(rw, s[..k])
  {
    assert s[..k] == s[..j] + s[j..k];
    WidthConcat(rw, s[..j], s[j..k]);
  }

  lemma WidthWithEllipsis(rw: RuneWidth, a: string)
    requires PlainRunes(rw)
    ensures StringWidth(rw, a + "…") == StringWidth(rw, a) + 1
  {
    WidthConcat(rw, a, "…");
    assert StringWidth(rw, "…") == rw('…') + StringWidth(rw, "…"[1..]);
  }

  lemma {:induction false} CutLength(rw: RuneWidth, s: string, maxLen: int, n: nat)
    requires n <= |s|
    ensures |Cut(rw, s, maxLen, n)| <= n + 1
  {
    if n > 0 {
      CutLength(rw, s, maxLen, n - 1);
    }
  }

  /** The cut is the longest prefix that fits, over all prefixes, exactly when the text has no more runes than
      cells allowed, or the first runes it may not keep fill those cells. */
  lemma LongestIff(rw: RuneWidth, s: string, maxLen: int)
    requires PlainRunes(rw) && StringWidth(rw, s) > maxLen > 0
    ensures IsLongest(rw, s, maxLen) <==>
      |s| <= Cap(maxLen) || StringWidth(rw, s[..Cap(maxLen) + 1]) >= maxLen
  {
    var cap, r := Cap(maxLen), Truncated(rw, s, maxLen);
    TruncatedFits(rw, s, maxLen);
    if |s| > cap {
      if maxLen > 1 {
        CutLength(rw, s, maxLen, cap);
      }
      WidthWithEllipsis(rw, s[..cap + 1]);
      if StringWidth(rw, s[..cap + 1]) >= maxLen {
        forall j: nat | j <= |s| && StringWidth(rw, s[..j] + "…") <= maxLen ensures j < |r| {
          WidthWithEllipsis(rw, s[..j]);
          if j > cap {
            WidthGrows(rw, s, cap + 1, j);
          }
        }
      } else {
        assert StringWidth(rw, s[..cap + 1] + "…") <= maxLen && cap + 1 >= |r|;
      }
    }
  }

  lemma {:induction false} WidthAtLeast(rw: RuneWidth, s: string)
    requires forall i :: 0 <= i < |s| ==> rw(s[i]) > 0
    ensures StringWidth(rw, s) >= |s|
  {
    if s != "" {
      WidthAtLeast(rw, s[1..]);
    }
  }

  /** It always is in a text without runes of width 0. */
  lemma LongestWithoutZeroWidth(rw: RuneWidth, s: string, maxLen: int)
    requires PlainRunes(rw) && StringWidth(rw, s) > maxLen > 0
    requires forall i :: 0 <= i < |s| ==> rw(s[i]) > 0
    ensures IsLongest(rw, s, maxLen)
  {
    LongestIff(rw, s, maxLen);
    if |s| > Cap(maxLen) {
      WidthAtLeast(rw, s[..Cap(maxLen) + 1]);
    }
  }

  /** With a rune of width 0 it may not be: three of them and then letters, cut to two cells, keep no letter,
      though there is room for one. */
  lemma LongestFails(rw: RuneWidth, z: char)
    requires PlainRunes(rw) && rw(z) == 0 && rw('a') == rw('b') == rw('c') == 1
    ensures
      var s := [z, z, z] + "abc";
      Truncated(rw, s, 2) == [z, z] + "…" && StringWidth(rw, s[..4] + "…") == 2
  {
    var s := [z, z, z] + "abc";
    ZeroWidth(rw, z, "abc");
    ZeroWidth(rw, z, "a");
    ZeroWidth(rw, z, "");
    assert "abc"[1..] == "bc" && "bc"[1..] == "c" && "c"[1..] == "" && "a"[1..] == "";
    assert s[..2] == [z, z] + "" == [z, z] && s[..4] == [z, z, z] + "a";
    WidthWithEllipsis(rw, s[..2]);
    WidthWithEllipsis(rw, s[..4]);
  }

  lemma ZeroWidth(rw: RuneWidth, z: char, s: string)
    requires rw(z) == 0
    ensures StringWidth(rw, [z, z] + s) == StringWidth(rw, s)
    ensures StringWidth(rw, [z, z, z] + s) == StringWidth(rw, s)
  {
    assert ([z] + s)[1..] == s && ([z, z] + s)[1..] == [z] + s && ([z, z, z] + s)[1..] == [z, z] + s;
  }

  /** TruncatePath: keeps the first and last segment of a path where they fit. */
  function TruncatePath(rw: RuneWidth, path: string, maxLen: int): string {
    if maxLen <= 0 then ""
    else if StringWidth(rw, path) <= maxLen then path
    else if maxLen <= 5 then Truncated(rw, path, maxLen)
    else
      var parts := Split(path, '/');
      if |parts| <= 1 then Truncated(rw, path, maxLen)
      else
        if StringWidth(rw, BothSegments(path)) <= maxLen then BothSegments(path)
        else if StringWidth(rw, OnlyLast(path)) <= maxLen then OnlyLast(path)
        else Truncated(rw, path, maxLen)
  }

  predicate EndsWith(s: string, suffix: string) {
    s == suffix || (s != "" && EndsWith(s[1..], suffix))
  }

  lemma {:induction false} EndsPrepend(prefix: string, s: string, suffix: string)
    requires EndsWith(s, suffix)
    ensures EndsWith(prefix + s, suffix)
  {
    if prefix == "" {
      assert prefix + s == s;
    } else {
      assert (prefix + s)[1..] == prefix[1..] + s;
      EndsPrepend(prefix[1..], s, suffix);
    }
  }

  /** The last segment of a path, after its last slash. */
  function LastSegment(path: string): string {
    var parts := Split(path, '/');
    parts[|parts| - 1]
  }

  function FirstSegment(path: string): string {
    Split(path, '/')[0]
  }

  lemma {:induction false} JoinEnds(parts: seq<string>)
    requires |parts| >= 2
    ensures EndsWith(Join(parts, "/"), "/" + parts[|parts| - 1])
  {
    var rest := Join(parts[1..], "/");
    if |parts| == 2 {
      EndsPrepend(parts[0], "/" + rest, "/" + rest);
      assert parts[0] + ("/" + rest) == parts[0] + "/" + rest;
    } else {
      JoinEnds(parts[1..]);
      EndsPrepend(parts[0] + "/", rest, "/" + parts[|parts| - 1]);
    }
  }

  lemma JoinStarts(parts: seq<string>)
    requires parts != []
    ensures parts[0] <= Join(parts, "/")
  {
  }

  /** The two forms that keep whole segments. */
  function BothSegments(path: string): string {
    FirstSegment(path) + "/" + "…/" + LastSegment(path)
  }

  function OnlyLast(path: string): string {
    "…/" + LastSegment(path)
  }

  lemma BothEnds(first: string, last: string)
    ensures first <= first + "/" + "…/" + last && EndsWith(first + "/" + "…/" + last, "/" + last)
  {
    EndsPrepend(first + "/" + "…", "/" + last, "/" + last);
    assert first + "/" + "…/" + last == (first + "/" + "…") + ("/" + last);
  }

  lemma LastEnds(last: string)
    ensures EndsWith("…/" + last, "/" + last)
  {
    EndsPrepend("…", "/" + last, "/" + last);
    assert "…/" + last == "…" + ("/" + last);
  }

  lemma SegmentsEnd(path: string, parts: seq<string>, first: string, last: string)
    requires |parts| >= 2 && Join(parts, ['/']) == path && first == parts[0] && last == parts[|parts| - 1]
    ensures first <= path && EndsWith(path, "/" + last)
  {
    assert ['/'] == "/";
    JoinEnds(parts);
    JoinStarts(parts);
  }

  /** A truncated path fits, and is the path itself when that fits. */
  lemma TruncatePathFits(rw: RuneWidth, path: string, maxLen: int)
    requires PlainRunes(rw) && maxLen >= 0
    ensures StringWidth(rw, TruncatePath(rw, path, maxLen)) <= maxLen
    ensures maxLen > 0 && StringWidth(rw, path) <= maxLen ==> TruncatePath(rw, path, maxLen) == path
  {
    TruncatedFits(rw, path, maxLen);
  }

  lemma PathKeeps(path: string, first: string, last: string)
    requires |Split(path, '/')| >= 2 && first == FirstSegment(path) && last == LastSegment(path)
    ensures first <= path && EndsWith(path, "/" + last)
  {
    SegmentsEnd(path, Split(path, '/'), first, last);
  }

  lemma BothKeeps(path: string)
    ensures FirstSegment(path) <= BothSegments(path) && EndsWith(BothSegments(path), "/" + LastSegment(path))
  {
    BothEnds(FirstSegment(path), LastSegment(path));
  }

  lemma LastKeeps(path: string)
    ensures EndsWith(OnlyLast(path), "/" + LastSegment(path))
  {
    LastEnds(LastSegment(path));
  }

  lemma SegmentsAre(path: string, first: string, rest: string, init: string, last: string)
    requires path == first + "/" + rest == init + "/" + last && '/' !in first && '/' !in last
    ensures |Split(path, '/')| >= 2 && FirstSegment(path) == first && LastSegment(path) == last
  {
    assert "/" == ['/'];
    SplitStep(first, rest, '/');
    SplitConcat(init, last, '/');
    assert Split(last, '/') == [last];
  }

  lemma PathCut(rw: RuneWidth, path: string, maxLen: int, parts: nat, both: string, one: string)
    requires parts == |Split(path, '/')| >= 2 && both == BothSegments(path) && one == OnlyLast(path)
    ensures TruncatePath(rw, path, maxLen) ==
      if maxLen <= 0 then ""
      else if StringWidth(rw, path) <= maxLen then path
      else if maxLen > 5 && StringWidth(rw, both) <= maxLen then both
      else if maxLen > 5 && StringWidth(rw, one) <= maxLen then one
      else Truncated(rw, path, maxLen)
  {
  }

  /** What a path with a slash is cut to, with first and last for the text before its first and after its last slash:
      both of them with an ellipsis between, or the last one behind an ellipsis, where that fits in more than five
      cells; else it is cut like any text. */
  lemma TruncatePathMeans(
      rw: RuneWidth, path: string, maxLen: int, first: string, rest: string, init: string, last: string)
    requires path == first + "/" + rest == init + "/" + last && '/' !in first && '/' !in last
    ensures
      var r, both, one := TruncatePath(rw, path, maxLen), first + "/" + "…/" + last, "…/" + last;
      if maxLen <= 0 then r == ""
      else if StringWidth(rw, path) <= maxLen then r == path
      else if maxLen > 5 && StringWidth(rw, both) <= maxLen then r == both
      else if maxLen > 5 && StringWidth(rw, one) <= maxLen then r == one
      else r == Truncated(rw, path, maxLen)
  {
    SegmentsAre(path, first, rest, init, last);
    PathCut(rw, path, maxLen, |Split(path, '/')|, first + "/" + "…/" + last, "…/" + last);
  }

  lemma TruncatePathPlain(rw: RuneWidth, path: string, maxLen: int)
    requires '/' !in path
    ensures TruncatePath(rw, path, maxLen) ==
      if maxLen <= 0 then "" else if StringWidth(rw, path) <= maxLen then path else Truncated(rw, path, maxLen)
  {
    assert Split(path, '/') == [path];
  }

  /** In more than five cells a truncated path keeps the whole last segment whenever an ellipsis, a slash and that
      segment fit, and the whole first one too whenever both do. */
  lemma TruncatePathKeeps(rw: RuneWidth, path: string, maxLen: int)
    requires maxLen > 5 && |Split(path, '/')| >= 2
    ensures StringWidth(rw, OnlyLast(path)) <= maxLen || StringWidth(rw, BothSegments(path)) <= maxLen ==>
      EndsWith(TruncatePath(rw, path, maxLen), "/" + LastSegment(path))
    ensures StringWidth(rw, BothSegments(path)) <= maxLen ==> FirstSegment(path) <= TruncatePath(rw, path, maxLen)
  {
    if StringWidth(rw, path) <= maxLen {
      PathKeeps(path, FirstSegment(path), LastSegment(path));
    } else if StringWidth(rw, BothSegments(path)) <= maxLen {
      BothKeeps(path);
    } else {
      LastKeeps(path);
    }
  }
}
